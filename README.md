# Equipment management: warehouse ledger and equipment lifecycle

This project models the command side of an equipment-management back end.

- **Stock.** A warehouse holds one stock row per equipment type. Imports, exports and adjustments move the stock. Each move is logged in an append-only ledger of warehouse transactions.
- **Lifecycle.** Each piece of equipment passes through:
  - assignments: create, return, edit, delete;
  - maintenance requests: create, assign technician, start, complete, cancel, edit;
  - liquidation requests: create, approve, reject, edit.

  These steps change the equipment's status and, on assignment, return and liquidation, move one unit of stock.
- **Audits.** A batch handler writes audit records.
- **Queries.** Two read handlers list stock rows page by page and a technician's work queue.

Modules:

- `Domain`: the entities, the commands and the handlers' error kinds.
  - Entities are datatypes stored in maps keyed by id.
  - Soft deletion is an `isDeleted` flag.
  - The `Live*` lookups see only rows that are not deleted, as the EF query filters do.
- `Ledger`: the stock step of the create-transaction handler. This is the formula a ledger row obeys, `new = old + signed(recorded)`, plus the handler's 32-bit arithmetic as written.
- `Validators`: the FluentValidation rule sets that the MediatR validation behaviour runs before the handlers. Each yields the names of the failing properties.
- `Lifecycle`: the status machines of maintenance and liquidation requests. Lemmas cover whole sequences of handler calls.
- `Notes`: the tagged notes logs (`[STARTED] ...`, `[REJECTED] ...`) the workflows append to.
- `Queries`: the two LINQ pipelines, with Where, OrderBy and Skip/Take modelled on sequences.
- `Store`: one class whose fields are the tables the unit of work commits. It has one method per command handler.
  - Every handler either fails before changing anything, with the whole state untouched, or makes all its changes.
  - Its postcondition gives the whole new state in terms of the old one and of the model's functions.
  - Every handler keeps the invariant `Valid()`:
    - stock and thresholds never go negative, in the model's unbounded arithmetic (the handlers' Int32 `+=` can wrap, see Findings);
    - at most one live stock row per equipment type;
    - ledger rows name existing stock rows and have increasing ids;
    - each assignment, maintenance request and liquidation request is consistent with its status;
    - every row references equipment that exists.

External inputs:

- `Guid.NewGuid()` is modelled by a counter `nextId` kept above every key in use. Id 0 stands for `Guid.Empty`.
- `DateTime.UtcNow` is a `now` parameter. A DateTime is its Ticks, so 0 is `default(DateTime)`.
- Decimal costs and values are integers.

## Model

| member | source | states |
|---|---|---|
| Domain.ItemOfType | src/libs/EquipmentManagement.Infrastructure/Repositories/WarehouseItemRepository.cs:10-13 | The lookup by equipment type over live rows returns the live row of that type exactly when one exists. Because live types are unique, it is the only candidate. |
| Ledger.ApplyStockChange | src/libs/EquipmentManagement.Application/Features/Warehouses/Commands/CreateTransaction/CreateWarehouseTransactionCommandHandler.cs:22-60 | The new stock always equals the old stock plus the signed recorded quantity. An import or export records the requested amount. An adjustment lands on the requested total. Only a short export ("Quantity") and an undefined type ("Type") are refused. |
| Ledger.StockStaysNonNegative | src/libs/EquipmentManagement.Application/Features/Warehouses/Commands/CreateTransaction/CreateWarehouseTransactionCommandHandler.cs:28-37 | With non-negative stock and a positive amount, no successful step leaves the stock negative. |
| Ledger.AdjustmentRecordsDelta | src/libs/EquipmentManagement.Application/Features/Warehouses/Commands/CreateTransaction/CreateWarehouseTransactionCommandHandler.cs:39-53 | For any current stock and requested total, an adjustment succeeds, lands on the total and records the difference: positive exactly when the total is above the current stock, negative exactly when below, zero when equal. |
| Ledger.ImportRaisesStock | src/libs/EquipmentManagement.Application/Features/Warehouses/Commands/CreateTransaction/CreateWarehouseTransactionCommandHandler.cs:24-26 | An import of a positive amount raises the stock by exactly that amount. |
| Ledger.Wrap32 | src/libs/EquipmentManagement.Application/Features/Warehouses/Commands/CreateTransaction/CreateWarehouseTransactionCommandHandler.cs:25 | Unchecked Int32 arithmetic. The result is in range, is congruent to the exact value modulo 2^32, and equals it whenever the exact value fits. |
| Ledger.ImportAsWrittenAgreesBelowCeiling | src/libs/EquipmentManagement.Application/Features/Warehouses/Commands/CreateTransaction/CreateWarehouseTransactionCommandHandler.cs:25 | Below Int32.MaxValue, the handler's 32-bit import agrees with the unbounded step. |
| Ledger.ImportAsWrittenOverflows | src/libs/EquipmentManagement.Application/Features/Warehouses/Commands/CreateTransaction/CreateWarehouseTransactionCommandHandler.cs:25 | Importing 1 unit into a row holding Int32.MaxValue leaves Int32.MinValue, a negative stock. |
| Validators.TransactionCommandErrors | src/libs/EquipmentManagement.Application/Features/Warehouses/Commands/CreateTransaction/CreateWarehouseTransactionCommandValidator.cs:9-23 | There are no errors exactly when every rule holds. The errors hold exactly the names of the failing rules: "WarehouseItemId" for an empty id, "Type" for an undefined type, "Quantity" for a non-positive quantity, "PerformedBy" for a blank or over-200 performer, "Reason" for a reason over 500. |
| Validators.CompleteMaintenanceErrors | src/libs/EquipmentManagement.Application/Features/Maintenances/Commands/CompleteMaintenance/CompleteMaintenanceCommandValidator.cs:9-26 | There are no errors exactly when every rule holds. Each property is reported exactly when its rule fails: non-empty request id, technician non-blank and at most 100 characters, cost > 0, completion notes at most 1000 characters when given. |
| Validators.CreateItemErrors | src/libs/EquipmentManagement.Application/Features/Warehouses/Commands/CreateWarehouseItem/CreateWarehouseItemCommandValidator.cs:9-20 | There are no errors exactly when the type is non-blank and at most 200 characters, quantity >= 0, threshold >= 0 and notes are at most 500 characters; each property is reported exactly when its rule fails. |
| Validators.UpdateItemErrors | src/libs/EquipmentManagement.Application/Features/Warehouses/Commands/UpdateWarehouseItem/UpdateWarehouseItemCommandValidator.cs:9-23 | No errors exactly when the id is non-empty and the create rules hold. The errors hold exactly "Id" when the id is empty plus the names the create rules report. |
| Validators.Check | src/libs/EquipmentManagement.Application/Features/Warehouses/Commands/CreateTransaction/CreateWarehouseTransactionCommandValidator.cs:9-11 | One rule: no error exactly when it holds, and otherwise exactly its property name. |
| Validators.DeleteItemErrors | src/libs/EquipmentManagement.Application/Features/Warehouses/Commands/DeleteWarehouseItem/DeleteWarehouseItemCommandValidator.cs:9-10 | No errors exactly when the id is non-empty; otherwise just "Id". |
| Validators.ReturnAssignmentErrors | src/libs/EquipmentManagement.Application/Features/Assignments/Commands/ReturnAssignment/ReturnAssignmentCommandValidator.cs:9-22 | No errors exactly when every rule holds. The errors hold exactly the failing names: "AssignmentId" for an empty id, "ReturnedBy" when null, blank or over 100, "ReturnNotes" when over 500. |
| Validators.AssignmentFieldErrors | src/libs/EquipmentManagement.Application/Features/Assignments/Commands/UpdateAssignment/UpdateAssignmentCommandValidator.cs:9-21 | The errors hold exactly "AssignmentId" for an empty id, "AssignedDate" for a date after UtcNow, "Notes" for notes over 500. |
| Validators.AssigneeErrors | src/libs/EquipmentManagement.Application/Features/Assignments/Commands/UpdateAssignment/UpdateAssignmentCommandValidator.cs:23-36 | The errors hold exactly "AssignedToUserId" over 100, "AssignedToDepartment" over 200, and the whole-command name "" when an assignee field is given but both are empty. |
| Validators.UpdateAssignmentErrors | src/libs/EquipmentManagement.Application/Features/Assignments/Commands/UpdateAssignment/UpdateAssignmentCommandValidator.cs:9-36 | No errors exactly when every rule holds; the errors hold exactly the names of the failing rules, "" for the cross-field rule. |
| Validators.DeleteAssignmentErrors | src/libs/EquipmentManagement.Application/Features/Assignments/Commands/DeleteAssignment/DeleteAssignmentCommandValidator.cs:9-11 | No errors exactly when the id is non-empty; otherwise just "AssignmentId". |
| Validators.AssignTechnicianErrors | src/libs/EquipmentManagement.Application/Features/Maintenances/Commands/AssignTechnician/AssignTechnicianCommandValidator.cs:9-22 | No errors exactly when every rule holds; exactly the failing names among "MaintenanceRequestId" (empty), "TechnicianId" (blank or over 100), "AssignmentNotes" (over 500). |
| Validators.StartMaintenanceErrors | src/libs/EquipmentManagement.Application/Features/Maintenances/Commands/StartMaintenance/StartMaintenanceCommandValidator.cs:9-22 | No errors exactly when every rule holds; exactly the failing names among "MaintenanceRequestId" (empty), "TechnicianId" (blank or over 100), "StartNotes" (over 500). |
| Validators.CancelMaintenanceErrors | src/libs/EquipmentManagement.Application/Features/Maintenances/Commands/CancelMaintenance/CancelMaintenanceCommandValidator.cs:9-22 | No errors exactly when every rule holds; exactly the failing names among "MaintenanceRequestId" (empty), "CancellationReason" (blank or over 500), "CancelledBy" (over 100). |
| Validators.UpdateMaintenanceErrors | src/libs/EquipmentManagement.Application/Features/Maintenances/Commands/UpdateMaintenance/UpdateMaintenanceCommandValidator.cs:9-21 | No errors exactly when every rule holds; exactly the failing names among "MaintenanceRequestId" (empty), "Description" (over 500), "Notes" (over 1000). |
| Validators.ApproveLiquidationErrors | src/libs/EquipmentManagement.Application/Features/Liquidations/Commands/ApproveLiquidation/ApproveLiquidationCommandValidator.cs:9-26 | No errors exactly when every rule holds; exactly the failing names among "LiquidationRequestId" (empty), "ApprovedBy" (blank or over 100), "LiquidationValue" (not positive), "ApprovalNotes" (non-blank and over 500). |
| Validators.RejectLiquidationErrors | src/libs/EquipmentManagement.Application/Features/Liquidations/Commands/RejectLiquidation/RejectLiquidationCommandValidator.cs:9-23 | No errors exactly when every rule holds; exactly the failing names among "LiquidationRequestId" (empty), "RejectedBy" (blank or over 100), "RejectionReason" (blank or over 500). |
| Validators.UpdateLiquidationErrors | src/libs/EquipmentManagement.Application/Features/Liquidations/Commands/UpdateLiquidationRequest/UpdateLiquidationRequestCommandValidator.cs:9-21 | No errors exactly when every rule holds; exactly the failing names among "LiquidationRequestId" (empty), "LiquidationValue" (given and not positive), "Note" (non-blank and over 1000). |
| Validators.AuditInputErrors | src/libs/EquipmentManagement.Application/Features/Audits/Commands/BatchCreateAuditRecords/BatchCreateAuditRecordsCommandValidator.cs:13-30 | The child rules of record i: no errors exactly when they hold; exactly the failing names "AuditRecords[i].EquipmentId" (empty), ".CheckDate" (default or more than one day after UtcNow), ".Location" (over 200), ".Note" (over 500); never the list name. |
| Validators.RecordsErrors | src/libs/EquipmentManagement.Application/Features/Audits/Commands/BatchCreateAuditRecords/BatchCreateAuditRecordsCommandValidator.cs:13-30 | No errors exactly when every record passes its child rules. |
| Validators.RecordsErrorsPrefix | src/libs/EquipmentManagement.Application/Features/Audits/Commands/BatchCreateAuditRecords/BatchCreateAuditRecordsCommandValidator.cs:13-30 | The errors of the first k records come first, in record order. |
| Validators.RecordsErrorsReportEach | src/libs/EquipmentManagement.Application/Features/Audits/Commands/BatchCreateAuditRecords/BatchCreateAuditRecordsCommandValidator.cs:13-30 | Every failing child rule of every record is reported. |
| Validators.BatchAuditErrors | src/libs/EquipmentManagement.Application/Features/Audits/Commands/BatchCreateAuditRecords/BatchCreateAuditRecordsCommandValidator.cs:9-30 | No errors exactly when the list has 1 to 1000 records and each passes. "AuditRecords" is reported exactly when the count is out of range; every other error comes from a record. |
| Validators.BatchReportsEachRecord | src/libs/EquipmentManagement.Application/Features/Audits/Commands/BatchCreateAuditRecords/BatchCreateAuditRecordsCommandValidator.cs:13-30 | The batch validator reports every failing child rule of every record. |
| Lifecycle.MaintenanceNext | src/libs/EquipmentManagement.Application/Features/Maintenances/Commands/StartMaintenance/StartMaintenanceCommandHandler.cs:21-27 | Every accepted step moves progress forward or keeps it, and only from an open request. A request becomes Completed exactly by completing an InProgress one. It becomes InProgress exactly by starting a Pending one, or by editing an InProgress one. |
| Lifecycle.ClosedStaysClosed | src/libs/EquipmentManagement.Application/Features/Maintenances/Commands/CancelMaintenance/CancelMaintenanceCommandHandler.cs:21-36 | No sequence of handler calls changes a Completed or Cancelled request. |
| Lifecycle.ProgressNeverDecreases | src/libs/EquipmentManagement.Application/Features/Maintenances/Commands/UpdateMaintenance/UpdateMaintenanceCommandHandler.cs:21-27 | No sequence of handler calls moves a request back to an earlier status. |
| Lifecycle.CompletionFollowsProgress | src/libs/EquipmentManagement.Application/Features/Maintenances/Commands/CompleteMaintenance/CompleteMaintenanceCommandHandler.cs:21-27 | A request that ends up Completed went through a complete call made while it was InProgress. |
| Lifecycle.ProgressFollowsStart | src/libs/EquipmentManagement.Application/Features/Maintenances/Commands/StartMaintenance/StartMaintenanceCommandHandler.cs:21-27 | A Pending request that ends up InProgress went through a start call made while it was Pending. |
| Lifecycle.LiquidationNext | src/libs/EquipmentManagement.Application/Features/Liquidations/Commands/ApproveLiquidation/ApproveLiquidationCommandHandler.cs:18-19 | An approved request accepts no operation. Approval is accepted exactly when the request is not approved. Only an edit of an undecided request leaves it undecided. |
| Lifecycle.DecidedNeverAwaits | src/libs/EquipmentManagement.Application/Features/Liquidations/Commands/UpdateLiquidationRequest/UpdateLiquidationRequestCommandHandler.cs:17-18 | After approval or rejection, no later sequence of calls makes the request editable again. |
| Lifecycle.ApprovalIsFinal | src/libs/EquipmentManagement.Application/Features/Liquidations/Commands/RejectLiquidation/RejectLiquidationCommandHandler.cs:17-18 | An approved request stays approved whatever is called on it. |
| Lifecycle.RejectedCanBeApproved | src/libs/EquipmentManagement.Application/Features/Liquidations/Commands/ApproveLiquidation/ApproveLiquidationCommandHandler.cs:18-19 | The guards as written let a rejected request be approved afterwards. |
| Notes.WorkLog | src/libs/EquipmentManagement.Application/Features/Maintenances/Commands/AssignTechnician/AssignTechnicianCommandHandler.cs:32-37 | With empty text the notes are kept. Otherwise the result is exactly "{tag} {text}" when the old notes were empty, and exactly the old notes, a line break and that entry when they were not. |
| Notes.ReturnLog | src/libs/EquipmentManagement.Application/Features/Assignments/Commands/ReturnAssignment/ReturnAssignmentCommandHandler.cs:47-50 | With empty return notes the notes are kept. Otherwise the result is exactly the old notes, rendered "" when null, a line break and "[RETURN] {notes}". |
| Notes.CancelLog | src/libs/EquipmentManagement.Application/Features/Maintenances/Commands/CancelMaintenance/CancelMaintenanceCommandHandler.cs:39-44 | "[CANCELLED] {reason}" is always added: the result is exactly that entry when the old notes are empty, and exactly the old notes, a line break and the entry otherwise. |
| Notes.DecisionLog | src/libs/EquipmentManagement.Application/Features/Liquidations/Commands/RejectLiquidation/RejectLiquidationCommandHandler.cs:29-31 | A blank old note is replaced by the decision line. A non-blank one is kept: the result is exactly the note, a line break and the line. |
| Notes.ApprovalLine | src/libs/EquipmentManagement.Application/Features/Liquidations/Commands/ApproveLiquidation/ApproveLiquidationCommandHandler.cs:49-60 | The line starts with "[APPROVED]". It is exactly "[APPROVED]" when the approval notes are blank; otherwise the notes follow after a space. |
| Text.AppendLineKeepsHistory | src/libs/EquipmentManagement.Application/Features/Liquidations/Commands/ApproveLiquidation/ApproveLiquidationCommandHandler.cs:49-60 | Appending a line keeps the old log as a prefix, followed by a line break, and ends with the new line. When the log counts as empty, the result is the line alone. |
| Text.ContainsIgnoreCaseIsCaseBlind | src/libs/EquipmentManagement.Application/Features/Warehouses/Queries/GetWarehouseItems/GetWarehouseItemsQueryHandler.cs:22 | The case-blind substring test gives the same answer after upper-casing either argument. |
| Text.OccurrenceIsContained | src/libs/EquipmentManagement.Application/Features/Warehouses/Queries/GetWarehouseItems/GetWarehouseItemsQueryHandler.cs:22 | An exact occurrence of the type filter matches. |
| Text.OrdinalLeTotal | src/libs/EquipmentManagement.Application/Features/Warehouses/Queries/GetWarehouseItems/GetWarehouseItemsQueryHandler.cs:31 | Any two equipment types are ordered one way or the other. |
| Text.OrdinalLeTransitive | src/libs/EquipmentManagement.Application/Features/Warehouses/Queries/GetWarehouseItems/GetWarehouseItemsQueryHandler.cs:31 | The type order is transitive. |
| Queries.Filter | src/libs/EquipmentManagement.Application/Features/Warehouses/Queries/GetWarehouseItems/GetWarehouseItemsQueryHandler.cs:17 | Where keeps exactly the accepted rows, each as many times as the input has it. |
| Queries.Sort | src/libs/EquipmentManagement.Application/Features/Warehouses/Queries/GetWarehouseItems/GetWarehouseItemsQueryHandler.cs:31 | OrderBy returns a permutation of its input. |
| Queries.SortOrders | src/libs/EquipmentManagement.Application/Features/Warehouses/Queries/GetWarehouseItems/GetWarehouseItemsQueryHandler.cs:31 | For any total preorder, the sorted sequence is ordered. |
| Queries.InsertKeepsOrder | src/libs/EquipmentManagement.Application/Features/Warehouses/Queries/GetWarehouseItems/GetWarehouseItemsQueryHandler.cs:31 | Inserting into an ordered sequence keeps it ordered. |
| Queries.Page | src/libs/EquipmentManagement.Application/Features/Warehouses/Queries/GetWarehouseItems/GetWarehouseItemsQueryHandler.cs:34-37 | Skip then Take yields at most `size` rows, all from the input. For non-negative arguments they are exactly rows start, start+1, ... of the input, as many as remain up to `size`. |
| Queries.PageKeepsOrder | src/libs/EquipmentManagement.Application/Features/Warehouses/Queries/GetWarehouseItems/GetWarehouseItemsQueryHandler.cs:34-37 | A page of an ordered sequence is ordered. |
| Queries.ByTypeIsTotalPreorder | src/libs/EquipmentManagement.Application/Features/Warehouses/Queries/GetWarehouseItems/GetWarehouseItemsQueryHandler.cs:31 | Ordering by equipment type is a total preorder. |
| Queries.ListWarehouseItems | src/libs/EquipmentManagement.Application/Features/Warehouses/Queries/GetWarehouseItems/GetWarehouseItemsQueryHandler.cs:14-31 | The listing holds exactly the rows that pass all filters: live; type contains the filter, ignoring case, when one is given; low stock when asked. Each keeps its multiplicity, and the listing is ordered by type. |
| Queries.GetWarehouseItems | src/libs/EquipmentManagement.Application/Features/Warehouses/Queries/GetWarehouseItems/GetWarehouseItemsQueryHandler.cs:11-48 | TotalCount is the size of the listing before paging, and page number and size are echoed. The page holds only listed rows, in type order, at most PageSize of them. Item i of page p is row (p-1)*size+i of the listing. |
| Queries.FarPageWrapsToFirstPage | src/libs/EquipmentManagement.Application/Features/Warehouses/Queries/GetWarehouseItems/GetWarehouseItemsQueryHandler.cs:35 | With page 21474838 and size 100, the 32-bit skip count wraps negative, so the handler as written returns the first row instead of an empty page. |
| Queries.RequestsOfTechnician | src/libs/EquipmentManagement.Application/Features/Maintenances/Queries/GetMaintenancesByTechnician/GetMaintenancesByTechnicianQueryHandler.cs:14 | The fetch holds exactly the technician's live requests, newest first. |
| Queries.MaintenancesByTechnician | src/libs/EquipmentManagement.Application/Features/Maintenances/Queries/GetMaintenancesByTechnician/GetMaintenancesByTechnicianQueryHandler.cs:14-27 | Only the technician's live requests, each with its multiplicity. With ActiveOnly: exactly the Pending or InProgress ones, oldest first. Otherwise: all of them, newest first. |
| Store.Distinct | src/libs/EquipmentManagement.Application/Features/Audits/Commands/BatchCreateAuditRecords/BatchCreateAuditRecordsCommandHandler.cs:46 | Distinct keeps exactly the values of the input, each once. |
| Store.EquipmentIdsOf | src/libs/EquipmentManagement.Application/Features/Audits/Commands/BatchCreateAuditRecords/BatchCreateAuditRecordsCommandHandler.cs:46 | The batch's equipment ids, one per input, in input order. |
| Store.BatchPartition | src/libs/EquipmentManagement.Application/Features/Audits/Commands/BatchCreateAuditRecords/BatchCreateAuditRecordsCommandHandler.cs:59-104 | Every input becomes either a record or an error, so the counts add up. Records come only from inputs with live equipment, errors only from inputs without. |
| Store.IdsFrom | src/libs/EquipmentManagement.Application/Features/Audits/Commands/BatchCreateAuditRecords/BatchCreateAuditRecordsCommandHandler.cs:76 | The ids issued to n new rows in turn are consecutive, starting at `start`. |
| Store.AuditAt | src/libs/EquipmentManagement.Application/Features/Audits/Commands/BatchCreateAuditRecords/BatchCreateAuditRecordsCommandHandler.cs:74-95 | The k-th record of a batch goes under a fresh id and holds the k-th accepted input's fields, with the sync date `now`. |
| Store.AuditsAddedKeeps | src/libs/EquipmentManagement.Application/Features/Audits/Commands/BatchCreateAuditRecords/BatchCreateAuditRecordsCommandHandler.cs:94 | Adding a batch's records keeps every existing record and adds keys only in the fresh range. |
| Store.AuditsAddedShape | src/libs/EquipmentManagement.Application/Features/Audits/Commands/BatchCreateAuditRecords/BatchCreateAuditRecordsCommandHandler.cs:74-95 | The k-th created id was unused and holds the k-th accepted input; every other key of the new table is an old one, whose record is kept. |
| Store.Store.CreateTransaction | src/libs/EquipmentManagement.Application/Features/Warehouses/Commands/CreateTransaction/CreateWarehouseTransactionCommandHandler.cs:12-75 | Validator errors are returned first, then NotFound for a missing or deleted item, then the stock step's refusal; each leaves every table as it was. On success only the item's stock changes, as ApplyStockChange says. One ledger row is appended, holding the recorded quantity, reason, performer and `now`; its id is returned and it reconciles the stock change. |
| Store.Store.CreateWarehouseItem | src/libs/EquipmentManagement.Application/Features/Warehouses/Commands/CreateWarehouseItem/CreateWarehouseItemCommandHandler.cs:11-33 | Validator errors are returned first, then "EquipmentType" when a live row holds the type; a deleted row does not block. Success happens exactly when neither applies. It adds one live row with the given type, quantity, threshold and notes under a fresh id, which is returned, and writes no ledger row. |
| Store.Store.UpdateWarehouseItem | src/libs/EquipmentManagement.Application/Features/Warehouses/Commands/UpdateWarehouseItem/UpdateWarehouseItemCommandHandler.cs:10-43 | Validator errors are returned first, then NotFound for a missing or deleted row. A change to a type another live row holds is refused; keeping the type skips that check. On success only that row changes, to the command's type, quantity, threshold and notes. |
| Store.Store.DeleteWarehouseItem | src/libs/EquipmentManagement.Application/Features/Warehouses/Commands/DeleteWarehouseItem/DeleteWarehouseItemCommandHandler.cs:10-27 | Validator errors first (DeleteItemErrors); then A missing or already deleted row gives NotFound, so a second delete fails. Otherwise only that row's deleted flag is set; stock, type and threshold stay as they were. |
| Store.Store.CreateAssignment | src/libs/EquipmentManagement.Application/Features/Assignments/Commands/CreateAssignment/CreateAssignmentCommandHandler.cs:12-75 | Missing or deleted equipment gives NotFound with no change. Otherwise the equipment becomes InUse and a new Assigned, live assignment with the command's fields is added; its fresh id is returned. When the live stock row of the type holds at least 1, it loses exactly 1 and one Export row of 1 is logged. Otherwise stock and ledger are untouched. |
| Store.Store.ReturnAssignment | src/libs/EquipmentManagement.Application/Features/Assignments/Commands/ReturnAssignment/ReturnAssignmentCommandHandler.cs:11-122 | Validator errors first (ReturnAssignmentErrors); then NotFound for a missing assignment; "Status" for a Returned or Lost one; NotFound for missing equipment. Each leaves everything as it was. On success:<br>- the assignment becomes Returned, dated `now`, with ReturnLog applied to its notes;<br>- the equipment becomes Repairing or New as asked;<br>- one Import row of 1 is logged, either into the live row of the type, which gains 1, or into a new row of quantity 1 and threshold 5. |
| Store.Store.UpdateAssignment | src/libs/EquipmentManagement.Application/Features/Assignments/Commands/UpdateAssignment/UpdateAssignmentCommandHandler.cs:11-55 | Validator errors first (UpdateAssignmentErrors, with `now` as UtcNow); then NotFound for a missing assignment; "Status" when it is not Assigned. On success the assigned date is replaced when given. Notes, assignee and department are replaced only by non-empty values. Status, equipment and every other table are unchanged. |
| Store.Store.DeleteAssignment | src/libs/EquipmentManagement.Application/Features/Assignments/Commands/DeleteAssignment/DeleteAssignmentCommandHandler.cs:11-36 | Validator errors first (DeleteAssignmentErrors); then NotFound for a missing assignment; "Status" for an Assigned one. Otherwise only its deleted flag is set and its status is kept. |
| Store.Store.CreateMaintenance | src/EquipmentManagement.Application/Features/Maintenances/Commands/CreateMaintenanceRequest/CreateMaintenanceRequestCommandHandler.cs:19-44 | Missing or deleted equipment gives NotFound with no change. Otherwise the equipment becomes Repairing and a new Pending, live request dated `now` is added under a fresh id, which is returned. |
| Store.Store.AssignTechnician | src/libs/EquipmentManagement.Application/Features/Maintenances/Commands/AssignTechnician/AssignTechnicianCommandHandler.cs:11-44 | Validator errors first (AssignTechnicianErrors); then NotFound for a missing request; "Status" unless MaintenanceNext accepts it (Pending). On success the technician is overwritten, the notes follow WorkLog with "[ASSIGNED]", and the status is kept. |
| Store.Store.StartMaintenance | src/libs/EquipmentManagement.Application/Features/Maintenances/Commands/StartMaintenance/StartMaintenanceCommandHandler.cs:11-73 | Validator errors first (StartMaintenanceErrors); then NotFound; "Status" unless the request is Pending; "TechnicianId" when none is assigned or the caller is not the assigned one. On success the request becomes InProgress with start date `now` and the notes follow WorkLog with "[STARTED]". Live equipment becomes Repairing; missing equipment is passed over. |
| Store.Store.CompleteMaintenance | src/libs/EquipmentManagement.Application/Features/Maintenances/Commands/CompleteMaintenance/CompleteMaintenanceCommandHandler.cs:11-67 | Validator errors first; then NotFound; "Status" unless InProgress; "TechnicianId" on a mismatch. On success the request becomes Completed, with end date `now` and the command's cost, and its notes follow WorkLog with "[COMPLETED]". Live equipment becomes Repairing when it still needs maintenance, else New. |
| Store.Store.CancelMaintenance | src/libs/EquipmentManagement.Application/Features/Maintenances/Commands/CancelMaintenance/CancelMaintenanceCommandHandler.cs:11-58 | Validator errors first (CancelMaintenanceErrors); then NotFound; "Status" for a Completed or Cancelled request. Otherwise it becomes Cancelled with CancelLog applied to its notes. Live equipment that is Repairing goes back to New; equipment in any other status is untouched. |
| Store.Store.UpdateMaintenance | src/libs/EquipmentManagement.Application/Features/Maintenances/Commands/UpdateMaintenance/UpdateMaintenanceCommandHandler.cs:11-45 | Validator errors first (UpdateMaintenanceErrors); then NotFound; "Status" for a closed request. Otherwise description and notes are replaced, not appended to, by non-empty values only. Status, technician and equipment are unchanged. |
| Store.Store.CreateLiquidation | src/EquipmentManagement.Application/Features/Liquidations/Commands/CreateLiquidationRequest/CreateLiquidationRequestCommandHandler.cs:18-38 | Missing or deleted equipment gives NotFound. Otherwise one undecided, live request dated `now` is added under a fresh id, which is returned. The equipment is not touched. |
| Store.Store.ExportOneUnit | src/libs/EquipmentManagement.Application/Features/Liquidations/Commands/ApproveLiquidation/ApproveLiquidationCommandHandler.cs:66-86 | When the live row of the type holds at least one unit, it loses exactly 1 and one Export row of 1 is logged. Otherwise nothing changes. |
| Store.Store.ApproveLiquidation | src/libs/EquipmentManagement.Application/Features/Liquidations/Commands/ApproveLiquidation/ApproveLiquidationCommandHandler.cs:10-91 | Validator errors first (ApproveLiquidationErrors). Checks, in order, each leaving everything as it was:<br>- KeyNotFound for a missing request;<br>- InvalidOperation when it is already approved (a rejected one passes);<br>- KeyNotFound for missing equipment;<br>- InvalidOperation when the equipment has an Assigned assignment;<br>- InvalidOperation when it has a Pending or InProgress maintenance request.<br>On success the request is approved, with approver, date `now`, the command's value and the approval line logged; the equipment becomes Liquidated; ExportOneUnit runs on its type. |
| Store.Store.RejectLiquidation | src/libs/EquipmentManagement.Application/Features/Liquidations/Commands/RejectLiquidation/RejectLiquidationCommandHandler.cs:9-36 | Validator errors first (RejectLiquidationErrors); then KeyNotFound for a missing request; InvalidOperation for an approved one. On success IsApproved stays false, ApprovedBy is the rejecter, ApprovedDate is `now`, and the reason is logged via DecisionLog. Equipment and warehouse are untouched. |
| Store.Store.UpdateLiquidation | src/libs/EquipmentManagement.Application/Features/Liquidations/Commands/UpdateLiquidationRequest/UpdateLiquidationRequestCommandHandler.cs:9-34 | Validator errors first (UpdateLiquidationErrors); then KeyNotFound for a missing request; InvalidOperation once it is approved or rejected. On success the value is replaced when given and the note only by a non-blank one. |
| Store.Store.LookupEquipments | src/libs/EquipmentManagement.Application/Features/Audits/Commands/BatchCreateAuditRecords/BatchCreateAuditRecordsCommandHandler.cs:46-56 | Each distinct id is looked up once. The dictionary holds exactly the ids of the batch whose equipment is live, mapped to that equipment. |
| Store.Store.RecordAudit | src/libs/EquipmentManagement.Application/Features/Audits/Commands/BatchCreateAuditRecords/BatchCreateAuditRecordsCommandHandler.cs:63-96 | For found equipment: one record under a fresh id, whose id is appended to CreatedIds, with SuccessCount + 1. Otherwise: one error, FailureCount + 1, and no record. |
| Store.Store.RecordAudits | src/libs/EquipmentManagement.Application/Features/Audits/Commands/BatchCreateAuditRecords/BatchCreateAuditRecordsCommandHandler.cs:59-104 | After the loop, the result counts the accepted inputs and the errors. The created ids are consecutive fresh ids, and the audit table is the old one plus one record per accepted input, in input order. |
| Store.Store.BatchCreateAuditRecords | src/libs/EquipmentManagement.Application/Features/Audits/Commands/BatchCreateAuditRecords/BatchCreateAuditRecordsCommandHandler.cs:38-116 | A batch the validator refuses gives Validation(BatchAuditErrors) and changes nothing; the handler succeeds exactly when the validator accepts. On success: TotalRecords is the input count, and SuccessCount + FailureCount = TotalRecords. CreatedIds has SuccessCount fresh ids. The errors are one per input whose equipment is missing, in input order. Record k holds the k-th accepted input. Old records are kept, and no other key is added. A batch with no success leaves the audit table as it was. |

## Left out

- Controllers, middleware, caching, logging and the HTTP layer are not part of this model. The same goes for QR codes, the equipment create/update/delete handlers and the pass-through query handlers.
- The older duplicate create-transaction and create-assignment handlers under `src/EquipmentManagement.Application` are not modelled; the `src/libs` versions are.
- Every command validator of the modelled handlers is modelled. The query validators are not: their bounds are used only to choose the input of the paging finding. The update-audit-record validator belongs to a handler outside this model.
- Validators.AuditInputErrors: the IsInEnum rule on Result (Audits/Commands/BatchCreateAuditRecords/BatchCreateAuditRecordsCommandValidator.cs:22-23) is not modelled, because the AuditResult enumeration is not part of this model. The NotEmpty rule on CheckDate is modelled as ticks other than 0.
- The validation pipeline behaviour is modelled by running the validator at the start of the store method. The web host calls `AddApplication()` at src/presentations/EquipmentManagement.WebAPI/Program.cs:128. The registration of the behaviour inside it is shown at src/EquipmentManagement.Application/DependencyInjection.cs:18; the src/libs counterpart is not part of this model and is taken to register the same behaviour.
- Repository lookups are modelled as map lookups that see only live rows; the EF configurations filter deleted rows globally. Transactions, rollback and SaveChanges are folded into "all changes or none".
- CreatedAt and UpdatedAt stamps, DateTime kinds and time zones are not modelled. Dates are DateTime ticks, and DateTime.UtcNow is a `now` parameter.
- Guid.NewGuid() is a counter. Uniqueness of the issued ids is all the model relies on.
- Decimal cost and liquidation values are unbounded integers.
- The database's unique index on WarehouseItem.EquipmentType also covers deleted rows. The model checks uniqueness only among live rows, as the handlers do. It does not model the SaveChanges failure the index would cause after a type was soft-deleted and created again.
- Store.Store.BatchCreateAuditRecords: the per-record catch path (an exception while adding a record) cannot arise in the model. The equipment's UpdatedAt stamp and the log lines for a non-blank location are not modelled.
- Store.Store.CreateWarehouseItem: creating or editing a stock row writes no ledger row, so not every stock change is logged.
- Store.Store.CreateWarehouseItem: the validator allows an equipment type of up to 200 characters, but the column is limited to 100 (src/EquipmentManagement.Infrastructure/Persistence/Configurations/WarehouseItemConfiguration.cs:15-17). The database failure for 101 to 200 characters is not modelled; the same holds for Store.Store.UpdateWarehouseItem.
- Store.Store.RejectLiquidation: reject refuses only an approved request; a rejected one can still be approved (Lifecycle.RejectedCanBeApproved).
- Queries.Sort: only the permutation and the order are proved. OrderBy's stability is not stated.
- Queries.ByType: OrderBy on strings uses the culture-sensitive default comparer; the model orders by code point.
- Text.ContainsIgnoreCase: OrdinalIgnoreCase is modelled as simple ASCII upper-casing. Non-ASCII case pairs are not folded.
- Validators.TransactionCommandErrors: string lengths count Dafny characters, not .NET UTF-16 code units.
- AuditResult is an abstract enumeration; its values play no part in any handler.

## Findings

| source | as written | input that shows it | evidently intended | confidence | as-written member | corrected member |
|---|---|---|---|---|---|---|
| src/libs/EquipmentManagement.Application/Features/Warehouses/Commands/CreateTransaction/CreateWarehouseTransactionCommandHandler.cs:25 | `Quantity += request.Quantity` on Int32 in an unchecked context wraps around | an item holding 2147483647 and an import of 1: the stock becomes -2147483648 | an import raises the stock by the amount, and the stock never goes negative | not executed | Ledger.ImportAsWrittenOverflows | Ledger.ImportRaisesStock |
| src/libs/EquipmentManagement.Application/Features/Assignments/Commands/ReturnAssignment/ReturnAssignmentCommandHandler.cs:66 | `warehouseItem.Quantity += 1` on Int32 in an unchecked context wraps around, the same step as the import above | a stock row holding 2147483647 when an assignment of its type is returned: the stock becomes -2147483648 | a return raises the stock by one | not executed | Ledger.ImportAsWrittenOverflows | Store.Store.ReturnAssignment |
| src/libs/EquipmentManagement.Application/Features/Warehouses/Queries/GetWarehouseItems/GetWarehouseItemsQueryHandler.cs:35 | `(PageNumber - 1) * PageSize` on Int32 wraps. Skip of a negative count skips nothing. | PageNumber 21474838 and PageSize 100, both accepted by the query validator: the skip count is -2147483596, so the first page is returned | a page past the end is empty | not executed | Queries.FarPageWrapsToFirstPage | Queries.GetWarehouseItems |
