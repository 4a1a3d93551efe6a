/**
 * The FluentValidation rule sets that the validation pipeline behaviour runs before a handler.
 * Each validator yields the names of the failing properties, in rule order; an empty list
 * lets the command through.
 */
module Validators {
  import opened Wrappers
  import opened Text
  import opened Domain

  /** NotEmpty on a string: not null, not empty and not only white space. */
  predicate Present(s: string) {
    !IsBlank(s)
  }

  /** MaximumLength: a null value passes. */
  predicate WithinLength(s: Option<string>, max: nat) {
    s.None? || |s.value| <= max
  }

  /** NotEmpty on a Guid: anything but Guid.Empty. */
  predicate PresentId(id: Id) {
    id != 0
  }

  /** The property name `field` when its rule fails, nothing otherwise. */
  function Check(ok: bool, field: string): (r: seq<string>)
    ensures r == [] <==> ok
    ensures forall x :: x in r <==> !ok && x == field
  {
    if ok then [] else [field]
  }

  // ------------------------------------------------ create warehouse transaction

  /** Every rule of the create-transaction validator holds. */
  predicate TransactionCommandAccepted(c: TransactionCommand) {
    && PresentId(c.warehouseItemId)
    && !c.txType.Undefined?
    && c.quantity > 0
    && Present(c.performedBy) && |c.performedBy| <= 200
    && WithinLength(c.reason, 500)
  }

  function TransactionCommandErrors(c: TransactionCommand): (errs: seq<string>)
    ensures errs == [] <==> TransactionCommandAccepted(c)
    ensures forall x :: x in errs <==>
      || (x == "WarehouseItemId" && c.warehouseItemId == 0)
      || (x == "Type" && c.txType.Undefined?)
      || (x == "Quantity" && c.quantity <= 0)
      || (x == "PerformedBy" && (IsBlank(c.performedBy) || |c.performedBy| > 200))
      || (x == "Reason" && (c.reason.Some? && |c.reason.value| > 500))
  {
    Check(PresentId(c.warehouseItemId), "WarehouseItemId")
    + Check(!c.txType.Undefined?, "Type")
    + Check(c.quantity > 0, "Quantity")
    + Check(Present(c.performedBy) && |c.performedBy| <= 200, "PerformedBy")
    + Check(WithinLength(c.reason, 500), "Reason")
  }

  // ------------------------------------------------ complete maintenance

  predicate CompleteMaintenanceAccepted(c: CompleteMaintenanceCommand) {
    && PresentId(c.maintenanceRequestId)
    && Present(c.technicianId) && |c.technicianId| <= 100
    && c.cost > 0
    && (IsNullOrEmpty(c.completionNotes) || |c.completionNotes.value| <= 1000)
  }

  function CompleteMaintenanceErrors(c: CompleteMaintenanceCommand): (errs: seq<string>)
    ensures errs == [] <==> CompleteMaintenanceAccepted(c)
    ensures forall x :: x in errs <==>
      || (x == "MaintenanceRequestId" && c.maintenanceRequestId == 0)
      || (x == "TechnicianId" && (IsBlank(c.technicianId) || |c.technicianId| > 100))
      || (x == "Cost" && c.cost <= 0)
      || (x == "CompletionNotes" && (c.completionNotes.Some? && |c.completionNotes.value| > 1000))
  {
    Check(PresentId(c.maintenanceRequestId), "MaintenanceRequestId")
    + Check(Present(c.technicianId) && |c.technicianId| <= 100, "TechnicianId")
    + Check(c.cost > 0, "Cost")
    + Check(IsNullOrEmpty(c.completionNotes) || |c.completionNotes.value| <= 1000, "CompletionNotes")
  }

  // ------------------------------------------------ create / update warehouse item

  predicate ItemFieldsAccepted(f: WarehouseItemFields) {
    && Present(f.equipmentType) && |f.equipmentType| <= 200
    && f.quantity >= 0
    && f.minThreshold >= 0
    && WithinLength(f.notes, 500)
  }

  /** The create-item validator; the update-item validator repeats these rules. */
  function CreateItemErrors(f: WarehouseItemFields): (errs: seq<string>)
    ensures errs == [] <==> ItemFieldsAccepted(f)
    ensures forall x :: x in errs <==>
      || (x == "EquipmentType" && (IsBlank(f.equipmentType) || |f.equipmentType| > 200))
      || (x == "Quantity" && f.quantity < 0)
      || (x == "MinThreshold" && f.minThreshold < 0)
      || (x == "Notes" && (f.notes.Some? && |f.notes.value| > 500))
    ensures "Id" !in errs
  {
    Check(Present(f.equipmentType) && |f.equipmentType| <= 200, "EquipmentType")
    + Check(f.quantity >= 0, "Quantity")
    + Check(f.minThreshold >= 0, "MinThreshold")
    + Check(WithinLength(f.notes, 500), "Notes")
  }

  /** The update-item validator: the same rules after a non-empty Id. */
  function UpdateItemErrors(id: Id, f: WarehouseItemFields): (errs: seq<string>)
    ensures errs == [] <==> PresentId(id) && ItemFieldsAccepted(f)
    ensures forall x :: x in errs <==> (x == "Id" && id == 0) || x in CreateItemErrors(f)
  {
    Check(PresentId(id), "Id") + CreateItemErrors(f)
  }

  /** The delete-item validator. */
  function DeleteItemErrors(id: Id): (errs: seq<string>)
    ensures errs == [] <==> PresentId(id)
    ensures errs != [] ==> errs == ["Id"]
  {
    Check(PresentId(id), "Id")
  }

  /** A rule that applies only When the value is not null or empty, here a length limit. */
  predicate LimitUnlessEmpty(s: Option<string>, max: nat) {
    IsNullOrEmpty(s) || |s.value| <= max
  }

  /** A length limit that applies only When the value is not null or white space. */
  predicate LimitUnlessBlank(s: Option<string>, max: nat) {
    IsNullOrWhiteSpace(s) || |s.value| <= max
  }

  // ------------------------------------------------ assignments

  predicate ReturnAssignmentAccepted(c: ReturnAssignmentCommand) {
    && PresentId(c.assignmentId)
    && c.returnedBy.Some? && Present(c.returnedBy.value) && |c.returnedBy.value| <= 100
    && LimitUnlessEmpty(c.returnNotes, 500)
  }

  function ReturnAssignmentErrors(c: ReturnAssignmentCommand): (errs: seq<string>)
    ensures errs == [] <==> ReturnAssignmentAccepted(c)
    ensures forall x :: x in errs <==>
      || (x == "AssignmentId" && c.assignmentId == 0)
      || (x == "ReturnedBy" && (c.returnedBy.None? || IsBlank(c.returnedBy.value) || |c.returnedBy.value| > 100))
      || (x == "ReturnNotes" && (c.returnNotes.Some? && |c.returnNotes.value| > 500))
  {
    Check(PresentId(c.assignmentId), "AssignmentId")
    + Check(c.returnedBy.Some? && Present(c.returnedBy.value) && |c.returnedBy.value| <= 100, "ReturnedBy")
    + Check(LimitUnlessEmpty(c.returnNotes, 500), "ReturnNotes")
  }

  /**
   * The cross-field rule of the update-assignment validator: once either assignee field is
   * given at all, one of them must be given non-empty.
   */
  predicate AssigneeRuleHolds(c: UpdateAssignmentCommand) {
    (c.assignedToUserId.None? && c.assignedToDepartment.None?)
    || !IsNullOrEmpty(c.assignedToUserId) || !IsNullOrEmpty(c.assignedToDepartment)
  }

  predicate UpdateAssignmentAccepted(c: UpdateAssignmentCommand, now: Time) {
    && PresentId(c.assignmentId)
    && (c.assignedDate.None? || c.assignedDate.value <= now)
    && LimitUnlessEmpty(c.notes, 500)
    && LimitUnlessEmpty(c.assignedToUserId, 100)
    && LimitUnlessEmpty(c.assignedToDepartment, 200)
    && AssigneeRuleHolds(c)
  }

  /** The first single-property rules of the update-assignment validator; `now` is DateTime.UtcNow. */
  function AssignmentFieldErrors(c: UpdateAssignmentCommand, now: Time): (errs: seq<string>)
    ensures forall x :: x in errs <==>
      || (x == "AssignmentId" && c.assignmentId == 0)
      || (x == "AssignedDate" && (c.assignedDate.Some? && c.assignedDate.value > now))
      || (x == "Notes" && (c.notes.Some? && |c.notes.value| > 500))
  {
    Check(PresentId(c.assignmentId), "AssignmentId")
    + Check(c.assignedDate.None? || c.assignedDate.value <= now, "AssignedDate")
    + Check(LimitUnlessEmpty(c.notes, 500), "Notes")
  }

  /** The assignee rules of the update-assignment validator; the whole-command one reports "". */
  function AssigneeErrors(c: UpdateAssignmentCommand): (errs: seq<string>)
    ensures forall x :: x in errs <==>
      || (x == "AssignedToUserId" && (c.assignedToUserId.Some? && |c.assignedToUserId.value| > 100))
      || (x == "AssignedToDepartment" && (c.assignedToDepartment.Some? && |c.assignedToDepartment.value| > 200))
      || (x == "" && !AssigneeRuleHolds(c))
  {
    Check(LimitUnlessEmpty(c.assignedToUserId, 100), "AssignedToUserId")
    + Check(LimitUnlessEmpty(c.assignedToDepartment, 200), "AssignedToDepartment")
    + Check(AssigneeRuleHolds(c), "")
  }

  /** The update-assignment validator; the whole-command rule reports the empty property name. */
  function UpdateAssignmentErrors(c: UpdateAssignmentCommand, now: Time): (errs: seq<string>)
    ensures errs == [] <==> UpdateAssignmentAccepted(c, now)
    ensures forall x :: x in errs <==>
      || (x == "AssignmentId" && c.assignmentId == 0)
      || (x == "AssignedDate" && (c.assignedDate.Some? && c.assignedDate.value > now))
      || (x == "Notes" && (c.notes.Some? && |c.notes.value| > 500))
      || (x == "AssignedToUserId" && (c.assignedToUserId.Some? && |c.assignedToUserId.value| > 100))
      || (x == "AssignedToDepartment" && (c.assignedToDepartment.Some? && |c.assignedToDepartment.value| > 200))
      || (x == "" && ((c.assignedToUserId.Some? || c.assignedToDepartment.Some?) && IsNullOrEmpty(c.assignedToUserId) && IsNullOrEmpty(c.assignedToDepartment)))
  {
    AssignmentFieldErrors(c, now) + AssigneeErrors(c)
  }

  /** The delete-assignment validator. */
  function DeleteAssignmentErrors(id: Id): (errs: seq<string>)
    ensures errs == [] <==> PresentId(id)
    ensures errs != [] ==> errs == ["AssignmentId"]
  {
    Check(PresentId(id), "AssignmentId")
  }

  // ------------------------------------------------ maintenance requests

  predicate AssignTechnicianAccepted(c: AssignTechnicianCommand) {
    && PresentId(c.maintenanceRequestId)
    && Present(c.technicianId) && |c.technicianId| <= 100
    && LimitUnlessEmpty(c.assignmentNotes, 500)
  }

  function AssignTechnicianErrors(c: AssignTechnicianCommand): (errs: seq<string>)
    ensures errs == [] <==> AssignTechnicianAccepted(c)
    ensures forall x :: x in errs <==>
      || (x == "MaintenanceRequestId" && c.maintenanceRequestId == 0)
      || (x == "TechnicianId" && (IsBlank(c.technicianId) || |c.technicianId| > 100))
      || (x == "AssignmentNotes" && (c.assignmentNotes.Some? && |c.assignmentNotes.value| > 500))
  {
    Check(PresentId(c.maintenanceRequestId), "MaintenanceRequestId")
    + Check(Present(c.technicianId) && |c.technicianId| <= 100, "TechnicianId")
    + Check(LimitUnlessEmpty(c.assignmentNotes, 500), "AssignmentNotes")
  }

  predicate StartMaintenanceAccepted(c: StartMaintenanceCommand) {
    && PresentId(c.maintenanceRequestId)
    && Present(c.technicianId) && |c.technicianId| <= 100
    && LimitUnlessEmpty(c.startNotes, 500)
  }

  function StartMaintenanceErrors(c: StartMaintenanceCommand): (errs: seq<string>)
    ensures errs == [] <==> StartMaintenanceAccepted(c)
    ensures forall x :: x in errs <==>
      || (x == "MaintenanceRequestId" && c.maintenanceRequestId == 0)
      || (x == "TechnicianId" && (IsBlank(c.technicianId) || |c.technicianId| > 100))
      || (x == "StartNotes" && (c.startNotes.Some? && |c.startNotes.value| > 500))
  {
    Check(PresentId(c.maintenanceRequestId), "MaintenanceRequestId")
    + Check(Present(c.technicianId) && |c.technicianId| <= 100, "TechnicianId")
    + Check(LimitUnlessEmpty(c.startNotes, 500), "StartNotes")
  }

  predicate CancelMaintenanceAccepted(c: CancelMaintenanceCommand) {
    && PresentId(c.maintenanceRequestId)
    && Present(c.cancellationReason) && |c.cancellationReason| <= 500
    && LimitUnlessEmpty(c.cancelledBy, 100)
  }

  function CancelMaintenanceErrors(c: CancelMaintenanceCommand): (errs: seq<string>)
    ensures errs == [] <==> CancelMaintenanceAccepted(c)
    ensures forall x :: x in errs <==>
      || (x == "MaintenanceRequestId" && c.maintenanceRequestId == 0)
      || (x == "CancellationReason" && (IsBlank(c.cancellationReason) || |c.cancellationReason| > 500))
      || (x == "CancelledBy" && (c.cancelledBy.Some? && |c.cancelledBy.value| > 100))
  {
    Check(PresentId(c.maintenanceRequestId), "MaintenanceRequestId")
    + Check(Present(c.cancellationReason) && |c.cancellationReason| <= 500, "CancellationReason")
    + Check(LimitUnlessEmpty(c.cancelledBy, 100), "CancelledBy")
  }

  predicate UpdateMaintenanceAccepted(c: UpdateMaintenanceCommand) {
    && PresentId(c.maintenanceRequestId)
    && LimitUnlessEmpty(c.description, 500)
    && LimitUnlessEmpty(c.notes, 1000)
  }

  function UpdateMaintenanceErrors(c: UpdateMaintenanceCommand): (errs: seq<string>)
    ensures errs == [] <==> UpdateMaintenanceAccepted(c)
    ensures forall x :: x in errs <==>
      || (x == "MaintenanceRequestId" && c.maintenanceRequestId == 0)
      || (x == "Description" && (c.description.Some? && |c.description.value| > 500))
      || (x == "Notes" && (c.notes.Some? && |c.notes.value| > 1000))
  {
    Check(PresentId(c.maintenanceRequestId), "MaintenanceRequestId")
    + Check(LimitUnlessEmpty(c.description, 500), "Description")
    + Check(LimitUnlessEmpty(c.notes, 1000), "Notes")
  }

  // ------------------------------------------------ liquidation requests

  predicate ApproveLiquidationAccepted(c: ApproveLiquidationCommand) {
    && PresentId(c.liquidationRequestId)
    && Present(c.approvedBy) && |c.approvedBy| <= 100
    && c.liquidationValue > 0
    && LimitUnlessBlank(c.approvalNotes, 500)
  }

  function ApproveLiquidationErrors(c: ApproveLiquidationCommand): (errs: seq<string>)
    ensures errs == [] <==> ApproveLiquidationAccepted(c)
    ensures forall x :: x in errs <==>
      || (x == "LiquidationRequestId" && c.liquidationRequestId == 0)
      || (x == "ApprovedBy" && (IsBlank(c.approvedBy) || |c.approvedBy| > 100))
      || (x == "LiquidationValue" && c.liquidationValue <= 0)
      || (x == "ApprovalNotes" && (c.approvalNotes.Some? && !IsBlank(c.approvalNotes.value) && |c.approvalNotes.value| > 500))
  {
    Check(PresentId(c.liquidationRequestId), "LiquidationRequestId")
    + Check(Present(c.approvedBy) && |c.approvedBy| <= 100, "ApprovedBy")
    + Check(c.liquidationValue > 0, "LiquidationValue")
    + Check(LimitUnlessBlank(c.approvalNotes, 500), "ApprovalNotes")
  }

  predicate RejectLiquidationAccepted(c: RejectLiquidationCommand) {
    && PresentId(c.liquidationRequestId)
    && Present(c.rejectedBy) && |c.rejectedBy| <= 100
    && Present(c.rejectionReason) && |c.rejectionReason| <= 500
  }

  function RejectLiquidationErrors(c: RejectLiquidationCommand): (errs: seq<string>)
    ensures errs == [] <==> RejectLiquidationAccepted(c)
    ensures forall x :: x in errs <==>
      || (x == "LiquidationRequestId" && c.liquidationRequestId == 0)
      || (x == "RejectedBy" && (IsBlank(c.rejectedBy) || |c.rejectedBy| > 100))
      || (x == "RejectionReason" && (IsBlank(c.rejectionReason) || |c.rejectionReason| > 500))
  {
    Check(PresentId(c.liquidationRequestId), "LiquidationRequestId")
    + Check(Present(c.rejectedBy) && |c.rejectedBy| <= 100, "RejectedBy")
    + Check(Present(c.rejectionReason) && |c.rejectionReason| <= 500, "RejectionReason")
  }

  predicate UpdateLiquidationAccepted(c: UpdateLiquidationCommand) {
    && PresentId(c.liquidationRequestId)
    && (c.liquidationValue.None? || c.liquidationValue.value > 0)
    && LimitUnlessBlank(c.note, 1000)
  }

  function UpdateLiquidationErrors(c: UpdateLiquidationCommand): (errs: seq<string>)
    ensures errs == [] <==> UpdateLiquidationAccepted(c)
    ensures forall x :: x in errs <==>
      || (x == "LiquidationRequestId" && c.liquidationRequestId == 0)
      || (x == "LiquidationValue" && (c.liquidationValue.Some? && c.liquidationValue.value <= 0))
      || (x == "Note" && (c.note.Some? && !IsBlank(c.note.value) && |c.note.value| > 1000))
  {
    Check(PresentId(c.liquidationRequestId), "LiquidationRequestId")
    + Check(c.liquidationValue.None? || c.liquidationValue.value > 0, "LiquidationValue")
    + Check(LimitUnlessBlank(c.note, 1000), "Note")
  }

  // ------------------------------------------------ batch audit

  /** DateTime.AddDays(1), in ticks of 100 nanoseconds. */
  const TicksPerDay: int := 864_000_000_000

  /** The decimal digits of `n`, most significant first. */
  function Decimal(n: nat): string
    decreases n
  {
    (if n < 10 then "" else Decimal(n / 10)) + ["0123456789"[n % 10]]
  }

  /** The name a child rule reports for property `field` of the `i`th record. */
  function ElementField(i: nat, field: string): string {
    "AuditRecords[" + Decimal(i) + "]." + field
  }

  /** Every child rule holds of one record; 0 ticks is default(DateTime). */
  predicate AuditInputAccepted(a: AuditInput, now: Time) {
    && PresentId(a.equipmentId)
    && a.checkDate != 0 && a.checkDate <= now + TicksPerDay
    && WithinLength(a.location, 200)
    && WithinLength(a.note, 500)
  }

  /** The child rules applied to the record at index `i`, as the validator names them. */
  function AuditInputErrors(i: nat, a: AuditInput, now: Time): (errs: seq<string>)
    ensures errs == [] <==> AuditInputAccepted(a, now)
    ensures "AuditRecords" !in errs
    ensures forall x :: x in errs <==>
      || (x == ElementField(i, "EquipmentId") && a.equipmentId == 0)
      || (x == ElementField(i, "CheckDate") && (a.checkDate == 0 || a.checkDate > now + TicksPerDay))
      || (x == ElementField(i, "Location") && (a.location.Some? && |a.location.value| > 200))
      || (x == ElementField(i, "Note") && (a.note.Some? && |a.note.value| > 500))
  {
    Check(PresentId(a.equipmentId), ElementField(i, "EquipmentId"))
    + Check(a.checkDate != 0 && a.checkDate <= now + TicksPerDay, ElementField(i, "CheckDate"))
    + Check(WithinLength(a.location, 200), ElementField(i, "Location"))
    + Check(WithinLength(a.note, 500), ElementField(i, "Note"))
  }

  /** Every record of the batch passes its child rules. */
  predicate RecordsAccepted(inputs: seq<AuditInput>, now: Time) {
    forall i :: 0 <= i < |inputs| ==> AuditInputAccepted(inputs[i], now)
  }

  /** RuleForEach: the child rules of every record, in record order. */
  function RecordsErrors(inputs: seq<AuditInput>, now: Time): (errs: seq<string>)
    ensures errs == [] <==> RecordsAccepted(inputs, now)
    ensures "AuditRecords" !in errs
    decreases |inputs|
  {
    if inputs == [] then []
    else
      var n := |inputs| - 1;
      var front := inputs[..n];
      assert forall i :: 0 <= i < n ==> inputs[i] == front[i];
      RecordsErrors(front, now) + AuditInputErrors(n, inputs[n], now)
  }

  /** The errors of the first `k` records come first, as they are checked first. */
  lemma {:induction false} RecordsErrorsPrefix(inputs: seq<AuditInput>, now: Time, k: nat)
    requires k <= |inputs|
    ensures RecordsErrors(inputs[..k], now) <= RecordsErrors(inputs, now)
    decreases |inputs|
  {
    if k == |inputs| {
      assert inputs[..k] == inputs;
    } else {
      var n := |inputs| - 1;
      assert inputs[..n][..k] == inputs[..k];
      RecordsErrorsPrefix(inputs[..n], now, k);
      RecordsErrorsExtend(inputs, now);
      PrefixTransitive(RecordsErrors(inputs[..k], now), RecordsErrors(inputs[..n], now), RecordsErrors(inputs, now));
    }
  }

  /** Dropping the last record drops only the errors it reported. */
  lemma RecordsErrorsExtend(inputs: seq<AuditInput>, now: Time)
    requires inputs != []
    ensures RecordsErrors(inputs[..|inputs| - 1], now) <= RecordsErrors(inputs, now)
  {
    var n := |inputs| - 1;
    var front := RecordsErrors(inputs[..n], now);
    var whole := RecordsErrors(inputs, now);
    assert whole == front + AuditInputErrors(n, inputs[n], now);
    assert whole[..|front|] == front;
  }

  lemma PrefixTransitive<T>(a: seq<T>, b: seq<T>, c: seq<T>)
    requires a <= b && b <= c
    ensures a <= c
  {
    assert c[..|a|] == b[..|a|];
  }

  /** The first `i + 1` records report the errors of the first `i`, then those of record `i`. */
  lemma RecordsErrorsStep(inputs: seq<AuditInput>, now: Time, i: nat)
    requires i < |inputs|
    ensures RecordsErrors(inputs[..i + 1], now) == RecordsErrors(inputs[..i], now) + AuditInputErrors(i, inputs[i], now)
  {
    var upTo := inputs[..i + 1];
    assert upTo[..i] == inputs[..i] && upTo[i] == inputs[i];
  }

  lemma InPrefix<T>(s: seq<T>, t: seq<T>, x: T)
    requires s <= t && x in s
    ensures x in t
  {
    var j :| 0 <= j < |s| && s[j] == x;
    assert t[j] == x;
  }

  /** Every failing child rule of every record is reported. */
  lemma RecordsErrorsReportEach(inputs: seq<AuditInput>, now: Time, i: nat, e: string)
    requires i < |inputs| && e in AuditInputErrors(i, inputs[i], now)
    ensures e in RecordsErrors(inputs, now)
  {
    RecordsErrorsStep(inputs, now, i);
    RecordsErrorsPrefix(inputs, now, i + 1);
    InPrefix(RecordsErrors(inputs[..i + 1], now), RecordsErrors(inputs, now), e);
  }

  predicate BatchAccepted(inputs: seq<AuditInput>, now: Time) {
    && 0 < |inputs| <= 1000
    && RecordsAccepted(inputs, now)
  }

  /** The batch validator: the list rule, then the child rules of each record. */
  function BatchAuditErrors(inputs: seq<AuditInput>, now: Time): (errs: seq<string>)
    ensures errs == [] <==> BatchAccepted(inputs, now)
    ensures "AuditRecords" in errs <==> (|inputs| == 0 || |inputs| > 1000)
    ensures forall x :: x in errs <==> (x == "AuditRecords" && (|inputs| == 0 || |inputs| > 1000)) || x in RecordsErrors(inputs, now)
  {
    Check(0 < |inputs| <= 1000, "AuditRecords") + RecordsErrors(inputs, now)
  }

  /** The batch validator reports every failing child rule of every record. */
  lemma BatchReportsEachRecord(inputs: seq<AuditInput>, now: Time, i: nat, e: string)
    requires i < |inputs| && e in AuditInputErrors(i, inputs[i], now)
    ensures e in BatchAuditErrors(inputs, now)
  {
    RecordsErrorsReportEach(inputs, now, i, e);
  }
}
