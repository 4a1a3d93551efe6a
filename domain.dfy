/**
 * The entities of the equipment-management domain, the commands the handlers receive and the
 * errors they raise. Entities are values; the `Store` class holds them in tables keyed by id.
 */
module Domain {
  import opened Wrappers

  /** Entity keys. 0 stands for Guid.Empty, which no handler ever issues. */
  type Id = nat

  /** A DateTime, as its Ticks: 100-nanosecond units since 0001-01-01, so 0 is default(DateTime). */
  type Time = int

  /** The numeric value of an AuditResult; its members are not named in this model. */
  type AuditResultCode = nat

  datatype EquipmentStatus = New | InUse | Broken | Repairing | Lost | Liquidated

  datatype AssignmentStatus = Assigned | Returned | Lost

  datatype MaintenanceStatus = Pending | InProgress | Completed | Cancelled

  /** WarehouseTransactionType; `Undefined` is any integer outside the enum. */
  datatype TransactionType = Import | Export | Adjustment | Undefined

  datatype Equipment = Equipment(
    code: string,
    name: string,
    equipmentType: string,
    status: EquipmentStatus,
    isDeleted: bool)

  /** The stock row of one equipment type. */
  datatype WarehouseItem = WarehouseItem(
    equipmentType: string,
    quantity: int,
    minThreshold: int,
    notes: Option<string>,
    isDeleted: bool)

  /**
   * The Reason column of a ledger row: caller-supplied text, or one of the messages the
   * workflows compose, kept with the values interpolated into them.
   */
  datatype TransactionReason =
    | Stated(text: Option<string>)
    | AssignmentExport(assignee: Option<string>)
    | AssignmentReturn(assignmentId: Id, assignee: Option<string>)
    | ReturnAutoCreated(assignmentId: Id)
    | LiquidationExport(equipmentName: string, equipmentCode: string)

  /** One row of the warehouse ledger. */
  datatype WarehouseTransaction = WarehouseTransaction(
    id: Id,
    itemId: Id,
    txType: TransactionType,
    quantity: int,
    reason: TransactionReason,
    performedBy: string,
    date: Time)

  datatype Assignment = Assignment(
    equipmentId: Id,
    assignedToUserId: Option<string>,
    assignedToDepartment: Option<string>,
    assignedDate: Time,
    returnDate: Option<Time>,
    status: AssignmentStatus,
    notes: Option<string>,
    assignedBy: Option<string>,
    isDeleted: bool)

  datatype MaintenanceRequest = MaintenanceRequest(
    equipmentId: Id,
    requesterId: Option<string>,
    technicianId: Option<string>,
    description: string,
    cost: Option<int>,
    startDate: Option<Time>,
    endDate: Option<Time>,
    status: MaintenanceStatus,
    notes: Option<string>,
    requestDate: Time,
    isDeleted: bool)

  datatype LiquidationRequest = LiquidationRequest(
    equipmentId: Id,
    approvedBy: Option<string>,
    liquidationValue: Option<int>,
    note: Option<string>,
    requestDate: Time,
    approvedDate: Option<Time>,
    isApproved: bool,
    isDeleted: bool)

  datatype AuditRecord = AuditRecord(
    equipmentId: Id,
    checkDate: Time,
    checkedByUserId: Option<string>,
    result: AuditResultCode,
    note: Option<string>,
    location: Option<string>,
    lastSyncDate: Option<Time>,
    isDeleted: bool)

  // ---------------------------------------------------------------- commands

  datatype TransactionCommand = TransactionCommand(
    warehouseItemId: Id,
    txType: TransactionType,
    quantity: int,
    reason: Option<string>,
    performedBy: string)

  /** The payload shared by the create and the update warehouse-item commands. */
  datatype WarehouseItemFields = WarehouseItemFields(
    equipmentType: string,
    quantity: int,
    minThreshold: int,
    notes: Option<string>)

  datatype CreateAssignmentCommand = CreateAssignmentCommand(
    equipmentId: Id,
    assignedToUserId: Option<string>,
    assignedToDepartment: Option<string>,
    assignedDate: Time,
    notes: Option<string>,
    assignedBy: Option<string>)

  datatype ReturnAssignmentCommand = ReturnAssignmentCommand(
    assignmentId: Id,
    returnNotes: Option<string>,
    returnedBy: Option<string>,
    needsMaintenance: bool)

  datatype UpdateAssignmentCommand = UpdateAssignmentCommand(
    assignmentId: Id,
    assignedDate: Option<Time>,
    notes: Option<string>,
    assignedToUserId: Option<string>,
    assignedToDepartment: Option<string>)

  datatype CreateMaintenanceCommand = CreateMaintenanceCommand(
    equipmentId: Id,
    requesterId: Option<string>,
    description: string,
    notes: Option<string>)

  datatype AssignTechnicianCommand = AssignTechnicianCommand(
    maintenanceRequestId: Id,
    technicianId: string,
    assignmentNotes: Option<string>)

  datatype StartMaintenanceCommand = StartMaintenanceCommand(
    maintenanceRequestId: Id,
    technicianId: string,
    startNotes: Option<string>)

  datatype CompleteMaintenanceCommand = CompleteMaintenanceCommand(
    maintenanceRequestId: Id,
    technicianId: string,
    cost: int,
    completionNotes: Option<string>,
    stillNeedsMaintenance: bool)

  datatype CancelMaintenanceCommand = CancelMaintenanceCommand(
    maintenanceRequestId: Id,
    cancellationReason: string,
    cancelledBy: Option<string>)

  datatype UpdateMaintenanceCommand = UpdateMaintenanceCommand(
    maintenanceRequestId: Id,
    description: Option<string>,
    notes: Option<string>)

  datatype CreateLiquidationCommand = CreateLiquidationCommand(
    equipmentId: Id,
    liquidationValue: Option<int>,
    note: Option<string>)

  datatype ApproveLiquidationCommand = ApproveLiquidationCommand(
    liquidationRequestId: Id,
    approvedBy: string,
    liquidationValue: int,
    approvalNotes: Option<string>)

  datatype RejectLiquidationCommand = RejectLiquidationCommand(
    liquidationRequestId: Id,
    rejectedBy: string,
    rejectionReason: string)

  datatype UpdateLiquidationCommand = UpdateLiquidationCommand(
    liquidationRequestId: Id,
    liquidationValue: Option<int>,
    note: Option<string>)

  datatype AuditInput = AuditInput(
    equipmentId: Id,
    checkDate: Time,
    checkedByUserId: Option<string>,
    result: AuditResultCode,
    note: Option<string>,
    location: Option<string>)

  // ---------------------------------------------------------------- errors

  datatype EntityKind =
    | EquipmentEntity
    | WarehouseItemEntity
    | AssignmentEntity
    | MaintenanceRequestEntity
    | LiquidationRequestEntity

  /** The InvalidOperationException messages of the liquidation workflow. */
  datatype Conflict =
    | AlreadyApproved
    | EquipmentAssigned
    | EquipmentInMaintenance
    | RejectApproved
    | AlreadyDecided

  /**
   * The exceptions a handler throws: NotFoundException, ValidationException (its keys, the
   * names of the offending properties), InvalidOperationException and KeyNotFoundException.
   */
  datatype Error =
    | NotFound(entity: EntityKind, key: Id)
    | Validation(fields: seq<string>)
    | InvalidOperation(conflict: Conflict)
    | KeyNotFound(entity: EntityKind, key: Id)

  datatype Result<T> = Ok(value: T) | Err(error: Error)

  // ---------------------------------------------------------------- lookups

  /*
   * Every table has the global query filter `!IsDeleted`, so a repository lookup by id only
   * ever sees live rows; these predicates are the model of "GetByIdAsync found it".
   */

  predicate LiveEquipment(m: map<Id, Equipment>, id: Id) {
    id in m && !m[id].isDeleted
  }

  predicate LiveItem(m: map<Id, WarehouseItem>, id: Id) {
    id in m && !m[id].isDeleted
  }

  predicate LiveAssignment(m: map<Id, Assignment>, id: Id) {
    id in m && !m[id].isDeleted
  }

  predicate LiveMaintenance(m: map<Id, MaintenanceRequest>, id: Id) {
    id in m && !m[id].isDeleted
  }

  predicate LiveLiquidation(m: map<Id, LiquidationRequest>, id: Id) {
    id in m && !m[id].isDeleted
  }

  /** `id` is the live stock row of equipment type `t`. */
  predicate HoldsType(items: map<Id, WarehouseItem>, id: Id, t: string) {
    id in items && !items[id].isDeleted && items[id].equipmentType == t
  }

  /** No two live stock rows share an equipment type. */
  ghost predicate UniqueLiveTypes(items: map<Id, WarehouseItem>) {
    forall a, b ::
      (a in items && b in items && !items[a].isDeleted && !items[b].isDeleted
       && items[a].equipmentType == items[b].equipmentType) ==> a == b
  }

  /**
   * GetByEquipmentTypeAsync followed by the handlers' `!IsDeleted` test: the live row of type
   * `t`, if there is one.
   */
  function ItemOfType(items: map<Id, WarehouseItem>, t: string): (r: Option<Id>)
    requires UniqueLiveTypes(items)
    ensures r.Some? ==> HoldsType(items, r.value, t)
    ensures r.None? ==> forall id :: id in items ==> !HoldsType(items, id, t)
    ensures forall id: Id :: HoldsType(items, id, t) ==> r == Some(id)
  {
    if exists id | id in items :: HoldsType(items, id, t) then
      Some(var id :| id in items && HoldsType(items, id, t); id)
    else
      None
  }

  /** Approval's first guard: some live assignment of the equipment is still Assigned. */
  predicate HasActiveAssignment(assignments: map<Id, Assignment>, equipmentId: Id) {
    exists id | id in assignments :: !assignments[id].isDeleted
      && assignments[id].equipmentId == equipmentId && assignments[id].status == Assigned
  }

  /** Approval's second guard: some live maintenance request of the equipment is still open. */
  predicate HasOpenMaintenance(maintenances: map<Id, MaintenanceRequest>, equipmentId: Id) {
    exists id | id in maintenances :: !maintenances[id].isDeleted
      && maintenances[id].equipmentId == equipmentId
      && (maintenances[id].status == Pending || maintenances[id].status == InProgress)
  }
}
