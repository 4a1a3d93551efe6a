/**
 * The command handlers, as methods of one `Store` that holds every table the unit of work
 * commits. A handler either throws before it changes anything or makes all its changes and
 * commits once, so every handler below either returns `Err` with the state untouched or `Ok`
 * with the whole new state given in its postcondition. Guid.NewGuid() is modelled by
 * `nextId`, a counter above every key in use; DateTime.UtcNow is the `now` parameter.
 */
module Store {
  import opened Wrappers
  import opened Text
  import opened Domain
  import opened Ledger
  import opened Validators
  import opened Lifecycle
  import opened Notes

  // ------------------------------------------------ table invariants

  ghost predicate KeysBelow(keys: set<Id>, bound: nat) {
    forall id :: id in keys ==> 0 < id < bound
  }

  /** Ledger rows have issued ids, in issue order, and each names a stock row that exists. */
  ghost predicate LedgerWellFormed(txs: seq<WarehouseTransaction>, itemKeys: set<Id>, bound: nat) {
    && (forall i :: 0 <= i < |txs| ==> 0 < txs[i].id < bound && txs[i].itemId in itemKeys)
    && (forall i, j :: 0 <= i < j < |txs| ==> txs[i].id < txs[j].id)
  }

  /** No stock row ever holds a negative quantity or threshold. */
  ghost predicate StockNonNegative(items: map<Id, WarehouseItem>) {
    forall id :: id in items ==> items[id].quantity >= 0 && items[id].minThreshold >= 0
  }

  /** A returned assignment has a return date; an active one has none and is live. */
  predicate AssignmentRowWellFormed(a: Assignment) {
    && (a.status == Returned ==> a.returnDate.Some?)
    && (a.status == Assigned ==> a.returnDate.None? && !a.isDeleted)
  }

  ghost predicate AssignmentsWellFormed(assignments: map<Id, Assignment>) {
    forall id :: id in assignments ==> AssignmentRowWellFormed(assignments[id])
  }

  /** What each maintenance status implies about the dates, the technician and the cost. */
  predicate MaintenanceRowWellFormed(m: MaintenanceRequest) {
    match m.status
    case Pending => m.startDate.None? && m.endDate.None? && m.cost.None?
    case InProgress => !IsNullOrEmpty(m.technicianId) && m.startDate.Some? && m.endDate.None? && m.cost.None?
    case Completed => !IsNullOrEmpty(m.technicianId) && m.startDate.Some? && m.endDate.Some? && m.cost.Some? && m.cost.value > 0
    case Cancelled => m.endDate.None? && m.cost.None?
  }

  ghost predicate MaintenancesWellFormed(maintenances: map<Id, MaintenanceRequest>) {
    forall id :: id in maintenances ==> MaintenanceRowWellFormed(maintenances[id])
  }

  /** An approved request records when and for how much; a decided one records by whom. */
  predicate LiquidationRowWellFormed(l: LiquidationRequest) {
    && (l.isApproved ==> l.approvedDate.Some? && l.liquidationValue.Some?)
    && (l.approvedDate.Some? ==> l.approvedBy.Some?)
  }

  ghost predicate LiquidationsWellFormed(liquidations: map<Id, LiquidationRequest>) {
    forall id :: id in liquidations ==> LiquidationRowWellFormed(liquidations[id])
  }

  /** Every assignment, request and audit names an equipment row that exists. */
  ghost predicate ReferencesResolve(
    equipmentKeys: set<Id>,
    assignments: map<Id, Assignment>,
    maintenances: map<Id, MaintenanceRequest>,
    liquidations: map<Id, LiquidationRequest>,
    audits: map<Id, AuditRecord>)
  {
    && (forall id :: id in assignments ==> assignments[id].equipmentId in equipmentKeys)
    && (forall id :: id in maintenances ==> maintenances[id].equipmentId in equipmentKeys)
    && (forall id :: id in liquidations ==> liquidations[id].equipmentId in equipmentKeys)
    && (forall id :: id in audits ==> audits[id].equipmentId in equipmentKeys)
  }

  /** `if (!string.IsNullOrEmpty(given)) field = given;` */
  function Overwrite(current: Option<string>, given: Option<string>): Option<string> {
    if IsNullOrEmpty(given) then current else given
  }

  /** Some live stock row already holds equipment type `t`. */
  predicate TypeTaken(items: map<Id, WarehouseItem>, t: string) {
    exists id | id in items :: HoldsType(items, id, t)
  }

  // ------------------------------------------------ lemmas about single table writes

  /** Writing a deleted row, or a row of a type no other live row holds, keeps types unique. */
  lemma WriteKeepsTypesUnique(items: map<Id, WarehouseItem>, id: Id, w: WarehouseItem)
    requires UniqueLiveTypes(items)
    requires w.isDeleted || forall o :: o in items && o != id ==> !HoldsType(items, o, w.equipmentType)
    ensures UniqueLiveTypes(items[id := w])
  {
    var after := items[id := w];
    forall a, b | a in after && b in after && !after[a].isDeleted && !after[b].isDeleted
      && after[a].equipmentType == after[b].equipmentType
      ensures a == b
    {
      assert a != id ==> HoldsType(items, a, after[a].equipmentType);
      assert b != id ==> HoldsType(items, b, after[b].equipmentType);
    }
  }

  /** A live row is the only live row of its type. */
  lemma SoleHolder(items: map<Id, WarehouseItem>, id: Id)
    requires UniqueLiveTypes(items) && LiveItem(items, id)
    ensures forall o :: o in items && o != id ==> !HoldsType(items, o, items[id].equipmentType)
  {
    forall o | o in items && o != id
      ensures !HoldsType(items, o, items[id].equipmentType)
    {
      assert HoldsType(items, id, items[id].equipmentType);
    }
  }

  /** A new row issued id `bound` appended to a well-formed ledger keeps it well formed. */
  lemma AppendKeepsLedgerWellFormed(txs: seq<WarehouseTransaction>, keys: set<Id>, bound: nat, tx: WarehouseTransaction)
    requires LedgerWellFormed(txs, keys, bound)
    requires 0 < tx.id == bound && tx.itemId in keys
    ensures LedgerWellFormed(txs + [tx], keys, bound + 1)
  {
  }

  // ------------------------------------------------ batch audit results

  datatype BatchError = EquipmentNotFound(equipmentId: Id)

  datatype BatchResult = BatchResult(
    totalRecords: nat,
    successCount: nat,
    failureCount: nat,
    createdIds: seq<Id>,
    errors: seq<BatchError>)

  predicate NoDuplicates<T(==)>(s: seq<T>) {
    forall i, j :: 0 <= i < j < |s| ==> s[i] != s[j]
  }

  /** LINQ Distinct: every value of `s` once, in order of first occurrence. */
  function Distinct<T(==,!new)>(s: seq<T>): (r: seq<T>)
    ensures forall x :: x in r <==> x in s
    ensures NoDuplicates(r)
    decreases |s|
  {
    if s == [] then []
    else
      var n := |s| - 1;
      assert s == s[..n] + [s[n]];
      var d := Distinct(s[..n]);
      if s[n] in d then d else d + [s[n]]
  }

  /** The equipment ids of a batch, in input order. */
  function EquipmentIdsOf(inputs: seq<AuditInput>): (r: seq<Id>)
    ensures |r| == |inputs| && forall i :: 0 <= i < |inputs| ==> r[i] == inputs[i].equipmentId
  {
    seq(|inputs|, i requires 0 <= i < |inputs| => inputs[i].equipmentId)
  }

  /** The inputs of a batch whose equipment is live, in input order: the ones that get a record. */
  function KnownInputs(equipments: map<Id, Equipment>, inputs: seq<AuditInput>): seq<AuditInput>
    decreases |inputs|
  {
    if inputs == [] then []
    else
      var n := |inputs| - 1;
      KnownInputs(equipments, inputs[..n]) + (if LiveEquipment(equipments, inputs[n].equipmentId) then [inputs[n]] else [])
  }

  /** One error per input whose equipment is not found, in input order. */
  function MissingErrors(equipments: map<Id, Equipment>, inputs: seq<AuditInput>): seq<BatchError>
    decreases |inputs|
  {
    if inputs == [] then []
    else
      var n := |inputs| - 1;
      MissingErrors(equipments, inputs[..n])
      + (if LiveEquipment(equipments, inputs[n].equipmentId) then [] else [EquipmentNotFound(inputs[n].equipmentId)])
  }

  /** Every input of a batch ends up either as a record or as an error, never both. */
  lemma {:induction false} BatchPartition(equipments: map<Id, Equipment>, inputs: seq<AuditInput>)
    ensures |KnownInputs(equipments, inputs)| + |MissingErrors(equipments, inputs)| == |inputs|
    ensures forall a :: a in KnownInputs(equipments, inputs) ==> a in inputs && LiveEquipment(equipments, a.equipmentId)
    ensures forall e :: e in MissingErrors(equipments, inputs) ==> !LiveEquipment(equipments, e.equipmentId)
    decreases |inputs|
  {
    if inputs != [] {
      var n := |inputs| - 1;
      BatchPartition(equipments, inputs[..n]);
      assert inputs == inputs[..n] + [inputs[n]];
    }
  }

  /** Extending a batch by one input extends its records or its errors by that input. */
  lemma BatchStep(equipments: map<Id, Equipment>, inputs: seq<AuditInput>, i: nat)
    requires i < |inputs|
    ensures KnownInputs(equipments, inputs[..i + 1])
      == KnownInputs(equipments, inputs[..i]) + (if LiveEquipment(equipments, inputs[i].equipmentId) then [inputs[i]] else [])
    ensures MissingErrors(equipments, inputs[..i + 1])
      == MissingErrors(equipments, inputs[..i])
         + (if LiveEquipment(equipments, inputs[i].equipmentId) then [] else [EquipmentNotFound(inputs[i].equipmentId)])
  {
    assert inputs[..i + 1][..i] == inputs[..i];
  }

  /** The ids `start`, `start + 1`, ... issued to `n` new rows in turn. */
  function IdsFrom(start: Id, n: nat): (r: seq<Id>)
    ensures |r| == n && forall k :: 0 <= k < n ==> r[k] == start + k
  {
    seq(n, k requires 0 <= k < n => start + k)
  }

  /** The audit table after the records of `known` were added in turn, from id `start` on. */
  function AuditsAdded(audits: map<Id, AuditRecord>, start: Id, known: seq<AuditInput>, now: Time): map<Id, AuditRecord>
    decreases |known|
  {
    if known == [] then audits
    else
      var n := |known| - 1;
      AuditsAdded(audits, start, known[..n], now)[start + n := AuditOf(known[n], now)]
  }

  /** The k-th record added goes under id `start + k`, an id the table did not hold. */
  lemma {:induction false} AuditAt(audits: map<Id, AuditRecord>, start: Id, known: seq<AuditInput>, now: Time, k: nat)
    requires forall id :: id in audits ==> id < start
    requires k < |known|
    ensures start + k !in audits
    ensures start + k in AuditsAdded(audits, start, known, now)
    ensures AuditsAdded(audits, start, known, now)[start + k] == AuditOf(known[k], now)
    decreases |known|
  {
    var n := |known| - 1;
    if k < n {
      AuditAt(audits, start, known[..n], now, k);
      assert known[..n][k] == known[k];
    }
  }

  /** Adding records from a fresh id on keeps every existing record and adds nothing else. */
  lemma {:induction false} AuditsAddedKeeps(audits: map<Id, AuditRecord>, start: Id, known: seq<AuditInput>, now: Time)
    ensures forall id :: id in audits && !(start <= id < start + |known|) ==>
      id in AuditsAdded(audits, start, known, now) && AuditsAdded(audits, start, known, now)[id] == audits[id]
    ensures forall id :: id in AuditsAdded(audits, start, known, now) ==> id in audits || start <= id < start + |known|
    decreases |known|
  {
    if known != [] {
      AuditsAddedKeeps(audits, start, known[..|known| - 1], now);
    }
  }

  /**
   * What adding `known` from id `start` on does to a table whose keys are all below `start`:
   * the k-th new id holds the k-th record, every old row stays, and nothing else appears.
   */
  lemma AuditsAddedShape(audits: map<Id, AuditRecord>, start: Id, known: seq<AuditInput>, now: Time)
    requires forall id :: id in audits ==> id < start
    ensures var added := AuditsAdded(audits, start, known, now); var ids := IdsFrom(start, |known|);
      && (forall k :: 0 <= k < |ids| ==> ids[k] !in audits && ids[k] in added && added[ids[k]] == AuditOf(known[k], now))
      && (forall id :: id in added ==> id in audits || id in ids)
      && (forall id :: id in audits ==> id in added && added[id] == audits[id])
  {
    var added := AuditsAdded(audits, start, known, now);
    var ids := IdsFrom(start, |known|);
    AuditsAddedKeeps(audits, start, known, now);
    forall k | 0 <= k < |ids|
      ensures ids[k] !in audits && ids[k] in added && added[ids[k]] == AuditOf(known[k], now)
    {
      AuditAt(audits, start, known, now, k);
    }
    forall id | id in added && id !in audits
      ensures id in ids
    {
      assert ids[id - start] == id;
    }
  }

  /** One more known input adds one record under the next id. */
  lemma AuditsAddedStep(audits: map<Id, AuditRecord>, start: Id, known: seq<AuditInput>, input: AuditInput, now: Time)
    ensures AuditsAdded(audits, start, known + [input], now)
      == AuditsAdded(audits, start, known, now)[start + |known| := AuditOf(input, now)]
    ensures IdsFrom(start, |known|) + [start + |known|] == IdsFrom(start, |known| + 1)
  {
    assert (known + [input])[..|known|] == known;
  }

  /** The audit record written for one input. */
  function AuditOf(input: AuditInput, now: Time): AuditRecord {
    AuditRecord(input.equipmentId, input.checkDate, input.checkedByUserId, input.result, input.note, input.location, Some(now), false)
  }

  // ------------------------------------------------ the store

  class Store {
    var equipments: map<Id, Equipment>
    var items: map<Id, WarehouseItem>
    var transactions: seq<WarehouseTransaction>
    var assignments: map<Id, Assignment>
    var maintenances: map<Id, MaintenanceRequest>
    var liquidations: map<Id, LiquidationRequest>
    var audits: map<Id, AuditRecord>
    var nextId: nat

    ghost predicate Valid()
      reads this
    {
      && 0 < nextId
      && KeysBelow(equipments.Keys, nextId)
      && KeysBelow(items.Keys, nextId)
      && KeysBelow(assignments.Keys, nextId)
      && KeysBelow(maintenances.Keys, nextId)
      && KeysBelow(liquidations.Keys, nextId)
      && KeysBelow(audits.Keys, nextId)
      && LedgerWellFormed(transactions, items.Keys, nextId)
      && StockNonNegative(items)
      && UniqueLiveTypes(items)
      && AssignmentsWellFormed(assignments)
      && MaintenancesWellFormed(maintenances)
      && LiquidationsWellFormed(liquidations)
      && ReferencesResolve(equipments.Keys, assignments, maintenances, liquidations, audits)
    }

    /**
     * A store over an existing equipment register (the equipment handlers are not part of this
     * model) whose ids are all below `firstId`.
     */
    constructor(register: map<Id, Equipment>, firstId: nat)
      requires 0 < firstId && KeysBelow(register.Keys, firstId)
      ensures Valid()
      ensures equipments == register && nextId == firstId
      ensures items == map[] && transactions == []
      ensures assignments == map[] && maintenances == map[] && liquidations == map[] && audits == map[]
    {
      equipments := register;
      items := map[];
      transactions := [];
      assignments := map[];
      maintenances := map[];
      liquidations := map[];
      audits := map[];
      nextId := firstId;
    }

    /** Every table's keys stay below the id counter when the counter moves up by one. */
    lemma RaiseBound()
      requires Valid()
      ensures KeysBelow(equipments.Keys, nextId + 1) && KeysBelow(items.Keys, nextId + 1)
      ensures KeysBelow(assignments.Keys, nextId + 1) && KeysBelow(maintenances.Keys, nextId + 1)
      ensures KeysBelow(liquidations.Keys, nextId + 1) && KeysBelow(audits.Keys, nextId + 1)
      ensures LedgerWellFormed(transactions, items.Keys, nextId + 1)
    {
    }

    // ---------------------------------------------- repository writes
    // Update(entity) and AddAsync(entity) on one table; each keeps the invariant.

    method UpdateEquipmentRow(id: Id, e: Equipment)
      requires Valid() && id in equipments
      modifies this`equipments
      ensures Valid() && equipments == old(equipments)[id := e]
    {
      equipments := equipments[id := e];
      assert equipments.Keys == old(equipments).Keys;
    }

    method UpdateItemRow(id: Id, w: WarehouseItem)
      requires Valid() && id in items
      requires w.quantity >= 0 && w.minThreshold >= 0
      requires w.isDeleted || forall o :: o in items && o != id ==> !HoldsType(items, o, w.equipmentType)
      modifies this`items
      ensures Valid() && items == old(items)[id := w]
    {
      WriteKeepsTypesUnique(items, id, w);
      items := items[id := w];
      assert items.Keys == old(items).Keys;
    }

    method AddItemRow(w: WarehouseItem) returns (id: Id)
      requires Valid()
      requires w.quantity >= 0 && w.minThreshold >= 0 && !TypeTaken(items, w.equipmentType)
      modifies this`items, this`nextId
      ensures Valid() && id == old(nextId) && id !in old(items)
      ensures items == old(items)[id := w] && nextId == old(nextId) + 1
    {
      WriteKeepsTypesUnique(items, nextId, w);
      RaiseBound();
      id := nextId;
      items := items[id := w];
      nextId := nextId + 1;
    }

    method AddTransaction(itemId: Id, kind: TransactionType, quantity: int, reason: TransactionReason, performedBy: string, now: Time)
      returns (id: Id)
      requires Valid() && itemId in items
      modifies this`transactions, this`nextId
      ensures Valid() && id == old(nextId) && nextId == old(nextId) + 1
      ensures transactions == old(transactions) + [WarehouseTransaction(id, itemId, kind, quantity, reason, performedBy, now)]
    {
      var tx := WarehouseTransaction(nextId, itemId, kind, quantity, reason, performedBy, now);
      AppendKeepsLedgerWellFormed(transactions, items.Keys, nextId, tx);
      RaiseBound();
      transactions := transactions + [tx];
      id := nextId;
      nextId := nextId + 1;
    }

    method AddAssignmentRow(a: Assignment) returns (id: Id)
      requires Valid() && a.equipmentId in equipments && AssignmentRowWellFormed(a)
      modifies this`assignments, this`nextId
      ensures Valid() && id == old(nextId) && id !in old(assignments)
      ensures assignments == old(assignments)[id := a] && nextId == old(nextId) + 1
    {
      RaiseBound();
      id := nextId;
      assignments := assignments[id := a];
      nextId := nextId + 1;
    }

    method UpdateAssignmentRow(id: Id, a: Assignment)
      requires Valid() && id in assignments && a.equipmentId in equipments && AssignmentRowWellFormed(a)
      modifies this`assignments
      ensures Valid() && assignments == old(assignments)[id := a]
    {
      assignments := assignments[id := a];
      assert assignments.Keys == old(assignments).Keys;
    }

    method AddMaintenanceRow(m: MaintenanceRequest) returns (id: Id)
      requires Valid() && m.equipmentId in equipments && MaintenanceRowWellFormed(m)
      modifies this`maintenances, this`nextId
      ensures Valid() && id == old(nextId) && id !in old(maintenances)
      ensures maintenances == old(maintenances)[id := m] && nextId == old(nextId) + 1
    {
      RaiseBound();
      id := nextId;
      maintenances := maintenances[id := m];
      nextId := nextId + 1;
    }

    method UpdateMaintenanceRow(id: Id, m: MaintenanceRequest)
      requires Valid() && id in maintenances && m.equipmentId in equipments && MaintenanceRowWellFormed(m)
      modifies this`maintenances
      ensures Valid() && maintenances == old(maintenances)[id := m]
    {
      maintenances := maintenances[id := m];
      assert maintenances.Keys == old(maintenances).Keys;
    }

    method AddLiquidationRow(l: LiquidationRequest) returns (id: Id)
      requires Valid() && l.equipmentId in equipments && LiquidationRowWellFormed(l)
      modifies this`liquidations, this`nextId
      ensures Valid() && id == old(nextId) && id !in old(liquidations)
      ensures liquidations == old(liquidations)[id := l] && nextId == old(nextId) + 1
    {
      RaiseBound();
      id := nextId;
      liquidations := liquidations[id := l];
      nextId := nextId + 1;
    }

    method UpdateLiquidationRow(id: Id, l: LiquidationRequest)
      requires Valid() && id in liquidations && l.equipmentId in equipments && LiquidationRowWellFormed(l)
      modifies this`liquidations
      ensures Valid() && liquidations == old(liquidations)[id := l]
    {
      liquidations := liquidations[id := l];
      assert liquidations.Keys == old(liquidations).Keys;
    }

    method AddAuditRow(a: AuditRecord) returns (id: Id)
      requires Valid() && a.equipmentId in equipments
      modifies this`audits, this`nextId
      ensures Valid() && id == old(nextId) && id !in old(audits)
      ensures audits == old(audits)[id := a] && nextId == old(nextId) + 1
    {
      RaiseBound();
      id := nextId;
      audits := audits[id := a];
      nextId := nextId + 1;
    }

    // ---------------------------------------------- warehouse ledger

    /**
     * Records one warehouse transaction after the validator has passed: the item must be live,
     * and its stock moves as `ApplyStockChange` says; the ledger gains one row for the item,
     * holding the recorded quantity, and the row's id is returned.
     */
    method CreateTransaction(cmd: TransactionCommand, now: Time) returns (r: Result<Id>)
      requires Valid()
      modifies this`items, this`transactions, this`nextId
      ensures Valid()
      ensures TransactionCommandErrors(cmd) != [] ==> r == Err(Validation(TransactionCommandErrors(cmd)))
      ensures TransactionCommandErrors(cmd) == [] && !LiveItem(old(items), cmd.warehouseItemId) ==>
        r == Err(NotFound(WarehouseItemEntity, cmd.warehouseItemId))
      ensures TransactionCommandErrors(cmd) == [] && LiveItem(old(items), cmd.warehouseItemId) ==>
        var id := cmd.warehouseItemId;
        var step := ApplyStockChange(old(items)[id].quantity, cmd.txType, cmd.quantity);
        && (step.Err? ==> r == Err(step.error))
        && (step.Ok? ==>
              && r == Ok(old(nextId))
              && nextId == old(nextId) + 1
              && items == old(items)[id := old(items)[id].(quantity := step.value.quantity)]
              && transactions == old(transactions)
                 + [WarehouseTransaction(old(nextId), id, cmd.txType, step.value.recorded, Stated(cmd.reason), cmd.performedBy, now)])
      ensures r.Err? ==> items == old(items) && transactions == old(transactions) && nextId == old(nextId)
      ensures r.Ok? ==> |transactions| == |old(transactions)| + 1 && Reconciles(old(items), items, transactions[|transactions| - 1])
    {
      var errs := TransactionCommandErrors(cmd);
      if errs != [] {
        return Err(Validation(errs));
      }
      if cmd.warehouseItemId !in items || items[cmd.warehouseItemId].isDeleted {
        return Err(NotFound(WarehouseItemEntity, cmd.warehouseItemId));
      }
      var item := items[cmd.warehouseItemId];
      var recorded := cmd.quantity;
      match cmd.txType {
        case Import =>
          item := item.(quantity := item.quantity + cmd.quantity);
        case Export =>
          if item.quantity < cmd.quantity {
            return Err(Validation(["Quantity"]));
          }
          item := item.(quantity := item.quantity - cmd.quantity);
        case Adjustment =>
          // the command's quantity is the new total; the ledger row records the difference
          recorded := cmd.quantity - item.quantity;
          item := item.(quantity := cmd.quantity);
        case Undefined =>
          return Err(Validation(["Type"]));
      }
      SoleHolder(items, cmd.warehouseItemId);
      UpdateItemRow(cmd.warehouseItemId, item);
      var txId := AddTransaction(cmd.warehouseItemId, cmd.txType, recorded, Stated(cmd.reason), cmd.performedBy, now);
      r := Ok(txId);
    }

    /**
     * Adds a stock row after the validator has passed, unless a live row already holds the
     * type; a deleted row of that type does not block it.
     */
    method CreateWarehouseItem(f: WarehouseItemFields) returns (r: Result<Id>)
      requires Valid()
      modifies this`items, this`nextId
      ensures Valid()
      ensures CreateItemErrors(f) != [] ==> r == Err(Validation(CreateItemErrors(f)))
      ensures CreateItemErrors(f) == [] && TypeTaken(old(items), f.equipmentType) ==> r == Err(Validation(["EquipmentType"]))
      ensures r.Ok? <==> CreateItemErrors(f) == [] && !TypeTaken(old(items), f.equipmentType)
      ensures r.Ok? ==>
        && r.value == old(nextId) && r.value !in old(items)
        && items == old(items)[r.value := WarehouseItem(f.equipmentType, f.quantity, f.minThreshold, f.notes, false)]
        && nextId == old(nextId) + 1
      ensures r.Err? ==> items == old(items) && nextId == old(nextId)
    {
      var errs := CreateItemErrors(f);
      if errs != [] {
        return Err(Validation(errs));
      }
      var existing := ItemOfType(items, f.equipmentType);
      if existing.Some? {
        return Err(Validation(["EquipmentType"]));
      }
      var id := AddItemRow(WarehouseItem(f.equipmentType, f.quantity, f.minThreshold, f.notes, false));
      r := Ok(id);
    }

    /**
     * Overwrites a live stock row after the validator has passed. A change of type is refused
     * when another live row holds the new type; keeping the type skips that check.
     */
    method UpdateWarehouseItem(id: Id, f: WarehouseItemFields) returns (r: Result<()>)
      requires Valid()
      modifies this`items
      ensures Valid()
      ensures UpdateItemErrors(id, f) != [] ==> r == Err(Validation(UpdateItemErrors(id, f)))
      ensures UpdateItemErrors(id, f) == [] && !LiveItem(old(items), id) ==> r == Err(NotFound(WarehouseItemEntity, id))
      ensures UpdateItemErrors(id, f) == [] && LiveItem(old(items), id) ==>
        var clash := old(items)[id].equipmentType != f.equipmentType && TypeTaken(old(items), f.equipmentType);
        && (clash ==> r == Err(Validation(["EquipmentType"])))
        && (!clash ==>
              && r == Ok(())
              && items == old(items)[id := old(items)[id].(equipmentType := f.equipmentType, quantity := f.quantity,
                                                           minThreshold := f.minThreshold, notes := f.notes)])
      ensures r.Err? ==> items == old(items)
    {
      var errs := UpdateItemErrors(id, f);
      if errs != [] {
        return Err(Validation(errs));
      }
      if id !in items || items[id].isDeleted {
        return Err(NotFound(WarehouseItemEntity, id));
      }
      var item := items[id];
      if item.equipmentType != f.equipmentType {
        var existing := ItemOfType(items, f.equipmentType);
        if existing.Some? && existing.value != id {
          return Err(Validation(["EquipmentType"]));
        }
      }
      SoleHolder(items, id);
      UpdateItemRow(id, item.(equipmentType := f.equipmentType, quantity := f.quantity, minThreshold := f.minThreshold, notes := f.notes));
      r := Ok(());
    }

    /** Soft-deletes a live stock row; its stock, type and threshold stay as they were. */
    method DeleteWarehouseItem(id: Id) returns (r: Result<()>)
      requires Valid()
      modifies this`items
      ensures Valid()
      ensures DeleteItemErrors(id) != [] ==> r == Err(Validation(DeleteItemErrors(id))) && items == old(items)
      ensures DeleteItemErrors(id) == [] && !LiveItem(old(items), id) ==>
        r == Err(NotFound(WarehouseItemEntity, id)) && items == old(items)
      ensures LiveItem(old(items), id) ==> r == Ok(()) && items == old(items)[id := old(items)[id].(isDeleted := true)]
    {
      var errs := DeleteItemErrors(id);
      if errs != [] {
        return Err(Validation(errs));
      }
      if id !in items || items[id].isDeleted {
        return Err(NotFound(WarehouseItemEntity, id));
      }
      UpdateItemRow(id, items[id].(isDeleted := true));
      r := Ok(());
    }

    // ---------------------------------------------- assignments

    /**
     * Assigns live equipment. When a live stock row of its type holds at least one unit, one unit
     * is exported and logged first; an empty or missing row is passed over and the assignment
     * still goes ahead. The equipment is marked in use and the new assignment's id is returned.
     */
    method CreateAssignment(cmd: CreateAssignmentCommand, now: Time) returns (r: Result<Id>)
      requires Valid()
      modifies this`equipments, this`items, this`transactions, this`assignments, this`nextId
      ensures Valid()
      ensures !LiveEquipment(old(equipments), cmd.equipmentId) ==>
        && r == Err(NotFound(EquipmentEntity, cmd.equipmentId))
        && equipments == old(equipments) && items == old(items) && transactions == old(transactions)
        && assignments == old(assignments) && nextId == old(nextId)
      ensures LiveEquipment(old(equipments), cmd.equipmentId) ==>
        var e := old(equipments)[cmd.equipmentId];
        var stock := ItemOfType(old(items), e.equipmentType);
        var exported := stock.Some? && old(items)[stock.value].quantity >= 1;
        && r == Ok(nextId - 1)
        && r.value !in old(assignments)
        && equipments == old(equipments)[cmd.equipmentId := e.(status := InUse)]
        && assignments == old(assignments)[r.value := Assignment(cmd.equipmentId, cmd.assignedToUserId,
             cmd.assignedToDepartment, cmd.assignedDate, None, Assigned, cmd.notes, cmd.assignedBy, false)]
        && (exported ==>
              && nextId == old(nextId) + 2
              && items == old(items)[stock.value := old(items)[stock.value].(quantity := old(items)[stock.value].quantity - 1)]
              && transactions == old(transactions) + [WarehouseTransaction(old(nextId), stock.value, Export, 1,
                   AssignmentExport(Coalesce(cmd.assignedToUserId, cmd.assignedToDepartment)), cmd.assignedBy.OrElse("System"), now)]
              && Reconciles(old(items), items, transactions[|transactions| - 1]))
        && (!exported ==> nextId == old(nextId) + 1 && items == old(items) && transactions == old(transactions))
    {
      if cmd.equipmentId !in equipments || equipments[cmd.equipmentId].isDeleted {
        return Err(NotFound(EquipmentEntity, cmd.equipmentId));
      }
      var e := equipments[cmd.equipmentId];
      // when the row is short of stock the handler only logs and carries on
      ExportOneUnit(e.equipmentType, AssignmentExport(Coalesce(cmd.assignedToUserId, cmd.assignedToDepartment)),
        cmd.assignedBy.OrElse("System"), now);
      UpdateEquipmentRow(cmd.equipmentId, e.(status := InUse));
      var id := AddAssignmentRow(Assignment(cmd.equipmentId, cmd.assignedToUserId, cmd.assignedToDepartment,
        cmd.assignedDate, None, Assigned, cmd.notes, cmd.assignedBy, false));
      r := Ok(id);
    }

    /**
     * Returns an active assignment: it becomes Returned with today's return date, the return
     * note is logged, the equipment goes to Repairing or back to New, and one unit goes back into
     * stock, into the live row of its type or, failing one, into a new row created for it.
     */
    method ReturnAssignment(cmd: ReturnAssignmentCommand, now: Time) returns (r: Result<()>)
      requires Valid()
      modifies this`equipments, this`items, this`transactions, this`assignments, this`nextId
      ensures Valid()
      ensures !ReturnAssignmentAccepted(cmd) ==> r == Err(Validation(ReturnAssignmentErrors(cmd)))
      ensures ReturnAssignmentAccepted(cmd) && !LiveAssignment(old(assignments), cmd.assignmentId) ==>
        r == Err(NotFound(AssignmentEntity, cmd.assignmentId))
      ensures (ReturnAssignmentAccepted(cmd) && LiveAssignment(old(assignments), cmd.assignmentId)
               && old(assignments)[cmd.assignmentId].status != Assigned) ==>
        r == Err(Validation(["Status"]))
      ensures (ReturnAssignmentAccepted(cmd) && LiveAssignment(old(assignments), cmd.assignmentId)
               && old(assignments)[cmd.assignmentId].status == Assigned
               && !LiveEquipment(old(equipments), old(assignments)[cmd.assignmentId].equipmentId)) ==>
        r == Err(NotFound(EquipmentEntity, old(assignments)[cmd.assignmentId].equipmentId))
      ensures r.Err? ==>
        && equipments == old(equipments) && items == old(items) && transactions == old(transactions)
        && assignments == old(assignments) && nextId == old(nextId)
      ensures r.Ok? ==>
        && ReturnAssignmentAccepted(cmd)
        && LiveAssignment(old(assignments), cmd.assignmentId)
        && var a := old(assignments)[cmd.assignmentId];
        && a.status == Assigned && LiveEquipment(old(equipments), a.equipmentId)
        && var e := old(equipments)[a.equipmentId];
        && assignments == old(assignments)[cmd.assignmentId :=
             a.(status := Returned, returnDate := Some(now), notes := ReturnLog(a.notes, cmd.returnNotes))]
        && equipments == old(equipments)[a.equipmentId := e.(status := if cmd.needsMaintenance then Repairing else New)]
        && |transactions| == |old(transactions)| + 1
        && Reconciles(old(items), items, transactions[|transactions| - 1])
        && var performer := cmd.returnedBy.OrElse("System");
        && match ItemOfType(old(items), e.equipmentType)
           case Some(w) =>
             && nextId == old(nextId) + 1
             && items == old(items)[w := old(items)[w].(quantity := old(items)[w].quantity + 1)]
             && transactions == old(transactions) + [WarehouseTransaction(old(nextId), w, Import, 1,
                  AssignmentReturn(cmd.assignmentId, Coalesce(a.assignedToUserId, a.assignedToDepartment)), performer, now)]
           case None =>
             && nextId == old(nextId) + 2
             && old(nextId) !in old(items)
             && items == old(items)[old(nextId) := WarehouseItem(e.equipmentType, 1, 5, Some("Auto-created from equipment return"), false)]
             && transactions == old(transactions) + [WarehouseTransaction(old(nextId) + 1, old(nextId), Import, 1,
                  ReturnAutoCreated(cmd.assignmentId), performer, now)]
    {
      if !ReturnAssignmentAccepted(cmd) {
        return Err(Validation(ReturnAssignmentErrors(cmd)));
      }
      if cmd.assignmentId !in assignments || assignments[cmd.assignmentId].isDeleted {
        return Err(NotFound(AssignmentEntity, cmd.assignmentId));
      }
      var a := assignments[cmd.assignmentId];
      if a.status == Returned {
        return Err(Validation(["Status"]));
      }
      if a.status == AssignmentStatus.Lost {
        return Err(Validation(["Status"]));
      }
      if a.equipmentId !in equipments || equipments[a.equipmentId].isDeleted {
        return Err(NotFound(EquipmentEntity, a.equipmentId));
      }
      ApplyReturn(cmd, now);
      r := Ok(());
    }

    /** The changes a return makes once its guards have passed. */
    method ApplyReturn(cmd: ReturnAssignmentCommand, now: Time)
      requires Valid() && LiveAssignment(assignments, cmd.assignmentId)
      requires assignments[cmd.assignmentId].status == Assigned
      requires LiveEquipment(equipments, assignments[cmd.assignmentId].equipmentId)
      modifies this`equipments, this`items, this`transactions, this`assignments, this`nextId
      ensures Valid()
      ensures
        var a := old(assignments)[cmd.assignmentId];
        && var e := old(equipments)[a.equipmentId];
        && assignments == old(assignments)[cmd.assignmentId :=
             a.(status := Returned, returnDate := Some(now), notes := ReturnLog(a.notes, cmd.returnNotes))]
        && equipments == old(equipments)[a.equipmentId := e.(status := if cmd.needsMaintenance then Repairing else New)]
        && |transactions| == |old(transactions)| + 1
        && Reconciles(old(items), items, transactions[|transactions| - 1])
        && var performer := cmd.returnedBy.OrElse("System");
        && match ItemOfType(old(items), e.equipmentType)
           case Some(w) =>
             && nextId == old(nextId) + 1
             && items == old(items)[w := old(items)[w].(quantity := old(items)[w].quantity + 1)]
             && transactions == old(transactions) + [WarehouseTransaction(old(nextId), w, Import, 1,
                  AssignmentReturn(cmd.assignmentId, Coalesce(a.assignedToUserId, a.assignedToDepartment)), performer, now)]
           case None =>
             && nextId == old(nextId) + 2
             && old(nextId) !in old(items)
             && items == old(items)[old(nextId) := WarehouseItem(e.equipmentType, 1, 5, Some("Auto-created from equipment return"), false)]
             && transactions == old(transactions) + [WarehouseTransaction(old(nextId) + 1, old(nextId), Import, 1,
                  ReturnAutoCreated(cmd.assignmentId), performer, now)]
    {
      var a := assignments[cmd.assignmentId];
      var e := equipments[a.equipmentId];
      // the unit of work commits all three changes together, so their order is not observable
      ImportOneUnit(e.equipmentType, AssignmentReturn(cmd.assignmentId, Coalesce(a.assignedToUserId, a.assignedToDepartment)),
        ReturnAutoCreated(cmd.assignmentId), cmd.returnedBy.OrElse("System"), now);
      UpdateAssignmentRow(cmd.assignmentId,
        a.(status := Returned, returnDate := Some(now), notes := ReturnLog(a.notes, cmd.returnNotes)));
      UpdateEquipmentRow(a.equipmentId, e.(status := if cmd.needsMaintenance then Repairing else New));
    }

    /**
     * Puts one unit of type `t` back into stock, logging an import: into the live row of that
     * type with reason `intoRow`, or, failing one, into a new row created for it (quantity 1,
     * threshold 5) with reason `intoNewRow`.
     */
    method ImportOneUnit(t: string, intoRow: TransactionReason, intoNewRow: TransactionReason, performedBy: string, now: Time)
      requires Valid()
      modifies this`items, this`transactions, this`nextId
      ensures Valid()
      ensures |transactions| == |old(transactions)| + 1 && Reconciles(old(items), items, transactions[|transactions| - 1])
      ensures match ItemOfType(old(items), t)
        case Some(w) =>
          && nextId == old(nextId) + 1
          && items == old(items)[w := old(items)[w].(quantity := old(items)[w].quantity + 1)]
          && transactions == old(transactions) + [WarehouseTransaction(old(nextId), w, Import, 1, intoRow, performedBy, now)]
        case None =>
          && nextId == old(nextId) + 2
          && old(nextId) !in old(items)
          && items == old(items)[old(nextId) := WarehouseItem(t, 1, 5, Some("Auto-created from equipment return"), false)]
          && transactions == old(transactions) + [WarehouseTransaction(old(nextId) + 1, old(nextId), Import, 1, intoNewRow, performedBy, now)]
    {
      var stock := ItemOfType(items, t);
      if stock.Some? {
        var item := items[stock.value];
        SoleHolder(items, stock.value);
        UpdateItemRow(stock.value, item.(quantity := item.quantity + 1));
        var _ := AddTransaction(stock.value, Import, 1, intoRow, performedBy, now);
      } else {
        var itemId := AddItemRow(WarehouseItem(t, 1, 5, Some("Auto-created from equipment return"), false));
        var _ := AddTransaction(itemId, Import, 1, intoNewRow, performedBy, now);
      }
    }

    /**
     * Edits an active assignment: the assigned date when one is given, the notes, assignee and
     * department when the new value is not null or empty. Status and equipment never change.
     */
    method UpdateAssignment(cmd: UpdateAssignmentCommand, now: Time) returns (r: Result<()>)
      requires Valid()
      modifies this`assignments
      ensures Valid()
      ensures UpdateAssignmentErrors(cmd, now) != [] ==> r == Err(Validation(UpdateAssignmentErrors(cmd, now)))
      ensures UpdateAssignmentErrors(cmd, now) == [] && !LiveAssignment(old(assignments), cmd.assignmentId) ==>
        r == Err(NotFound(AssignmentEntity, cmd.assignmentId))
      ensures (UpdateAssignmentErrors(cmd, now) == [] && LiveAssignment(old(assignments), cmd.assignmentId)
               && old(assignments)[cmd.assignmentId].status != Assigned) ==>
        r == Err(Validation(["Status"]))
      ensures r.Err? ==> assignments == old(assignments)
      ensures r.Ok? ==>
        && UpdateAssignmentErrors(cmd, now) == []
        && LiveAssignment(old(assignments), cmd.assignmentId)
        && var a := old(assignments)[cmd.assignmentId];
        && a.status == Assigned
        && assignments == old(assignments)[cmd.assignmentId := a.(
             assignedDate := cmd.assignedDate.OrElse(a.assignedDate),
             notes := Overwrite(a.notes, cmd.notes),
             assignedToUserId := Overwrite(a.assignedToUserId, cmd.assignedToUserId),
             assignedToDepartment := Overwrite(a.assignedToDepartment, cmd.assignedToDepartment))]
    {
      var errs := UpdateAssignmentErrors(cmd, now);
      if errs != [] {
        return Err(Validation(errs));
      }
      if cmd.assignmentId !in assignments || assignments[cmd.assignmentId].isDeleted {
        return Err(NotFound(AssignmentEntity, cmd.assignmentId));
      }
      var a := assignments[cmd.assignmentId];
      if a.status != Assigned {
        return Err(Validation(["Status"]));
      }
      if cmd.assignedDate.Some? {
        a := a.(assignedDate := cmd.assignedDate.value);
      }
      if !IsNullOrEmpty(cmd.notes) {
        a := a.(notes := cmd.notes);
      }
      if !IsNullOrEmpty(cmd.assignedToUserId) {
        a := a.(assignedToUserId := cmd.assignedToUserId);
      }
      if !IsNullOrEmpty(cmd.assignedToDepartment) {
        a := a.(assignedToDepartment := cmd.assignedToDepartment);
      }
      UpdateAssignmentRow(cmd.assignmentId, a);
      r := Ok(());
    }

    /** Soft-deletes an assignment that is no longer active; an active one must be returned first. */
    method DeleteAssignment(id: Id) returns (r: Result<()>)
      requires Valid()
      modifies this`assignments
      ensures Valid()
      ensures DeleteAssignmentErrors(id) != [] ==> r == Err(Validation(DeleteAssignmentErrors(id)))
      ensures DeleteAssignmentErrors(id) == [] && !LiveAssignment(old(assignments), id) ==> r == Err(NotFound(AssignmentEntity, id))
      ensures LiveAssignment(old(assignments), id) && old(assignments)[id].status == Assigned ==> r == Err(Validation(["Status"]))
      ensures r.Err? ==> assignments == old(assignments)
      ensures r.Ok? ==>
        && LiveAssignment(old(assignments), id) && old(assignments)[id].status != Assigned
        && assignments == old(assignments)[id := old(assignments)[id].(isDeleted := true)]
    {
      var errs := DeleteAssignmentErrors(id);
      if errs != [] {
        return Err(Validation(errs));
      }
      if id !in assignments || assignments[id].isDeleted {
        return Err(NotFound(AssignmentEntity, id));
      }
      if assignments[id].status == Assigned {
        return Err(Validation(["Status"]));
      }
      UpdateAssignmentRow(id, assignments[id].(isDeleted := true));
      r := Ok(());
    }

    // ---------------------------------------------- maintenance requests

    /** Opens a Pending request on live equipment and marks the equipment Repairing at once. */
    method CreateMaintenance(cmd: CreateMaintenanceCommand, now: Time) returns (r: Result<Id>)
      requires Valid()
      modifies this`equipments, this`maintenances, this`nextId
      ensures Valid()
      ensures !LiveEquipment(old(equipments), cmd.equipmentId) ==>
        && r == Err(NotFound(EquipmentEntity, cmd.equipmentId))
        && equipments == old(equipments) && maintenances == old(maintenances) && nextId == old(nextId)
      ensures LiveEquipment(old(equipments), cmd.equipmentId) ==>
        && r == Ok(old(nextId)) && r.value !in old(maintenances) && nextId == old(nextId) + 1
        && equipments == old(equipments)[cmd.equipmentId := old(equipments)[cmd.equipmentId].(status := Repairing)]
        && maintenances == old(maintenances)[r.value := MaintenanceRequest(cmd.equipmentId, cmd.requesterId, None,
             cmd.description, None, None, None, Pending, cmd.notes, now, false)]
    {
      if cmd.equipmentId !in equipments || equipments[cmd.equipmentId].isDeleted {
        return Err(NotFound(EquipmentEntity, cmd.equipmentId));
      }
      UpdateEquipmentRow(cmd.equipmentId, equipments[cmd.equipmentId].(status := Repairing));
      var id := AddMaintenanceRow(MaintenanceRequest(cmd.equipmentId, cmd.requesterId, None,
        cmd.description, None, None, None, Pending, cmd.notes, now, false));
      r := Ok(id);
    }

    /**
     * Sets the technician of a request the status machine lets through (Pending); the last
     * assignment wins, and the assignment note is logged.
     */
    method AssignTechnician(cmd: AssignTechnicianCommand) returns (r: Result<()>)
      requires Valid()
      modifies this`maintenances
      ensures Valid()
      ensures AssignTechnicianErrors(cmd) != [] ==> r == Err(Validation(AssignTechnicianErrors(cmd)))
      ensures AssignTechnicianErrors(cmd) == [] && !LiveMaintenance(old(maintenances), cmd.maintenanceRequestId) ==>
        r == Err(NotFound(MaintenanceRequestEntity, cmd.maintenanceRequestId))
      ensures (AssignTechnicianErrors(cmd) == [] && LiveMaintenance(old(maintenances), cmd.maintenanceRequestId)
               && MaintenanceNext(old(maintenances)[cmd.maintenanceRequestId].status, AssignTechnicianOp).None?) ==>
        r == Err(Validation(["Status"]))
      ensures r.Err? ==> maintenances == old(maintenances)
      ensures r.Ok? ==>
        && AssignTechnicianErrors(cmd) == []
        && LiveMaintenance(old(maintenances), cmd.maintenanceRequestId)
        && var m := old(maintenances)[cmd.maintenanceRequestId];
        && MaintenanceNext(m.status, AssignTechnicianOp) == Some(m.status)
        && maintenances == old(maintenances)[cmd.maintenanceRequestId :=
             m.(technicianId := Some(cmd.technicianId), notes := WorkLog(m.notes, "[ASSIGNED]", cmd.assignmentNotes))]
    {
      var errs := AssignTechnicianErrors(cmd);
      if errs != [] {
        return Err(Validation(errs));
      }
      var id := cmd.maintenanceRequestId;
      if id !in maintenances || maintenances[id].isDeleted {
        return Err(NotFound(MaintenanceRequestEntity, id));
      }
      var m := maintenances[id];
      if m.status != Pending {
        return Err(Validation(["Status"]));
      }
      UpdateMaintenanceRow(id, m.(technicianId := Some(cmd.technicianId), notes := WorkLog(m.notes, "[ASSIGNED]", cmd.assignmentNotes)));
      r := Ok(());
    }

    /**
     * Starts a Pending request: only its assigned technician may, and there must be one. The
     * start is dated and logged, and live equipment is marked Repairing (missing equipment is
     * passed over).
     */
    method StartMaintenance(cmd: StartMaintenanceCommand, now: Time) returns (r: Result<()>)
      requires Valid()
      modifies this`maintenances, this`equipments
      ensures Valid()
      ensures StartMaintenanceErrors(cmd) != [] ==> r == Err(Validation(StartMaintenanceErrors(cmd)))
      ensures StartMaintenanceErrors(cmd) == [] && !LiveMaintenance(old(maintenances), cmd.maintenanceRequestId) ==>
        r == Err(NotFound(MaintenanceRequestEntity, cmd.maintenanceRequestId))
      ensures StartMaintenanceErrors(cmd) == [] && LiveMaintenance(old(maintenances), cmd.maintenanceRequestId) ==>
        var m := old(maintenances)[cmd.maintenanceRequestId];
        && (MaintenanceNext(m.status, StartOp).None? ==> r == Err(Validation(["Status"])))
        && (MaintenanceNext(m.status, StartOp).Some? && m.technicianId != Some(cmd.technicianId) ==>
              r == Err(Validation(["TechnicianId"])))
      ensures r.Err? ==> maintenances == old(maintenances) && equipments == old(equipments)
      ensures r.Ok? ==>
        && StartMaintenanceErrors(cmd) == []
        && LiveMaintenance(old(maintenances), cmd.maintenanceRequestId)
        && var m := old(maintenances)[cmd.maintenanceRequestId];
        && MaintenanceNext(m.status, StartOp).Some?
        && m.technicianId == Some(cmd.technicianId) && cmd.technicianId != ""
        && maintenances == old(maintenances)[cmd.maintenanceRequestId := m.(
             status := MaintenanceNext(m.status, StartOp).value, startDate := Some(now),
             notes := WorkLog(m.notes, "[STARTED]", cmd.startNotes))]
        && equipments == (if LiveEquipment(old(equipments), m.equipmentId)
                          then old(equipments)[m.equipmentId := old(equipments)[m.equipmentId].(status := Repairing)]
                          else old(equipments))
    {
      var errs := StartMaintenanceErrors(cmd);
      if errs != [] {
        return Err(Validation(errs));
      }
      var id := cmd.maintenanceRequestId;
      if id !in maintenances || maintenances[id].isDeleted {
        return Err(NotFound(MaintenanceRequestEntity, id));
      }
      var m := maintenances[id];
      if m.status != Pending {
        return Err(Validation(["Status"]));
      }
      if IsNullOrEmpty(m.technicianId) {
        return Err(Validation(["TechnicianId"]));
      }
      if m.technicianId != Some(cmd.technicianId) {
        return Err(Validation(["TechnicianId"]));
      }
      UpdateMaintenanceRow(id, m.(status := InProgress, startDate := Some(now), notes := WorkLog(m.notes, "[STARTED]", cmd.startNotes)));
      if m.equipmentId in equipments && !equipments[m.equipmentId].isDeleted {
        UpdateEquipmentRow(m.equipmentId, equipments[m.equipmentId].(status := Repairing));
      }
      r := Ok(());
    }

    /**
     * Completes an InProgress request after the validator has passed: only its technician may.
     * The end date, the cost and the completion note are recorded, and live equipment goes to
     * Repairing when it still needs work, otherwise back to New.
     */
    method CompleteMaintenance(cmd: CompleteMaintenanceCommand, now: Time) returns (r: Result<()>)
      requires Valid()
      modifies this`maintenances, this`equipments
      ensures Valid()
      ensures CompleteMaintenanceErrors(cmd) != [] ==> r == Err(Validation(CompleteMaintenanceErrors(cmd)))
      ensures CompleteMaintenanceErrors(cmd) == [] && !LiveMaintenance(old(maintenances), cmd.maintenanceRequestId) ==>
        r == Err(NotFound(MaintenanceRequestEntity, cmd.maintenanceRequestId))
      ensures CompleteMaintenanceErrors(cmd) == [] && LiveMaintenance(old(maintenances), cmd.maintenanceRequestId) ==>
        var m := old(maintenances)[cmd.maintenanceRequestId];
        && (MaintenanceNext(m.status, CompleteOp).None? ==> r == Err(Validation(["Status"])))
        && (MaintenanceNext(m.status, CompleteOp).Some? && m.technicianId != Some(cmd.technicianId) ==>
              r == Err(Validation(["TechnicianId"])))
      ensures r.Err? ==> maintenances == old(maintenances) && equipments == old(equipments)
      ensures r.Ok? ==>
        && CompleteMaintenanceErrors(cmd) == []
        && LiveMaintenance(old(maintenances), cmd.maintenanceRequestId)
        && var m := old(maintenances)[cmd.maintenanceRequestId];
        && MaintenanceNext(m.status, CompleteOp) == Some(Completed)
        && m.technicianId == Some(cmd.technicianId)
        && maintenances == old(maintenances)[cmd.maintenanceRequestId := m.(
             status := Completed, endDate := Some(now), cost := Some(cmd.cost),
             notes := WorkLog(m.notes, "[COMPLETED]", cmd.completionNotes))]
        && equipments == (if LiveEquipment(old(equipments), m.equipmentId)
                          then old(equipments)[m.equipmentId := old(equipments)[m.equipmentId].(
                                 status := if cmd.stillNeedsMaintenance then Repairing else New)]
                          else old(equipments))
    {
      var errs := CompleteMaintenanceErrors(cmd);
      if errs != [] {
        return Err(Validation(errs));
      }
      var id := cmd.maintenanceRequestId;
      if id !in maintenances || maintenances[id].isDeleted {
        return Err(NotFound(MaintenanceRequestEntity, id));
      }
      var m := maintenances[id];
      if m.status != InProgress {
        return Err(Validation(["Status"]));
      }
      if m.technicianId != Some(cmd.technicianId) {
        return Err(Validation(["TechnicianId"]));
      }
      UpdateMaintenanceRow(id, m.(status := Completed, endDate := Some(now), cost := Some(cmd.cost),
        notes := WorkLog(m.notes, "[COMPLETED]", cmd.completionNotes)));
      if m.equipmentId in equipments && !equipments[m.equipmentId].isDeleted {
        UpdateEquipmentRow(m.equipmentId, equipments[m.equipmentId].(
          status := if cmd.stillNeedsMaintenance then Repairing else New));
      }
      r := Ok(());
    }

    /**
     * Cancels an open request and logs the reason; live equipment that is Repairing goes back
     * to New, equipment in any other status is left alone.
     */
    method CancelMaintenance(cmd: CancelMaintenanceCommand) returns (r: Result<()>)
      requires Valid()
      modifies this`maintenances, this`equipments
      ensures Valid()
      ensures CancelMaintenanceErrors(cmd) != [] ==> r == Err(Validation(CancelMaintenanceErrors(cmd)))
      ensures CancelMaintenanceErrors(cmd) == [] && !LiveMaintenance(old(maintenances), cmd.maintenanceRequestId) ==>
        r == Err(NotFound(MaintenanceRequestEntity, cmd.maintenanceRequestId))
      ensures (CancelMaintenanceErrors(cmd) == [] && LiveMaintenance(old(maintenances), cmd.maintenanceRequestId)
               && MaintenanceNext(old(maintenances)[cmd.maintenanceRequestId].status, CancelOp).None?) ==>
        r == Err(Validation(["Status"]))
      ensures r.Err? ==> maintenances == old(maintenances) && equipments == old(equipments)
      ensures r.Ok? ==>
        && CancelMaintenanceErrors(cmd) == []
        && LiveMaintenance(old(maintenances), cmd.maintenanceRequestId)
        && var m := old(maintenances)[cmd.maintenanceRequestId];
        && MaintenanceNext(m.status, CancelOp) == Some(Cancelled)
        && maintenances == old(maintenances)[cmd.maintenanceRequestId := m.(
             status := Cancelled, notes := Some(CancelLog(m.notes, cmd.cancellationReason)))]
        && equipments == (if LiveEquipment(old(equipments), m.equipmentId) && old(equipments)[m.equipmentId].status == Repairing
                          then old(equipments)[m.equipmentId := old(equipments)[m.equipmentId].(status := New)]
                          else old(equipments))
    {
      var errs := CancelMaintenanceErrors(cmd);
      if errs != [] {
        return Err(Validation(errs));
      }
      var id := cmd.maintenanceRequestId;
      if id !in maintenances || maintenances[id].isDeleted {
        return Err(NotFound(MaintenanceRequestEntity, id));
      }
      var m := maintenances[id];
      if m.status == Completed {
        return Err(Validation(["Status"]));
      }
      if m.status == Cancelled {
        return Err(Validation(["Status"]));
      }
      UpdateMaintenanceRow(id, m.(status := Cancelled, notes := Some(CancelLog(m.notes, cmd.cancellationReason))));
      if m.equipmentId in equipments && !equipments[m.equipmentId].isDeleted && equipments[m.equipmentId].status == Repairing {
        UpdateEquipmentRow(m.equipmentId, equipments[m.equipmentId].(status := New));
      }
      r := Ok(());
    }

    /**
     * Edits an open request: the description and the notes are replaced, not appended to, when
     * the new value is not null or empty. Status, technician and equipment never change.
     */
    method UpdateMaintenance(cmd: UpdateMaintenanceCommand) returns (r: Result<()>)
      requires Valid()
      modifies this`maintenances
      ensures Valid()
      ensures UpdateMaintenanceErrors(cmd) != [] ==> r == Err(Validation(UpdateMaintenanceErrors(cmd)))
      ensures UpdateMaintenanceErrors(cmd) == [] && !LiveMaintenance(old(maintenances), cmd.maintenanceRequestId) ==>
        r == Err(NotFound(MaintenanceRequestEntity, cmd.maintenanceRequestId))
      ensures (UpdateMaintenanceErrors(cmd) == [] && LiveMaintenance(old(maintenances), cmd.maintenanceRequestId)
               && MaintenanceNext(old(maintenances)[cmd.maintenanceRequestId].status, UpdateOp).None?) ==>
        r == Err(Validation(["Status"]))
      ensures r.Err? ==> maintenances == old(maintenances)
      ensures r.Ok? ==>
        && UpdateMaintenanceErrors(cmd) == []
        && LiveMaintenance(old(maintenances), cmd.maintenanceRequestId)
        && var m := old(maintenances)[cmd.maintenanceRequestId];
        && MaintenanceNext(m.status, UpdateOp) == Some(m.status)
        && maintenances == old(maintenances)[cmd.maintenanceRequestId := m.(
             description := Overwrite(Some(m.description), cmd.description).value,
             notes := Overwrite(m.notes, cmd.notes))]
    {
      var errs := UpdateMaintenanceErrors(cmd);
      if errs != [] {
        return Err(Validation(errs));
      }
      var id := cmd.maintenanceRequestId;
      if id !in maintenances || maintenances[id].isDeleted {
        return Err(NotFound(MaintenanceRequestEntity, id));
      }
      var m := maintenances[id];
      if m.status == Completed || m.status == Cancelled {
        return Err(Validation(["Status"]));
      }
      if !IsNullOrEmpty(cmd.description) {
        m := m.(description := cmd.description.value);
      }
      if !IsNullOrEmpty(cmd.notes) {
        m := m.(notes := cmd.notes);
      }
      UpdateMaintenanceRow(id, m);
      r := Ok(());
    }

    // ---------------------------------------------- liquidation requests

    /** Opens an undecided liquidation request on live equipment; the equipment is not touched. */
    method CreateLiquidation(cmd: CreateLiquidationCommand, now: Time) returns (r: Result<Id>)
      requires Valid()
      modifies this`liquidations, this`nextId
      ensures Valid()
      ensures !LiveEquipment(old(equipments), cmd.equipmentId) ==>
        && r == Err(NotFound(EquipmentEntity, cmd.equipmentId))
        && liquidations == old(liquidations) && nextId == old(nextId)
      ensures LiveEquipment(old(equipments), cmd.equipmentId) ==>
        && r == Ok(old(nextId)) && r.value !in old(liquidations) && nextId == old(nextId) + 1
        && liquidations == old(liquidations)[r.value := LiquidationRequest(cmd.equipmentId, None,
             cmd.liquidationValue, cmd.note, now, None, false, false)]
        && PhaseOf(liquidations[r.value]) == Awaiting
    {
      if cmd.equipmentId !in equipments || equipments[cmd.equipmentId].isDeleted {
        return Err(NotFound(EquipmentEntity, cmd.equipmentId));
      }
      var id := AddLiquidationRow(LiquidationRequest(cmd.equipmentId, None, cmd.liquidationValue, cmd.note, now, None, false, false));
      r := Ok(id);
    }

    /**
     * Takes one unit of type `t` out of stock, logging an export, when the live row of that
     * type holds at least one; an empty or missing row is passed over and nothing changes.
     */
    method ExportOneUnit(t: string, reason: TransactionReason, performedBy: string, now: Time)
      requires Valid()
      modifies this`items, this`transactions, this`nextId
      ensures Valid()
      ensures
        var stock := ItemOfType(old(items), t);
        var exported := stock.Some? && old(items)[stock.value].quantity > 0;
        && (exported ==>
              && nextId == old(nextId) + 1
              && items == old(items)[stock.value := old(items)[stock.value].(quantity := old(items)[stock.value].quantity - 1)]
              && transactions == old(transactions) + [WarehouseTransaction(old(nextId), stock.value, Export, 1, reason, performedBy, now)]
              && Reconciles(old(items), items, transactions[|transactions| - 1]))
        && (!exported ==> nextId == old(nextId) && items == old(items) && transactions == old(transactions))
    {
      var stock := ItemOfType(items, t);
      if stock.Some? && items[stock.value].quantity > 0 {
        var item := items[stock.value];
        SoleHolder(items, stock.value);
        UpdateItemRow(stock.value, item.(quantity := item.quantity - 1));
        var _ := AddTransaction(stock.value, Export, 1, reason, performedBy, now);
      }
    }

    /**
     * Approves a request that is not yet approved, once its equipment is live, not assigned and
     * not in open maintenance: the approval is recorded and logged, the equipment is marked
     * Liquidated, and one unit is exported from the live stock row of its type when that row
     * holds any.
     */
    method ApproveLiquidation(cmd: ApproveLiquidationCommand, now: Time) returns (r: Result<()>)
      requires Valid()
      modifies this`liquidations, this`equipments, this`items, this`transactions, this`nextId
      ensures Valid()
      ensures !ApproveLiquidationAccepted(cmd) ==> r == Err(Validation(ApproveLiquidationErrors(cmd)))
      ensures ApproveLiquidationAccepted(cmd) && !LiveLiquidation(old(liquidations), cmd.liquidationRequestId) ==>
        r == Err(KeyNotFound(LiquidationRequestEntity, cmd.liquidationRequestId))
      ensures ApproveLiquidationAccepted(cmd) && LiveLiquidation(old(liquidations), cmd.liquidationRequestId) ==>
        var l := old(liquidations)[cmd.liquidationRequestId];
        && (LiquidationNext(PhaseOf(l), ApproveOp).None? ==> r == Err(InvalidOperation(AlreadyApproved)))
        && (LiquidationNext(PhaseOf(l), ApproveOp).Some? && !LiveEquipment(old(equipments), l.equipmentId) ==>
              r == Err(KeyNotFound(EquipmentEntity, l.equipmentId)))
        && ((LiquidationNext(PhaseOf(l), ApproveOp).Some? && LiveEquipment(old(equipments), l.equipmentId)
             && HasActiveAssignment(assignments, l.equipmentId)) ==>
              r == Err(InvalidOperation(EquipmentAssigned)))
        && ((LiquidationNext(PhaseOf(l), ApproveOp).Some? && LiveEquipment(old(equipments), l.equipmentId)
             && !HasActiveAssignment(assignments, l.equipmentId) && HasOpenMaintenance(maintenances, l.equipmentId)) ==>
              r == Err(InvalidOperation(EquipmentInMaintenance)))
      ensures r.Err? ==>
        && liquidations == old(liquidations) && equipments == old(equipments) && items == old(items)
        && transactions == old(transactions) && nextId == old(nextId)
      ensures r.Ok? ==>
        && ApproveLiquidationAccepted(cmd)
        && LiveLiquidation(old(liquidations), cmd.liquidationRequestId)
        && var l := old(liquidations)[cmd.liquidationRequestId];
        && LiquidationNext(PhaseOf(l), ApproveOp) == Some(Approved)
        && LiveEquipment(old(equipments), l.equipmentId)
        && !HasActiveAssignment(assignments, l.equipmentId) && !HasOpenMaintenance(maintenances, l.equipmentId)
        && liquidations == old(liquidations)[cmd.liquidationRequestId := l.(
             isApproved := true, approvedBy := Some(cmd.approvedBy), approvedDate := Some(now),
             liquidationValue := Some(cmd.liquidationValue), note := Some(DecisionLog(l.note, ApprovalLine(cmd.approvalNotes))))]
        && PhaseOf(liquidations[cmd.liquidationRequestId]) == Approved
        && var e := old(equipments)[l.equipmentId];
        && equipments == old(equipments)[l.equipmentId := e.(status := Liquidated)]
        && var stock := ItemOfType(old(items), e.equipmentType);
        && var exported := stock.Some? && old(items)[stock.value].quantity > 0;
        && (exported ==>
              && nextId == old(nextId) + 1
              && items == old(items)[stock.value := old(items)[stock.value].(quantity := old(items)[stock.value].quantity - 1)]
              && transactions == old(transactions) + [WarehouseTransaction(old(nextId), stock.value, Export, 1,
                   LiquidationExport(e.name, e.code), cmd.approvedBy, now)]
              && Reconciles(old(items), items, transactions[|transactions| - 1]))
        && (!exported ==> nextId == old(nextId) && items == old(items) && transactions == old(transactions))
    {
      if !ApproveLiquidationAccepted(cmd) {
        return Err(Validation(ApproveLiquidationErrors(cmd)));
      }
      var id := cmd.liquidationRequestId;
      if id !in liquidations || liquidations[id].isDeleted {
        return Err(KeyNotFound(LiquidationRequestEntity, id));
      }
      var l := liquidations[id];
      if l.isApproved {
        return Err(InvalidOperation(AlreadyApproved));
      }
      if l.equipmentId !in equipments || equipments[l.equipmentId].isDeleted {
        return Err(KeyNotFound(EquipmentEntity, l.equipmentId));
      }
      if HasActiveAssignment(assignments, l.equipmentId) {
        return Err(InvalidOperation(EquipmentAssigned));
      }
      if HasOpenMaintenance(maintenances, l.equipmentId) {
        return Err(InvalidOperation(EquipmentInMaintenance));
      }
      ApplyApproval(cmd, now);
      r := Ok(());
    }

    /** The changes an approval makes once its guards have passed. */
    method ApplyApproval(cmd: ApproveLiquidationCommand, now: Time)
      requires Valid() && LiveLiquidation(liquidations, cmd.liquidationRequestId)
      requires !liquidations[cmd.liquidationRequestId].isApproved
      requires LiveEquipment(equipments, liquidations[cmd.liquidationRequestId].equipmentId)
      modifies this`liquidations, this`equipments, this`items, this`transactions, this`nextId
      ensures Valid()
      ensures
        var l := old(liquidations)[cmd.liquidationRequestId];
        && liquidations == old(liquidations)[cmd.liquidationRequestId := l.(
             isApproved := true, approvedBy := Some(cmd.approvedBy), approvedDate := Some(now),
             liquidationValue := Some(cmd.liquidationValue), note := Some(DecisionLog(l.note, ApprovalLine(cmd.approvalNotes))))]
        && var e := old(equipments)[l.equipmentId];
        && equipments == old(equipments)[l.equipmentId := e.(status := Liquidated)]
        && var stock := ItemOfType(old(items), e.equipmentType);
        && var exported := stock.Some? && old(items)[stock.value].quantity > 0;
        && (exported ==>
              && nextId == old(nextId) + 1
              && items == old(items)[stock.value := old(items)[stock.value].(quantity := old(items)[stock.value].quantity - 1)]
              && transactions == old(transactions) + [WarehouseTransaction(old(nextId), stock.value, Export, 1,
                   LiquidationExport(e.name, e.code), cmd.approvedBy, now)]
              && Reconciles(old(items), items, transactions[|transactions| - 1]))
        && (!exported ==> nextId == old(nextId) && items == old(items) && transactions == old(transactions))
    {
      var id := cmd.liquidationRequestId;
      var l := liquidations[id];
      var e := equipments[l.equipmentId];
      UpdateLiquidationRow(id, l.(isApproved := true, approvedBy := Some(cmd.approvedBy), approvedDate := Some(now),
        liquidationValue := Some(cmd.liquidationValue), note := Some(DecisionLog(l.note, ApprovalLine(cmd.approvalNotes)))));
      UpdateEquipmentRow(l.equipmentId, e.(status := Liquidated));
      ExportOneUnit(e.equipmentType, LiquidationExport(e.name, e.code), cmd.approvedBy, now);
    }

    /**
     * Rejects a request that is not approved: IsApproved stays false, the rejecter and the date
     * go into ApprovedBy and ApprovedDate, and the reason is logged. Nothing else changes.
     */
    method RejectLiquidation(cmd: RejectLiquidationCommand, now: Time) returns (r: Result<()>)
      requires Valid()
      modifies this`liquidations
      ensures Valid()
      ensures RejectLiquidationErrors(cmd) != [] ==> r == Err(Validation(RejectLiquidationErrors(cmd)))
      ensures RejectLiquidationErrors(cmd) == [] && !LiveLiquidation(old(liquidations), cmd.liquidationRequestId) ==>
        r == Err(KeyNotFound(LiquidationRequestEntity, cmd.liquidationRequestId))
      ensures (RejectLiquidationErrors(cmd) == [] && LiveLiquidation(old(liquidations), cmd.liquidationRequestId)
               && LiquidationNext(PhaseOf(old(liquidations)[cmd.liquidationRequestId]), RejectOp).None?) ==>
        r == Err(InvalidOperation(RejectApproved))
      ensures r.Err? ==> liquidations == old(liquidations)
      ensures r.Ok? ==>
        && RejectLiquidationErrors(cmd) == []
        && LiveLiquidation(old(liquidations), cmd.liquidationRequestId)
        && var l := old(liquidations)[cmd.liquidationRequestId];
        && LiquidationNext(PhaseOf(l), RejectOp) == Some(Rejected)
        && liquidations == old(liquidations)[cmd.liquidationRequestId := l.(
             isApproved := false, approvedBy := Some(cmd.rejectedBy), approvedDate := Some(now),
             note := Some(DecisionLog(l.note, Entry("[REJECTED]", cmd.rejectionReason))))]
        && PhaseOf(liquidations[cmd.liquidationRequestId]) == Rejected
    {
      var errs := RejectLiquidationErrors(cmd);
      if errs != [] {
        return Err(Validation(errs));
      }
      var id := cmd.liquidationRequestId;
      if id !in liquidations || liquidations[id].isDeleted {
        return Err(KeyNotFound(LiquidationRequestEntity, id));
      }
      var l := liquidations[id];
      if l.isApproved {
        return Err(InvalidOperation(RejectApproved));
      }
      UpdateLiquidationRow(id, l.(isApproved := false, approvedBy := Some(cmd.rejectedBy), approvedDate := Some(now),
        note := Some(DecisionLog(l.note, Entry("[REJECTED]", cmd.rejectionReason)))));
      r := Ok(());
    }

    /**
     * Edits an undecided request: the value when one is given, the note when the new one is not
     * blank. An approved or rejected request is refused.
     */
    method UpdateLiquidation(cmd: UpdateLiquidationCommand) returns (r: Result<()>)
      requires Valid()
      modifies this`liquidations
      ensures Valid()
      ensures UpdateLiquidationErrors(cmd) != [] ==> r == Err(Validation(UpdateLiquidationErrors(cmd)))
      ensures UpdateLiquidationErrors(cmd) == [] && !LiveLiquidation(old(liquidations), cmd.liquidationRequestId) ==>
        r == Err(KeyNotFound(LiquidationRequestEntity, cmd.liquidationRequestId))
      ensures (UpdateLiquidationErrors(cmd) == [] && LiveLiquidation(old(liquidations), cmd.liquidationRequestId)
               && LiquidationNext(PhaseOf(old(liquidations)[cmd.liquidationRequestId]), EditOp).None?) ==>
        r == Err(InvalidOperation(AlreadyDecided))
      ensures r.Err? ==> liquidations == old(liquidations)
      ensures r.Ok? ==>
        && UpdateLiquidationErrors(cmd) == []
        && LiveLiquidation(old(liquidations), cmd.liquidationRequestId)
        && var l := old(liquidations)[cmd.liquidationRequestId];
        && LiquidationNext(PhaseOf(l), EditOp) == Some(Awaiting)
        && liquidations == old(liquidations)[cmd.liquidationRequestId := l.(
             liquidationValue := Coalesce(cmd.liquidationValue, l.liquidationValue),
             note := if IsNullOrWhiteSpace(cmd.note) then l.note else cmd.note)]
        && PhaseOf(liquidations[cmd.liquidationRequestId]) == Awaiting
    {
      var errs := UpdateLiquidationErrors(cmd);
      if errs != [] {
        return Err(Validation(errs));
      }
      var id := cmd.liquidationRequestId;
      if id !in liquidations || liquidations[id].isDeleted {
        return Err(KeyNotFound(LiquidationRequestEntity, id));
      }
      var l := liquidations[id];
      if l.isApproved || l.approvedDate.Some? {
        return Err(InvalidOperation(AlreadyDecided));
      }
      if cmd.liquidationValue.Some? {
        l := l.(liquidationValue := cmd.liquidationValue);
      }
      if !IsNullOrWhiteSpace(cmd.note) {
        l := l.(note := cmd.note);
      }
      UpdateLiquidationRow(id, l);
      r := Ok(());
    }

    // ---------------------------------------------- batch audit

    /**
     * The handler's first loop: one repository lookup per distinct equipment id of the batch,
     * keeping the equipment that is found (live).
     */
    method LookupEquipments(ids: seq<Id>) returns (found: map<Id, Equipment>, lookedUp: seq<Id>)
      ensures forall id :: id in found <==> id in ids && LiveEquipment(equipments, id)
      ensures forall id :: id in found ==> LiveEquipment(equipments, id) && found[id] == equipments[id]
      ensures NoDuplicates(lookedUp) && forall id :: id in lookedUp <==> id in ids
    {
      var distinct := Distinct(ids);
      found := map[];
      lookedUp := [];
      var i := 0;
      while i < |distinct|
        invariant 0 <= i <= |distinct|
        invariant lookedUp == distinct[..i]
        invariant forall id :: id in found <==> id in distinct[..i] && LiveEquipment(equipments, id)
        invariant forall id :: id in found ==> found[id] == equipments[id]
      {
        var id := distinct[i];
        assert distinct[..i + 1] == distinct[..i] + [id];
        if id in equipments && !equipments[id].isDeleted {
          found := found[id := equipments[id]];
        }
        lookedUp := lookedUp + [id];
        i := i + 1;
      }
      assert distinct[..|distinct|] == distinct;
    }

    /** The loop body of the batch: one record for found equipment, one error otherwise. */
    method RecordAudit(input: AuditInput, found: bool, now: Time, acc: BatchResult) returns (next: BatchResult)
      requires Valid() && found == LiveEquipment(equipments, input.equipmentId)
      modifies this`audits, this`nextId
      ensures Valid()
      ensures found ==>
        && next == acc.(createdIds := acc.createdIds + [old(nextId)], successCount := acc.successCount + 1)
        && old(nextId) !in old(audits)
        && audits == old(audits)[old(nextId) := AuditOf(input, now)] && nextId == old(nextId) + 1
      ensures !found ==>
        && next == acc.(failureCount := acc.failureCount + 1, errors := acc.errors + [EquipmentNotFound(input.equipmentId)])
        && audits == old(audits) && nextId == old(nextId)
    {
      if !found {
        next := acc.(failureCount := acc.failureCount + 1, errors := acc.errors + [EquipmentNotFound(input.equipmentId)]);
      } else {
        var id := AddAuditRow(AuditOf(input, now));
        next := acc.(createdIds := acc.createdIds + [id], successCount := acc.successCount + 1);
      }
    }

    /**
     * Once the batch validator has passed, creates one audit record per input whose equipment
     * is live and one error per other input, each in input order. The counters always add up,
     * and a batch with no success leaves the audit table as it was.
     */
    method BatchCreateAuditRecords(inputs: seq<AuditInput>, now: Time) returns (r: Result<BatchResult>)
      requires Valid()
      modifies this`audits, this`nextId
      ensures Valid()
      ensures !BatchAccepted(inputs, now) ==>
        r == Err(Validation(BatchAuditErrors(inputs, now))) && audits == old(audits) && nextId == old(nextId)
      ensures r.Ok? <==> BatchAccepted(inputs, now)
      ensures r.Ok? ==> r.value.totalRecords == |inputs|
      ensures r.Ok? ==> r.value.successCount + r.value.failureCount == r.value.totalRecords
      ensures r.Ok? ==> |r.value.createdIds| == r.value.successCount == |KnownInputs(equipments, inputs)|
      ensures r.Ok? ==> r.value.errors == MissingErrors(equipments, inputs) && |r.value.errors| == r.value.failureCount
      ensures r.Ok? ==> nextId == old(nextId) + r.value.successCount
      ensures r.Ok? ==> r.value.createdIds == IdsFrom(old(nextId), r.value.successCount)
      ensures r.Ok? ==> audits == AuditsAdded(old(audits), old(nextId), KnownInputs(equipments, inputs), now)
      ensures r.Ok? ==> forall k :: 0 <= k < |r.value.createdIds| ==>
        && r.value.createdIds[k] !in old(audits)
        && r.value.createdIds[k] in audits
        && audits[r.value.createdIds[k]] == AuditOf(KnownInputs(equipments, inputs)[k], now)
      ensures r.Ok? ==> forall id :: id in audits ==> id in old(audits) || id in r.value.createdIds
      ensures r.Ok? ==> forall id :: id in old(audits) ==> id in audits && audits[id] == old(audits)[id]
      ensures r.Ok? && r.value.successCount == 0 ==> audits == old(audits)
    {
      if !BatchAccepted(inputs, now) {
        return Err(Validation(BatchAuditErrors(inputs, now)));
      }
      var ids := EquipmentIdsOf(inputs);
      var found, _ := LookupEquipments(ids);
      var result := RecordAudits(inputs, found, now);
      BatchPartition(equipments, inputs);
      AuditsAddedShape(old(audits), old(nextId), KnownInputs(equipments, inputs), now);
      r := Ok(result);
    }

    /** The handler's second loop: each input in turn, against the equipment found for the batch. */
    method RecordAudits(inputs: seq<AuditInput>, found: map<Id, Equipment>, now: Time) returns (result: BatchResult)
      requires Valid()
      requires forall i :: 0 <= i < |inputs| ==> (inputs[i].equipmentId in found <==> LiveEquipment(equipments, inputs[i].equipmentId))
      modifies this`audits, this`nextId
      ensures Valid()
      ensures result == BatchResult(|inputs|, |KnownInputs(equipments, inputs)|, |MissingErrors(equipments, inputs)|,
        IdsFrom(old(nextId), |KnownInputs(equipments, inputs)|), MissingErrors(equipments, inputs))
      ensures nextId == old(nextId) + |KnownInputs(equipments, inputs)|
      ensures audits == AuditsAdded(old(audits), old(nextId), KnownInputs(equipments, inputs), now)
    {
      result := BatchResult(|inputs|, 0, 0, [], []);
      ghost var known: seq<AuditInput> := [];
      ghost var missing: seq<BatchError> := [];
      var i := 0;
      while i < |inputs|
        invariant 0 <= i <= |inputs|
        invariant Valid()
        invariant known == KnownInputs(equipments, inputs[..i]) && missing == MissingErrors(equipments, inputs[..i])
        invariant result == BatchResult(|inputs|, |known|, |missing|, IdsFrom(old(nextId), |known|), missing)
        invariant nextId == old(nextId) + |known|
        invariant audits == AuditsAdded(old(audits), old(nextId), known, now)
      {
        var input := inputs[i];
        var isFound := input.equipmentId in found;
        assert isFound == LiveEquipment(equipments, input.equipmentId);
        BatchStep(equipments, inputs, i);
        result := RecordAudit(input, isFound, now, result);
        if isFound {
          AuditsAddedStep(old(audits), old(nextId), known, input, now);
          known := known + [input];
          assert missing + [] == missing;
        } else {
          missing := missing + [EquipmentNotFound(input.equipmentId)];
          assert known + [] == known;
        }
        i := i + 1;
      }
      assert inputs[..|inputs|] == inputs;
    }
  }
}
