/**
 * The warehouse ledger step: how a transaction of a given type moves an item's stock and what
 * quantity its ledger row records. Stock quantities here are unbounded integers; the 32-bit
 * arithmetic the handler actually performs is modelled separately at the end of the module.
 */
module Ledger {
  import opened Domain

  /** How a recorded ledger row moves stock: imports add, exports subtract, adjustments carry a signed delta. */
  function SignedEffect(kind: TransactionType, recorded: int): int {
    match kind
    case Import => recorded
    case Export => -recorded
    case Adjustment => recorded
    case Undefined => 0
  }

  /** The item's new stock and the quantity written to the ledger row. */
  datatype StockChange = StockChange(quantity: int, recorded: int)

  /**
   * The switch of the create-transaction handler. An import adds the amount; an export takes
   * it away unless the stock is short; an adjustment treats the amount as the new total and
   * records the difference; any other type is refused.
   */
  function ApplyStockChange(current: int, kind: TransactionType, amount: int): (r: Result<StockChange>)
    // the ledger row always explains the change of stock exactly
    ensures r.Ok? ==> r.value.quantity == current + SignedEffect(kind, r.value.recorded)
    // only a short export and an undefined type are refused, each under its own property name
    ensures r.Ok? <==> (kind.Import? || kind.Adjustment? || (kind.Export? && amount <= current))
    ensures r.Err? ==> r.error == Validation([if kind.Export? then "Quantity" else "Type"])
    // an adjustment lands on the requested total; imports and exports record the requested amount
    ensures r.Ok? && kind.Adjustment? ==> r.value.quantity == amount
    ensures r.Ok? && !kind.Adjustment? ==> r.value.recorded == amount
  {
    match kind
    case Import => Ok(StockChange(current + amount, amount))
    case Export =>
      if current < amount then Err(Validation(["Quantity"]))
      else Ok(StockChange(current - amount, amount))
    case Adjustment => Ok(StockChange(amount, amount - current))
    case Undefined => Err(Validation(["Type"]))
  }

  /** With a positive amount (the validator's rule) a successful step never leaves stock negative. */
  lemma StockStaysNonNegative(current: int, kind: TransactionType, amount: int)
    requires current >= 0 && amount > 0
    ensures var r := ApplyStockChange(current, kind, amount);
      r.Ok? ==> r.value.quantity >= 0
  {
  }

  /**
   * An adjustment always succeeds and records the signed difference from the old stock to the
   * requested total: positive when the stock rises, negative when it falls, zero when it stays.
   */
  lemma AdjustmentRecordsDelta(current: int, amount: int)
    ensures var r := ApplyStockChange(current, Adjustment, amount);
      && r.Ok? && r.value.quantity == amount
      && r.value.recorded + current == amount
      && (r.value.recorded > 0 <==> amount > current)
      && (r.value.recorded < 0 <==> amount < current)
      && (r.value.recorded == 0 <==> amount == current)
  {
  }

  /** Stock of row `id`, counting a row that does not exist yet as holding nothing. */
  function StockOf(items: map<Id, WarehouseItem>, id: Id): int {
    if id in items then items[id].quantity else 0
  }

  /** The ledger row `tx` accounts exactly for the change of its item's stock from `before` to `after`. */
  ghost predicate Reconciles(before: map<Id, WarehouseItem>, after: map<Id, WarehouseItem>, tx: WarehouseTransaction) {
    tx.itemId in after
    && StockOf(after, tx.itemId) == StockOf(before, tx.itemId) + SignedEffect(tx.txType, tx.quantity)
  }

  // ------------------------------------------------ the handler's 32-bit arithmetic, as written

  const MinInt32: int := -0x8000_0000
  const MaxInt32: int := 0x7fff_ffff

  /** C#'s unchecked `int` arithmetic: the result reduced into the 32-bit range. */
  function Wrap32(x: int): (r: int)
    ensures MinInt32 <= r <= MaxInt32
    ensures (x - r) % 0x1_0000_0000 == 0
    ensures MinInt32 <= x <= MaxInt32 ==> r == x
  {
    (x - MinInt32) % 0x1_0000_0000 + MinInt32
  }

  /** `warehouseItem.Quantity += request.Quantity` exactly as the handler computes it on Int32. */
  function ImportAsWritten(current: int, amount: int): int {
    Wrap32(current + amount)
  }

  /** Below the Int32 ceiling the handler's import agrees with the unbounded step of this model. */
  lemma ImportAsWrittenAgreesBelowCeiling(current: int, amount: int)
    requires 0 <= current && 0 < amount && current + amount <= MaxInt32
    ensures ImportAsWritten(current, amount) == ApplyStockChange(current, Import, amount).value.quantity
  {
  }

  /**
   * An import of one unit into an item holding Int32.MaxValue leaves it holding Int32.MinValue.
   * The return handler's `Quantity += 1` is this same step, so a return into a full row does
   * the same.
   */
  lemma ImportAsWrittenOverflows()
    ensures ImportAsWritten(MaxInt32, 1) == MinInt32
    ensures ImportAsWritten(MaxInt32, 1) < 0
  {
  }

  /** The intended behaviour: an import of a positive amount always raises the stock. */
  lemma ImportRaisesStock(current: int, amount: int)
    requires amount > 0
    ensures var r := ApplyStockChange(current, Import, amount);
      r.Ok? && r.value.quantity > current && r.value.quantity - current == amount
  {
  }
}
