/**
 * The two read-side handlers of the core: the paged warehouse listing and a technician's work
 * queue. Both are LINQ pipelines over the rows a repository returned; Where, OrderBy and
 * Skip/Take are modelled here on sequences.
 */
module Queries {
  import opened Wrappers
  import opened Text
  import opened Domain
  import opened Ledger

  // ------------------------------------------------ Where

  /** LINQ Where: the rows `keep` accepts, in their original order. */
  function Filter<T(!new)>(s: seq<T>, keep: T -> bool): (r: seq<T>)
    ensures forall x :: multiset(r)[x] == if keep(x) then multiset(s)[x] else 0
    ensures forall x :: x in r ==> x in s && keep(x)
    decreases |s|
  {
    if s == [] then []
    else
      var rest := Filter(s[1..], keep);
      assert s == [s[0]] + s[1..];
      if keep(s[0]) then [s[0]] + rest else rest
  }

  // ------------------------------------------------ OrderBy

  ghost predicate IsTotalPreorder<T(!new)>(le: (T, T) -> bool) {
    && (forall a, b :: le(a, b) || le(b, a))
    && (forall a, b, c :: le(a, b) && le(b, c) ==> le(a, c))
  }

  predicate SortedBy<T>(s: seq<T>, le: (T, T) -> bool) {
    forall i, j :: 0 <= i < j < |s| ==> le(s[i], s[j])
  }

  /** Puts `x` after every element that does not come strictly after it. */
  function Insert<T>(x: T, s: seq<T>, le: (T, T) -> bool): (r: seq<T>)
    ensures multiset(r) == multiset(s) + multiset{x}
    ensures |r| == |s| + 1
    decreases |s|
  {
    if s == [] then [x]
    else if le(s[0], x) then
      assert s == [s[0]] + s[1..];
      [s[0]] + Insert(x, s[1..], le)
    else [x] + s
  }

  /** A stable insertion sort: OrderBy with the key comparison `le`. */
  function Sort<T>(s: seq<T>, le: (T, T) -> bool): (r: seq<T>)
    ensures multiset(r) == multiset(s)
    ensures |r| == |s|
    decreases |s|
  {
    if s == [] then []
    else
      assert s == s[..|s| - 1] + [s[|s| - 1]];
      Insert(s[|s| - 1], Sort(s[..|s| - 1], le), le)
  }

  lemma {:induction false} InsertKeepsOrder<T(!new)>(x: T, s: seq<T>, le: (T, T) -> bool)
    requires IsTotalPreorder(le) && SortedBy(s, le)
    ensures SortedBy(Insert(x, s, le), le)
    decreases |s|
  {
    if s != [] && le(s[0], x) {
      var rest := s[1..];
      assert SortedBy(rest, le) by {
        forall i, j | 0 <= i < j < |rest|
          ensures le(rest[i], rest[j])
        {
          assert rest[i] == s[i + 1] && rest[j] == s[j + 1];
        }
      }
      InsertKeepsOrder(x, rest, le);
      forall y | y in rest
        ensures le(s[0], y)
      {
        var j :| 0 <= j < |rest| && rest[j] == y;
        assert s[j + 1] == y;
      }
      InsertAbove(x, rest, le, s[0]);
      ConsSorted(s[0], Insert(x, rest, le), le);
    }
  }

  /** Whatever `Insert` returns comes from `x` or `s`, so a bound on both bounds it. */
  lemma InsertAbove<T>(x: T, s: seq<T>, le: (T, T) -> bool, b: T)
    requires le(b, x) && forall y :: y in s ==> le(b, y)
    ensures forall y :: y in Insert(x, s, le) ==> le(b, y)
  {
    var r := Insert(x, s, le);
    forall y | y in r
      ensures le(b, y)
    {
      assert y in multiset(r);
      if y != x {
        assert y in multiset(s);
      }
    }
  }

  /** A sorted sequence stays sorted under a head that comes before all of it. */
  lemma ConsSorted<T>(h: T, t: seq<T>, le: (T, T) -> bool)
    requires SortedBy(t, le) && forall y :: y in t ==> le(h, y)
    ensures SortedBy([h] + t, le)
  {
    var r := [h] + t;
    forall i, j | 0 <= i < j < |r|
      ensures le(r[i], r[j])
    {
      if i == 0 {
        assert r[j] == t[j - 1];
      } else {
        assert r[i] == t[i - 1] && r[j] == t[j - 1];
      }
    }
  }

  lemma {:induction false} SortOrders<T(!new)>(s: seq<T>, le: (T, T) -> bool)
    requires IsTotalPreorder(le)
    ensures SortedBy(Sort(s, le), le)
    decreases |s|
  {
    if s != [] {
      SortOrders(s[..|s| - 1], le);
      InsertKeepsOrder(s[|s| - 1], Sort(s[..|s| - 1], le), le);
    }
  }

  lemma SliceKeepsOrder<T>(s: seq<T>, le: (T, T) -> bool, lo: int, hi: int)
    requires SortedBy(s, le) && 0 <= lo <= hi <= |s|
    ensures SortedBy(s[lo..hi], le)
  {
    forall i, j | 0 <= i < j < hi - lo
      ensures le(s[lo..hi][i], s[lo..hi][j])
    {
      assert s[lo..hi][i] == s[lo + i] && s[lo..hi][j] == s[lo + j];
    }
  }

  // ------------------------------------------------ Skip / Take

  /** LINQ Skip: a count of zero or less skips nothing. */
  function Skip<T>(s: seq<T>, n: int): seq<T> {
    if n <= 0 then s else if n >= |s| then [] else s[n..]
  }

  /** LINQ Take: a count of zero or less takes nothing. */
  function Take<T>(s: seq<T>, n: int): seq<T> {
    if n <= 0 then [] else if n >= |s| then s else s[..n]
  }

  /** `Skip(start).Take(size)`: the run of `s` from index `start`, at most `size` long. */
  function Page<T>(s: seq<T>, start: int, size: int): (r: seq<T>)
    ensures forall x :: x in r ==> x in s
    ensures |r| <= if size < 0 then 0 else size
    ensures start >= 0 && size >= 0 ==>
      && |r| == (if |s| <= start then 0 else if |s| - start < size then |s| - start else size)
      && forall i :: 0 <= i < |r| ==> r[i] == s[start + i]
  {
    Take(Skip(s, start), size)
  }

  lemma PageKeepsOrder<T>(s: seq<T>, start: int, size: int, le: (T, T) -> bool)
    requires SortedBy(s, le)
    ensures SortedBy(Page(s, start, size), le)
  {
    var lo := if start <= 0 then 0 else if start >= |s| then |s| else start;
    assert Skip(s, start) == s[lo..];
    var hi := if size <= 0 then lo else if size >= |s| - lo then |s| else lo + size;
    assert Page(s, start, size) == s[lo..hi];
    SliceKeepsOrder(s, le, lo, hi);
  }

  // ------------------------------------------------ the warehouse listing

  datatype WarehouseItemsQuery = WarehouseItemsQuery(
    pageNumber: int,
    pageSize: int,
    equipmentType: Option<string>,
    lowStockOnly: Option<bool>)

  datatype PagedResult<T> = PagedResult(items: seq<T>, totalCount: nat, pageNumber: int, pageSize: int)

  /** Ordering by equipment type, ordinal. */
  function ByType(a: WarehouseItem, b: WarehouseItem): bool {
    OrdinalLe(a.equipmentType, b.equipmentType)
  }

  lemma ByTypeIsTotalPreorder()
    ensures IsTotalPreorder(ByType)
  {
    forall a, b
      ensures ByType(a, b) || ByType(b, a)
    {
      OrdinalLeTotal(a.equipmentType, b.equipmentType);
    }
    forall a, b, c | ByType(a, b) && ByType(b, c)
      ensures ByType(a, c)
    {
      OrdinalLeTransitive(a.equipmentType, b.equipmentType, c.equipmentType);
    }
  }

  /** All the conditions a row must meet to be listed, in one place. */
  predicate ListedBy(q: WarehouseItemsQuery, w: WarehouseItem) {
    && !w.isDeleted
    && (IsNullOrWhiteSpace(q.equipmentType) || ContainsIgnoreCase(w.equipmentType, q.equipmentType.value))
    && (q.lowStockOnly == Some(true) ==> w.quantity <= w.minThreshold)
  }

  /**
   * The listing before paging: live rows, narrowed to a case-blind type match when a type is
   * given and to low stock when asked, ordered by type.
   */
  function ListWarehouseItems(all: seq<WarehouseItem>, q: WarehouseItemsQuery): (r: seq<WarehouseItem>)
    ensures forall w :: multiset(r)[w] == if ListedBy(q, w) then multiset(all)[w] else 0
    ensures SortedBy(r, ByType)
  {
    var live := Filter(all, (w: WarehouseItem) => !w.isDeleted);
    var typed :=
      if IsNullOrWhiteSpace(q.equipmentType) then live
      else
        var needle := q.equipmentType.value;
        Filter(live, (w: WarehouseItem) => ContainsIgnoreCase(w.equipmentType, needle));
    var low :=
      if q.lowStockOnly == Some(true) then Filter(typed, (w: WarehouseItem) => w.quantity <= w.minThreshold)
      else typed;
    ByTypeIsTotalPreorder();
    SortOrders(low, ByType);
    Sort(low, ByType)
  }

  /** The number of rows before page `pageNumber`: `(PageNumber - 1) * PageSize`, unbounded. */
  function Offset(pageNumber: int, pageSize: int): (r: int)
    ensures pageNumber >= 1 && pageSize >= 0 ==> r >= 0
  {
    (pageNumber - 1) * pageSize
  }

  /**
   * One page of the listing. TotalCount counts every listed row; item i of page p is row
   * (p - 1) * size + i of the ordered listing.
   */
  function GetWarehouseItems(all: seq<WarehouseItem>, q: WarehouseItemsQuery): (r: PagedResult<WarehouseItem>)
    ensures r.totalCount == |ListWarehouseItems(all, q)|
    ensures r.pageNumber == q.pageNumber && r.pageSize == q.pageSize
    ensures forall w :: w in r.items ==> w in all && ListedBy(q, w)
    ensures SortedBy(r.items, ByType)
    ensures |r.items| <= if q.pageSize < 0 then 0 else q.pageSize
    ensures q.pageNumber >= 1 && q.pageSize >= 0 ==>
      var start := Offset(q.pageNumber, q.pageSize);
      && |r.items| == (if r.totalCount <= start then 0
                       else if r.totalCount - start < q.pageSize then r.totalCount - start
                       else q.pageSize)
      && forall i :: 0 <= i < |r.items| ==> r.items[i] == ListWarehouseItems(all, q)[start + i]
  {
    var listed := ListWarehouseItems(all, q);
    var start := Offset(q.pageNumber, q.pageSize);
    var page := Page(listed, start, q.pageSize);
    PageKeepsOrder(listed, start, q.pageSize, ByType);
    forall w | w in page
      ensures w in all && ListedBy(q, w)
    {
      assert multiset(listed)[w] > 0;
    }
    PagedResult(page, |listed|, q.pageNumber, q.pageSize)
  }

  // ------------------------------------------------ the listing's paging arithmetic, as written

  /** `(PageNumber - 1) * PageSize` exactly as the handler computes it on Int32. */
  function SkipCountAsWritten(pageNumber: int, pageSize: int): int {
    Wrap32(Offset(pageNumber, pageSize))
  }

  function PageAsWritten(all: seq<WarehouseItem>, q: WarehouseItemsQuery): seq<WarehouseItem> {
    Page(ListWarehouseItems(all, q), SkipCountAsWritten(q.pageNumber, q.pageSize), q.pageSize)
  }

  /**
   * Page 21474838 of size 100 (both allowed by the query validator) overflows the skip count
   * to a negative number, so the handler returns the first page instead of an empty one.
   */
  lemma FarPageWrapsToFirstPage()
    ensures var w := WarehouseItem("Laptop", 1, 0, None, false);
      var q := WarehouseItemsQuery(21474838, 100, None, None);
      && PageAsWritten([w], q) == [w]
      && GetWarehouseItems([w], q).items == []
  {
    var w := WarehouseItem("Laptop", 1, 0, None, false);
    var q := WarehouseItemsQuery(21474838, 100, None, None);
    ListingOfOne(w, q);
    assert SkipCountAsWritten(q.pageNumber, q.pageSize) == -2147483596;
  }

  /** A listing of one row that the query accepts is that row. */
  lemma ListingOfOne(w: WarehouseItem, q: WarehouseItemsQuery)
    requires ListedBy(q, w)
    ensures ListWarehouseItems([w], q) == [w]
  {
    var listed := ListWarehouseItems([w], q);
    forall x
      ensures multiset(listed)[x] == multiset{w}[x]
    {
      assert multiset([w]) == multiset{w};
    }
    assert multiset(listed) == multiset{w};
    OnlyElement(listed, w);
  }

  lemma OnlyElement<T>(s: seq<T>, w: T)
    requires multiset(s) == multiset{w}
    ensures s == [w]
  {
    assert |s| == |multiset(s)| == 1;
    assert s[0] in multiset(s);
  }

  // ------------------------------------------------ a technician's work queue

  /** Newest request first. */
  function Later(a: MaintenanceRequest, b: MaintenanceRequest): bool {
    a.requestDate >= b.requestDate
  }

  /** Oldest request first. */
  function Earlier(a: MaintenanceRequest, b: MaintenanceRequest): bool {
    a.requestDate <= b.requestDate
  }

  predicate IsActive(m: MaintenanceRequest) {
    m.status == Pending || m.status == InProgress
  }

  /** A live request assigned to technician `t`. */
  predicate InQueueOf(t: string, m: MaintenanceRequest) {
    !m.isDeleted && m.technicianId == Some(t)
  }

  /** The repository fetch: the technician's live requests, newest first. */
  function RequestsOfTechnician(all: seq<MaintenanceRequest>, t: string): (r: seq<MaintenanceRequest>)
    ensures forall m :: multiset(r)[m] == if InQueueOf(t, m) then multiset(all)[m] else 0
    ensures SortedBy(r, Later)
  {
    var mine := Filter(all, (m: MaintenanceRequest) => InQueueOf(t, m));
    SortOrders(mine, Later);
    Sort(mine, Later)
  }

  /** The Pending and InProgress requests of `s`, oldest first. */
  function ActiveOldestFirst(s: seq<MaintenanceRequest>): (r: seq<MaintenanceRequest>)
    ensures forall m :: multiset(r)[m] == if IsActive(m) then multiset(s)[m] else 0
    ensures forall m :: m in r ==> m in s && IsActive(m)
    ensures SortedBy(r, Earlier)
  {
    var open := Filter(s, IsActive);
    SortOrders(open, Earlier);
    var r := Sort(open, Earlier);
    assert forall m :: m in r ==> multiset(r)[m] > 0;
    r
  }

  /** All the requests of `s`, newest first. */
  function NewestFirst(s: seq<MaintenanceRequest>): (r: seq<MaintenanceRequest>)
    ensures multiset(r) == multiset(s)
    ensures forall m :: m in r ==> m in s
    ensures SortedBy(r, Later)
  {
    SortOrders(s, Later);
    var r := Sort(s, Later);
    assert forall m :: m in r ==> multiset(r)[m] > 0;
    r
  }

  /**
   * The work queue: with `activeOnly` the Pending and InProgress requests, oldest first;
   * otherwise all the technician's requests, newest first.
   */
  function MaintenancesByTechnician(all: seq<MaintenanceRequest>, t: string, activeOnly: bool): (r: seq<MaintenanceRequest>)
    ensures forall m :: multiset(r)[m] == if InQueueOf(t, m) && (activeOnly ==> IsActive(m)) then multiset(all)[m] else 0
    ensures forall m :: m in r ==> m in all && m.technicianId == Some(t) && !m.isDeleted
    ensures activeOnly ==> forall m :: m in r ==> IsActive(m)
    ensures activeOnly ==> SortedBy(r, Earlier)
    ensures !activeOnly ==> SortedBy(r, Later)
  {
    var fetched := RequestsOfTechnician(all, t);
    assert forall m :: m in fetched ==> multiset(fetched)[m] > 0;
    if activeOnly then ActiveOldestFirst(fetched) else NewestFirst(fetched)
  }
}
