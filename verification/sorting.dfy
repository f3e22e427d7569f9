/**
  `sortStockItemsByQuantity`: a copy of the list sorted by quantity with the
  comparator `a.quantity - b.quantity` (negated when descending). The sort
  of `Array.prototype.sort` is stable, so items with equal quantities keep
  their list order in both directions.
*/
module Sorting {
  import opened Types
  import Seqs

  /** `a` may come before `b`: the comparator does not order `b` first. */
  predicate InOrder(a: StockItem, b: StockItem, ascending: bool) {
    if ascending then a.quantity <= b.quantity else a.quantity >= b.quantity
  }

  ghost predicate Sorted(s: seq<StockItem>, ascending: bool) {
    forall i, j | 0 <= i < j < |s| :: InOrder(s[i], s[j], ascending)
  }

  function QuantityIs(q: int): StockItem -> bool {
    (item: StockItem) => item.quantity == q
  }

  /** The items with quantity `q`, in list order. */
  function WithQuantity(s: seq<StockItem>, q: int): seq<StockItem> {
    Seqs.Filter(QuantityIs(q), s)
  }

  /** Inserts `x` before the first element it may precede, so that `x`
      stays ahead of the elements with the same quantity. */
  function Insert(x: StockItem, s: seq<StockItem>, ascending: bool): (r: seq<StockItem>)
    requires Sorted(s, ascending)
    ensures multiset(r) == multiset(s) + multiset{x}
    ensures Sorted(r, ascending)
  {
    if s == [] || InOrder(x, s[0], ascending) then
      HeadFirst(x, s, ascending);
      [x] + s
    else
      var rest := Insert(x, s[1..], ascending);
      HeadBeforeInserted(x, s, rest, ascending);
      assert s == [s[0]] + s[1..];
      [s[0]] + rest
  }

  /** Prepending an element that may precede every element keeps a list
      sorted. */
  lemma SortedCons(a: StockItem, rest: seq<StockItem>, ascending: bool)
    requires Sorted(rest, ascending)
    requires forall k | 0 <= k < |rest| :: InOrder(a, rest[k], ascending)
    ensures Sorted([a] + rest, ascending)
  {
    forall i, j | 0 <= i < j < |rest| + 1
      ensures InOrder(([a] + rest)[i], ([a] + rest)[j], ascending)
    {
      if i > 0 {
        assert ([a] + rest)[i] == rest[i - 1];
      }
      assert ([a] + rest)[j] == rest[j - 1];
    }
  }

  lemma HeadFirst(x: StockItem, s: seq<StockItem>, ascending: bool)
    requires Sorted(s, ascending)
    requires s == [] || InOrder(x, s[0], ascending)
    ensures Sorted([x] + s, ascending)
  {
    forall k | 0 <= k < |s| ensures InOrder(x, s[k], ascending) {
      assert InOrder(s[0], s[k], ascending) || k == 0;
    }
    SortedCons(x, s, ascending);
  }

  lemma HeadBeforeInserted(x: StockItem, s: seq<StockItem>, rest: seq<StockItem>, ascending: bool)
    requires Sorted(s, ascending) && s != [] && !InOrder(x, s[0], ascending)
    requires Sorted(rest, ascending)
    requires multiset(rest) == multiset(s[1..]) + multiset{x}
    ensures Sorted([s[0]] + rest, ascending)
  {
    forall k | 0 <= k < |rest| ensures InOrder(s[0], rest[k], ascending) {
      assert rest[k] in multiset(rest);
      if rest[k] != x {
        assert rest[k] in multiset(s[1..]);
        var j :| 0 <= j < |s[1..]| && s[1..][j] == rest[k];
        assert s[j + 1] == rest[k];
      }
    }
    SortedCons(s[0], rest, ascending);
  }

  /** `sortStockItemsByQuantity`. */
  function SortStockItemsByQuantity(items: seq<StockItem>, ascending: bool): (r: seq<StockItem>)
    ensures multiset(r) == multiset(items)
    ensures Sorted(r, ascending)
    ensures forall q :: WithQuantity(r, q) == WithQuantity(items, q)
  {
    if items == [] then []
    else
      var rest := SortStockItemsByQuantity(items[1..], ascending);
      assert items == [items[0]] + items[1..];
      InsertStable(items[0], rest, ascending);
      StableCons(items[0], items[1..], rest);
      Insert(items[0], rest, ascending)
  }

  /** Inserting `x` places it, among the items of its own quantity, in
      front. */
  lemma InsertStable(x: StockItem, s: seq<StockItem>, ascending: bool)
    requires Sorted(s, ascending)
    ensures forall q :: WithQuantity(Insert(x, s, ascending), q) == WithQuantity([x] + s, q)
  {
    forall q ensures WithQuantity(Insert(x, s, ascending), q) == WithQuantity([x] + s, q) {
      InsertStableAt(x, s, ascending, q);
    }
  }

  lemma {:induction false} InsertStableAt(x: StockItem, s: seq<StockItem>, ascending: bool, q: int)
    requires Sorted(s, ascending)
    ensures WithQuantity(Insert(x, s, ascending), q) == WithQuantity([x] + s, q)
  {
    if s != [] && !InOrder(x, s[0], ascending) {
      InsertStableAt(x, s[1..], ascending, q);
      assert Insert(x, s, ascending) == [s[0]] + Insert(x, s[1..], ascending);
      assert s == [s[0]] + s[1..];
      SwapPast(QuantityIs(q), x, s[0], s[1..], Insert(x, s[1..], ascending));
    }
  }

  /** Moving `x` past `y` does not change a filter that keeps at most one
      of them. */
  lemma SwapPast(p: StockItem -> bool, x: StockItem, y: StockItem, t: seq<StockItem>, u: seq<StockItem>)
    requires !p(x) || !p(y)
    requires Seqs.Filter(p, u) == Seqs.Filter(p, [x] + t)
    ensures Seqs.Filter(p, [y] + u) == Seqs.Filter(p, [x] + ([y] + t))
  {
    var fx, fy, ft := Seqs.Filter(p, [x]), Seqs.Filter(p, [y]), Seqs.Filter(p, t);
    calc {
      Seqs.Filter(p, [y] + u);
    == { Seqs.FilterConcat(p, [y], u); }
      fy + Seqs.Filter(p, u);
    == { Seqs.FilterConcat(p, [x], t); }
      fy + (fx + ft);
    == { Seqs.FilterSingle(p, x); Seqs.FilterSingle(p, y); SwapAroundEmpty(fx, fy, ft); }
      fx + (fy + ft);
    == { Seqs.FilterConcat(p, [y], t); }
      fx + Seqs.Filter(p, [y] + t);
    == { Seqs.FilterConcat(p, [x], [y] + t); }
      Seqs.Filter(p, [x] + ([y] + t));
    }
  }

  /** Two pieces, one of them empty, can be put in either order. */
  lemma SwapAroundEmpty<T>(a: seq<T>, b: seq<T>, c: seq<T>)
    requires a == [] || b == []
    ensures b + (a + c) == a + (b + c)
  {
  }

  lemma StableCons(x: StockItem, tail: seq<StockItem>, sortedTail: seq<StockItem>)
    requires forall q :: WithQuantity(sortedTail, q) == WithQuantity(tail, q)
    ensures forall q :: WithQuantity([x] + sortedTail, q) == WithQuantity([x] + tail, q)
  {
    forall q ensures WithQuantity([x] + sortedTail, q) == WithQuantity([x] + tail, q) {
      assert WithQuantity(sortedTail, q) == WithQuantity(tail, q);
      Seqs.FilterConcat(QuantityIs(q), [x], sortedTail);
      Seqs.FilterConcat(QuantityIs(q), [x], tail);
    }
  }
}
