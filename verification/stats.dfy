/**
  Read-side aggregates: the dashboard statistics and the client holding the
  most pieces.
*/
module Stats {
  import opened Wrappers
  import opened Types
  import Seqs

  /** Items with fewer pieces than this are low on stock. */
  const LowStockThreshold := 10

  datatype DashboardStats = DashboardStats(
    totalClients: int,
    totalSKUs: int,
    totalPieces: int,
    lowStockItems: int)

  /** `items.reduce((sum, item) => sum + item.quantity, 0)`, folded from the
      left as `reduce` does. */
  function TotalQuantity(items: seq<StockItem>): int {
    if items == [] then 0
    else TotalQuantity(items[..|items| - 1]) + items[|items| - 1].quantity
  }

  /** `item => item.quantity < 10`. */
  function IsLowStock(): StockItem -> bool {
    (item: StockItem) => item.quantity < LowStockThreshold
  }

  /** `new Set(items.map(item => item.sku))`: the distinct SKU strings,
      compared exactly (case matters). */
  function SkuSet(items: seq<StockItem>): set<string> {
    set item | item in items :: item.sku
  }

  /** The positions whose SKU string does not occur earlier in the list:
      one position per distinct SKU, at its first occurrence. */
  ghost function FirstSkuPositions(items: seq<StockItem>): set<int> {
    set i | 0 <= i < |items| && forall j | 0 <= j < i :: items[j].sku != items[i].sku
  }

  /** `calculateDashboardStats`. */
  function CalculateDashboardStats(clients: seq<Client>, items: seq<StockItem>): (r: DashboardStats)
    ensures r.totalClients == |clients|
    ensures r.totalSKUs == |FirstSkuPositions(items)|
    ensures r.totalSKUs <= |items|
    ensures |items| > 0 ==> r.totalSKUs >= 1
    ensures Seqs.Injective(Sku, items) ==> r.totalSKUs == |items|
    ensures r.totalPieces == TotalQuantity(items)
    ensures (forall k | 0 <= k < |items| :: items[k].quantity >= 0) ==> r.totalPieces >= 0
    ensures r.lowStockItems == |Seqs.MatchingPositions(IsLowStock(), items)| <= |items|
  {
    SkuSetBounds(items);
    SkuSetCountsFirstPositions(items);
    TotalQuantityNonNegative(items);
    Seqs.FilterCount(IsLowStock(), items);
    DashboardStats(
      |clients|,
      |SkuSet(items)|,
      TotalQuantity(items),
      |Seqs.Filter(IsLowStock(), items)|)
  }

  /** The set of SKU strings has at most one element per item, at least one
      when there are items, and exactly one per item when they all differ. */
  lemma {:induction false} SkuSetBounds(items: seq<StockItem>)
    ensures |SkuSet(items)| <= |items|
    ensures |items| > 0 ==> |SkuSet(items)| >= 1
    ensures Seqs.Injective(Sku, items) ==> |SkuSet(items)| == |items|
  {
    if items == [] {
      assert SkuSet(items) == {};
    } else {
      var init, x := items[..|items| - 1], items[|items| - 1];
      SkuSetSnoc(items);
      SkuSetBounds(init);
      if Seqs.Injective(Sku, items) {
        assert Seqs.Injective(Sku, init) by {
          assert forall k | 0 <= k < |init| :: init[k] == items[k];
        }
        NewSkuNotInInit(items);
      }
    }
  }

  lemma SkuSetSnoc(items: seq<StockItem>)
    requires |items| > 0
    ensures SkuSet(items) == SkuSet(items[..|items| - 1]) + {items[|items| - 1].sku}
  {
    assert items == items[..|items| - 1] + [items[|items| - 1]];
  }

  /** With distinct SKUs the last SKU is new. */
  lemma NewSkuNotInInit(items: seq<StockItem>)
    requires |items| > 0 && Seqs.Injective(Sku, items)
    ensures items[|items| - 1].sku !in SkuSet(items[..|items| - 1])
  {
    var init, x := items[..|items| - 1], items[|items| - 1];
    forall item | item in init ensures item.sku != x.sku {
      var k :| 0 <= k < |init| && init[k] == item;
      assert items[k] == item;
      assert Sku(items[k]) != Sku(items[|items| - 1]);
    }
  }

  /** The distinct SKU strings are as many as the positions where a SKU
      first occurs. */
  lemma {:induction false} SkuSetCountsFirstPositions(items: seq<StockItem>)
    ensures |SkuSet(items)| == |FirstSkuPositions(items)|
  {
    if items == [] {
      assert SkuSet(items) == {};
      assert FirstSkuPositions(items) == {};
    } else {
      var init, last := items[..|items| - 1], |items| - 1;
      SkuSetSnoc(items);
      SkuSetCountsFirstPositions(init);
      var isNew := items[last].sku !in SkuSet(init);
      FirstPositionsSnoc(items, isNew);
      assert last !in FirstSkuPositions(init);
    }
  }

  /** Appending an item adds its position to the first occurrences exactly
      when its SKU is new. */
  lemma FirstPositionsSnoc(items: seq<StockItem>, isNew: bool)
    requires |items| > 0
    requires isNew == (items[|items| - 1].sku !in SkuSet(items[..|items| - 1]))
    ensures FirstSkuPositions(items) ==
      FirstSkuPositions(items[..|items| - 1]) + (if isNew then {|items| - 1} else {})
  {
    var init, last := items[..|items| - 1], |items| - 1;
    assert forall j | 0 <= j < last :: items[j] == init[j];
    if isNew {
      forall j | 0 <= j < last ensures items[j].sku != items[last].sku {
        assert init[j] in init;
      }
    } else {
      var o :| o in init && o.sku == items[last].sku;
      var j :| 0 <= j < |init| && init[j] == o;
      assert items[j].sku == items[last].sku;
    }
  }

  /** Summing distributes over concatenation. */
  lemma {:induction false} TotalQuantityConcat(a: seq<StockItem>, b: seq<StockItem>)
    ensures TotalQuantity(a + b) == TotalQuantity(a) + TotalQuantity(b)
    decreases |b|
  {
    if b == [] {
      assert a + b == a;
    } else {
      assert (a + b)[..|a + b| - 1] == a + b[..|b| - 1];
      TotalQuantityConcat(a, b[..|b| - 1]);
    }
  }

  /** Non-negative quantities add up to a non-negative total. */
  lemma {:induction false} TotalQuantityNonNegative(items: seq<StockItem>)
    ensures (forall k | 0 <= k < |items| :: items[k].quantity >= 0) ==> TotalQuantity(items) >= 0
  {
    if items != [] {
      TotalQuantityNonNegative(items[..|items| - 1]);
    }
  }

  /** Two clients stocking the same SKU code count it once. */
  lemma SharedSkuCountsOnce(a: StockItem, b: StockItem)
    requires a.sku == b.sku && a.clientId != b.clientId
    ensures CalculateDashboardStats([], [a, b]).totalSKUs == 1
  {
    assert SkuSet([a, b]) == {a.sku};
  }

  /** The pieces held by the client with the given id. */
  function PiecesOf(items: seq<StockItem>, id: int): int {
    TotalQuantity(OwnedBy(items, id))
  }

  /** The dashboard's "client with most pieces": a `reduce` over the client
      list that starts from the first client and replaces the running
      maximum only on a strictly larger total, so the earliest client among
      those with the largest total wins. With no clients there is no winner
      and the count is 0. */
  method ClientWithMostPieces(clients: seq<Client>, items: seq<StockItem>)
    returns (best: Option<Client>, count: int)
    ensures |clients| == 0 ==> best == None && count == 0
    ensures |clients| > 0 ==> exists i | 0 <= i < |clients| ::
      && best == Some(clients[i])
      && count == PiecesOf(items, clients[i].id)
      && forall k | 0 <= k < i :: PiecesOf(items, clients[k].id) < count
    ensures forall k | 0 <= k < |clients| :: PiecesOf(items, clients[k].id) <= count
  {
    if |clients| == 0 {
      return None, 0;
    }
    // The pieces of each client, as the callback computes them.
    var totals := Seqs.Map((c: Client) => PiecesOf(items, c.id), clients);
    var at := 0;
    var i := 0;
    while i < |clients|
      invariant 0 <= i <= |clients|
      invariant 0 <= at < |clients| && at <= i
      invariant forall k | 0 <= k < i :: totals[k] <= totals[at]
      invariant forall k | 0 <= k < at :: totals[k] < totals[at]
    {
      if totals[i] > totals[at] {
        at := i;
      }
      i := i + 1;
    }
    assert forall k | 0 <= k < |clients| :: totals[k] == PiecesOf(items, clients[k].id);
    best := Some(clients[at]);
    count := totals[at];
  }
}
