/** The best-selling products report of the sales repository
    (getTopProducts in src/sales/repositories/sales.repository.ts): what it
    must contain, the descending sort and the `slice(0, limit)` it ends with. */
module TopProducts {
  import opened Common
  import opened Sums
  import opened Sales
  import opened ProductStore

  /** One entry of the report. */
  datatype TopProduct = TopProduct(productId: Id, productName: string, totalQuantity: real, totalRevenue: real)

  /** The running totals kept per product while the items are visited. */
  datatype Tally = Tally(name: string, quantity: real, revenue: real)

  /** The name shown when the item's product has none. */
  const UnknownProduct: string := "Produto desconhecido"

  /** `item.product?.name || 'Produto desconhecido'`: the product row is
      looked up by id alone, and a missing row or an empty name gives the
      placeholder. */
  function NameOf(products: map<Id, Product>, pid: Id): (r: string)
    ensures r != []
    ensures pid in products && products[pid].name != [] ==> r == products[pid].name
  {
    if pid in products && products[pid].name != [] then products[pid].name else UnknownProduct
  }

  /** The sales of one user, the rows `findAll(userId)` returns. */
  function Mine(rows: map<Id, Sale>, userId: Id): (r: map<Id, Sale>)
    ensures forall sid :: sid in r <==> sid in rows && rows[sid].userId == userId
    ensures forall sid :: sid in r ==> r[sid] == rows[sid]
  {
    map sid | sid in rows && rows[sid].userId == userId :: rows[sid]
  }

  /** Every product that occurs in an item of the given sales. */
  function Sold(sales: map<Id, Sale>): set<Id> {
    set sid, k | sid in sales && 0 <= k < |sales[sid].items| :: sales[sid].items[k].productId
  }

  /** Per sale, the quantity of pid it holds. */
  function QuantityBySale(sales: map<Id, Sale>, pid: Id): map<Id, real> {
    map sid | sid in sales :: Held(sales[sid].items, pid)
  }

  /** Per sale, the subtotals of pid it holds. */
  function RevenueBySale(sales: map<Id, Sale>, pid: Id): map<Id, real> {
    map sid | sid in sales :: Revenue(sales[sid].items, pid)
  }

  /** Quantity of pid over all the given sales. */
  ghost function SoldQuantity(sales: map<Id, Sale>, pid: Id): real {
    SumMap(QuantityBySale(sales, pid))
  }

  /** Revenue of pid over all the given sales. */
  ghost function SoldRevenue(sales: map<Id, Sale>, pid: Id): real {
    SumMap(RevenueBySale(sales, pid))
  }

  /** Adding a sale adds its items to the products sold and to each product's totals. */
  lemma AddSale(done: map<Id, Sale>, sid: Id, s: Sale, pid: Id)
    requires sid !in done
    ensures Sold(done[sid := s]) == Sold(done) + ProductIds(s.items)
    ensures SoldQuantity(done[sid := s], pid) == SoldQuantity(done, pid) + Held(s.items, pid)
    ensures SoldRevenue(done[sid := s], pid) == SoldRevenue(done, pid) + Revenue(s.items, pid)
  {
    var d := done[sid := s];
    assert QuantityBySale(d, pid) == QuantityBySale(done, pid)[sid := Held(s.items, pid)];
    assert RevenueBySale(d, pid) == RevenueBySale(done, pid)[sid := Revenue(s.items, pid)];
    SumMapInsert(QuantityBySale(done, pid), sid, Held(s.items, pid));
    SumMapInsert(RevenueBySale(done, pid), sid, Revenue(s.items, pid));
    forall x | x in Sold(d) ensures x in Sold(done) + ProductIds(s.items) {
      var t, k :| t in d && 0 <= k < |d[t].items| && d[t].items[k].productId == x;
      if t != sid {
        assert d[t] == done[t];
      }
    }
    forall x | x in Sold(done) + ProductIds(s.items) ensures x in Sold(d) {
      if x in Sold(done) {
        var t, k :| t in done && 0 <= k < |done[t].items| && done[t].items[k].productId == x;
        assert d[t] == done[t];
      } else {
        var k :| 0 <= k < |s.items| && s.items[k].productId == x;
        assert d[sid].items[k].productId == x;
      }
    }
  }

  /** The report is ordered by revenue, highest first. */
  predicate SortedByRevenue(s: seq<TopProduct>) {
    forall i, j :: 0 <= i < j < |s| ==> s[i].totalRevenue >= s[j].totalRevenue
  }

  /** Inserts x into a sorted list after every entry with a strictly higher
      revenue, and before the others, which it preceded in the input. */
  function Insert(x: TopProduct, s: seq<TopProduct>): (r: seq<TopProduct>)
    requires SortedByRevenue(s)
    ensures SortedByRevenue(r)
    ensures multiset(r) == multiset(s) + multiset{x}
    ensures |r| == |s| + 1
    ensures r[0] == x || (s != [] && r[0] == s[0])
  {
    if s == [] || s[0].totalRevenue <= x.totalRevenue then [x] + s
    else
      TailSorted(s);
      var rest := Insert(x, s[1..]);
      InsertStep(x, s, rest);
      [s[0]] + rest
  }

  /** The tail of a sorted list is sorted. */
  lemma TailSorted(s: seq<TopProduct>)
    requires s != [] && SortedByRevenue(s)
    ensures SortedByRevenue(s[1..])
  {
    assert forall i :: 0 <= i < |s| - 1 ==> s[1..][i] == s[i + 1];
  }

  /** Keeping the head of s in front of x inserted into its tail. */
  lemma InsertStep(x: TopProduct, s: seq<TopProduct>, rest: seq<TopProduct>)
    requires s != [] && SortedByRevenue(s) && x.totalRevenue < s[0].totalRevenue
    requires SortedByRevenue(rest) && multiset(rest) == multiset(s[1..]) + multiset{x}
    requires rest != [] && (rest[0] == x || (s[1..] != [] && rest[0] == s[1..][0]))
    ensures SortedByRevenue([s[0]] + rest)
    ensures multiset([s[0]] + rest) == multiset(s) + multiset{x}
  {
    assert s == [s[0]] + s[1..];
    ConsSorted(s[0], rest);
  }

  /** Putting an entry with at least the revenue of the head in front keeps a list sorted. */
  lemma ConsSorted(a: TopProduct, s: seq<TopProduct>)
    requires SortedByRevenue(s) && (s != [] ==> s[0].totalRevenue <= a.totalRevenue)
    ensures SortedByRevenue([a] + s)
  {
    forall i, j | 0 <= i < j < |[a] + s| ensures ([a] + s)[i].totalRevenue >= ([a] + s)[j].totalRevenue {
      if i > 0 {
        assert ([a] + s)[i] == s[i - 1];
      }
      assert ([a] + s)[j] == s[j - 1];
    }
  }

  /** `sort((a, b) => b.totalRevenue - a.totalRevenue)`, a stable sort by
      revenue, highest first. */
  function SortByRevenue(s: seq<TopProduct>): (r: seq<TopProduct>)
    ensures SortedByRevenue(r)
    ensures multiset(r) == multiset(s)
    ensures |r| == |s|
  {
    if s == [] then []
    else
      assert s == [s[0]] + s[1..];
      Insert(s[0], SortByRevenue(s[1..]))
  }

  /** The end index of `slice(0, limit)` on a list of length n: a negative
      limit counts from the end. */
  function SliceEnd(limit: int, n: nat): (r: nat)
    ensures r <= n
    ensures 0 <= limit ==> r == if limit < n then limit else n
    ensures limit < 0 ==> r == if n + limit < 0 then 0 else n + limit
  {
    if limit < 0 then (if n + limit < 0 then 0 else n + limit)
    else if limit < n then limit
    else n
  }

  /** An element that occurs at two positions occurs twice in the multiset. */
  lemma TwoPositions(s: seq<TopProduct>, i: int, j: int)
    requires 0 <= i < j < |s|
    ensures s[i] == s[j] ==> multiset(s)[s[i]] >= 2
  {
    if s[i] == s[j] {
      assert s == s[..i] + [s[i]] + s[i + 1..j] + [s[j]] + s[j + 1..];
    }
  }

  /** Sorting keeps product ids pairwise distinct. */
  lemma SortKeepsIdsDistinct(s: seq<TopProduct>, r: seq<TopProduct>)
    requires forall i, j :: 0 <= i < j < |s| ==> s[i].productId != s[j].productId
    requires multiset(r) == multiset(s)
    ensures forall i, j :: 0 <= i < j < |r| ==> r[i].productId != r[j].productId
  {
    forall i, j | 0 <= i < j < |r| ensures r[i].productId != r[j].productId {
      assert r[i] in multiset(s) && r[j] in multiset(s);
      var a :| 0 <= a < |s| && s[a] == r[i];
      var b :| 0 <= b < |s| && s[b] == r[j];
      TwoPositions(r, i, j);
      DistinctOnce(s, a);
      assert r[i] != r[j];
      assert a != b;
    }
  }

  /** In a list with distinct ids every entry occurs once. */
  lemma {:induction false} DistinctOnce(s: seq<TopProduct>, a: int)
    requires forall i, j :: 0 <= i < j < |s| ==> s[i].productId != s[j].productId
    requires 0 <= a < |s|
    ensures multiset(s)[s[a]] == 1
  {
    var x := s[a];
    assert s == s[..a] + [x] + s[a + 1..];
    assert x !in s[..a] by {
      forall k | 0 <= k < a ensures s[..a][k] != x {
        assert s[..a][k] == s[k];
      }
    }
    var tail := s[a + 1..];
    assert x !in tail by {
      forall k | 0 <= k < |tail| ensures tail[k] != x {
        assert tail[k] == s[a + 1 + k];
      }
    }
  }

  /** What the report leaves out never outsold what it keeps: every entry of
      a sorted list beyond the cut has at most the revenue of every entry before it. */
  lemma CutIsTop(sorted: seq<TopProduct>, n: nat, e: TopProduct)
    requires SortedByRevenue(sorted) && n <= |sorted|
    requires e in multiset(sorted) && e !in sorted[..n]
    ensures forall i :: 0 <= i < n ==> e.totalRevenue <= sorted[i].totalRevenue
  {
    assert forall k :: 0 <= k < n ==> sorted[k] != e by {
      forall k | 0 <= k < n ensures sorted[k] != e {
        assert sorted[..n][k] == sorted[k];
      }
    }
    var m :| 0 <= m < |sorted| && sorted[m] == e;
    assert n <= m;
  }

  /** The running quantity of pid, zero before its first item. */
  function QuantityOf(agg: map<Id, Tally>, pid: Id): real {
    if pid in agg then agg[pid].quantity else 0.0
  }

  /** The running revenue of pid, zero before its first item. */
  function RevenueOf(agg: map<Id, Tally>, pid: Id): real {
    if pid in agg then agg[pid].revenue else 0.0
  }

  /** `Array.from(productMap.entries()).map(...)`: one entry per product, in
      the order the products were first seen. */
  function Entries(agg: map<Id, Tally>, order: seq<Id>): (r: seq<TopProduct>)
    requires forall k :: 0 <= k < |order| ==> order[k] in agg
    ensures |r| == |order|
    ensures forall k :: 0 <= k < |order| ==>
              r[k] == TopProduct(order[k], agg[order[k]].name, agg[order[k]].quantity, agg[order[k]].revenue)
  {
    seq(|order|, k requires 0 <= k < |order| =>
      TopProduct(order[k], agg[order[k]].name, agg[order[k]].quantity, agg[order[k]].revenue))
  }

  /** The tallies and their order agree: one tally per product in `order`,
      no product twice, each named after its product. */
  ghost predicate Consistent(agg: map<Id, Tally>, order: seq<Id>, products: map<Id, Product>) {
    && Distinct(order)
    && (forall pid :: pid in order <==> pid in agg)
    && (forall pid :: pid in agg ==> agg[pid].name == NameOf(products, pid))
  }

  /** agg is agg0 with the items of `items` added: the same tallies plus
      one per new product, and each product's totals grown by what the
      items hold of it. */
  ghost predicate Tallied(agg0: map<Id, Tally>, agg: map<Id, Tally>, items: seq<SaleItem>) {
    && agg.Keys == agg0.Keys + ProductIds(items)
    && (forall pid :: QuantityOf(agg, pid) == QuantityOf(agg0, pid) + Held(items, pid))
    && (forall pid :: RevenueOf(agg, pid) == RevenueOf(agg0, pid) + Revenue(items, pid))
  }

  /** agg holds, for every product sold in `sales`, its total quantity and revenue. */
  ghost predicate Summarises(agg: map<Id, Tally>, sales: map<Id, Sale>) {
    && agg.Keys == Sold(sales)
    && (forall pid :: QuantityOf(agg, pid) == SoldQuantity(sales, pid))
    && (forall pid :: RevenueOf(agg, pid) == SoldRevenue(sales, pid))
  }

  /** The body of the inner `forEach`: the item adds its quantity and
      subtotal to its product's tally, which is created (with the product's
      name) the first time the product is seen. */
  method TallyItem(agg0: map<Id, Tally>, order0: seq<Id>, item: SaleItem, products: map<Id, Product>)
    returns (agg: map<Id, Tally>, order: seq<Id>)
    requires Consistent(agg0, order0, products)
    ensures Consistent(agg, order, products)
    ensures Tallied(agg0, agg, [item])
  {
    var t := if item.productId in agg0 then agg0[item.productId]
             else Tally(NameOf(products, item.productId), 0.0, 0.0);
    order := order0;
    if item.productId !in agg0 {
      order := order0 + [item.productId];
      assert forall k :: 0 <= k < |order0| ==> order[k] == order0[k];
    }
    agg := agg0[item.productId := Tally(t.name, t.quantity + item.quantity, t.revenue + item.subtotal)];
    assert [item][..0] == [];
    assert ProductIds([item]) == {item.productId} by {
      assert [item][0] == item;
    }
  }

  /** The inner `forEach` over one sale's items. */
  method TallyItems(agg0: map<Id, Tally>, order0: seq<Id>, items: seq<SaleItem>, products: map<Id, Product>)
    returns (agg: map<Id, Tally>, order: seq<Id>)
    requires Consistent(agg0, order0, products)
    ensures Consistent(agg, order, products)
    ensures Tallied(agg0, agg, items)
  {
    agg, order := agg0, order0;
    var j := 0;
    assert items[..0] == [];
    assert ProductIds([]) == {};
    while j < |items|
      invariant 0 <= j <= |items|
      invariant Consistent(agg, order, products)
      invariant Tallied(agg0, agg, items[..j])
    {
      ghost var before := agg;
      agg, order := TallyItem(agg, order, items[j], products);
      TalliedStep(agg0, before, agg, items, j);
      j := j + 1;
    }
    assert items[..j] == items;
  }

  /** Tallying a prefix and then the next item tallies the longer prefix. */
  lemma TalliedStep(agg0: map<Id, Tally>, agg1: map<Id, Tally>, agg2: map<Id, Tally>, items: seq<SaleItem>, j: int)
    requires 0 <= j < |items|
    requires Tallied(agg0, agg1, items[..j]) && Tallied(agg1, agg2, [items[j]])
    ensures Tallied(agg0, agg2, items[..j + 1])
  {
    var x := items[j];
    assert items[..j + 1][..j] == items[..j];
    assert items[..j + 1][j] == x;
    assert [x][..0] == [];
    forall k | 0 <= k < j ensures items[..j + 1][k] == items[..j][k] {
    }
    assert ProductIds([x]) == {x.productId} by {
      assert [x][0] == x;
    }
    assert ProductIds(items[..j + 1]) == ProductIds(items[..j]) + {x.productId};
    forall pid
      ensures QuantityOf(agg2, pid) == QuantityOf(agg0, pid) + Held(items[..j + 1], pid)
      ensures RevenueOf(agg2, pid) == RevenueOf(agg0, pid) + Revenue(items[..j + 1], pid)
    {
      assert Held([x], pid) == if x.productId == pid then x.quantity else 0.0;
      assert Revenue([x], pid) == if x.productId == pid then x.subtotal else 0.0;
      assert Held(items[..j + 1], pid) == Held(items[..j], pid) + Held([x], pid);
      assert Revenue(items[..j + 1], pid) == Revenue(items[..j], pid) + Revenue([x], pid);
    }
  }

  /** No sales, nothing sold. */
  lemma NothingSold(agg: map<Id, Tally>)
    requires agg == map[]
    ensures Summarises(agg, map[])
  {
    forall pid ensures SoldQuantity(map[], pid) == 0.0 && SoldRevenue(map[], pid) == 0.0 {
      assert QuantityBySale(map[], pid) == map[];
      assert RevenueBySale(map[], pid) == map[];
    }
  }

  /** Tallying the items of one more sale summarises the larger set of sales. */
  lemma SummarisesStep(agg: map<Id, Tally>, agg': map<Id, Tally>, done: map<Id, Sale>, sid: Id, s: Sale)
    requires sid !in done
    requires Summarises(agg, done) && Tallied(agg, agg', s.items)
    ensures Summarises(agg', done[sid := s])
  {
    AddSale(done, sid, s, sid);
    forall pid
      ensures SoldQuantity(done[sid := s], pid) == SoldQuantity(done, pid) + Held(s.items, pid)
      ensures SoldRevenue(done[sid := s], pid) == SoldRevenue(done, pid) + Revenue(s.items, pid)
    {
      AddSale(done, sid, s, pid);
    }
  }

  /** The outer `forEach` over the user's sales, visited in whatever order
      the query returned them: afterwards every product sold has one tally
      holding its total quantity and total revenue. */
  method TallySales(sales: map<Id, Sale>, products: map<Id, Product>)
    returns (agg: map<Id, Tally>, order: seq<Id>)
    ensures Consistent(agg, order, products)
    ensures Summarises(agg, sales)
  {
    agg, order := map[], [];
    var rest := sales;
    ghost var done: map<Id, Sale> := map[];
    NothingSold(agg);
    while rest != map[]
      invariant forall sid :: sid in sales <==> sid in done || sid in rest
      invariant forall sid :: sid in done ==> sid !in rest && done[sid] == sales[sid]
      invariant forall sid :: sid in rest ==> rest[sid] == sales[sid]
      invariant Consistent(agg, order, products)
      invariant Summarises(agg, done)
      decreases |rest|
    {
      var sid :| sid in rest;
      var sale := rest[sid];
      ghost var before := agg;
      agg, order := TallyItems(agg, order, sale.items, products);
      SummarisesStep(before, agg, done, sid, sale);
      done := done[sid := sale];
      rest := rest - {sid};
    }
    assert done == sales;
  }

  /** pid has an entry in the report. */
  predicate Listed(r: seq<TopProduct>, pid: Id) {
    exists i :: 0 <= i < |r| && r[i].productId == pid
  }

  /** The tail of getTopProducts: entries, sort, `slice(0, limit)`. */
  function Ranked(agg: map<Id, Tally>, order: seq<Id>, limit: int): (r: seq<TopProduct>)
    requires forall k :: 0 <= k < |order| ==> order[k] in agg
  {
    var sorted := SortByRevenue(Entries(agg, order));
    sorted[..SliceEnd(limit, |sorted|)]
  }

  /** The report has one entry per product sold, up to the limit. */
  lemma RankedLength(agg: map<Id, Tally>, order: seq<Id>, sales: map<Id, Sale>, products: map<Id, Product>, limit: int)
    requires Consistent(agg, order, products) && Summarises(agg, sales)
    ensures |Ranked(agg, order, limit)| == SliceEnd(limit, |Sold(sales)|)
  {
    DistinctCardinality(order);
    assert (set x | x in order) == Sold(sales);
  }

  /** e is the entry of a product sold, under its name, with its totals. */
  ghost predicate Accurate(e: TopProduct, sales: map<Id, Sale>, products: map<Id, Product>) {
    && e.productId in Sold(sales)
    && e.productName == NameOf(products, e.productId)
    && e.totalQuantity == SoldQuantity(sales, e.productId)
    && e.totalRevenue == SoldRevenue(sales, e.productId)
  }

  /** Every entry built from a summary of the sales is accurate. */
  lemma EntriesAccurate(agg: map<Id, Tally>, order: seq<Id>, sales: map<Id, Sale>, products: map<Id, Product>)
    requires Consistent(agg, order, products) && Summarises(agg, sales)
    ensures forall e :: e in multiset(Entries(agg, order)) ==> Accurate(e, sales, products)
  {
    var entries := Entries(agg, order);
    forall e | e in multiset(entries) ensures Accurate(e, sales, products) {
      var k :| 0 <= k < |entries| && entries[k] == e;
      assert QuantityOf(agg, order[k]) == SoldQuantity(sales, order[k]);
      assert RevenueOf(agg, order[k]) == SoldRevenue(sales, order[k]);
    }
  }

  /** The report is sorted and lists no product twice. */
  lemma RankedSorted(agg: map<Id, Tally>, order: seq<Id>, products: map<Id, Product>, limit: int)
    requires Consistent(agg, order, products)
    ensures var r := Ranked(agg, order, limit);
            && SortedByRevenue(r)
            && (forall i, j :: 0 <= i < j < |r| ==> r[i].productId != r[j].productId)
  {
    var entries := Entries(agg, order);
    var sorted := SortByRevenue(entries);
    SortKeepsIdsDistinct(entries, sorted);
    PrefixSorted(sorted, SliceEnd(limit, |sorted|));
  }

  /** A prefix of a sorted list without repeated products is one too. */
  lemma PrefixSorted(s: seq<TopProduct>, n: nat)
    requires n <= |s| && SortedByRevenue(s)
    requires forall i, j :: 0 <= i < j < |s| ==> s[i].productId != s[j].productId
    ensures SortedByRevenue(s[..n])
    ensures forall i, j :: 0 <= i < j < n ==> s[..n][i].productId != s[..n][j].productId
  {
    assert forall i :: 0 <= i < n ==> s[..n][i] == s[i];
  }

  /** Each entry of the report is accurate. */
  lemma RankedAccurate(agg: map<Id, Tally>, order: seq<Id>, sales: map<Id, Sale>, products: map<Id, Product>, limit: int)
    requires Consistent(agg, order, products) && Summarises(agg, sales)
    ensures var r := Ranked(agg, order, limit);
            forall i :: 0 <= i < |r| ==> Accurate(r[i], sales, products)
  {
    var entries := Entries(agg, order);
    var sorted := SortByRevenue(entries);
    EntriesAccurate(agg, order, sales, products);
    PrefixAccurate(entries, sorted, SliceEnd(limit, |sorted|), sales, products);
  }

  /** A prefix of a permutation of accurate entries is accurate. */
  lemma PrefixAccurate(entries: seq<TopProduct>, sorted: seq<TopProduct>, n: nat, sales: map<Id, Sale>, products: map<Id, Product>)
    requires forall e :: e in multiset(entries) ==> Accurate(e, sales, products)
    requires multiset(sorted) == multiset(entries) && n <= |sorted|
    ensures forall i :: 0 <= i < |sorted[..n]| ==> Accurate(sorted[..n][i], sales, products)
  {
    forall i | 0 <= i < n ensures Accurate(sorted[..n][i], sales, products) {
      assert sorted[..n][i] == sorted[i];
      assert sorted[i] in multiset(sorted);
    }
  }

  /** No product left out of the report sold more than any product in it. */
  lemma RankedTop(agg: map<Id, Tally>, order: seq<Id>, sales: map<Id, Sale>, products: map<Id, Product>, limit: int)
    requires Consistent(agg, order, products) && Summarises(agg, sales)
    ensures var r := Ranked(agg, order, limit);
            forall pid :: pid in Sold(sales) && !Listed(r, pid) ==>
              forall i :: 0 <= i < |r| ==> SoldRevenue(sales, pid) <= r[i].totalRevenue
  {
    var r := Ranked(agg, order, limit);
    forall pid | pid in Sold(sales) && !Listed(r, pid)
      ensures forall i :: 0 <= i < |r| ==> SoldRevenue(sales, pid) <= r[i].totalRevenue
    {
      OmittedBelow(agg, order, sales, products, limit, pid);
    }
  }

  /** The entry a sold product gets, with its total revenue. */
  lemma EntryFor(agg: map<Id, Tally>, order: seq<Id>, sales: map<Id, Sale>, products: map<Id, Product>, pid: Id)
    returns (e: TopProduct)
    requires Consistent(agg, order, products) && Summarises(agg, sales) && pid in Sold(sales)
    ensures e in multiset(Entries(agg, order)) && e.productId == pid
    ensures e.totalRevenue == SoldRevenue(sales, pid)
  {
    var entries := Entries(agg, order);
    assert pid in order;
    var k :| 0 <= k < |order| && order[k] == pid;
    e := entries[k];
    assert RevenueOf(agg, pid) == SoldRevenue(sales, pid);
  }

  /** One product left out of the report sold no more than any product in it. */
  lemma OmittedBelow(agg: map<Id, Tally>, order: seq<Id>, sales: map<Id, Sale>, products: map<Id, Product>, limit: int, pid: Id)
    requires Consistent(agg, order, products) && Summarises(agg, sales)
    requires pid in Sold(sales) && !Listed(Ranked(agg, order, limit), pid)
    ensures var r := Ranked(agg, order, limit);
            forall i :: 0 <= i < |r| ==> SoldRevenue(sales, pid) <= r[i].totalRevenue
  {
    var entries := Entries(agg, order);
    var sorted := SortByRevenue(entries);
    var r := Ranked(agg, order, limit);
    assert r == sorted[..|r|];
    var e := EntryFor(agg, order, sales, products, pid);
    assert e in multiset(sorted);
    assert e !in sorted[..|r|] by {
      assert forall i :: 0 <= i < |r| ==> r[i].productId != pid;
    }
    CutIsTop(sorted, |r|, e);
  }
}
