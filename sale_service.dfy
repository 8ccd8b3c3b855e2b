/** The sales service (src/sales/sales.service.ts): creating, updating and
    deleting a sale while keeping the stock of its products in step. Every
    check runs before the first write, so a request that fails changes
    nothing. */
module SaleService {
  import opened Common
  import opened Calendar
  import opened Sales
  import opened ProductStore
  import opened SaleStore

  // ---------------------------------------------------------------------
  // The checks

  /** A request line passes its check: the user owns the product, and the
      product's stock plus the credit for what the sale already holds of it
      (the first old line of that product) covers the quantity. */
  predicate LineOk(rows: map<Id, Product>, userId: Id, x: ItemInput, credit: seq<SaleItem>) {
    Owned(rows, x.productId, userId)
    && x.quantity <= rows[x.productId].stockQuantity + FirstHeld(credit, x.productId)
  }

  /** The exception a failing line raises. */
  function LineError(rows: map<Id, Product>, userId: Id, x: ItemInput, credit: seq<SaleItem>): Error {
    if Owned(rows, x.productId, userId)
    then InsufficientStock(x.productId, rows[x.productId].stockQuantity + FirstHeld(credit, x.productId), x.quantity)
    else ProductNotFound(x.productId)
  }

  /** The per-line checks, in request order: the first failing line decides
      the exception. Each line is checked against the stock as it is, so two
      lines of one product are not added up. */
  function CheckItems(rows: map<Id, Product>, userId: Id, xs: seq<ItemInput>, credit: seq<SaleItem>): (r: Outcome)
    ensures r.Pass? <==> forall k :: 0 <= k < |xs| ==> LineOk(rows, userId, xs[k], credit)
    ensures r.Fail? ==> r.error.ProductNotFound? || r.error.InsufficientStock?
  {
    if xs == [] then Pass
    else if !LineOk(rows, userId, xs[0], credit) then Fail(LineError(rows, userId, xs[0], credit))
    else
      var r := CheckItems(rows, userId, xs[1..], credit);
      assert forall k :: 1 <= k < |xs| ==> xs[1..][k - 1] == xs[k];
      r
  }

  /** The exception is the one of the first line that fails. */
  lemma {:induction false} FirstFailure(rows: map<Id, Product>, userId: Id, xs: seq<ItemInput>, credit: seq<SaleItem>, i: int)
    requires 0 <= i < |xs| && !LineOk(rows, userId, xs[i], credit)
    requires forall k :: 0 <= k < i ==> LineOk(rows, userId, xs[k], credit)
    ensures CheckItems(rows, userId, xs, credit) == Fail(LineError(rows, userId, xs[i], credit))
  {
    if i > 0 {
      assert forall k :: 0 <= k < i - 1 ==> xs[1..][k] == xs[k + 1];
      FirstFailure(rows, userId, xs[1..], credit, i - 1);
    }
  }

  /** The tolerance between a declared and the computed total. */
  const Tolerance: real := 0.01

  /** All checks of createSale, in order: at least one line, every line's
      product found with enough stock, and the declared total within the
      tolerance of the computed one. */
  function CreateCheck(rows: map<Id, Product>, userId: Id, data: NewSale): (r: Outcome)
    ensures r.Pass? <==>
              && |data.items| > 0
              && (forall k :: 0 <= k < |data.items| ==> LineOk(rows, userId, data.items[k], []))
              && Abs(Computed(data.items) - data.totalAmount) <= Tolerance
    ensures |data.items| == 0 ==> r == Fail(EmptyItems)
    ensures |data.items| > 0 && CheckItems(rows, userId, data.items, []).Fail? ==>
              r == CheckItems(rows, userId, data.items, [])
    ensures |data.items| > 0 && CheckItems(rows, userId, data.items, []).Pass?
            && Abs(Computed(data.items) - data.totalAmount) > Tolerance ==>
              r == Fail(TotalMismatch(data.totalAmount, Computed(data.items)))
  {
    if |data.items| == 0 then Fail(EmptyItems)
    else if CheckItems(rows, userId, data.items, []).Fail? then CheckItems(rows, userId, data.items, [])
    else if Abs(Computed(data.items) - data.totalAmount) > Tolerance
    then Fail(TotalMismatch(data.totalAmount, Computed(data.items)))
    else Pass
  }

  /** `data.items && data.items.length > 0`: the update brings a new,
      non-empty item list. An empty list does not count, although the
      repository still replaces the items with it. */
  predicate ReplacesItems(patch: SalePatch) {
    patch.items.Set? && |patch.items.value| > 0
  }

  /** All checks of updateSale once the sale is found. Only a non-empty new
      item list is checked; the lines are checked with the sale's old lines
      as credit, and a declared total is compared only when it is non-zero
      (`data.totalAmount && ...`). */
  function UpdateCheck(rows: map<Id, Product>, userId: Id, sale: Sale, patch: SalePatch): (r: Outcome)
    ensures r.Pass? <==>
              !ReplacesItems(patch)
              || (&& (forall k :: 0 <= k < |patch.items.value| ==> LineOk(rows, userId, patch.items.value[k], sale.items))
                  && (patch.totalAmount.Set? && patch.totalAmount.value != 0.0 ==>
                        Abs(Computed(patch.items.value) - patch.totalAmount.value) <= Tolerance))
    ensures ReplacesItems(patch) && CheckItems(rows, userId, patch.items.value, sale.items).Fail? ==>
              r == CheckItems(rows, userId, patch.items.value, sale.items)
    ensures ReplacesItems(patch) && CheckItems(rows, userId, patch.items.value, sale.items).Pass?
            && patch.totalAmount.Set? && patch.totalAmount.value != 0.0
            && Abs(Computed(patch.items.value) - patch.totalAmount.value) > Tolerance ==>
              r == Fail(TotalMismatch(patch.totalAmount.value, Computed(patch.items.value)))
  {
    if !ReplacesItems(patch) then Pass
    else
      var xs := patch.items.value;
      if CheckItems(rows, userId, xs, sale.items).Fail? then CheckItems(rows, userId, xs, sale.items)
      else if patch.totalAmount.Set? && patch.totalAmount.value != 0.0
              && Abs(Computed(xs) - patch.totalAmount.value) > Tolerance
      then Fail(TotalMismatch(patch.totalAmount.value, Computed(xs)))
      else Pass
  }

  /** The request the service forwards to the repository: with a new item
      list and no declared total, the computed total is filled in. */
  function Forwarded(patch: SalePatch): (p: SalePatch)
    ensures p.items == patch.items
    ensures ReplacesItems(patch) && patch.totalAmount.Keep? ==> p.totalAmount == Set(Computed(patch.items.value))
    ensures !(ReplacesItems(patch) && patch.totalAmount.Keep?) ==> p == patch
  {
    if ReplacesItems(patch) && patch.totalAmount.Keep? then patch.(totalAmount := Set(Computed(patch.items.value)))
    else patch
  }

  // ---------------------------------------------------------------------
  // The stock bookkeeping

  /** The product table after a sale releases the items `released` and
      consumes the lines `consumed`: each of the user's products gains what
      was released of it and loses what was consumed of it; other users'
      products and all other fields are untouched. */
  function ShiftStock(rows: map<Id, Product>, userId: Id, released: seq<SaleItem>, consumed: seq<ItemInput>): map<Id, Product> {
    map pid | pid in rows ::
      if rows[pid].userId == userId
      then rows[pid].(stockQuantity := rows[pid].stockQuantity + Held(released, pid) - Requested(consumed, pid))
      else rows[pid]
  }

  /** The `stockChanges` entry of pid, `stockChanges.get(pid) || 0`. */
  function ChangeOf(changes: map<Id, real>, pid: Id): real {
    if pid in changes then changes[pid] else 0.0
  }

  /** The product table after each of the user's products changed by its entry in `changes`. */
  function Shifted(rows: map<Id, Product>, userId: Id, changes: map<Id, real>): map<Id, Product> {
    map pid | pid in rows ::
      if rows[pid].userId == userId
      then rows[pid].(stockQuantity := rows[pid].stockQuantity + ChangeOf(changes, pid))
      else rows[pid]
  }

  /** The stock of each product after a shift, and nothing else changed. */
  lemma ShiftStockAt(rows: map<Id, Product>, userId: Id, released: seq<SaleItem>, consumed: seq<ItemInput>, pid: Id)
    ensures pid in ShiftStock(rows, userId, released, consumed) <==> pid in rows
    ensures Owned(rows, pid, userId) ==>
              ShiftStock(rows, userId, released, consumed)[pid].stockQuantity
              == rows[pid].stockQuantity + Held(released, pid) - Requested(consumed, pid)
    ensures pid in rows ==>
              ShiftStock(rows, userId, released, consumed)[pid] == rows[pid].(stockQuantity := ShiftStock(rows, userId, released, consumed)[pid].stockQuantity)
    ensures pid in rows && !Owned(rows, pid, userId) ==> ShiftStock(rows, userId, released, consumed)[pid] == rows[pid]
  {
  }

  /** A delta map whose entries are the released minus the consumed
      quantities has the effect of the shift itself. */
  lemma ShiftedIsShiftStock(rows: map<Id, Product>, userId: Id, changes: map<Id, real>, released: seq<SaleItem>, consumed: seq<ItemInput>)
    requires forall pid :: ChangeOf(changes, pid) == Held(released, pid) - Requested(consumed, pid)
    ensures Shifted(rows, userId, changes) == ShiftStock(rows, userId, released, consumed)
  {
  }

  /** Consuming one more line updates one product, as the create loop does. */
  lemma ConsumeStep(rows: map<Id, Product>, userId: Id, xs: seq<ItemInput>, i: int)
    requires 0 <= i < |xs|
    ensures var before := ShiftStock(rows, userId, [], xs[..i]);
            var pid := xs[i].productId;
            ShiftStock(rows, userId, [], xs[..i + 1])
            == if Owned(before, pid, userId)
               then before[pid := before[pid].(stockQuantity := before[pid].stockQuantity - xs[i].quantity)]
               else before
  {
    assert xs[..i + 1][..i] == xs[..i];
  }

  /** Releasing one more item updates one product, as the delete loop does. */
  lemma ReleaseStep(rows: map<Id, Product>, userId: Id, items: seq<SaleItem>, i: int)
    requires 0 <= i < |items|
    ensures var before := ShiftStock(rows, userId, items[..i], []);
            var pid := items[i].productId;
            ShiftStock(rows, userId, items[..i + 1], [])
            == if Owned(before, pid, userId)
               then before[pid := before[pid].(stockQuantity := before[pid].stockQuantity + items[i].quantity)]
               else before
  {
    assert items[..i + 1][..i] == items[..i];
  }

  /** Applying one more entry of the delta map updates one product. */
  lemma ApplyStep(rows: map<Id, Product>, userId: Id, done: map<Id, real>, pid: Id, c: real)
    requires pid !in done
    ensures var before := Shifted(rows, userId, done);
            Shifted(rows, userId, done[pid := c])
            == if Owned(before, pid, userId)
               then before[pid := before[pid].(stockQuantity := before[pid].stockQuantity + c)]
               else before
  {
  }

  // ---------------------------------------------------------------------
  // Properties of the bookkeeping

  /** Deleting a sale gives back exactly what creating it took: every
      product's stock returns to its value before the create. */
  lemma CreateThenDeleteRestores(rows: map<Id, Product>, userId: Id, xs: seq<ItemInput>)
    ensures ShiftStock(ShiftStock(rows, userId, [], xs), userId, ToItems(xs), []) == rows
  {
    forall pid ensures Held(ToItems(xs), pid) == Requested(xs, pid) {
      HeldToItems(xs, pid);
    }
    var after := ShiftStock(ShiftStock(rows, userId, [], xs), userId, ToItems(xs), []);
    forall pid | pid in rows ensures after[pid] == rows[pid] {
    }
  }

  /** An update with a new item list has the effect of deleting the sale
      and creating it again with the new lines. */
  lemma UpdateIsReleaseThenConsume(rows: map<Id, Product>, userId: Id, released: seq<SaleItem>, consumed: seq<ItemInput>)
    ensures ShiftStock(rows, userId, released, consumed)
            == ShiftStock(ShiftStock(rows, userId, released, []), userId, [], consumed)
  {
  }

  /** Old and new lists that hold the same quantity of every product leave
      every stock as it was. */
  lemma EqualTotalsLeaveStock(rows: map<Id, Product>, userId: Id, released: seq<SaleItem>, consumed: seq<ItemInput>)
    requires forall pid :: Held(released, pid) == Requested(consumed, pid)
    ensures ShiftStock(rows, userId, released, consumed) == rows
  {
    var after := ShiftStock(rows, userId, released, consumed);
    forall pid | pid in rows ensures after[pid] == rows[pid] {
    }
  }

  /** Re-sending a sale's own lines as its new item list changes no stock:
      the delta map is zero everywhere. */
  lemma ResubmittedItemsLeaveStock(rows: map<Id, Product>, userId: Id, xs: seq<ItemInput>)
    ensures ShiftStock(rows, userId, ToItems(xs), xs) == rows
  {
    forall pid ensures Held(ToItems(xs), pid) == Requested(xs, pid) {
      HeldToItems(xs, pid);
    }
    EqualTotalsLeaveStock(rows, userId, ToItems(xs), xs);
  }

  /** A sale that passed the create checks is stored with subtotals that add
      up to its total within the tolerance. */
  lemma CreatedSaleBalanced(rows: map<Id, Product>, userId: Id, data: NewSale, id: Id, now: Timestamp)
    requires CreateCheck(rows, userId, data).Pass?
    ensures Abs(SubtotalSum(NewSaleRow(id, userId, data, now).items) - NewSaleRow(id, userId, data, now).totalAmount) <= Tolerance
  {
  }

  /** An accepted update with a new item list stores subtotals that add up to
      the stored total within the tolerance, unless the declared total was 0. */
  lemma UpdatedSaleBalanced(rows: map<Id, Product>, userId: Id, sale: Sale, patch: SalePatch)
    requires UpdateCheck(rows, userId, sale, patch).Pass? && ReplacesItems(patch)
    requires patch.totalAmount != Set(0.0)
    ensures var s := PatchedSale(sale, Forwarded(patch));
            Abs(SubtotalSum(s.items) - s.totalAmount) <= Tolerance
  {
    SubtotalSumToItems(patch.items.value);
  }

  /** The lines of a request name pairwise distinct products. */
  predicate DistinctProducts(xs: seq<ItemInput>) {
    forall i, j :: 0 <= i < j < |xs| ==> xs[i].productId != xs[j].productId
  }

  /** With one line per product the create checks guarantee that no stock
      they accepted goes below zero. */
  lemma NoOverdrawWithDistinctLines(rows: map<Id, Product>, userId: Id, data: NewSale, pid: Id)
    requires CreateCheck(rows, userId, data).Pass? && DistinctProducts(data.items)
    requires Owned(rows, pid, userId) && rows[pid].stockQuantity >= 0.0
    ensures ShiftStock(rows, userId, [], data.items)[pid].stockQuantity >= 0.0
  {
    var xs := data.items;
    if k :| 0 <= k < |xs| && xs[k].productId == pid {
      RequestedSingle(xs, pid, k);
      assert LineOk(rows, userId, xs[k], []);
    } else {
      RequestedAbsent(xs, pid);
    }
  }

  /** With one line per product, what is requested of a product is its line's quantity. */
  lemma {:induction false} RequestedSingle(xs: seq<ItemInput>, pid: Id, k: int)
    requires DistinctProducts(xs) && 0 <= k < |xs| && xs[k].productId == pid
    ensures Requested(xs, pid) == xs[k].quantity
  {
    var n := |xs| - 1;
    assert DistinctProducts(xs[..n]) by {
      forall i, j | 0 <= i < j < n ensures xs[..n][i].productId != xs[..n][j].productId {
        assert xs[..n][i] == xs[i] && xs[..n][j] == xs[j];
      }
    }
    if k < n {
      assert xs[..n][k] == xs[k];
      RequestedSingle(xs[..n], pid, k);
    } else {
      assert forall j :: 0 <= j < n ==> xs[..n][j] == xs[j];
      RequestedAbsent(xs[..n], pid);
    }
  }

  /** Nothing is requested of a product no line names. */
  lemma {:induction false} RequestedAbsent(xs: seq<ItemInput>, pid: Id)
    requires forall k :: 0 <= k < |xs| ==> xs[k].productId != pid
    ensures Requested(xs, pid) == 0.0
  {
    if xs != [] {
      var n := |xs| - 1;
      assert forall k :: 0 <= k < n ==> xs[..n][k] == xs[k];
      RequestedAbsent(xs[..n], pid);
    }
  }

  // ---------------------------------------------------------------------
  // Worked examples and consequences of the code as written

  /** P1 had 10 in stock and the sale took 3, leaving 7; replacing the line by
      5 of P1 is checked against 7 + 3 = 10 and leaves 7 + 3 - 5 = 5. */
  lemma ReplaceLineExample(p: Product, sale: Sale, userId: Id, price: real)
    requires p.id == "P1" && p.userId == userId && p.stockQuantity == 7.0
    requires sale.items == [SaleItem("P1", 3.0, price, 3.0 * price)]
    ensures var patch := SalePatch(Keep, Keep, Keep, Keep, Keep, Set([ItemInput("P1", 5.0, price)]));
            && UpdateCheck(map["P1" := p], userId, sale, patch).Pass?
            && ShiftStock(map["P1" := p], userId, sale.items, patch.items.value)["P1"].stockQuantity == 5.0
  {
    var xs := [ItemInput("P1", 5.0, price)];
    assert sale.items[..0] == [] && xs[..0] == [];
    assert Held(sale.items, "P1") == 3.0 && Requested(xs, "P1") == 5.0;
    assert LineOk(map["P1" := p], userId, xs[0], sale.items);
    ShiftStockAt(map["P1" := p], userId, sale.items, xs, "P1");
  }

  /** P2 has 2 in stock: a sale of 3 of P2 is refused for insufficient stock,
      reporting 2 available and 3 requested (and CreateSale then writes nothing). */
  lemma InsufficientStockExample(p: Product, userId: Id, data: NewSale)
    requires p.id == "P2" && p.userId == userId && p.stockQuantity == 2.0
    requires |data.items| == 1 && data.items[0].productId == "P2" && data.items[0].quantity == 3.0
    ensures CreateCheck(map["P2" := p], userId, data) == Fail(InsufficientStock("P2", 2.0, 3.0))
  {
    FirstFailure(map["P2" := p], userId, data.items, [], 0);
  }

  /** Two units at 10 compute to 20: a declared 25 is refused, a declared
      20.005 is within the tolerance and accepted. */
  lemma TotalToleranceExample(p: Product, userId: Id, data: NewSale)
    requires p.userId == userId && p.stockQuantity >= 2.0
    requires data.items == [ItemInput(p.id, 2.0, 10.0)]
    ensures data.totalAmount == 25.0 ==> CreateCheck(map[p.id := p], userId, data) == Fail(TotalMismatch(25.0, 20.0))
    ensures data.totalAmount == 20.005 ==> CreateCheck(map[p.id := p], userId, data).Pass?
  {
    assert data.items[..0] == [];
    assert Computed(data.items) == 20.0;
    assert LineOk(map[p.id := p], userId, data.items[0], []);
  }

  /** Each line is checked against the stock alone, so two lines of 3 pass
      against a stock of 5, and the stock ends at -1. */
  lemma DuplicateLinesOverdraw(p: Product, userId: Id, data: NewSale, price: real)
    requires p.userId == userId && p.stockQuantity == 5.0
    requires data.items == [ItemInput(p.id, 3.0, price), ItemInput(p.id, 3.0, price)]
    requires data.totalAmount == 6.0 * price
    ensures CreateCheck(map[p.id := p], userId, data).Pass?
    ensures ShiftStock(map[p.id := p], userId, [], data.items)[p.id].stockQuantity == -1.0
  {
    var xs := data.items;
    assert xs[..1] == [xs[0]] && xs[..1][..0] == [];
    assert LineOk(map[p.id := p], userId, xs[0], []) && LineOk(map[p.id := p], userId, xs[1], []);
    assert Requested(xs[..1], p.id) == 3.0;
    assert Requested(xs, p.id) == 6.0;
    assert Computed(xs[..1]) == 3.0 * price;
    assert Computed(xs) == 6.0 * price;
    ShiftStockAt(map[p.id := p], userId, [], xs, p.id);
  }

  /** The credit is the first old line of the product only: a sale holding
      2 + 2 of a product with no stock left cannot be changed to 3 of it,
      although it holds 4. */
  lemma FirstLineCreditOnly(p: Product, userId: Id, sale: Sale, price: real)
    requires p.userId == userId && p.stockQuantity == 0.0
    requires sale.items == [SaleItem(p.id, 2.0, price, 2.0 * price), SaleItem(p.id, 2.0, price, 2.0 * price)]
    ensures Held(sale.items, p.id) == 4.0
    ensures var patch := SalePatch(Keep, Keep, Keep, Keep, Keep, Set([ItemInput(p.id, 3.0, price)]));
            UpdateCheck(map[p.id := p], userId, sale, patch) == Fail(InsufficientStock(p.id, 2.0, 3.0))
  {
    assert sale.items[..1] == [sale.items[0]] && sale.items[..1][..0] == [];
    assert Held(sale.items[..1], p.id) == 2.0;
    var xs := [ItemInput(p.id, 3.0, price)];
    FirstFailure(map[p.id := p], userId, xs, sale.items, 0);
  }

  /** An empty item list passes no check and moves no stock, yet the
      repository still replaces the items with it: the sale loses its items,
      and deleting it afterwards gives back less than deleting it before. */
  lemma EmptyListDropsItems(rows: map<Id, Product>, userId: Id, sale: Sale, patch: SalePatch, pid: Id)
    requires patch.items == Set([])
    requires Owned(rows, pid, userId) && Held(sale.items, pid) > 0.0
    ensures UpdateCheck(rows, userId, sale, patch).Pass? && !ReplacesItems(patch)
    ensures PatchedSale(sale, Forwarded(patch)).items == []
    ensures ShiftStock(rows, userId, PatchedSale(sale, Forwarded(patch)).items, [])[pid].stockQuantity
            < ShiftStock(rows, userId, sale.items, [])[pid].stockQuantity
  {
  }

  /** A declared total of 0 is falsy and skips the comparison: the sale is
      stored with total 0 although its subtotals add up to 20. */
  lemma ZeroTotalSkipsCheck(p: Product, userId: Id, sale: Sale, patch: SalePatch)
    requires p.userId == userId && p.stockQuantity >= 2.0
    requires forall k :: 0 <= k < |sale.items| ==> sale.items[k].quantity >= 0.0
    requires patch.items == Set([ItemInput(p.id, 2.0, 10.0)]) && patch.totalAmount == Set(0.0)
    ensures UpdateCheck(map[p.id := p], userId, sale, patch).Pass?
    ensures PatchedSale(sale, Forwarded(patch)).totalAmount == 0.0
    ensures SubtotalSum(PatchedSale(sale, Forwarded(patch)).items) == 20.0
  {
    var xs := patch.items.value;
    assert xs[..0] == [];
    FirstHeldNonNegative(sale.items, p.id);
    assert LineOk(map[p.id := p], userId, xs[0], sale.items);
    SubtotalSumToItems(xs);
  }

  // ---------------------------------------------------------------------
  // The service

  class SalesService {
    const sales: SalesRepository
    const products: ProductsRepository

    ghost predicate Valid()
      reads this, sales, products
    {
      sales.Valid() && products.Valid()
    }

    constructor (sales: SalesRepository, products: ProductsRepository)
      ensures this.sales == sales && this.products == products
    {
      this.sales := sales;
      this.products := products;
    }

    /** getSaleById: the user's sale, or NotFound. */
    method GetSaleById(id: Id, userId: Id) returns (r: Result<Sale>)
      ensures r.Ok? <==> OwnsSale(sales.rows, id, userId)
      ensures r.Ok? ==> r.value == sales.rows[id]
      ensures r.Err? ==> r.error == SaleNotFound
    {
      var found := sales.FindById(id, userId);
      if found.None? {
        return Err(SaleNotFound);
      }
      r := Ok(found.value);
    }

    /** The validation loop shared by createSale and updateSale: each line's
        product is looked up and its stock (plus the credit) compared with
        the quantity, while the total is accumulated. */
    method CheckLines(userId: Id, xs: seq<ItemInput>, credit: seq<SaleItem>) returns (r: Outcome, calculated: real)
      ensures r == CheckItems(products.rows, userId, xs, credit)
      ensures r.Pass? ==> calculated == Computed(xs)
    {
      calculated := 0.0;
      var i := 0;
      while i < |xs|
        invariant 0 <= i <= |xs|
        invariant forall k :: 0 <= k < i ==> LineOk(products.rows, userId, xs[k], credit)
        invariant calculated == Computed(xs[..i])
      {
        var item := xs[i];
        var found := products.FindById(item.productId, userId);
        if found.None? {
          FirstFailure(products.rows, userId, xs, credit, i);
          return Fail(ProductNotFound(item.productId)), calculated;
        }
        var currentStock := found.value.stockQuantity + FirstHeld(credit, item.productId);
        if currentStock < item.quantity {
          FirstFailure(products.rows, userId, xs, credit, i);
          return Fail(InsufficientStock(item.productId, currentStock, item.quantity)), calculated;
        }
        calculated := calculated + item.quantity * item.unitPrice;
        assert xs[..i + 1][..i] == xs[..i];
        i := i + 1;
      }
      assert xs[..i] == xs;
      r := Pass;
    }

    /** The stock loop of createSale: each line's quantity is taken off its
        product, re-read every time, so two lines of one product both count. */
    method ConsumeStock(userId: Id, xs: seq<ItemInput>)
      requires products.Valid()
      modifies products
      ensures products.Valid()
      ensures products.rows == ShiftStock(old(products.rows), userId, [], xs)
    {
      ghost var start := products.rows;
      assert start == ShiftStock(start, userId, [], xs[..0]);
      var i := 0;
      while i < |xs|
        invariant 0 <= i <= |xs|
        invariant products.Valid()
        invariant products.rows == ShiftStock(start, userId, [], xs[..i])
      {
        var item := xs[i];
        ConsumeStep(start, userId, xs, i);
        var found := products.FindById(item.productId, userId);
        if found.Some? {
          var product := found.value;
          StockPatchOnlyStock(product, product.stockQuantity - item.quantity);
          var _ := products.Update(product.id, userId, StockPatch(product.stockQuantity - item.quantity));
        }
        i := i + 1;
      }
      assert xs[..i] == xs;
    }

    /** The stock loop of deleteSale: each item's quantity goes back to its product. */
    method ReleaseStock(userId: Id, items: seq<SaleItem>)
      requires products.Valid()
      modifies products
      ensures products.Valid()
      ensures products.rows == ShiftStock(old(products.rows), userId, items, [])
    {
      ghost var start := products.rows;
      assert start == ShiftStock(start, userId, items[..0], []);
      var i := 0;
      while i < |items|
        invariant 0 <= i <= |items|
        invariant products.Valid()
        invariant products.rows == ShiftStock(start, userId, items[..i], [])
      {
        var item := items[i];
        ReleaseStep(start, userId, items, i);
        var found := products.FindById(item.productId, userId);
        if found.Some? {
          var product := found.value;
          StockPatchOnlyStock(product, product.stockQuantity + item.quantity);
          var _ := products.Update(product.id, userId, StockPatch(product.stockQuantity + item.quantity));
        }
        i := i + 1;
      }
      assert items[..i] == items;
    }

    /** The `stockChanges` map of updateSale: every old item adds its
        quantity back, every new line subtracts its quantity. */
    static method BuildStockChanges(released: seq<SaleItem>, consumed: seq<ItemInput>) returns (changes: map<Id, real>)
      ensures forall pid :: ChangeOf(changes, pid) == Held(released, pid) - Requested(consumed, pid)
    {
      changes := map[];
      var i := 0;
      while i < |released|
        invariant 0 <= i <= |released|
        invariant forall pid :: ChangeOf(changes, pid) == Held(released[..i], pid)
      {
        var item := released[i];
        changes := changes[item.productId := ChangeOf(changes, item.productId) + item.quantity];
        assert released[..i + 1][..i] == released[..i];
        i := i + 1;
      }
      assert released[..i] == released;
      var j := 0;
      while j < |consumed|
        invariant 0 <= j <= |consumed|
        invariant forall pid :: ChangeOf(changes, pid) == Held(released, pid) - Requested(consumed[..j], pid)
      {
        var item := consumed[j];
        changes := changes[item.productId := ChangeOf(changes, item.productId) - item.quantity];
        assert consumed[..j + 1][..j] == consumed[..j];
        j := j + 1;
      }
      assert consumed[..j] == consumed;
    }

    /** The loop over `stockChanges.entries()`: each of the user's products
        in the map changes by its entry. Every product occurs once, so the
        order of the entries does not matter. */
    method ApplyStockChanges(userId: Id, changes: map<Id, real>)
      requires products.Valid()
      modifies products
      ensures products.Valid()
      ensures products.rows == Shifted(old(products.rows), userId, changes)
    {
      ghost var start := products.rows;
      ghost var done: map<Id, real> := map[];
      var rest := changes;
      assert start == Shifted(start, userId, done);
      while rest != map[]
        invariant products.Valid()
        invariant products.rows == Shifted(start, userId, done)
        invariant forall pid :: pid in changes <==> pid in done || pid in rest
        invariant forall pid :: pid in done ==> pid !in rest && done[pid] == changes[pid]
        invariant forall pid :: pid in rest ==> rest[pid] == changes[pid]
        decreases |rest|
      {
        var productId :| productId in rest;
        var quantityChange := rest[productId];
        ApplyStep(start, userId, done, productId, quantityChange);
        var found := products.FindById(productId, userId);
        if found.Some? {
          var product := found.value;
          StockPatchOnlyStock(product, product.stockQuantity + quantityChange);
          var _ := products.Update(product.id, userId, StockPatch(product.stockQuantity + quantityChange));
        }
        done := done[productId := quantityChange];
        rest := rest - {productId};
      }
      assert done == changes;
    }

    /** createSale: all checks first; then the sale is stored and the stock
        of each line's product reduced by the line's quantity. */
    method CreateSale(userId: Id, data: NewSale, saleId: Id, now: Timestamp) returns (r: Result<Sale>)
      requires Valid() && saleId !in sales.rows
      modifies sales, products
      ensures Valid()
      ensures CreateCheck(old(products.rows), userId, data).Fail? ==>
                && r == Err(CreateCheck(old(products.rows), userId, data).error)
                && sales.rows == old(sales.rows) && products.rows == old(products.rows)
      ensures CreateCheck(old(products.rows), userId, data).Pass? ==>
                && r == Ok(NewSaleRow(saleId, userId, data, now))
                && sales.rows == old(sales.rows)[saleId := r.value]
                && products.rows == ShiftStock(old(products.rows), userId, [], data.items)
    {
      if |data.items| == 0 {
        return Err(EmptyItems);
      }
      var check, calculatedTotal := CheckLines(userId, data.items, []);
      if check.Fail? {
        return Err(check.error);
      }
      if Abs(calculatedTotal - data.totalAmount) > Tolerance {
        return Err(TotalMismatch(data.totalAmount, calculatedTotal));
      }
      var sale := sales.Create(userId, data, saleId, now);
      ConsumeStock(userId, data.items);
      r := Ok(sale);
    }

    /** updateSale: NotFound for a sale the user does not own; with a
        non-empty item list, the checks, then the delta map applied to the
        stock, then the sale updated; otherwise the sale updated alone. */
    method UpdateSale(id: Id, userId: Id, patch: SalePatch) returns (r: Result<Sale>)
      requires Valid()
      modifies sales, products
      ensures Valid()
      ensures !OwnsSale(old(sales.rows), id, userId) ==>
                r == Err(SaleNotFound) && sales.rows == old(sales.rows) && products.rows == old(products.rows)
      ensures OwnsSale(old(sales.rows), id, userId) && UpdateCheck(old(products.rows), userId, old(sales.rows)[id], patch).Fail? ==>
                && r == Err(UpdateCheck(old(products.rows), userId, old(sales.rows)[id], patch).error)
                && sales.rows == old(sales.rows) && products.rows == old(products.rows)
      ensures OwnsSale(old(sales.rows), id, userId) && UpdateCheck(old(products.rows), userId, old(sales.rows)[id], patch).Pass? ==>
                && r == Ok(PatchedSale(old(sales.rows)[id], Forwarded(patch)))
                && sales.rows == old(sales.rows)[id := r.value]
                && products.rows == if ReplacesItems(patch)
                                    then ShiftStock(old(products.rows), userId, old(sales.rows)[id].items, patch.items.value)
                                    else old(products.rows)
    {
      var found := sales.FindById(id, userId);
      if found.None? {
        return Err(SaleNotFound);
      }
      var sale := found.value;
      var data := patch;
      if patch.items.Set? && |patch.items.value| > 0 {
        var check, calculatedTotal := CheckLines(userId, patch.items.value, sale.items);
        if check.Fail? {
          return Err(check.error);
        }
        if patch.totalAmount.Set? && patch.totalAmount.value != 0.0
           && Abs(calculatedTotal - patch.totalAmount.value) > Tolerance {
          return Err(TotalMismatch(patch.totalAmount.value, calculatedTotal));
        }
        if patch.totalAmount.Keep? {
          data := patch.(totalAmount := Set(calculatedTotal));
        }
        var stockChanges := BuildStockChanges(sale.items, patch.items.value);
        ShiftedIsShiftStock(products.rows, userId, stockChanges, sale.items, patch.items.value);
        ApplyStockChanges(userId, stockChanges);
      }
      r := sales.Update(id, userId, data);
    }

    /** deleteSale: NotFound for a sale the user does not own; otherwise
        every item's quantity goes back to its product and the sale is deleted. */
    method DeleteSale(id: Id, userId: Id) returns (r: Outcome)
      requires Valid()
      modifies sales, products
      ensures Valid()
      ensures !OwnsSale(old(sales.rows), id, userId) ==>
                r == Fail(SaleNotFound) && sales.rows == old(sales.rows) && products.rows == old(products.rows)
      ensures OwnsSale(old(sales.rows), id, userId) ==>
                && r == Pass
                && sales.rows == old(sales.rows) - {id}
                && products.rows == ShiftStock(old(products.rows), userId, old(sales.rows)[id].items, [])
    {
      var found := sales.FindById(id, userId);
      if found.None? {
        return Fail(SaleNotFound);
      }
      ReleaseStock(userId, found.value.items);
      r := sales.Delete(id, userId);
    }
  }
}
