/** Sales and their items (src/sales/entities/sale.entity.ts and
    sale-item.entity.ts), and the per-product sums over item lists that the
    stock reconciliation is built from. */
module Sales {
  import opened Common
  import opened Calendar

  /** One line of a create or update request. */
  datatype ItemInput = ItemInput(productId: Id, quantity: real, unitPrice: real)

  /** A stored sale item. The subtotal is a column of its own. */
  datatype SaleItem = SaleItem(productId: Id, quantity: real, unitPrice: real, subtotal: real)

  /** A row of the sales table with its items, as findById loads it. */
  datatype Sale = Sale(
    id: Id,
    userId: Id,
    customerId: Option<Id>,
    totalAmount: real,
    paymentMethod: Option<string>,
    notes: Option<string>,
    saleDate: Timestamp,
    items: seq<SaleItem>)

  /** The data a create request carries. */
  datatype NewSale = NewSale(
    customerId: Option<Id>,
    totalAmount: real,
    paymentMethod: Option<string>,
    notes: Option<string>,
    saleDate: Option<Timestamp>,
    items: seq<ItemInput>)

  /** The data an update request carries: only the supplied fields are set. */
  datatype SalePatch = SalePatch(
    customerId: Patch<Option<Id>>,
    totalAmount: Patch<real>,
    paymentMethod: Patch<Option<string>>,
    notes: Patch<Option<string>>,
    saleDate: Patch<Timestamp>,
    items: Patch<seq<ItemInput>>)

  /** The item the repository stores for a request line: its subtotal is
      computed, never taken from the caller. */
  function ToItem(x: ItemInput): (r: SaleItem)
    ensures r.productId == x.productId && r.quantity == x.quantity && r.unitPrice == x.unitPrice
    ensures r.subtotal == r.quantity * r.unitPrice
  {
    SaleItem(x.productId, x.quantity, x.unitPrice, x.quantity * x.unitPrice)
  }

  /** `items.map(...)` in the repository's create and update. */
  function ToItems(xs: seq<ItemInput>): (r: seq<SaleItem>)
    ensures |r| == |xs|
    ensures forall k :: 0 <= k < |xs| ==> r[k] == ToItem(xs[k])
  {
    seq(|xs|, k requires 0 <= k < |xs| => ToItem(xs[k]))
  }

  /** Every item's subtotal is its quantity times its unit price. */
  predicate WellPriced(items: seq<SaleItem>) {
    forall k :: 0 <= k < |items| ==> items[k].subtotal == items[k].quantity * items[k].unitPrice
  }

  lemma ToItemsWellPriced(xs: seq<ItemInput>)
    ensures WellPriced(ToItems(xs))
  {
  }

  /** Total quantity of product pid that a request asks for. */
  function Requested(xs: seq<ItemInput>, pid: Id): real {
    if xs == [] then 0.0
    else Requested(xs[..|xs| - 1], pid) + (if xs[|xs| - 1].productId == pid then xs[|xs| - 1].quantity else 0.0)
  }

  /** Total quantity of product pid that a stored item list holds. */
  function Held(items: seq<SaleItem>, pid: Id): real {
    if items == [] then 0.0
    else Held(items[..|items| - 1], pid) + (if items[|items| - 1].productId == pid then items[|items| - 1].quantity else 0.0)
  }

  /** Total subtotal of product pid in a stored item list. */
  function Revenue(items: seq<SaleItem>, pid: Id): real {
    if items == [] then 0.0
    else Revenue(items[..|items| - 1], pid) + (if items[|items| - 1].productId == pid then items[|items| - 1].subtotal else 0.0)
  }

  /** The `calculatedTotal` of a request: the sum of quantity times unit price. */
  function Computed(xs: seq<ItemInput>): real {
    if xs == [] then 0.0
    else Computed(xs[..|xs| - 1]) + xs[|xs| - 1].quantity * xs[|xs| - 1].unitPrice
  }

  /** The sum of the stored subtotals. */
  function SubtotalSum(items: seq<SaleItem>): real {
    if items == [] then 0.0
    else SubtotalSum(items[..|items| - 1]) + items[|items| - 1].subtotal
  }

  /** The product ids an item list mentions. */
  function ProductIds(items: seq<SaleItem>): set<Id> {
    set k | 0 <= k < |items| :: items[k].productId
  }

  /** `items.find(si => si.productId === pid)?.quantity`, or 0 when no item
      has that product: the quantity of the FIRST matching item only. */
  function FirstHeld(items: seq<SaleItem>, pid: Id): (r: real)
    ensures (forall k :: 0 <= k < |items| ==> items[k].productId != pid) ==> r == 0.0
    ensures forall k ::
              (0 <= k < |items| && items[k].productId == pid
               && (forall j :: 0 <= j < k ==> items[j].productId != pid))
              ==> r == items[k].quantity
  {
    if items == [] then 0.0
    else if items[0].productId == pid then items[0].quantity
    else
      var r := FirstHeld(items[1..], pid);
      assert forall k :: 1 <= k < |items| ==> items[1..][k - 1] == items[k];
      r
  }

  /** The stored items hold exactly what the request asked for, product by product. */
  lemma {:induction false} HeldToItems(xs: seq<ItemInput>, pid: Id)
    ensures Held(ToItems(xs), pid) == Requested(xs, pid)
  {
    if xs != [] {
      var n := |xs| - 1;
      assert ToItems(xs)[..n] == ToItems(xs[..n]);
      HeldToItems(xs[..n], pid);
    }
  }

  /** The stored subtotals add up to the request's computed total. */
  lemma {:induction false} SubtotalSumToItems(xs: seq<ItemInput>)
    ensures SubtotalSum(ToItems(xs)) == Computed(xs)
  {
    if xs != [] {
      var n := |xs| - 1;
      assert ToItems(xs)[..n] == ToItems(xs[..n]);
      SubtotalSumToItems(xs[..n]);
    }
  }

  /** An item list holds nothing of a product it does not mention. */
  lemma {:induction false} HeldAbsent(items: seq<SaleItem>, pid: Id)
    requires pid !in ProductIds(items)
    ensures Held(items, pid) == 0.0 && Revenue(items, pid) == 0.0
  {
    if items != [] {
      var n := |items| - 1;
      assert ProductIds(items[..n]) <= ProductIds(items) by {
        forall k | 0 <= k < n ensures items[..n][k].productId in ProductIds(items) {
          assert items[..n][k] == items[k];
        }
      }
      HeldAbsent(items[..n], pid);
    }
  }

  /** With a single item per product, the first matching item is all the
      list holds of that product. */
  lemma {:induction false} FirstHeldIsHeld(items: seq<SaleItem>, pid: Id)
    requires forall i, j :: 0 <= i < j < |items| && items[i].productId == pid ==> items[j].productId != pid
    ensures FirstHeld(items, pid) == Held(items, pid)
  {
    if items != [] {
      var n := |items| - 1;
      var init := items[..n];
      assert forall i, j :: 0 <= i < j < |init| && init[i].productId == pid ==> init[j].productId != pid by {
        forall i, j | 0 <= i < j < |init| && init[i].productId == pid ensures init[j].productId != pid {
          assert init[i] == items[i] && init[j] == items[j];
        }
      }
      FirstHeldIsHeld(init, pid);
      if items[n].productId == pid {
        assert forall k :: 0 <= k < n ==> items[k].productId != pid;
        assert forall k :: 0 <= k < |init| ==> init[k].productId != pid;
        FirstHeldPrefixAbsent(init, pid);
      } else if n > 0 {
        FirstHeldPrefix(items, pid);
      }
    }
  }

  /** A list none of whose items has product pid holds none of it. */
  lemma {:induction false} FirstHeldPrefixAbsent(items: seq<SaleItem>, pid: Id)
    requires forall k :: 0 <= k < |items| ==> items[k].productId != pid
    ensures Held(items, pid) == 0.0
  {
    assert pid !in ProductIds(items);
    HeldAbsent(items, pid);
  }

  /** Dropping a last item of another product does not change the first match. */
  lemma FirstHeldPrefix(items: seq<SaleItem>, pid: Id)
    requires |items| > 0 && items[|items| - 1].productId != pid
    ensures FirstHeld(items, pid) == FirstHeld(items[..|items| - 1], pid)
  {
    var init := items[..|items| - 1];
    if exists k :: 0 <= k < |init| && init[k].productId == pid {
      FirstMatchExists(init, pid);
      var k :| 0 <= k < |init| && init[k].productId == pid && (forall j :: 0 <= j < k ==> init[j].productId != pid);
      assert items[k] == init[k];
      assert forall j :: 0 <= j < k ==> items[j] == init[j];
    } else {
      assert forall k :: 0 <= k < |items| ==> items[k].productId != pid by {
        forall k | 0 <= k < |items| ensures items[k].productId != pid {
          if k < |init| { assert items[k] == init[k]; }
        }
      }
    }
  }

  /** With no negative quantities the credit of the first match is not negative. */
  lemma FirstHeldNonNegative(items: seq<SaleItem>, pid: Id)
    requires forall k :: 0 <= k < |items| ==> items[k].quantity >= 0.0
    ensures FirstHeld(items, pid) >= 0.0
  {
    if exists k :: 0 <= k < |items| && items[k].productId == pid {
      FirstMatchExists(items, pid);
    }
  }

  /** When some item has product pid, there is a first one. */
  lemma {:induction false} FirstMatchExists(items: seq<SaleItem>, pid: Id)
    requires exists k :: 0 <= k < |items| && items[k].productId == pid
    ensures exists k :: 0 <= k < |items| && items[k].productId == pid
                        && (forall j :: 0 <= j < k ==> items[j].productId != pid)
  {
    if items[0].productId != pid {
      var k :| 0 <= k < |items| && items[k].productId == pid;
      assert items[1..][k - 1] == items[k];
      FirstMatchExists(items[1..], pid);
      var m :| 0 <= m < |items[1..]| && items[1..][m].productId == pid
               && (forall j :: 0 <= j < m ==> items[1..][j].productId != pid);
      assert items[m + 1].productId == pid;
      assert forall j :: 0 <= j < m + 1 ==> items[j].productId != pid by {
        forall j | 0 <= j < m + 1 ensures items[j].productId != pid {
          if j > 0 { assert items[j] == items[1..][j - 1]; }
        }
      }
    }
  }
}
