/** The sales table and its repository (src/sales/repositories/sales.repository.ts):
    owner-scoped create, update and delete of a sale with its items, the
    monthly total and the best-selling products report. */
module SaleStore {
  import opened Common
  import opened Calendar
  import opened Sums
  import opened Sales
  import opened ProductStore
  import opened TopProducts

  /** The sale `create` stores: absent or empty customer, payment method and
      notes become null, the date defaults to now, and every item gets its
      subtotal computed. */
  function NewSaleRow(id: Id, userId: Id, data: NewSale, now: Timestamp): (s: Sale)
    ensures s.id == id && s.userId == userId && s.totalAmount == data.totalAmount
    ensures s.customerId.None? <==> Falsy(data.customerId)
    ensures s.paymentMethod.None? <==> Falsy(data.paymentMethod)
    ensures s.notes.None? <==> Falsy(data.notes)
    ensures data.saleDate.None? ==> s.saleDate == now
    ensures data.saleDate.Some? ==> s.saleDate == data.saleDate.value
    ensures WellPriced(s.items) && SubtotalSum(s.items) == Computed(data.items)
    ensures forall pid :: Held(s.items, pid) == Requested(data.items, pid)
  {
    ToItemsWellPriced(data.items);
    SubtotalSumToItems(data.items);
    forall pid ensures Held(ToItems(data.items), pid) == Requested(data.items, pid) {
      HeldToItems(data.items, pid);
    }
    Sale(id, userId, OrNull(data.customerId), data.totalAmount, OrNull(data.paymentMethod),
         OrNull(data.notes), data.saleDate.GetOr(now), ToItems(data.items))
  }

  /** The sale `update` stores: each supplied scalar field assigned, and,
      when items are supplied, exactly the new items in place of the old. */
  function PatchedSale(s: Sale, patch: SalePatch): Sale {
    s.(customerId := patch.customerId.Apply(s.customerId),
       totalAmount := patch.totalAmount.Apply(s.totalAmount),
       paymentMethod := patch.paymentMethod.Apply(s.paymentMethod),
       notes := patch.notes.Apply(s.notes),
       saleDate := patch.saleDate.Apply(s.saleDate),
       items := if patch.items.Set? then ToItems(patch.items.value) else s.items)
  }

  /** Update keeps identity and ownership and the invariant of computed
      subtotals, changes the items only when new ones are supplied, and
      changes nothing when nothing is supplied. */
  lemma PatchedSaleFacts(s: Sale, patch: SalePatch)
    requires WellPriced(s.items)
    ensures PatchedSale(s, patch).id == s.id && PatchedSale(s, patch).userId == s.userId
    ensures WellPriced(PatchedSale(s, patch).items)
    ensures patch.items.Keep? ==> PatchedSale(s, patch).items == s.items
    ensures patch.items.Set? ==> forall pid :: Held(PatchedSale(s, patch).items, pid) == Requested(patch.items.value, pid)
    ensures patch == SalePatch(Keep, Keep, Keep, Keep, Keep, Keep) ==> PatchedSale(s, patch) == s
  {
    if patch.items.Set? {
      ToItemsWellPriced(patch.items.value);
      forall pid ensures Held(ToItems(patch.items.value), pid) == Requested(patch.items.value, pid) {
        HeldToItems(patch.items.value, pid);
      }
    }
  }

  /** The amounts of the user's sales dated inside the month's window. */
  function MonthlySales(rows: map<Id, Sale>, userId: Id, year: int, month: int): map<Id, real> {
    map id | id in rows && rows[id].userId == userId && InMonth(rows[id].saleDate, year, month) :: rows[id].totalAmount
  }

  /** What getMonthlyTotal returns. */
  ghost function MonthlyTotal(rows: map<Id, Sale>, userId: Id, year: int, month: int): real {
    SumMap(MonthlySales(rows, userId, year, month))
  }

  /** Storing a new sale adds its amount to the monthly total of its owner for
      the month its date falls in, and changes no other total. */
  lemma MonthlyTotalAfterInsert(rows: map<Id, Sale>, s: Sale, userId: Id, year: int, month: int)
    requires s.id !in rows
    ensures MonthlyTotal(rows[s.id := s], userId, year, month)
            == MonthlyTotal(rows, userId, year, month)
               + (if s.userId == userId && InMonth(s.saleDate, year, month) then s.totalAmount else 0.0)
  {
    var before := MonthlySales(rows, userId, year, month);
    var after := MonthlySales(rows[s.id := s], userId, year, month);
    if s.userId == userId && InMonth(s.saleDate, year, month) {
      assert after == before[s.id := s.totalAmount];
      SumMapInsert(before, s.id, s.totalAmount);
    } else {
      assert after == before;
    }
  }

  /** Deleting a sale takes its amount off the monthly total it counted in. */
  lemma MonthlyTotalAfterRemove(rows: map<Id, Sale>, id: Id, userId: Id, year: int, month: int)
    requires id in rows && rows[id].id == id
    ensures MonthlyTotal(rows - {id}, userId, year, month)
            == MonthlyTotal(rows, userId, year, month)
               - (if rows[id].userId == userId && InMonth(rows[id].saleDate, year, month) then rows[id].totalAmount else 0.0)
  {
    assert (rows - {id})[id := rows[id]] == rows;
    MonthlyTotalAfterInsert(rows - {id}, rows[id], userId, year, month);
  }

  /** A sale dated 2024-02-29 23:59:59 counts in February 2024; one dated a
      day later counts in March. */
  lemma LeapDayCounts(s: Sale, userId: Id)
    requires s.userId == userId
    requires s.saleDate == MonthStart(2024, 2) + 28 * MsPerDay + LastSecondOfDay
    ensures MonthlyTotal(map[s.id := s], userId, 2024, 2) == s.totalAmount
    ensures MonthlyTotal(map[s.id := s.(saleDate := s.saleDate + MsPerDay)], userId, 2024, 2) == 0.0
  {
    February2024Window();
    MonthlyTotalAfterInsert(map[], s, userId, 2024, 2);
    var t := s.(saleDate := s.saleDate + MsPerDay);
    MonthlyTotalAfterInsert(map[], t, userId, 2024, 2);
    assert MonthlySales(map[], userId, 2024, 2) == map[];
  }

  /** The owner-scoped lookup of a sale. */
  predicate OwnsSale(rows: map<Id, Sale>, id: Id, userId: Id) {
    id in rows && rows[id].userId == userId
  }

  class SalesRepository {
    var rows: map<Id, Sale>

    /** Each sale is stored under its own id, and every stored item's
        subtotal is its quantity times its unit price. */
    ghost predicate Valid()
      reads this
    {
      forall id :: id in rows ==> rows[id].id == id && WellPriced(rows[id].items)
    }

    constructor ()
      ensures Valid() && rows == map[]
    {
      rows := map[];
    }

    /** findById: the sale with its items only when both id and owner match. */
    method FindById(id: Id, userId: Id) returns (r: Option<Sale>)
      ensures r.Some? <==> id in rows && rows[id].userId == userId
      ensures r.Some? ==> r.value == rows[id]
    {
      if id in rows && rows[id].userId == userId {
        r := Some(rows[id]);
      } else {
        r := None;
      }
    }

    /** create: saves the sale under the generated id, then its items. */
    method Create(userId: Id, data: NewSale, id: Id, now: Timestamp) returns (s: Sale)
      requires Valid() && id !in rows
      modifies this
      ensures Valid()
      ensures s == NewSaleRow(id, userId, data, now) && rows == old(rows)[id := s]
    {
      var sale := Sale(id, userId, OrNull(data.customerId), data.totalAmount, OrNull(data.paymentMethod),
                       OrNull(data.notes), data.saleDate.GetOr(now), []);
      rows := rows[id := sale];
      ToItemsWellPriced(data.items);
      rows := rows[id := sale.(items := ToItems(data.items))];
      s := rows[id];
    }

    /** update: fails when the user owns no such sale; otherwise assigns each
        supplied scalar field and, when items are supplied, deletes the old
        items and inserts the new ones. */
    method Update(id: Id, userId: Id, patch: SalePatch) returns (r: Result<Sale>)
      requires Valid()
      modifies this
      ensures Valid()
      ensures !OwnsSale(old(rows), id, userId) ==> r == Err(SaleMissing) && rows == old(rows)
      ensures OwnsSale(old(rows), id, userId) ==>
                r == Ok(PatchedSale(old(rows)[id], patch)) && rows == old(rows)[id := r.value]
    {
      var found := FindById(id, userId);
      if found.None? {
        return Err(SaleMissing);
      }
      var sale := found.value;
      var customerId, totalAmount, paymentMethod := sale.customerId, sale.totalAmount, sale.paymentMethod;
      var notes, saleDate := sale.notes, sale.saleDate;
      if patch.customerId.Set? { customerId := patch.customerId.value; }
      if patch.totalAmount.Set? { totalAmount := patch.totalAmount.value; }
      if patch.paymentMethod.Set? { paymentMethod := patch.paymentMethod.value; }
      if patch.notes.Set? { notes := patch.notes.value; }
      if patch.saleDate.Set? { saleDate := patch.saleDate.value; }
      var items := sale.items;
      if patch.items.Set? {
        items := ToItems(patch.items.value);
        ToItemsWellPriced(patch.items.value);
      }
      sale := Sale(sale.id, sale.userId, customerId, totalAmount, paymentMethod, notes, saleDate, items);
      rows := rows[id := sale];
      r := Ok(sale);
    }

    /** delete: removes the sale, or fails when the user owns no such sale. */
    method Delete(id: Id, userId: Id) returns (r: Outcome)
      requires Valid()
      modifies this
      ensures Valid()
      ensures r.Pass? <==> OwnsSale(old(rows), id, userId)
      ensures r.Fail? ==> r.error == SaleMissing && rows == old(rows)
      ensures r.Pass? ==> rows == old(rows) - {id}
    {
      if id in rows && rows[id].userId == userId {
        rows := rows - {id};
        r := Pass;
      } else {
        r := Fail(SaleMissing);
      }
    }

    /** getMonthlyTotal: the amounts of the user's sales inside the month's
        window, added up in whatever order the query returns them. */
    method GetMonthlyTotal(userId: Id, year: int, month: int) returns (total: real)
      ensures total == MonthlyTotal(rows, userId, year, month)
    {
      var start := MonthStart(year, month);
      var end := MonthEnd(year, month);
      var inWindow := map id | id in rows && rows[id].userId == userId && start <= rows[id].saleDate <= end
                         :: rows[id].totalAmount;
      assert inWindow == MonthlySales(rows, userId, year, month);
      total := SumValues(inWindow);
    }

    /** getTopProducts: the user's products by revenue, highest first, cut to
        `limit` entries as `slice(0, limit)` does; each entry carries the
        product's total quantity and revenue over all the user's sales. */
    method GetTopProducts(userId: Id, limit: int, products: map<Id, Product>) returns (r: seq<TopProduct>)
      ensures SortedByRevenue(r)
      ensures |r| == SliceEnd(limit, |Sold(Mine(rows, userId))|)
      ensures forall i :: 0 <= i < |r| ==> Accurate(r[i], Mine(rows, userId), products)
      ensures forall i, j :: 0 <= i < j < |r| ==> r[i].productId != r[j].productId
      ensures forall pid :: pid in Sold(Mine(rows, userId)) && !Listed(r, pid) ==>
                forall i :: 0 <= i < |r| ==> SoldRevenue(Mine(rows, userId), pid) <= r[i].totalRevenue
    {
      var sales := Mine(rows, userId);
      var agg, order := TallySales(sales, products);
      var sorted := SortByRevenue(Entries(agg, order));
      r := sorted[..SliceEnd(limit, |sorted|)];
      RankedLength(agg, order, sales, products, limit);
      RankedSorted(agg, order, products, limit);
      RankedAccurate(agg, order, sales, products, limit);
      RankedTop(agg, order, sales, products, limit);
    }
  }
}
