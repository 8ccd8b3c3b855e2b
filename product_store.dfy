/** The products table and its repository (src/products/repositories/products.repository.ts). */
module ProductStore {
  import opened Common
  import opened Text

  /** A row of the products table. Prices are currency amounts and the stock
      a signed quantity, both exact decimals. */
  datatype Product = Product(
    id: Id,
    userId: Id,
    name: string,
    description: Option<string>,
    category: Option<string>,
    costPrice: real,
    salePrice: real,
    stockQuantity: real)

  /** The data a create request carries. */
  datatype NewProduct = NewProduct(
    name: string,
    description: Option<string>,
    category: Option<string>,
    costPrice: real,
    salePrice: real,
    stockQuantity: real)

  /** The data an update request carries: only the supplied fields are set. */
  datatype ProductPatch = ProductPatch(
    name: Patch<string>,
    description: Patch<Option<string>>,
    category: Patch<Option<string>>,
    costPrice: Patch<real>,
    salePrice: Patch<real>,
    stockQuantity: Patch<real>)

  /** `{ stockQuantity: q }`, the update the sales service sends. */
  function StockPatch(q: real): ProductPatch {
    ProductPatch(Keep, Keep, Keep, Keep, Keep, Set(q))
  }

  /** The row `create` saves. */
  function NewRow(id: Id, userId: Id, data: NewProduct): Product {
    Product(id, userId, Trim(data.name), OrNull(data.description), OrNull(data.category),
            data.costPrice, data.salePrice, data.stockQuantity)
  }

  /** The row `update` saves: each supplied field assigned, the name trimmed. */
  function Patched(p: Product, patch: ProductPatch): Product {
    p.(name := if patch.name.Set? then Trim(patch.name.value) else p.name,
       description := patch.description.Apply(p.description),
       category := patch.category.Apply(p.category),
       costPrice := patch.costPrice.Apply(p.costPrice),
       salePrice := patch.salePrice.Apply(p.salePrice),
       stockQuantity := patch.stockQuantity.Apply(p.stockQuantity))
  }

  /** Re-sending an update changes nothing more: the trimmed name is already
      trimmed and every other field is simply assigned again. */
  lemma PatchedIdempotent(p: Product, patch: ProductPatch)
    ensures Patched(Patched(p, patch), patch) == Patched(p, patch)
  {
    var once := Patched(p, patch);
    var twice := Patched(once, patch);
    if patch.name.Set? {
      TrimIdempotent(patch.name.value);
    }
    assert twice.name == once.name;
    assert twice.description == once.description && twice.category == once.category;
    assert twice.costPrice == once.costPrice && twice.salePrice == once.salePrice;
    assert twice.stockQuantity == once.stockQuantity;
  }

  /** The stock update the sales service sends changes the stock and nothing else. */
  lemma StockPatchOnlyStock(p: Product, q: real)
    ensures Patched(p, StockPatch(q)) == p.(stockQuantity := q)
  {
  }

  /** The owner-scoped lookup: a row is visible to a user only when both its
      id and its owner match. */
  predicate Owned(rows: map<Id, Product>, id: Id, userId: Id) {
    id in rows && rows[id].userId == userId
  }

  class ProductsRepository {
    var rows: map<Id, Product>

    /** Each row is stored under its own id. */
    ghost predicate Valid()
      reads this
    {
      forall id :: id in rows ==> rows[id].id == id
    }

    constructor ()
      ensures Valid() && rows == map[]
    {
      rows := map[];
    }

    /** findById: the row only when both id and owner match. */
    method FindById(id: Id, userId: Id) returns (r: Option<Product>)
      ensures r.Some? <==> id in rows && rows[id].userId == userId
      ensures r.Some? ==> r.value == rows[id]
    {
      if id in rows && rows[id].userId == userId {
        r := Some(rows[id]);
      } else {
        r := None;
      }
    }

    /** create: inserts a row under the generated id, with the name trimmed
        and an absent or empty description or category stored as null. */
    method Create(userId: Id, data: NewProduct, id: Id) returns (p: Product)
      requires Valid() && id !in rows
      modifies this
      ensures Valid()
      ensures p == NewRow(id, userId, data) && rows == old(rows)[id := p]
      ensures p.name == Trim(data.name)
      ensures p.description.None? <==> Falsy(data.description)
      ensures p.category.None? <==> Falsy(data.category)
    {
      p := Product(id, userId, Trim(data.name), OrNull(data.description), OrNull(data.category),
                   data.costPrice, data.salePrice, data.stockQuantity);
      rows := rows[id := p];
    }

    /** update: fails when the user owns no such row; otherwise assigns each
        supplied field, trimming the name, and keeps all others. */
    method Update(id: Id, userId: Id, patch: ProductPatch) returns (r: Result<Product>)
      requires Valid()
      modifies this
      ensures Valid()
      ensures !Owned(old(rows), id, userId) ==> r == Err(ProductMissing) && rows == old(rows)
      ensures Owned(old(rows), id, userId) ==>
                r == Ok(Patched(old(rows)[id], patch)) && rows == old(rows)[id := r.value]
    {
      var found := FindById(id, userId);
      if found.None? {
        return Err(ProductMissing);
      }
      var product := found.value;
      var name, description, category := product.name, product.description, product.category;
      var costPrice, salePrice, stockQuantity := product.costPrice, product.salePrice, product.stockQuantity;
      if patch.name.Set? { name := Trim(patch.name.value); }
      if patch.description.Set? { description := patch.description.value; }
      if patch.category.Set? { category := patch.category.value; }
      if patch.costPrice.Set? { costPrice := patch.costPrice.value; }
      if patch.salePrice.Set? { salePrice := patch.salePrice.value; }
      if patch.stockQuantity.Set? { stockQuantity := patch.stockQuantity.value; }
      product := Product(product.id, product.userId, name, description, category,
                         costPrice, salePrice, stockQuantity);
      rows := rows[id := product];
      r := Ok(product);
    }

    /** delete: removes the row, or fails when the user owns no such row. */
    method Delete(id: Id, userId: Id) returns (r: Outcome)
      requires Valid()
      modifies this
      ensures Valid()
      ensures r.Pass? <==> Owned(old(rows), id, userId)
      ensures r.Fail? ==> r.error == ProductMissing && rows == old(rows)
      ensures r.Pass? ==> rows == old(rows) - {id}
    {
      if id in rows && rows[id].userId == userId {
        rows := rows - {id};
        r := Pass;
      } else {
        r := Fail(ProductMissing);
      }
    }

    /** findByCategory: the user's rows whose category is exactly the given one. */
    function FindByCategory(userId: Id, category: string): (r: map<Id, Product>)
      reads this
      ensures forall id :: id in r <==> Owned(rows, id, userId) && rows[id].category == Some(category)
      ensures forall id :: id in r ==> id in rows && r[id] == rows[id]
    {
      map id | id in rows && rows[id].userId == userId && rows[id].category == Some(category) :: rows[id]
    }

    /** findLowStock: the user's rows whose stock is zero or below. */
    function FindLowStock(userId: Id): (r: map<Id, Product>)
      reads this
      ensures forall id :: id in r <==> Owned(rows, id, userId) && rows[id].stockQuantity <= 0.0
      ensures forall id :: id in r ==> id in rows && r[id] == rows[id]
    {
      var mine := map id | id in rows && rows[id].userId == userId :: rows[id];
      map id | id in mine && mine[id].stockQuantity <= 0.0 :: mine[id]
    }
  }
}
