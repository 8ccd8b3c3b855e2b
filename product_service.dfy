/** The business checks of the products service (src/products/products.service.ts):
    a sale price may not be below the cost price and a stock quantity may not
    be negative. */
module ProductService {
  import opened Common
  import opened ProductStore

  /** The rule the service enforces on what it writes: sale price at least
      the cost price, stock not negative. */
  predicate Sane(p: Product) {
    p.costPrice <= p.salePrice && 0.0 <= p.stockQuantity
  }

  /** The guards of createProduct, in the order they are checked. */
  function CreateCheck(data: NewProduct): (r: Outcome)
    ensures r.Pass? <==> data.costPrice <= data.salePrice && 0.0 <= data.stockQuantity
    ensures data.salePrice < data.costPrice ==> r == Fail(SalePriceBelowCost)
    ensures data.costPrice <= data.salePrice && data.stockQuantity < 0.0 ==> r == Fail(NegativeStock)
  {
    if data.salePrice < data.costPrice then Fail(SalePriceBelowCost)
    else if data.stockQuantity < 0.0 then Fail(NegativeStock)
    else Pass
  }

  /** The guards of updateProduct once the row is found: the prices compared
      are the supplied ones or else the stored ones, and the stock is checked
      only when one is supplied. */
  function UpdateCheck(stored: Product, patch: ProductPatch): (r: Outcome)
    ensures r.Pass? <==>
              Patched(stored, patch).costPrice <= Patched(stored, patch).salePrice
              && (patch.stockQuantity.Set? ==> 0.0 <= patch.stockQuantity.value)
    ensures r.Fail? ==> r.error == SalePriceBelowCost || r.error == NegativeStock
    ensures Patched(stored, patch).salePrice < Patched(stored, patch).costPrice ==> r == Fail(SalePriceBelowCost)
    ensures (Patched(stored, patch).costPrice <= Patched(stored, patch).salePrice
             && patch.stockQuantity.Set? && patch.stockQuantity.value < 0.0) ==> r == Fail(NegativeStock)
  {
    var salePrice := patch.salePrice.Apply(stored.salePrice);
    var costPrice := patch.costPrice.Apply(stored.costPrice);
    if salePrice < costPrice then Fail(SalePriceBelowCost)
    else if patch.stockQuantity.Set? && patch.stockQuantity.value < 0.0 then Fail(NegativeStock)
    else Pass
  }

  /** A product created through the service satisfies the rule. */
  lemma CreatedIsSane(id: Id, userId: Id, data: NewProduct)
    requires CreateCheck(data).Pass?
    ensures Sane(NewRow(id, userId, data))
  {
  }

  /** An update accepted by the service keeps a sane row sane. */
  lemma UpdatePreservesSane(stored: Product, patch: ProductPatch)
    requires Sane(stored) && UpdateCheck(stored, patch).Pass?
    ensures Sane(Patched(stored, patch))
  {
  }

  /** Lowering only the sale price below the stored cost price is refused,
      even though the request itself carries no cost price. */
  lemma SalePriceComparedWithStoredCost()
    ensures var stored := Product("p", "u", "Caneta", None, None, 2.0, 3.0, 10.0);
            UpdateCheck(stored, ProductPatch(Keep, Keep, Keep, Keep, Set(1.5), Keep)) == Fail(SalePriceBelowCost)
  {
  }

  /** A stored negative stock is not re-checked when the update leaves the
      stock alone. */
  lemma StoredStockNotRechecked(stored: Product, patch: ProductPatch)
    requires stored.costPrice <= stored.salePrice && stored.stockQuantity < 0.0
    requires patch == ProductPatch(Set("Nome"), Keep, Keep, Keep, Keep, Keep)
    ensures UpdateCheck(stored, patch).Pass? && !Sane(Patched(stored, patch))
  {
  }

  class ProductsService {
    const repository: ProductsRepository

    constructor (repository: ProductsRepository)
      ensures this.repository == repository
    {
      this.repository := repository;
    }

    /** createProduct: the guards, then the request forwarded to the
        repository under the generated id. */
    method CreateProduct(userId: Id, data: NewProduct, id: Id) returns (r: Result<Product>)
      requires repository.Valid() && id !in repository.rows
      modifies repository
      ensures repository.Valid()
      ensures CreateCheck(data).Fail? ==>
                r == Err(CreateCheck(data).error) && repository.rows == old(repository.rows)
      ensures CreateCheck(data).Pass? ==>
                r == Ok(NewRow(id, userId, data)) && repository.rows == old(repository.rows)[id := r.value]
      ensures r.Ok? ==> Sane(r.value)
    {
      if data.salePrice < data.costPrice {
        return Err(SalePriceBelowCost);
      }
      if data.stockQuantity < 0.0 {
        return Err(NegativeStock);
      }
      var p := repository.Create(userId, data, id);
      r := Ok(p);
    }

    /** updateProduct: fails when the user owns no such product, then the
        guards, then the request forwarded unchanged to the repository. */
    method UpdateProduct(id: Id, userId: Id, patch: ProductPatch) returns (r: Result<Product>)
      requires repository.Valid()
      modifies repository
      ensures repository.Valid()
      ensures !Owned(old(repository.rows), id, userId) ==>
                r == Err(ProductMissing) && repository.rows == old(repository.rows)
      ensures Owned(old(repository.rows), id, userId) && UpdateCheck(old(repository.rows)[id], patch).Fail? ==>
                r == Err(UpdateCheck(old(repository.rows)[id], patch).error)
                && repository.rows == old(repository.rows)
      ensures Owned(old(repository.rows), id, userId) && UpdateCheck(old(repository.rows)[id], patch).Pass? ==>
                r == Ok(Patched(old(repository.rows)[id], patch))
                && repository.rows == old(repository.rows)[id := r.value]
    {
      var found := repository.FindById(id, userId);
      if found.None? {
        return Err(ProductMissing);
      }
      var product := found.value;
      var salePrice := patch.salePrice.Apply(product.salePrice);
      var costPrice := patch.costPrice.Apply(product.costPrice);
      if salePrice < costPrice {
        return Err(SalePriceBelowCost);
      }
      if patch.stockQuantity.Set? && patch.stockQuantity.value < 0.0 {
        return Err(NegativeStock);
      }
      r := repository.Update(id, userId, patch);
    }
  }
}
