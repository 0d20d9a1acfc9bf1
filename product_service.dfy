/** ProductService: the product repository with every error wrapped in a message naming
    the operation and 0 in place of the id or row count on failure. */
module ProductService {
  import opened Base
  import opened Domain
  import opened Store
  import CategoryRepo
  import ProductRepo

  class ProductService {
    const productRepo: ProductRepo.ProductRepository

    constructor (productRepo: ProductRepo.ProductRepository)
      ensures this.productRepo == productRepo
    {
      this.productRepo := productRepo;
    }

    /** Every stored product, or the wrapped repository error. */
    method GetAllProducts() returns (r: Result<seq<Product>>)
      ensures var db := productRepo.db;
        r.Success? <==> db.connected && forall id :: id in db.products ==> db.products[id].categoryId in db.categories
      ensures !productRepo.db.connected ==> r == Failure(Wrapped(ErrConnDone, "Failed to retrieve products"))
      ensures productRepo.db.connected && r.Failure? ==>
        r == Failure(Wrapped(CategoryRepo.ErrCategoryNotFound, "Failed to retrieve products"))
      ensures r.Success? ==>
        && (forall i :: 0 <= i < |r.value| ==>
              ProductRepo.Lookup(true, productRepo.db.categories, productRepo.db.products, r.value[i].productId) == Success(r.value[i]))
        && (forall id :: id in productRepo.db.products ==>
              ProductRepo.Lookup(true, productRepo.db.categories, productRepo.db.products, id).value in r.value)
    {
      r := productRepo.GetAllProducts();
      if r.Failure? {
        return Failure(Wrapped(r.error, "Failed to retrieve products"));
      }
    }

    /** The stored product with its category, or the wrapped repository error. */
    function FindProductById(id: int): (r: Result<Product>)
      reads productRepo.db
      ensures var db := productRepo.db;
        r.Success? <==> db.connected && id in db.products && db.products[id].categoryId in db.categories
      ensures r.Success? ==>
        && r.value.productId == id && r.value.category.Some?
        && ProductRepo.RowFrom(r.value, productRepo.db.products[id].createdAt, productRepo.db.products[id].updatedAt) == productRepo.db.products[id]
      ensures productRepo.db.connected && id !in productRepo.db.products ==>
        r == Failure(Wrapped(ProductRepo.ErrProductNotFound, "Failed to retrieve a product"))
      ensures r.Failure? ==> r.error.Wrapped? && r.error.context == "Failed to retrieve a product"
    {
      match ProductRepo.Lookup(productRepo.db.connected, productRepo.db.categories, productRepo.db.products, id)
      case Failure(e) => Failure(Wrapped(e, "Failed to retrieve a product"))
      case Success(p) => Success(p)
    }

    /** The repository's new id, or 0 and the wrapped error; a product whose category does
        not exist is refused by the foreign key. */
    method CreateProduct(product: Product, now: Time) returns (id: int, err: Option<Error>)
      requires productRepo.db.Valid()
      requires product.category.Some?
      modifies productRepo.db`products, productRepo.db`nextProductId
      ensures productRepo.db.Valid()
      ensures !productRepo.db.connected ==>
        id == 0 && err == Some(Wrapped(ErrConnDone, "Failed to create a product")) && unchanged(productRepo.db)
      ensures productRepo.db.connected && product.category.value.id !in productRepo.db.categories ==>
        id == 0 && err == Some(Wrapped(ProductCategoryViolation, "Failed to create a product")) && unchanged(productRepo.db)
      ensures productRepo.db.connected && product.category.value.id in productRepo.db.categories ==>
        && err.None? && id >= 1 && id !in old(productRepo.db.products)
        && productRepo.db.products == old(productRepo.db.products)[id := ProductRepo.RowFrom(product, now, now)]
    {
      id, err := productRepo.InsertProduct(product, now);
      match err {
        case Some(e) => return 0, Some(Wrapped(e, "Failed to create a product"));
        case None =>
      }
    }

    /** The repository's rows affected, or 0 and the wrapped error. */
    method DeleteProduct(id: int) returns (rows: int, err: Option<Error>)
      requires productRepo.db.Valid()
      modifies productRepo.db`products
      ensures productRepo.db.Valid()
      ensures !productRepo.db.connected ==>
        rows == 0 && err == Some(Wrapped(ErrConnDone, "Failed to delete a product")) && unchanged(productRepo.db)
      ensures productRepo.db.connected ==>
        && err.None? && rows == (if id in old(productRepo.db.products) then 1 else 0)
        && productRepo.db.products == old(productRepo.db.products) - {id}
    {
      rows, err := productRepo.DeleteProduct(id);
      match err {
        case Some(e) => return 0, Some(Wrapped(e, "Failed to delete a product"));
        case None =>
      }
    }

    /** The repository's rows affected, or 0 and the wrapped error. */
    method UpdateProduct(product: Product, id: int, now: Time) returns (rows: int, err: Option<Error>)
      requires productRepo.db.Valid()
      requires product.category.Some?
      modifies productRepo.db`products
      ensures productRepo.db.Valid()
      ensures !productRepo.db.connected ==>
        rows == 0 && err == Some(Wrapped(ErrConnDone, "Failed to edit a product")) && unchanged(productRepo.db)
      ensures productRepo.db.connected && ProductUpdate(id) in productRepo.db.rejected ==>
        && rows == 0 && unchanged(productRepo.db)
        && err == Some(Wrapped(productRepo.db.rejected[ProductUpdate(id)], "Failed to edit a product"))
      ensures productRepo.db.connected && ProductUpdate(id) !in productRepo.db.rejected && id !in old(productRepo.db.products) ==>
        rows == 0 && err.None? && unchanged(productRepo.db)
      ensures productRepo.db.connected && ProductUpdate(id) !in productRepo.db.rejected && id in old(productRepo.db.products)
              && product.category.value.id !in productRepo.db.categories ==>
        rows == 0 && err == Some(Wrapped(ProductCategoryViolation, "Failed to edit a product")) && unchanged(productRepo.db)
      ensures productRepo.db.connected && ProductUpdate(id) !in productRepo.db.rejected && id in old(productRepo.db.products)
              && product.category.value.id in productRepo.db.categories ==>
        && rows == 1 && err.None?
        && productRepo.db.products == old(productRepo.db.products)[id := ProductRepo.RowFrom(product, old(productRepo.db.products[id]).createdAt, now)]
    {
      rows, err := productRepo.UpdateProduct(product, id, now);
      match err {
        case Some(e) => return 0, Some(Wrapped(e, "Failed to edit a product"));
        case None =>
      }
    }
  }
}
