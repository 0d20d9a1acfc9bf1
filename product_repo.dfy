/** ProductRepository: the product table's queries and statements. Every product read from
    the table carries its category, looked up through the category repository. */
module ProductRepo {
  import opened Base
  import opened Domain
  import opened Store
  import CategoryRepo

  const ErrProductNotFound := Text("product not found")

  /** The stored row `id` with its category, as a domain value. */
  function ProductOf(id: int, row: ProductRow, category: Category): Product
  {
    Product(id, row.name, row.shortDescription, row.description, row.price,
            row.createdAt, row.updatedAt, row.quantity, Some(category))
  }

  /** The row a product is written as: every field, the category by its id. */
  function RowFrom(p: Product, createdAt: Time, updatedAt: Time): ProductRow
    requires p.category.Some?
  {
    ProductRow(p.name, p.shortDescription, p.description, p.price, p.category.value.id, p.quantity, createdAt, updatedAt)
  }

  /** FindProductById over the tables' contents: the stored product with its category;
      "product not found" when no row has that id; the category lookup's error when the
      row's category is gone. */
  function Lookup(connected: bool, categories: map<int, CategoryRow>, products: map<int, ProductRow>, id: int): (r: Result<Product>)
    ensures r.Success? <==> connected && id in products && products[id].categoryId in categories
    ensures r.Success? ==>
      && r.value.productId == id && r.value.category.Some?
      && r.value.category.value == CategoryRepo.CategoryOf(products[id].categoryId, categories[products[id].categoryId])
      && RowFrom(r.value, products[id].createdAt, products[id].updatedAt) == products[id]
    ensures !connected ==> r == Failure(ErrConnDone)
    ensures connected && id !in products ==> r == Failure(ErrProductNotFound)
    ensures connected && id in products && products[id].categoryId !in categories ==> r == Failure(CategoryRepo.ErrCategoryNotFound)
  {
    if !connected then Failure(ErrConnDone)
    else if id !in products then Failure(ErrProductNotFound)
    else
      var row := products[id];
      match CategoryRepo.Lookup(connected, categories, row.categoryId)
      case Failure(e) => Failure(e)
      case Success(c) => Success(ProductOf(id, row, c))
  }

  class ProductRepository {
    const db: Database
    const categories: CategoryRepo.CategoryRepository

    /** NewProductRepository: the product repository and its own category repository share the store. */
    constructor (db: Database)
      ensures this.db == db && Wired()
    {
      this.db := db;
      categories := new CategoryRepo.CategoryRepository(db);
    }

    predicate Wired()
    {
      categories.db == db
    }

    /** Every stored product exactly once, each as FindProductById returns it; fails with
        "Category not found" when some product's category is gone. */
    method GetAllProducts() returns (r: Result<seq<Product>>)
      ensures !db.connected ==> r == Failure(ErrConnDone)
      ensures r.Success? <==>
        db.connected && forall id :: id in db.products ==> db.products[id].categoryId in db.categories
      ensures db.connected && r.Failure? ==> r == Failure(CategoryRepo.ErrCategoryNotFound)
      ensures r.Success? ==>
        && (forall i :: 0 <= i < |r.value| ==>
              Lookup(db.connected, db.categories, db.products, r.value[i].productId) == Success(r.value[i]))
        && (forall id :: id in db.products ==> Lookup(db.connected, db.categories, db.products, id).value in r.value)
        && (forall i, j :: 0 <= i < j < |r.value| ==> r.value[i].productId != r.value[j].productId)
    {
      if !db.connected {
        return Failure(ErrConnDone);
      }
      var products: seq<Product> := [];
      var remaining := db.products.Keys;
      while remaining != {}
        invariant remaining <= db.products.Keys
        invariant forall id :: id in db.products.Keys - remaining ==> db.products[id].categoryId in db.categories
        invariant forall i :: 0 <= i < |products| ==>
          products[i].productId in db.products.Keys - remaining
          && Lookup(db.connected, db.categories, db.products, products[i].productId) == Success(products[i])
        invariant forall id :: id in db.products.Keys - remaining ==>
          Lookup(db.connected, db.categories, db.products, id).value in products
        invariant forall i, j :: 0 <= i < j < |products| ==> products[i].productId != products[j].productId
        decreases remaining
      {
        ghost var some := ElementOf(remaining);
        var id :| id in remaining;
        var row := db.products[id];
        var category := CategoryRepo.Lookup(db.connected, db.categories, row.categoryId);
        if category.Failure? {
          return Failure(category.error);
        }
        products := products + [ProductOf(id, row, category.value)];
        remaining := remaining - {id};
      }
      return Success(products);
    }

    function FindProductById(id: int): (r: Result<Product>)
      reads db
      ensures r.Success? ==> id in db.products && r.value.category.Some? && RowFrom(r.value, db.products[id].createdAt, db.products[id].updatedAt) == db.products[id]
      ensures db.connected && id !in db.products ==> r == Failure(ErrProductNotFound)
    {
      Lookup(db.connected, db.categories, db.products, id)
    }

    /** Inserts every field of the product (its category by id) and returns the fresh serial
        id; a category id with no category violates the foreign key and inserts nothing. */
    method InsertProduct(product: Product, now: Time) returns (id: int, err: Option<Error>)
      requires db.Valid()
      requires product.category.Some?
      modifies db`products, db`nextProductId
      ensures db.Valid()
      ensures !db.connected ==> id == 0 && err == Some(ErrConnDone) && unchanged(db)
      ensures db.connected && product.category.value.id !in db.categories ==>
        id == 0 && err == Some(ProductCategoryViolation) && unchanged(db)
      ensures db.connected && product.category.value.id in db.categories ==>
        && err.None? && id >= 1 && id !in old(db.products)
        && db.products == old(db.products)[id := RowFrom(product, now, now)]
        && FindProductById(id).Success?
        && FindProductById(id).value.(category := product.category) == product.(productId := id, createdAt := now, updatedAt := now)
    {
      if !db.connected {
        return 0, Some(ErrConnDone);
      }
      if product.category.value.id !in db.categories {
        return 0, Some(ProductCategoryViolation);
      }
      id := db.nextProductId;
      db.products := db.products[id := RowFrom(product, now, now)];
      db.nextProductId := db.nextProductId + 1;
      err := None;
    }

    /** Deletes the row with that id; rows affected is 1 when there was one and 0 otherwise. */
    method DeleteProduct(id: int) returns (rows: int, err: Option<Error>)
      requires db.Valid()
      modifies db`products
      ensures db.Valid()
      ensures !db.connected ==> rows == 0 && err == Some(ErrConnDone) && unchanged(db)
      ensures db.connected ==>
        && err.None? && rows == (if id in old(db.products) then 1 else 0)
        && db.products == old(db.products) - {id}
        && FindProductById(id) == Failure(ErrProductNotFound)
    {
      if !db.connected {
        return 0, Some(ErrConnDone);
      }
      rows := if id in db.products then 1 else 0;
      db.products := db.products - {id};
      err := None;
    }

    /** Overwrites every field of the row keyed by `id` (not by product.productId), quantity
        and category included, and stamps updated_at; rows affected is 1 when there was one
        and 0 otherwise. */
    method UpdateProduct(product: Product, id: int, now: Time) returns (rows: int, err: Option<Error>)
      requires db.Valid()
      requires product.category.Some?
      modifies db`products
      ensures db.Valid()
      ensures !db.connected ==> rows == 0 && err == Some(ErrConnDone) && unchanged(db)
      ensures db.connected && ProductUpdate(id) in db.rejected ==>
        rows == 0 && err == Some(db.rejected[ProductUpdate(id)]) && unchanged(db)
      ensures db.connected && ProductUpdate(id) !in db.rejected && id !in old(db.products) ==>
        rows == 0 && err.None? && unchanged(db)
      ensures db.connected && ProductUpdate(id) !in db.rejected && id in old(db.products)
              && product.category.value.id !in db.categories ==>
        rows == 0 && err == Some(ProductCategoryViolation) && unchanged(db)
      ensures db.connected && ProductUpdate(id) !in db.rejected && id in old(db.products)
              && product.category.value.id in db.categories ==>
        && rows == 1 && err.None?
        && db.products == old(db.products)[id := RowFrom(product, old(db.products[id]).createdAt, now)]
    {
      if !db.connected {
        return 0, Some(ErrConnDone);
      }
      if ProductUpdate(id) in db.rejected {
        return 0, Some(db.rejected[ProductUpdate(id)]);
      }
      if id !in db.products {
        return 0, None;
      }
      if product.category.value.id !in db.categories {
        return 0, Some(ProductCategoryViolation);
      }
      db.products := db.products[id := RowFrom(product, db.products[id].createdAt, now)];
      rows, err := 1, None;
    }
  }
}
