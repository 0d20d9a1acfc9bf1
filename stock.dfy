/** The stock check that OrderService runs over an order's lines before it writes the order:
    line by line, in input order, the product must exist, the quantity must be positive and
    must not exceed the stock on hand; a passing line lowers the stock and stamps the row.
    The first failing line stops the walk, and the lines before it stay decremented. */
module Stock {
  import opened Base
  import opened Domain
  import opened Store
  import ProductRepo

  const ErrProductMissing := Text("product doesn't exist")
  const ErrInvalidOrder := Text("invalid order")
  const ErrNotEnoughItems := Text("not enough items")
  const ErrUpdatingQuantity := Text("error updating product quantity")

  /** The product table after a walk over some lines, and the error the walk stopped with. */
  datatype Reservation = Reservation(products: map<int, ProductRow>, failure: Option<Error>)

  /** One line of the walk: nothing happens once the walk has failed. `rejected` holds the
      statements the server rejects. */
  function Step(connected: bool, categories: map<int, CategoryRow>, rejected: map<Statement, Error>,
      r: Reservation, item: OrderedProduct, now: Time): Reservation
  {
    if r.failure.Some? then r
    else match ProductRepo.Lookup(connected, categories, r.products, item.productId)
      case Failure(_) => r.(failure := Some(ErrProductMissing))
      case Success(p) =>
        if item.quantity <= 0 then r.(failure := Some(ErrInvalidOrder))
        else if p.quantity < item.quantity then r.(failure := Some(ErrNotEnoughItems))
        else if ProductUpdate(item.productId) in rejected then r.(failure := Some(ErrUpdatingQuantity))
        else r.(products := r.products[item.productId :=
                  r.products[item.productId].(quantity := p.quantity - item.quantity, updatedAt := now)])
  }

  /** The walk over all the lines, as a left fold. */
  function Reserve(connected: bool, categories: map<int, CategoryRow>, rejected: map<Statement, Error>,
      products: map<int, ProductRow>, items: seq<OrderedProduct>, now: Time): Reservation
    decreases |items|
  {
    if items == [] then Reservation(products, None)
    else Step(connected, categories, rejected, Reserve(connected, categories, rejected, products, items[..|items| - 1], now), items[|items| - 1], now)
  }

  /** The total quantity the lines ask of product `id`. */
  function Demand(items: seq<OrderedProduct>, id: int): int
    decreases |items|
  {
    if items == [] then 0
    else Demand(items[..|items| - 1], id) + (if items[|items| - 1].productId == id then items[|items| - 1].quantity else 0)
  }

  /** Row `b` is row `a` with at most its quantity and its updated_at changed. */
  predicate SameButStock(a: ProductRow, b: ProductRow)
  {
    b == a.(quantity := b.quantity, updatedAt := b.updatedAt)
  }

  /** Line i passes after the lines before it: the product is there with its category, the
      line asks for a positive quantity, the lines so far ask no more of the product than its
      stock, and the server accepts the product's UPDATE. */
  predicate LineFits(connected: bool, categories: map<int, CategoryRow>, rejected: map<Statement, Error>,
      products: map<int, ProductRow>, items: seq<OrderedProduct>, i: int)
    requires 0 <= i < |items|
  {
    && connected
    && items[i].productId in products
    && products[items[i].productId].categoryId in categories
    && items[i].quantity > 0
    && ProductUpdate(items[i].productId) !in rejected
    && Demand(items[..i + 1], items[i].productId) <= products[items[i].productId].quantity
  }

  /** Every line passes. */
  predicate Fits(connected: bool, categories: map<int, CategoryRow>, rejected: map<Statement, Error>,
      products: map<int, ProductRow>, items: seq<OrderedProduct>)
  {
    forall i | 0 <= i < |items| :: LineFits(connected, categories, rejected, products, items, i)
  }

  /** Lines fit exactly when all but the last fit and the last one does too. */
  lemma FitsExtend(connected: bool, categories: map<int, CategoryRow>, rejected: map<Statement, Error>,
      products: map<int, ProductRow>, items: seq<OrderedProduct>)
    requires items != []
    ensures Fits(connected, categories, rejected, products, items)
        <==> Fits(connected, categories, rejected, products, items[..|items| - 1])
             && LineFits(connected, categories, rejected, products, items, |items| - 1)
  {
    var init := items[..|items| - 1];
    forall i | 0 <= i < |init|
      ensures LineFits(connected, categories, rejected, products, init, i)
          == LineFits(connected, categories, rejected, products, items, i)
    {
      assert init[..i + 1] == items[..i + 1];
    }
  }

  /** The walk keeps every product row and changes nothing in one but its stock and
      updated_at. */
  lemma {:induction false} ReserveKeepsRows(connected: bool, categories: map<int, CategoryRow>, rejected: map<Statement, Error>,
      products: map<int, ProductRow>, items: seq<OrderedProduct>, now: Time)
    ensures var r := Reserve(connected, categories, rejected, products, items, now);
      && r.products.Keys == products.Keys
      && forall id :: id in products ==> SameButStock(products[id], r.products[id])
    decreases |items|
  {
    if items != [] {
      ReserveKeepsRows(connected, categories, rejected, products, items[..|items| - 1], now);
    }
  }

  /** No product has a negative stock. */
  predicate StockNonNegative(products: map<int, ProductRow>)
  {
    forall id :: id in products ==> products[id].quantity >= 0
  }

  /** Stock never goes negative: the walk only subtracts a quantity the stock covers. */
  lemma {:induction false} ReserveKeepsStockNonNegative(connected: bool, categories: map<int, CategoryRow>, rejected: map<Statement, Error>,
      products: map<int, ProductRow>, items: seq<OrderedProduct>, now: Time)
    requires StockNonNegative(products)
    ensures StockNonNegative(Reserve(connected, categories, rejected, products, items, now).products)
    decreases |items|
  {
    if items != [] {
      var item := items[|items| - 1];
      var before := Reserve(connected, categories, rejected, products, items[..|items| - 1], now);
      ReserveKeepsStockNonNegative(connected, categories, rejected, products, items[..|items| - 1], now);
      match ProductRepo.Lookup(connected, categories, before.products, item.productId)
      case Failure(_) =>
      case Success(p) =>
        assert p.quantity == before.products[item.productId].quantity;
    }
  }

  /** Once a line has failed, the lines after it change nothing: the table keeps the
      decrements of the lines before the failing one. */
  lemma {:induction false} ReserveStopsAtFailure(connected: bool, categories: map<int, CategoryRow>, rejected: map<Statement, Error>,
      products: map<int, ProductRow>, items: seq<OrderedProduct>, k: nat, now: Time)
    requires k <= |items|
    requires Reserve(connected, categories, rejected, products, items[..k], now).failure.Some?
    ensures Reserve(connected, categories, rejected, products, items, now) == Reserve(connected, categories, rejected, products, items[..k], now)
    decreases |items|
  {
    if k < |items| {
      var init := items[..|items| - 1];
      assert init[..k] == items[..k];
      ReserveStopsAtFailure(connected, categories, rejected, products, init, k, now);
    } else {
      assert items[..k] == items;
    }
  }

  /** A failing line changes no row: the table after the walk is the table after the lines
      before it. */
  lemma FailingLineKeepsEarlierDecrements(connected: bool, categories: map<int, CategoryRow>, rejected: map<Statement, Error>,
      products: map<int, ProductRow>, items: seq<OrderedProduct>, k: nat, now: Time)
    requires k < |items|
    requires Reserve(connected, categories, rejected, products, items[..k], now).failure.None?
    requires Reserve(connected, categories, rejected, products, items[..k + 1], now).failure.Some?
    ensures Reserve(connected, categories, rejected, products, items, now).products == Reserve(connected, categories, rejected, products, items[..k], now).products
  {
    ReserveStopsAtFailure(connected, categories, rejected, products, items, k + 1, now);
    assert items[..k + 1][..k] == items[..k];
  }

  /** The walk succeeds exactly when every line fits, and then every product's stock is its
      old stock less what the lines ask of it. */
  lemma {:induction false} ReserveSucceedsIffFits(connected: bool, categories: map<int, CategoryRow>, rejected: map<Statement, Error>,
      products: map<int, ProductRow>, items: seq<OrderedProduct>, now: Time)
    ensures var r := Reserve(connected, categories, rejected, products, items, now);
      && (r.failure.None? <==> Fits(connected, categories, rejected, products, items))
      && (r.failure.None? ==> forall id :: id in products ==>
            id in r.products && r.products[id].quantity == products[id].quantity - Demand(items, id))
    decreases |items|
  {
    if items != [] {
      var init := items[..|items| - 1];
      var item := items[|items| - 1];
      ReserveSucceedsIffFits(connected, categories, rejected, products, init, now);
      ReserveKeepsRows(connected, categories, rejected, products, init, now);
      FitsExtend(connected, categories, rejected, products, items);
      assert items[..|items|] == items;
      var before := Reserve(connected, categories, rejected, products, init, now);
      if before.failure.None? && item.productId in products {
        assert before.products[item.productId].quantity == products[item.productId].quantity - Demand(init, item.productId);
        assert before.products[item.productId].categoryId == products[item.productId].categoryId;
      }
    }
  }
}
