/** OrderService: the order workflow. Creating an order and changing its status both walk
    the order's lines first, checking and lowering each product's stock and writing it back
    at once; only when every line passes is the order itself written. Nothing is undone when
    a later line or the order write fails. */
module OrderService {
  import opened Base
  import opened Domain
  import opened Store
  import opened Strconv
  import opened Stock
  import OrderProductRepo
  import ProductRepo
  import UserRepo
  import OrderRepo

  const ErrInvalidStatus := Text("invalid order status")

  /** The statuses UpdateOrderStatus accepts; the empty status is one of them. */
  predicate ValidStatus(status: string)
  {
    status == "" || status == StatusCreated || status == StatusPending || status == StatusCompleted || status == StatusClosed
  }

  class OrderService {
    const orderRepo: OrderRepo.OrderRepository
    const productRepo: ProductRepo.ProductRepository
    const userRepo: UserRepo.UserRepository

    /** NewOrderService takes the three repositories (order.go:22); the server and the order
        tests call it with two (server.go:84, order_test.go:36), which does not compile. */
    constructor (orderRepo: OrderRepo.OrderRepository, productRepo: ProductRepo.ProductRepository, userRepo: UserRepo.UserRepository)
      ensures this.orderRepo == orderRepo && this.productRepo == productRepo && this.userRepo == userRepo
    {
      this.orderRepo := orderRepo;
      this.productRepo := productRepo;
      this.userRepo := userRepo;
    }

    /** The repositories work on one store. */
    predicate Wired()
    {
      && orderRepo.db == productRepo.db && userRepo.db == productRepo.db
      && orderRepo.Wired() && productRepo.Wired()
    }

    /** One line of the loop that CreateOrder and UpdateOrderStatus share: look the product
        up, check the quantity against zero and against the stock, and write the product back
        with the lowered stock, which fails for a product whose UPDATE the server rejects. */
    method DecrementLine(item: OrderedProduct, now: Time) returns (err: Option<Error>)
      requires Wired() && productRepo.db.Valid()
      modifies productRepo.db`products
      ensures productRepo.db.Valid()
      ensures var db := productRepo.db;
        Reservation(db.products, err)
          == Step(db.connected, db.categories, db.rejected, Reservation(old(db.products), None), item, now)
    {
      var product := productRepo.FindProductById(item.productId);
      if product.Failure? {
        return Some(ErrProductMissing);
      }
      if item.quantity <= 0 {
        return Some(ErrInvalidOrder);
      }
      if product.value.quantity < item.quantity {
        return Some(ErrNotEnoughItems);
      }
      var lowered := product.value.(quantity := product.value.quantity - item.quantity);
      var rows, e := productRepo.UpdateProduct(lowered, item.productId, now);
      match e {
        case Some(_) => return Some(ErrUpdatingQuantity);
        case None => return None;
      }
    }

    /** The loop that CreateOrder and UpdateOrderStatus share, over the lines in order. The
        store ends as Reserve says, also when a line fails part-way. */
    method DecrementStock(items: seq<OrderedProduct>, now: Time) returns (err: Option<Error>)
      requires Wired() && productRepo.db.Valid()
      modifies productRepo.db`products
      ensures productRepo.db.Valid()
      ensures var res := Reserve(productRepo.db.connected, productRepo.db.categories, productRepo.db.rejected, old(productRepo.db.products), items, now);
        productRepo.db.products == res.products && err == res.failure
    {
      var db: Database := productRepo.db;
      var i := 0;
      while i < |items|
        invariant 0 <= i <= |items|
        invariant db.Valid()
        invariant Reserve(db.connected, db.categories, db.rejected, old(db.products), items[..i], now) == Reservation(db.products, None)
        modifies db`products
      {
        assert items[..i + 1][..i] == items[..i];
        err := DecrementLine(items[i], now);
        if err.Some? {
          ReserveStopsAtFailure(db.connected, db.categories, db.rejected, old(db.products), items, i + 1, now);
          return;
        }
        i := i + 1;
      }
      assert items[..i] == items;
      return None;
    }

    /** The order repository's FindOrderById, its error wrapped. */
    method FindOrderById(id: string) returns (r: Result<Order>)
      requires Wired()
      ensures var db := orderRepo.db;
        r.Success? <==>
          && db.connected && id in db.orders
          && (forall i :: 0 <= i < |OrderProductRepo.LinesOf(db.orderProducts, id)| ==>
                ProductRepo.Lookup(db.connected, db.categories, db.products, OrderProductRepo.LinesOf(db.orderProducts, id)[i].productId).Success?)
          && db.orders[id].userId in db.users
      ensures orderRepo.db.connected && id !in orderRepo.db.orders ==>
        r == Failure(Wrapped(OrderRepo.ErrOrderNotFound, "failed to retrieve an product"))
      ensures r.Failure? ==> r.error.Wrapped? && r.error.context == "failed to retrieve an product"
      ensures r.Success? ==>
        && r.value.id == id && r.value.status == orderRepo.db.orders[id].status
        && r.value.productItems == Some(OrderProductRepo.ItemsOf(OrderProductRepo.LinesOf(orderRepo.db.orderProducts, id)))
    {
      r := orderRepo.FindOrderById(id);
      if r.Failure? {
        return Failure(Wrapped(r.error, "failed to retrieve an product"));
      }
    }

    /** The end of CreateOrder: the repository writes the order, and its error is wrapped with
        "failed to create an order". */
    method WriteOrder(order: Order, now: Time) returns (r: Result<Order>)
      requires Wired() && productRepo.db.Valid()
      requires order.productItems.Some? && order.user != null
      modifies order, productRepo.db`orders, productRepo.db`nextOrderKey, productRepo.db`orderProducts
      ensures productRepo.db.Valid()
      ensures order.status == StatusCreated
      ensures var db := productRepo.db;
        var header := Answer(db.connected, db.rejected, HeaderInsert(old(order.user.id)));
        && (!db.connected ==> r == Failure(Wrapped(ErrConnDone, "failed to create an order")) && db.orders == old(db.orders))
        && (header.Some? ==>
              r == Failure(Wrapped(header.value, "failed to create an order"))
              && db.orders == old(db.orders) && db.orderProducts == old(db.orderProducts))
        && (header.None? ==>
              && var key := Decimal(old(db.nextOrderKey));
              && key !in old(db.orders) && order.id == key
              && db.orders == old(db.orders)[key := OrderRow(StatusCreated, old(order.user.id), now, now)])
      ensures r.Success? ==> r.value == order && order.id in productRepo.db.orders && productRepo.db.orders[order.id].status == StatusCreated
      ensures r.Failure? ==> r.error.Wrapped? && r.error.context == "failed to create an order"
    {
      r := orderRepo.CreateOrder(order, now);
      if r.Failure? {
        return Failure(Wrapped(r.error, "failed to create an order"));
      }
    }

    /** Forces the status to "CREATED", walks the lines, and writes the order only when every
        line passed. A failing line leaves the earlier lines' stock lowered and writes no order. */
    method CreateOrder(order: Order, now: Time) returns (r: Result<Order>)
      requires Wired() && productRepo.db.Valid()
      requires order.productItems.Some? && order.user != null
      modifies order, productRepo.db`products, productRepo.db`orders, productRepo.db`nextOrderKey, productRepo.db`orderProducts
      ensures productRepo.db.Valid()
      ensures order.status == StatusCreated
      ensures var db := productRepo.db;
        var res := Reserve(db.connected, db.categories, db.rejected, old(db.products), old(order.productItems.value), now);
        && db.products == res.products
        && (res.failure.Some? ==>
              r == Failure(res.failure.value) && db.orders == old(db.orders) && db.orderProducts == old(db.orderProducts))
        && (res.failure.None? && !db.connected ==>
              r == Failure(Wrapped(ErrConnDone, "failed to create an order")) && db.orders == old(db.orders))
        && var header := Answer(db.connected, db.rejected, HeaderInsert(old(order.user.id)));
        && (res.failure.None? && header.Some? ==>
              r == Failure(Wrapped(header.value, "failed to create an order"))
              && db.orders == old(db.orders) && db.orderProducts == old(db.orderProducts))
        && (res.failure.None? && header.None? ==>
              && var key := Decimal(old(db.nextOrderKey));
              && key !in old(db.orders) && order.id == key
              && db.orders == old(db.orders)[key := OrderRow(StatusCreated, old(order.user.id), now, now)])
      ensures r.Success? ==> r.value == order && order.id in productRepo.db.orders && productRepo.db.orders[order.id].status == StatusCreated
    {
      order.status := StatusCreated;
      var err := DecrementStock(order.productItems.value, now);
      match err {
        case Some(e) => return Failure(e);
        case None =>
      }
      r := WriteOrder(order, now);
    }

    /** Rejects a status outside the accepted set before touching anything, then walks the
        lines as CreateOrder does and finally writes the status. A refused status write
        leaves the lowered stock in place. */
    method UpdateOrderStatus(order: Order, now: Time) returns (r: Result<Order>)
      requires Wired() && productRepo.db.Valid()
      requires order.productItems.Some?
      modifies order`updatedAt, productRepo.db`products, productRepo.db`orders
      ensures productRepo.db.Valid()
      ensures !ValidStatus(order.status) ==> r == Failure(ErrInvalidStatus) && unchanged(productRepo.db) && unchanged(order)
      ensures ValidStatus(order.status) ==>
        var db := productRepo.db;
        var res := Reserve(db.connected, db.categories, db.rejected, old(db.products), order.productItems.value, now);
        && db.products == res.products
        && (res.failure.Some? ==> r == Failure(res.failure.value) && db.orders == old(db.orders))
        && (res.failure.None? && !db.connected ==>
              r == Failure(Wrapped(ErrConnDone, "failed to update an order")) && db.orders == old(db.orders))
        && var answer := Answer(db.connected, db.rejected, HeaderUpdate(order.id));
        && (res.failure.None? && answer.Some? ==>
              r == Failure(Wrapped(answer.value, "failed to update an order"))
              && db.orders == old(db.orders) && order.updatedAt == old(order.updatedAt))
        && (res.failure.None? && answer.None? ==>
              && r == Success(order) && order.updatedAt == now
              && db.orders == (if order.id in old(db.orders)
                               then old(db.orders)[order.id := old(db.orders[order.id]).(status := order.status, updatedAt := now)]
                               else old(db.orders)))
    {
      if !ValidStatus(order.status) {
        return Failure(ErrInvalidStatus);
      }
      var err := DecrementStock(order.productItems.value, now);
      match err {
        case Some(e) => return Failure(e);
        case None =>
      }
      r := orderRepo.UpdateOrderStatus(order, now);
      if r.Failure? {
        return Failure(Wrapped(r.error, "failed to update an order"));
      }
    }

    /** Deletes the order through the repository; no product's stock is given back. */
    method DeleteOrder(order: Order) returns (err: Option<Error>)
      requires Wired()
      requires order.productItems.Some?
      modifies orderRepo.db`orderProducts, orderRepo.db`orders
      ensures orderRepo.db.products == old(orderRepo.db.products)
      ensures !orderRepo.db.connected ==> err == Some(Wrapped(ErrConnDone, "failed to update an order")) && unchanged(orderRepo.db)
      ensures var db := orderRepo.db;
        var items := order.productItems.value;
        var k := FirstRejected(db.connected, db.rejected, OrderRepo.LineDeletes(order.id, items));
        var answer := if k < |items| then Answer(db.connected, db.rejected, LineDelete(order.id, items[k].productId))
                      else Answer(db.connected, db.rejected, HeaderDelete(order.id));
        && db.orderProducts == OrderRepo.Kept(old(db.orderProducts), order.id, OrderRepo.ProductIds(items[..k]))
        && (answer.None? ==> err.None? && db.orders == old(db.orders) - {order.id})
        && (answer.Some? ==> err == Some(Wrapped(answer.value, "failed to update an order")) && db.orders == old(db.orders))
    {
      var e := orderRepo.DeleteOrder(order);
      match e {
        case Some(failure) => return Some(Wrapped(failure, "failed to update an order"));
        case None => return None;
      }
    }
  }

  /** A header write refused after the walk: with only the order's INSERT or UPDATE
      rejected, a one-line order whose product has the stock passes the walk, which lowers
      the stock, and the header write then fails. CreateOrder and UpdateOrderStatus return
      the wrapped error with the stock left lowered. */
  lemma HeaderWriteRefusedAfterWalk(categories: map<int, CategoryRow>, products: map<int, ProductRow>,
                                    item: OrderedProduct, s: Statement, e: Error, now: Time)
    requires s.HeaderInsert? || s.HeaderUpdate?
    requires item.productId in products && products[item.productId].categoryId in categories
    requires 0 < item.quantity <= products[item.productId].quantity
    ensures var rejected := map[s := e];
      var res := Reserve(true, categories, rejected, products, [item], now);
      && res.failure.None?
      && res.products[item.productId].quantity == products[item.productId].quantity - item.quantity
      && Answer(true, rejected, s) == Some(e)
  {
  }
}
