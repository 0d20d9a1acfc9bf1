/** OrderRepository: order headers in hex_fwk.order, their lines through the order-product
    repository and their users through the user repository. None of its operations is
    atomic: a failure part-way leaves the rows already written in place. */
module OrderRepo {
  import opened Base
  import opened Domain
  import opened Store
  import opened Strconv
  import opened OrderProductRepo
  import ProductRepo
  import UserRepo

  const ErrOrderNotFound := Text("order not found")

  /** The rows CreateOrder adds for the items of order `orderId`, one per item, in item order,
      without their quantities (Add takes none). */
  function AddedRows(orderId: string, items: seq<OrderedProduct>): (rows: seq<OrderProductRow>)
    ensures |rows| == |items|
    ensures forall i :: 0 <= i < |items| ==> rows[i] == OrderProductRow(orderId, items[i].productId, QuantityDefault)
  {
    seq(|items|, i requires 0 <= i < |items| => OrderProductRow(orderId, items[i].productId, QuantityDefault))
  }

  /** The items with their quantities replaced by the column default. */
  function Defaulted(items: seq<OrderedProduct>): (r: seq<OrderedProduct>)
    ensures |r| == |items|
    ensures forall i :: 0 <= i < |items| ==> r[i] == OrderedProduct(items[i].productId, QuantityDefault)
  {
    seq(|items|, i requires 0 <= i < |items| => OrderedProduct(items[i].productId, QuantityDefault))
  }

  /** The lines written for an order are exactly the lines read back for it. */
  lemma LinesOfAddedRows(orderId: string, items: seq<OrderedProduct>)
    ensures LinesOf(AddedRows(orderId, items), orderId) == AddedRows(orderId, items)
  {
    LinesOfOwnRows(AddedRows(orderId, items), orderId);
  }

  /** An order whose id had no lines before CreateOrder reads back its items with the
      quantity column's default in place of each quantity. */
  lemma ReadBackLosesQuantities(before: seq<OrderProductRow>, orderId: string, items: seq<OrderedProduct>)
    requires LinesOf(before, orderId) == []
    ensures ItemsOf(LinesOf(before + AddedRows(orderId, items), orderId)) == Defaulted(items)
  {
    LinesOfAppend(before, AddedRows(orderId, items), orderId);
    LinesOfAddedRows(orderId, items);
    assert LinesOf(before + AddedRows(orderId, items), orderId) == AddedRows(orderId, items);
  }

  /** The table without the rows of order `orderId` whose product is one of `productIds`. */
  function Kept(rows: seq<OrderProductRow>, orderId: string, productIds: seq<int>): (kept: seq<OrderProductRow>)
    ensures forall i :: 0 <= i < |kept| ==> kept[i] in rows && !(kept[i].orderId == orderId && kept[i].productId in productIds)
  {
    if rows == [] then []
    else
      var last := rows[|rows| - 1];
      Kept(rows[..|rows| - 1], orderId, productIds)
        + (if last.orderId == orderId && last.productId in productIds then [] else [last])
  }

  /** Deleting one more product's lines extends the set of deleted products. */
  lemma {:induction false} KeptThenWithout(rows: seq<OrderProductRow>, orderId: string, productIds: seq<int>, productId: int)
    ensures Without(Kept(rows, orderId, productIds), orderId, productId) == Kept(rows, orderId, productIds + [productId])
    decreases |rows|
  {
    if rows != [] {
      var init := rows[..|rows| - 1];
      var last := rows[|rows| - 1];
      KeptThenWithout(init, orderId, productIds, productId);
      var k := Kept(init, orderId, productIds);
      var tail := if last.orderId == orderId && last.productId in productIds then [] else [last];
      assert Kept(rows, orderId, productIds) == k + tail;
      if tail == [] {
        assert k + tail == k;
      } else {
        assert (k + tail)[..|k + tail| - 1] == k;
      }
    }
  }

  /** Deleting the lines of item i after those of the items before it deletes the lines of
      the items up to and including item i. */
  lemma DeleteNextProduct(rows: seq<OrderProductRow>, orderId: string, items: seq<OrderedProduct>, i: int)
    requires 0 <= i < |items|
    ensures Without(Kept(rows, orderId, ProductIds(items[..i])), orderId, items[i].productId)
         == Kept(rows, orderId, ProductIds(items[..i + 1]))
  {
    KeptThenWithout(rows, orderId, ProductIds(items[..i]), items[i].productId);
    assert ProductIds(items[..i]) + [items[i].productId] == ProductIds(items[..i + 1]);
  }

  /** The position of the first item, from `from` on, whose line cannot be added to `rows`
      once the lines of the items before it are in, or |items| when every line goes in. */
  function FirstRefusedAddFrom(connected: bool, rejected: map<Statement, Error>, rows: seq<OrderProductRow>,
                               orderId: string, items: seq<OrderedProduct>, from: nat): (k: nat)
    requires from <= |items|
    ensures from <= k <= |items|
    ensures forall j :: from <= j < k ==>
      LineInsertAnswer(connected, rejected, rows + AddedRows(orderId, items[..j]), orderId, items[j].productId).None?
    ensures k < |items| ==>
      LineInsertAnswer(connected, rejected, rows + AddedRows(orderId, items[..k]), orderId, items[k].productId).Some?
    decreases |items| - from
  {
    if from == |items| then from
    else if LineInsertAnswer(connected, rejected, rows + AddedRows(orderId, items[..from]), orderId, items[from].productId).Some? then from
    else FirstRefusedAddFrom(connected, rejected, rows, orderId, items, from + 1)
  }

  /** Where the add loop of CreateOrder stops: each add sees the rows of the items before it,
      so a product listed twice is refused by the key at its second listing. */
  function FirstRefusedAdd(connected: bool, rejected: map<Statement, Error>, rows: seq<OrderProductRow>,
                           orderId: string, items: seq<OrderedProduct>): (k: nat)
    ensures k <= |items|
    ensures forall j :: 0 <= j < k ==>
      LineInsertAnswer(connected, rejected, rows + AddedRows(orderId, items[..j]), orderId, items[j].productId).None?
    ensures k < |items| ==>
      LineInsertAnswer(connected, rejected, rows + AddedRows(orderId, items[..k]), orderId, items[k].productId).Some?
  {
    FirstRefusedAddFrom(connected, rejected, rows, orderId, items, 0)
  }

  /** An order listing one product at positions j < i never gets its lines past position i:
      the line of item j is in the table when item i's insert arrives. */
  lemma RepeatedProductStopsAdd(connected: bool, rejected: map<Statement, Error>, rows: seq<OrderProductRow>,
                                orderId: string, items: seq<OrderedProduct>, j: int, i: int)
    requires 0 <= j < i < |items| && items[j].productId == items[i].productId
    ensures FirstRefusedAdd(connected, rejected, rows, orderId, items) <= i
  {
    var before := rows + AddedRows(orderId, items[..i]);
    assert before[|rows| + j] == OrderProductRow(orderId, items[i].productId, QuantityDefault);
    assert HasLine(before, orderId, items[i].productId);
    assert LineInsertAnswer(connected, rejected, before, orderId, items[i].productId).Some?;
  }

  /** The line DELETEs DeleteOrder sends for the items, in item order. */
  function LineDeletes(orderId: string, items: seq<OrderedProduct>): (stmts: seq<Statement>)
    ensures |stmts| == |items| && forall i :: 0 <= i < |items| ==> stmts[i] == LineDelete(orderId, items[i].productId)
  {
    seq(|items|, i requires 0 <= i < |items| => LineDelete(orderId, items[i].productId))
  }

  /** The product ids of the items, in item order. */
  function ProductIds(items: seq<OrderedProduct>): (ids: seq<int>)
    ensures |ids| == |items| && forall i :: 0 <= i < |items| ==> ids[i] == items[i].productId
  {
    seq(|items|, i requires 0 <= i < |items| => items[i].productId)
  }

  class OrderRepository {
    const db: Database
    const orderProducts: OrderProductRepository
    const users: UserRepo.UserRepository

    /** NewOrderRepository: with its own order-product and user repositories over the same store. */
    constructor (db: Database)
      ensures this.db == db && Wired()
    {
      this.db := db;
      orderProducts := new OrderProductRepository(db);
      users := new UserRepo.UserRepository(db);
    }

    predicate Wired()
    {
      orderProducts.db == db && orderProducts.Wired() && users.db == db
    }

    /** The order header with that id, its lines read back through GetProducts and its user
        through FindByID; "order not found" when there is no header. */
    method FindOrderById(id: string) returns (r: Result<Order>)
      requires Wired()
      ensures !db.connected ==> r == Failure(ErrConnDone)
      ensures db.connected && id !in db.orders ==> r == Failure(ErrOrderNotFound)
      ensures db.connected && id in db.orders ==>
        var lines := LinesOf(db.orderProducts, id);
        r.Success? <==>
          && (forall i :: 0 <= i < |lines| ==> ProductRepo.Lookup(db.connected, db.categories, db.products, lines[i].productId).Success?)
          && db.orders[id].userId in db.users
      ensures r.Success? ==>
        && fresh(r.value) && id in db.orders
        && r.value.id == id && r.value.status == db.orders[id].status
        && r.value.createdAt == db.orders[id].createdAt && r.value.updatedAt == db.orders[id].updatedAt
        && r.value.productItems == Some(ItemsOf(LinesOf(db.orderProducts, id)))
        && r.value.user != null && fresh(r.value.user) && r.value.user.id == db.orders[id].userId
    {
      if !db.connected {
        return Failure(ErrConnDone);
      }
      if id !in db.orders {
        return Failure(ErrOrderNotFound);
      }
      var row := db.orders[id];
      var items := orderProducts.GetProducts(id);
      if items.Failure? {
        return Failure(items.error);
      }
      var user := users.FindByID(row.userId);
      if user.Failure? {
        return Failure(user.error);
      }
      var order := new Order(id, Some(items.value), row.status, row.createdAt, row.updatedAt, user.value);
      return Success(order);
    }

    /** The loop of CreateOrder that adds one line per item, in item order, stopping at the
        first failing add: the lines of the items before it stay written. */
    method AddLines(orderId: string, items: seq<OrderedProduct>) returns (err: Option<Error>)
      requires Wired()
      modifies db`orderProducts
      ensures var k := FirstRefusedAdd(db.connected, db.rejected, old(db.orderProducts), orderId, items);
        && db.orderProducts == old(db.orderProducts) + AddedRows(orderId, items[..k])
        && err == (if k < |items|
                   then LineInsertAnswer(db.connected, db.rejected, db.orderProducts, orderId, items[k].productId)
                   else None)
      ensures !db.connected ==> err == (if items == [] then None else Some(ErrConnDone)) && unchanged(db)
    {
      ghost var k := FirstRefusedAdd(db.connected, db.rejected, db.orderProducts, orderId, items);
      var i := 0;
      while i < |items|
        invariant 0 <= i <= k
        invariant db.orderProducts == old(db.orderProducts) + AddedRows(orderId, items[..i])
        modifies db`orderProducts
      {
        // The call at order_repo.go:61 also passes items[i].quantity, a parameter that
        // OrderProductRepository.Add (orderproduct_repo.go:50) does not declare.
        err := orderProducts.Add(orderId, items[i].productId);
        match err {
          case Some(e) =>
            assert i == k;
            return;
          case None =>
        }
        assert AddedRows(orderId, items[..i + 1]) == AddedRows(orderId, items[..i]) + [OrderProductRow(orderId, items[i].productId, QuantityDefault)];
        i := i + 1;
      }
      assert items[..i] == items;
      return None;
    }

    /** The INSERT of CreateOrder: forces the status to "CREATED", inserts the header under a
        fresh id and scans the id and the timestamps back into the order. */
    method InsertHeader(order: Order, now: Time) returns (err: Option<Error>)
      requires db.Valid() && order.user != null
      modifies order`status, order`id, order`createdAt, order`updatedAt, db`orders, db`nextOrderKey
      ensures db.Valid()
      ensures order.status == StatusCreated
      ensures !db.connected ==>
        err == Some(ErrConnDone) && unchanged(db) && order.id == old(order.id)
      ensures err == Answer(db.connected, db.rejected, HeaderInsert(order.user.id))
      ensures err.Some? ==> unchanged(db) && order.id == old(order.id)
      ensures err.None? ==>
        && var key := Decimal(old(db.nextOrderKey));
        && key !in old(db.orders) && order.id == key
        && db.orders == old(db.orders)[key := OrderRow(StatusCreated, order.user.id, now, now)]
        && order.createdAt == now && order.updatedAt == now
    {
      order.status := StatusCreated;
      if !db.connected {
        return Some(ErrConnDone);
      }
      if HeaderInsert(order.user.id) in db.rejected {
        return Some(db.rejected[HeaderInsert(order.user.id)]);
      }
      var key := Decimal(db.nextOrderKey);
      var header := OrderRow(StatusCreated, order.user.id, now, now);
      FreshKeysStayFresh(db.orders, db.nextOrderKey, db.nextOrderKey, header);
      db.orders := db.orders[key := header];
      db.nextOrderKey := db.nextOrderKey + 1;
      order.id, order.createdAt, order.updatedAt := key, now, now;
      err := None;
    }

    /** The end of CreateOrder: re-reads the order's lines and its user and stores both in the
        order; on failure the order keeps its items and user. */
    method ReadBack(order: Order) returns (r: Result<Order>)
      requires Wired() && order.user != null
      modifies order`productItems, order`user
      ensures var lines := LinesOf(db.orderProducts, order.id);
        r.Success? <==>
          && db.connected
          && (forall i :: 0 <= i < |lines| ==> ProductRepo.Lookup(db.connected, db.categories, db.products, lines[i].productId).Success?)
          && old(order.user.id) in db.users
      ensures r.Success? ==>
        && r.value == order
        && order.productItems == Some(ItemsOf(LinesOf(db.orderProducts, order.id)))
        && order.user != null && fresh(order.user) && order.user.id == old(order.user.id)
      ensures r.Failure? ==> order.productItems == old(order.productItems) && order.user == old(order.user)
    {
      var lines := orderProducts.GetProducts(order.id);
      if lines.Failure? {
        return Failure(lines.error);
      }
      var user := users.FindByID(order.user.id);
      if user.Failure? {
        return Failure(user.error);
      }
      order.user := user.value;
      order.productItems := Some(lines.value);
      return Success(order);
    }

    /** Forces the status to "CREATED", inserts the header under a fresh id (written back into
        the order with the timestamps), adds one line per item in item order, then re-reads
        the lines and the user into the order. */
    method CreateOrder(order: Order, now: Time) returns (r: Result<Order>)
      requires db.Valid() && Wired()
      requires order.productItems.Some? && order.user != null
      modifies order, db`orders, db`nextOrderKey, db`orderProducts
      ensures db.Valid()
      ensures order.status == StatusCreated
      ensures !db.connected ==>
        && r == Failure(ErrConnDone)
        && db.orders == old(db.orders) && db.orderProducts == old(db.orderProducts)
        && order.id == old(order.id) && order.productItems == old(order.productItems) && order.user == old(order.user)
      ensures var header := Answer(db.connected, db.rejected, HeaderInsert(old(order.user.id)));
        header.Some? ==>
          && r == Failure(header.value)
          && db.orders == old(db.orders) && db.orderProducts == old(db.orderProducts)
          && order.id == old(order.id) && order.productItems == old(order.productItems) && order.user == old(order.user)
      ensures Answer(db.connected, db.rejected, HeaderInsert(old(order.user.id))).None? ==>
        && var key := Decimal(old(db.nextOrderKey));
        && var items := old(order.productItems.value);
        && var k := FirstRefusedAdd(db.connected, db.rejected, old(db.orderProducts), key, items);
        && key !in old(db.orders) && order.id == key
        && db.orders == old(db.orders)[key := OrderRow(StatusCreated, old(order.user.id), now, now)]
        && db.orderProducts == old(db.orderProducts) + AddedRows(key, items[..k])
        && order.createdAt == now && order.updatedAt == now
        && (k < |items| ==>
              r.Failure? && Some(r.error) == LineInsertAnswer(db.connected, db.rejected, db.orderProducts, key, items[k].productId))
      ensures db.connected ==>
        var lines := LinesOf(db.orderProducts, order.id);
        r.Success? <==>
          && Answer(db.connected, db.rejected, HeaderInsert(old(order.user.id))).None?
          && FirstRefusedAdd(db.connected, db.rejected, old(db.orderProducts), order.id, old(order.productItems.value))
               == |old(order.productItems.value)|
          && (forall i :: 0 <= i < |lines| ==> ProductRepo.Lookup(db.connected, db.categories, db.products, lines[i].productId).Success?)
          && old(order.user.id) in db.users
      ensures r.Success? ==>
        && r.value == order
        && order.productItems == Some(ItemsOf(LinesOf(db.orderProducts, order.id)))
        && order.user != null && fresh(order.user) && order.user.id == old(order.user.id)
      ensures r.Success? && LinesOf(old(db.orderProducts), order.id) == [] ==>
        order.productItems == Some(Defaulted(old(order.productItems.value)))
      ensures r.Failure? ==> order.productItems == old(order.productItems) && order.user == old(order.user)
    {
      var err := InsertHeader(order, now);
      match err {
        case Some(e) => return Failure(e);
        case None =>
      }
      assert db.Valid();
      var items := order.productItems.value;
      ghost var k := FirstRefusedAdd(db.connected, db.rejected, db.orderProducts, order.id, items);
      ghost var header := db.orders;
      var added := AddLines(order.id, items);
      match added {
        case Some(e) =>
          assert k < |items|;
          return Failure(e);
        case None =>
      }
      assert db.Valid();
      assert k == |items| && items[..k] == items;
      r := ReadBack(order);
      assert db.orders == header;
      if r.Success? && LinesOf(old(db.orderProducts), order.id) == [] {
        ReadBackLosesQuantities(old(db.orderProducts), order.id, items);
      }
    }

    /** Sets status and updated_at of the header with the order's id and stamps the order's
        UpdatedAt; an id without a header changes nothing and is not an error. A refused
        UPDATE changes neither the header nor the order. */
    method UpdateOrderStatus(order: Order, now: Time) returns (r: Result<Order>)
      modifies order`updatedAt, db`orders
      ensures !db.connected ==> r == Failure(ErrConnDone) && unchanged(db) && unchanged(order)
      ensures var answer := Answer(db.connected, db.rejected, HeaderUpdate(order.id));
        answer.Some? ==> r == Failure(answer.value) && unchanged(db) && unchanged(order)
      ensures Answer(db.connected, db.rejected, HeaderUpdate(order.id)).None? ==>
        && r == Success(order) && order.updatedAt == now
        && db.orders == (if order.id in old(db.orders)
                         then old(db.orders)[order.id := old(db.orders[order.id]).(status := order.status, updatedAt := now)]
                         else old(db.orders))
    {
      if !db.connected {
        return Failure(ErrConnDone);
      }
      if HeaderUpdate(order.id) in db.rejected {
        return Failure(db.rejected[HeaderUpdate(order.id)]);
      }
      if order.id in db.orders {
        db.orders := db.orders[order.id := db.orders[order.id].(status := order.status, updatedAt := now)];
      }
      order.updatedAt := now;
      return Success(order);
    }

    /** The loop of DeleteOrder that deletes the lines of one product per item, in item order,
        stopping at the first failing delete: the lines of the items before it stay deleted. */
    method DeleteLines(orderId: string, items: seq<OrderedProduct>) returns (err: Option<Error>)
      requires Wired()
      modifies db`orderProducts
      ensures var k := FirstRejected(db.connected, db.rejected, LineDeletes(orderId, items));
        && db.orderProducts == Kept(old(db.orderProducts), orderId, ProductIds(items[..k]))
        && err == (if k < |items| then Answer(db.connected, db.rejected, LineDelete(orderId, items[k].productId)) else None)
    {
      ghost var k := FirstRejected(db.connected, db.rejected, LineDeletes(orderId, items));
      var i := 0;
      KeptNone(db.orderProducts, orderId);
      while i < |items|
        invariant 0 <= i <= k
        invariant db.orderProducts == Kept(old(db.orderProducts), orderId, ProductIds(items[..i]))
        modifies db`orderProducts
      {
        // OrderProductRepository declares no Delete; the call at order_repo.go:90 is served by
        // the Delete this model supplies.
        err := orderProducts.Delete(orderId, items[i].productId);
        match err {
          case Some(_) =>
            assert i == k;
            return;
          case None =>
        }
        DeleteNextProduct(old(db.orderProducts), orderId, items, i);
        i := i + 1;
      }
      return None;
    }

    /** Deletes the lines of each listed product, then the header; the first failure returns
        at once, leaving the header and the lines not yet deleted in place. */
    method DeleteOrder(order: Order) returns (err: Option<Error>)
      requires Wired()
      requires order.productItems.Some?
      modifies db`orderProducts, db`orders
      ensures !db.connected ==> err == Some(ErrConnDone) && unchanged(db)
      ensures var items := order.productItems.value;
        var k := FirstRejected(db.connected, db.rejected, LineDeletes(order.id, items));
        && db.orderProducts == Kept(old(db.orderProducts), order.id, ProductIds(items[..k]))
        && (k < |items| ==>
              err == Answer(db.connected, db.rejected, LineDelete(order.id, items[k].productId)) && db.orders == old(db.orders))
        && (k == |items| ==>
              && err == Answer(db.connected, db.rejected, HeaderDelete(order.id))
              && db.orders == (if err.None? then old(db.orders) - {order.id} else old(db.orders)))
    {
      err := DeleteLines(order.id, order.productItems.value);
      KeptNone(old(db.orderProducts), order.id);
      if err.Some? {
        return;
      }
      if !db.connected {
        return Some(ErrConnDone);
      }
      if HeaderDelete(order.id) in db.rejected {
        return Some(db.rejected[HeaderDelete(order.id)]);
      }
      db.orders := db.orders - {order.id};
      err := None;
    }
  }

  /** An add that fails part-way: with the second item's INSERT rejected, CreateOrder stops
      after the first item's row, which stays written. */
  lemma SecondLineInsertRejected(rows: seq<OrderProductRow>, orderId: string, first: OrderedProduct, second: OrderedProduct, e: Error)
    requires first.productId != second.productId
    requires !HasLine(rows, orderId, first.productId)
    ensures var rejected := map[LineInsert(orderId, second.productId) := e];
      && FirstRefusedAdd(true, rejected, rows, orderId, [first, second]) == 1
      && AddedRows(orderId, [first, second][..1]) == [OrderProductRow(orderId, first.productId, QuantityDefault)]
  {
    var rejected := map[LineInsert(orderId, second.productId) := e];
    assert rows + AddedRows(orderId, [first, second][..0]) == rows;
    assert LineInsertAnswer(true, rejected, rows, orderId, first.productId).None?;
    var after := rows + AddedRows(orderId, [first, second][..1]);
    assert LineInsertAnswer(true, rejected, after, orderId, second.productId).Some?;
  }

  /** Listing one product twice: the first line goes in and the key refuses the second,
      which CreateOrder returns as the driver's duplicate-key error. */
  lemma RepeatedProductRefused(rows: seq<OrderProductRow>, orderId: string, item: OrderedProduct)
    requires !HasLine(rows, orderId, item.productId)
    ensures FirstRefusedAdd(true, map[], rows, orderId, [item, item]) == 1
    ensures LineInsertAnswer(true, map[], rows + AddedRows(orderId, [item, item][..1]), orderId, item.productId)
         == Some(UniqueViolation(OrderLineKey))
  {
    assert rows + AddedRows(orderId, [item, item][..0]) == rows;
    RepeatedProductStopsAdd(true, map[], rows, orderId, [item, item], 0, 1);
    var after := rows + AddedRows(orderId, [item, item][..1]);
    assert after[|rows|] == OrderProductRow(orderId, item.productId, QuantityDefault);
  }

  /** A delete that fails part-way: with the second item's DELETE rejected, DeleteOrder stops
      after the first product's lines are gone and leaves the header. */
  lemma SecondLineDeleteRejected(rows: seq<OrderProductRow>, orderId: string, first: OrderedProduct, second: OrderedProduct, e: Error)
    requires first.productId != second.productId
    ensures var rejected := map[LineDelete(orderId, second.productId) := e];
      && FirstRejected(true, rejected, LineDeletes(orderId, [first, second])) == 1
      && Kept(rows, orderId, ProductIds([first, second][..1])) == Without(rows, orderId, first.productId)
  {
  }

  /** Deleting the lines of no product deletes nothing. */
  lemma {:induction false} KeptNone(rows: seq<OrderProductRow>, orderId: string)
    ensures Kept(rows, orderId, []) == rows
    decreases |rows|
  {
    if rows != [] {
      var init, last := rows[..|rows| - 1], rows[|rows| - 1];
      KeptNone(init, orderId);
      assert last.productId !in [];
      assert Kept(rows, orderId, []) == init + [last];
      assert init + [last] == rows;
    }
  }
}
