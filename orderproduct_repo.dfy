/** OrderProductRepository: the lines of orders, kept in hex_fwk.order_product. */
module OrderProductRepo {
  import opened Base
  import opened Domain
  import opened Store
  import ProductRepo

  /** The rows of one order, in table order (the WHERE order_id = $1 of GetProducts). */
  function LinesOf(rows: seq<OrderProductRow>, orderId: string): (lines: seq<OrderProductRow>)
    ensures |lines| <= |rows|
    ensures forall i :: 0 <= i < |lines| ==> lines[i].orderId == orderId && lines[i] in rows
    ensures forall row :: row in rows && row.orderId == orderId ==> row in lines
  {
    if rows == [] then []
    else
      var last := rows[|rows| - 1];
      LinesOf(rows[..|rows| - 1], orderId) + (if last.orderId == orderId then [last] else [])
  }

  /** Selecting the lines of an order commutes with appending rows, so the lines keep the
      table's order. */
  lemma {:induction false} LinesOfAppend(a: seq<OrderProductRow>, b: seq<OrderProductRow>, orderId: string)
    ensures LinesOf(a + b, orderId) == LinesOf(a, orderId) + LinesOf(b, orderId)
    decreases |b|
  {
    if b == [] {
      assert a + b == a;
    } else {
      var b' := b[..|b| - 1];
      assert (a + b)[..|a + b| - 1] == a + b';
      LinesOfAppend(a, b', orderId);
    }
  }

  /** A table whose every row belongs to the order reads back whole. */
  lemma {:induction false} LinesOfOwnRows(rows: seq<OrderProductRow>, orderId: string)
    requires forall i :: 0 <= i < |rows| ==> rows[i].orderId == orderId
    ensures LinesOf(rows, orderId) == rows
    decreases |rows|
  {
    if rows != [] {
      var init := rows[..|rows| - 1];
      LinesOfOwnRows(init, orderId);
      assert LinesOf(rows, orderId) == LinesOf(init, orderId) + [rows[|rows| - 1]];
      assert init + [rows[|rows| - 1]] == rows;
    }
  }

  /** The table without the rows of one product in one order (DELETE ... WHERE order_id = $1
      AND product_id = $2). */
  function Without(rows: seq<OrderProductRow>, orderId: string, productId: int): (kept: seq<OrderProductRow>)
    ensures forall i :: 0 <= i < |kept| ==> kept[i] in rows && !(kept[i].orderId == orderId && kept[i].productId == productId)
    ensures forall row :: row in rows && !(row.orderId == orderId && row.productId == productId) ==> row in kept
  {
    if rows == [] then []
    else
      var last := rows[|rows| - 1];
      Without(rows[..|rows| - 1], orderId, productId)
        + (if last.orderId == orderId && last.productId == productId then [] else [last])
  }

  /** What one line reads back as: its product and its quantity. */
  function ItemOf(row: OrderProductRow): OrderedProduct
  {
    OrderedProduct(row.productId, row.quantity)
  }

  function ItemsOf(lines: seq<OrderProductRow>): (items: seq<OrderedProduct>)
    ensures |items| == |lines| && forall i :: 0 <= i < |lines| ==> items[i] == ItemOf(lines[i])
  {
    seq(|lines|, i requires 0 <= i < |lines| => ItemOf(lines[i]))
  }

  /** What a Go call can end in besides returning. */
  datatype Outcome<+T> = Returned(result: Result<T>) | NilDereference

  /** GetProducts as written: the loop declares a nil *OrderedProduct and assigns through it,
      so the first line whose product is found ends the call in a nil-pointer panic. */
  function GetProductsAsWritten(connected: bool, categories: map<int, CategoryRow>, products: map<int, ProductRow>,
                                rows: seq<OrderProductRow>, orderId: string): Outcome<seq<OrderedProduct>>
  {
    if !connected then Returned(Failure(ErrConnDone))
    else
      var lines := LinesOf(rows, orderId);
      if lines == [] then Returned(Success([]))
      else match ProductRepo.Lookup(connected, categories, products, lines[0].productId)
        case Failure(e) => Returned(Failure(e))
        case Success(_) => NilDereference
  }

  /** As written, GetProducts returns a list only for an order without lines: every order
      whose first line names an existing product panics. */
  lemma GetProductsAsWrittenPanics(connected: bool, categories: map<int, CategoryRow>, products: map<int, ProductRow>,
                                   rows: seq<OrderProductRow>, orderId: string)
    requires connected
    requires |LinesOf(rows, orderId)| > 0
    requires ProductRepo.Lookup(connected, categories, products, LinesOf(rows, orderId)[0].productId).Success?
    ensures GetProductsAsWritten(connected, categories, products, rows, orderId) == NilDereference
  {
  }

  /** A one-line order on a one-product catalogue: the code as written panics, while the
      corrected GetProducts returns the line. */
  lemma GetProductsCounterexample()
    ensures var categories := map[1 := CategoryRow("test", ZeroTime, ZeroTime)];
            var products := map[1 := ProductRow("test", "t", "testing", 0, 1, 100, ZeroTime, ZeroTime)];
            var rows := [OrderProductRow("0", 1, 10)];
            && GetProductsAsWritten(true, categories, products, rows, "0") == NilDereference
            && ProductRepo.Lookup(true, categories, products, 1).Success?
            && ItemsOf(LinesOf(rows, "0")) == [OrderedProduct(1, 10)]
  {
    var rows := [OrderProductRow("0", 1, 10)];
    assert rows[..0] == [];
  }

  /** The server's answer to inserting the line (orderId, productId) into `rows`: the
      connection error or the statement's rejection first, then the key violation when the
      order already has a line for that product. */
  function LineInsertAnswer(connected: bool, rejected: map<Statement, Error>, rows: seq<OrderProductRow>,
                            orderId: string, productId: int): (a: Option<Error>)
    ensures a.None? <==> Answer(connected, rejected, LineInsert(orderId, productId)).None? && !HasLine(rows, orderId, productId)
    ensures Answer(connected, rejected, LineInsert(orderId, productId)).Some? ==> a == Answer(connected, rejected, LineInsert(orderId, productId))
    ensures Answer(connected, rejected, LineInsert(orderId, productId)).None? && HasLine(rows, orderId, productId) ==>
      a == Some(UniqueViolation(OrderLineKey))
  {
    match Answer(connected, rejected, LineInsert(orderId, productId))
    case Some(e) => Some(e)
    case None => if HasLine(rows, orderId, productId) then Some(UniqueViolation(OrderLineKey)) else None
  }

  class OrderProductRepository {
    const db: Database
    const products: ProductRepo.ProductRepository

    /** NewOrderProductRepository: with its own product repository over the same store. */
    constructor (db: Database)
      ensures this.db == db && Wired()
    {
      this.db := db;
      products := new ProductRepo.ProductRepository(db);
    }

    predicate Wired()
    {
      products.db == db && products.Wired()
    }

    /** The lines of the order, each as its product's id and the line's quantity, in table
        order; fails with the first line whose product cannot be found. This is the corrected
        loop: each line builds its own OrderedProduct value. */
    method GetProducts(orderId: string) returns (r: Result<seq<OrderedProduct>>)
      requires Wired()
      ensures !db.connected ==> r == Failure(ErrConnDone)
      ensures var lines := LinesOf(db.orderProducts, orderId);
        r.Success? <==>
          db.connected && forall i :: 0 <= i < |lines| ==> ProductRepo.Lookup(db.connected, db.categories, db.products, lines[i].productId).Success?
      ensures r.Success? ==> r.value == ItemsOf(LinesOf(db.orderProducts, orderId))
      ensures var lines := LinesOf(db.orderProducts, orderId);
        db.connected && r.Failure? ==>
          exists i :: 0 <= i < |lines|
            && (forall j :: 0 <= j < i ==> ProductRepo.Lookup(db.connected, db.categories, db.products, lines[j].productId).Success?)
            && ProductRepo.Lookup(db.connected, db.categories, db.products, lines[i].productId) == Failure(r.error)
    {
      if !db.connected {
        return Failure(ErrConnDone);
      }
      var lines := LinesOf(db.orderProducts, orderId);
      var items: seq<OrderedProduct> := [];
      var i := 0;
      while i < |lines|
        invariant 0 <= i <= |lines|
        invariant items == ItemsOf(lines[..i])
        invariant forall j :: 0 <= j < i ==> ProductRepo.Lookup(db.connected, db.categories, db.products, lines[j].productId).Success?
      {
        var product := products.FindProductById(lines[i].productId);
        if product.Failure? {
          assert !ProductRepo.Lookup(db.connected, db.categories, db.products, LinesOf(db.orderProducts, orderId)[i].productId).Success?;
          return Failure(product.error);
        }
        items := items + [OrderedProduct(product.value.productId, lines[i].quantity)];
        i := i + 1;
        assert items == ItemsOf(lines[..i]);
      }
      assert lines[..i] == lines;
      return Success(items);
    }

    /** Inserts the row (orderId, productId); the quantity column is not written and takes
        its default. A second line for the same product in the same order violates the key. */
    method Add(orderId: string, productId: int) returns (err: Option<Error>)
      modifies db`orderProducts
      ensures err == LineInsertAnswer(db.connected, db.rejected, old(db.orderProducts), orderId, productId)
      ensures err.Some? ==> unchanged(db)
      ensures err.None? ==> db.orderProducts == old(db.orderProducts) + [OrderProductRow(orderId, productId, QuantityDefault)]
    {
      if !db.connected {
        return Some(ErrConnDone);
      }
      if LineInsert(orderId, productId) in db.rejected {
        return Some(db.rejected[LineInsert(orderId, productId)]);
      }
      if HasLine(db.orderProducts, orderId, productId) {
        return Some(UniqueViolation(OrderLineKey));
      }
      db.orderProducts := db.orderProducts + [OrderProductRow(orderId, productId, QuantityDefault)];
      err := None;
    }

    /** Removes the rows of one product in one order. OrderRepository.DeleteOrder calls this
        method, which the repository does not define; this is the statement its name implies. */
    method Delete(orderId: string, productId: int) returns (err: Option<Error>)
      modifies db`orderProducts
      ensures err == Answer(db.connected, db.rejected, LineDelete(orderId, productId))
      ensures err.Some? ==> unchanged(db)
      ensures err.None? ==> db.orderProducts == Without(old(db.orderProducts), orderId, productId)
    {
      if !db.connected {
        return Some(ErrConnDone);
      }
      if LineDelete(orderId, productId) in db.rejected {
        return Some(db.rejected[LineDelete(orderId, productId)]);
      }
      db.orderProducts := Without(db.orderProducts, orderId, productId);
      err := None;
    }
  }
}
