/** The hex_fwk schema as in-memory tables. The repositories read and write these tables
    directly; what PostgreSQL would decide (serial ids, rows affected, constraint violations,
    a connection that is gone) is decided here. */
module Store {
  import opened Base
  import opened Domain
  import opened Strconv

  datatype CategoryRow = CategoryRow(name: string, createdAt: Time, updatedAt: Time)

  datatype ProductRow = ProductRow(
    name: string,
    shortDescription: string,
    description: string,
    price: Float32,
    categoryId: int,
    quantity: int,
    createdAt: Time,
    updatedAt: Time)

  datatype OrderRow = OrderRow(status: string, userId: string, createdAt: Time, updatedAt: Time)

  /** A row of hex_fwk.order_product. Its key is (order_id, product_id): an order holds at
      most one line per product. */
  datatype OrderProductRow = OrderProductRow(orderId: string, productId: int, quantity: int)

  /** Whether the table already holds the line of `productId` in order `orderId`. */
  predicate HasLine(rows: seq<OrderProductRow>, orderId: string, productId: int)
  {
    exists i :: 0 <= i < |rows| && rows[i].orderId == orderId && rows[i].productId == productId
  }

  datatype UserRow = UserRow(email: string, firstName: string, surname: string, passwordHash: string, createdAt: Time)

  /** The value the quantity column takes when an insert does not name it. */
  const QuantityDefault := 0

  /** The unique constraint on hex_fwk.user(email). */
  const UserEmailKey := "user_email_key"

  /** The primary key of hex_fwk.order_product, (order_id, product_id). */
  const OrderLineKey := "order_product_pkey"

  /** The error the driver reports for a violated unique constraint. */
  function UniqueViolation(constraint: string): Error
  {
    Text("pq: duplicate key value violates unique constraint \"" + constraint + "\"")
  }

  /** The error the driver reports when product.category_id names no category. */
  const ProductCategoryViolation :=
    Text("pq: insert or update on table \"product\" violates foreign key constraint \"product_category_id_fkey\"")

  /** The statements the server can reject one at a time, by what they write. */
  datatype Statement =
    | ProductUpdate(productId: int)                 // UPDATE hex_fwk.product ... WHERE id = productId
    | LineInsert(orderId: string, productId: int)   // INSERT INTO hex_fwk.order_product
    | LineDelete(orderId: string, productId: int)   // DELETE FROM hex_fwk.order_product
    | HeaderInsert(userId: string)                  // INSERT INTO hex_fwk.order (status, user_id)
    | HeaderUpdate(orderId: string)                 // UPDATE hex_fwk.order ... WHERE id = orderId
    | HeaderDelete(orderId: string)                 // DELETE FROM hex_fwk.order

  /** The server's answer to a statement: the connection error when the connection is gone,
      the error it rejects the statement with, or success. */
  function Answer(connected: bool, rejected: map<Statement, Error>, s: Statement): (a: Option<Error>)
    ensures a.None? <==> connected && s !in rejected
    ensures !connected ==> a == Some(ErrConnDone)
  {
    if !connected then Some(ErrConnDone)
    else if s in rejected then Some(rejected[s])
    else None
  }

  /** The position of the first statement the server does not accept, or |stmts| when it
      accepts them all: where a loop that returns at the first error stops. */
  function FirstRejected(connected: bool, rejected: map<Statement, Error>, stmts: seq<Statement>): (k: nat)
    ensures k <= |stmts|
    ensures forall j :: 0 <= j < k ==> Answer(connected, rejected, stmts[j]).None?
    ensures k < |stmts| ==> Answer(connected, rejected, stmts[k]).Some?
    decreases |stmts|
  {
    if stmts == [] then 0
    else if Answer(connected, rejected, stmts[0]).Some? then 0
    else 1 + FirstRejected(connected, rejected, stmts[1..])
  }

  class Database {
    /** False when every statement fails with sql.ErrConnDone. */
    var connected: bool
    /** The statements the server rejects while the connection is up, with the driver's
        error for each. */
    const rejected: map<Statement, Error>

    var categories: map<int, CategoryRow>
    var nextCategoryId: int
    var products: map<int, ProductRow>
    var nextProductId: int
    /** Orders and users are keyed by text ids; the next one handed out is Decimal(next...Key). */
    var orders: map<string, OrderRow>
    var nextOrderKey: nat
    /** hex_fwk.order_product in insertion order. */
    var orderProducts: seq<OrderProductRow>
    var users: map<string, UserRow>
    var nextUserKey: nat

    /** Serial ids start at 1 and are never handed out twice; no two users share an email. */
    ghost predicate Valid()
      reads this`categories, this`nextCategoryId, this`products, this`nextProductId
      reads this`orders, this`nextOrderKey, this`users, this`nextUserKey
    {
      && 1 <= nextCategoryId && (forall id :: id in categories ==> 1 <= id < nextCategoryId)
      && 1 <= nextProductId && (forall id :: id in products ==> 1 <= id < nextProductId)
      && (forall n: nat :: n >= nextOrderKey ==> Decimal(n) !in orders)
      && (forall n: nat :: n >= nextUserKey ==> Decimal(n) !in users)
      && (forall a, b :: a in users && b in users && users[a].email == users[b].email ==> a == b)
    }

    /** An empty schema, reachable or not. */
    constructor (connected: bool, rejected: map<Statement, Error>)
      ensures Valid() && this.connected == connected && this.rejected == rejected
      ensures categories == map[] && products == map[] && orders == map[] && orderProducts == [] && users == map[]
    {
      this.connected := connected;
      this.rejected := rejected;
      categories, nextCategoryId := map[], 1;
      products, nextProductId := map[], 1;
      orders, nextOrderKey := map[], 0;
      orderProducts := [];
      users, nextUserKey := map[], 0;
    }
  }

  /** A key handed out after `key` is still fresh once `key` is taken. */
  lemma FreshKeysStayFresh<V>(m: map<string, V>, key: nat, next: nat, v: V)
    requires forall n: nat :: n >= next ==> Decimal(n) !in m
    requires key == next
    ensures forall n: nat :: n >= next + 1 ==> Decimal(n) !in m[Decimal(key) := v]
  {
    forall n: nat | n >= next + 1
      ensures Decimal(n) !in m[Decimal(key) := v]
    {
      DecimalInjective(n, key);
    }
  }
}
