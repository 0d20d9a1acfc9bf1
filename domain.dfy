/** The entities of the product catalogue and the order workflow. Category, Product and
    OrderedProduct travel by value; User and Order are updated in place by the repositories
    that receive a pointer to them, so they are classes. */
module Domain {
  import opened Base

  /** time.Time: an instant that is stored and copied but never computed with. */
  datatype Time = Instant(ticks: int)

  /** The zero time.Time{}. */
  const ZeroTime := Instant(0)

  /** A float32 price, kept as its 32-bit pattern: prices are copied, never computed with. */
  type Float32 = bv32

  datatype Category = Category(id: int, name: string, createdAt: Time, updatedAt: Time)

  /** &domain.Category{} */
  const EmptyCategory := Category(0, "", ZeroTime, ZeroTime)

  /** A product; `category` is the *Category pointer, None for nil. */
  datatype Product = Product(
    productId: int,
    name: string,
    shortDescription: string,
    description: string,
    price: Float32,
    createdAt: Time,
    updatedAt: Time,
    quantity: int,
    category: Option<Category>)

  /** &domain.Product{} */
  const EmptyProduct := Product(0, "", "", "", 0, ZeroTime, ZeroTime, 0, None)

  /** One line of an order. */
  datatype OrderedProduct = OrderedProduct(productId: int, quantity: int)

  /** &domain.OrderedProduct{} */
  const EmptyOrderedProduct := OrderedProduct(0, 0)

  // The order statuses the order service accepts.
  const StatusCreated := "CREATED"
  const StatusPending := "PENDING"
  const StatusCompleted := "COMPLETED"
  const StatusClosed := "CLOSED"

  class User {
    var id: string
    var email: string
    var name: string
    var surname: string
    var passwordHash: string
    var createdAt: Time

    /** NewUser: the given identity, no password hash, zero creation time. */
    constructor (id: string, email: string, name: string, surname: string)
      ensures this.id == id && this.email == email && this.name == name && this.surname == surname
      ensures passwordHash == "" && createdAt == ZeroTime
    {
      this.id := id;
      this.email := email;
      this.name := name;
      this.surname := surname;
      passwordHash := "";
      createdAt := ZeroTime;
    }

    /** A user built field by field, as a struct literal does. */
    constructor Of(id: string, email: string, name: string, surname: string, passwordHash: string, createdAt: Time)
      ensures this.id == id && this.email == email && this.name == name && this.surname == surname
      ensures this.passwordHash == passwordHash && this.createdAt == createdAt
    {
      this.id := id;
      this.email := email;
      this.name := name;
      this.surname := surname;
      this.passwordHash := passwordHash;
      this.createdAt := createdAt;
    }
  }

  class Order {
    var id: string
    /** The *[]OrderedProduct pointer, None for nil. */
    var productItems: Option<seq<OrderedProduct>>
    var status: string
    var createdAt: Time
    var updatedAt: Time
    var user: User?

    /** An order built field by field, as a struct literal does. */
    constructor (id: string, productItems: Option<seq<OrderedProduct>>, status: string,
                 createdAt: Time, updatedAt: Time, user: User?)
      ensures this.id == id && this.productItems == productItems && this.status == status
      ensures this.createdAt == createdAt && this.updatedAt == updatedAt && this.user == user
    {
      this.id := id;
      this.productItems := productItems;
      this.status := status;
      this.createdAt := createdAt;
      this.updatedAt := updatedAt;
      this.user := user;
    }
  }
}
