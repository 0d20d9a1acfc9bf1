/** The JSON shape of an order and of its lines, and their conversions from and to the
    domain. The order model has no user: the user of an order is not carried across. */
module OrderModel {
  import opened Base
  import opened Domain

  /** One line as JSON. Go keeps these by value inside the slice. */
  datatype OrderedProductModel = OrderedProductModel(productId: int, quantity: int)

  /** OrderedProductModel{} */
  const EmptyLineModel := OrderedProductModel(0, 0)

  /** The line model's FromDomain: the receiver's value after it copies product id and
      quantity from the line; a nil line leaves the receiver as it was. */
  function LineFromDomain(e: OrderedProductModel, line: Option<OrderedProduct>): (m: OrderedProductModel)
    ensures line.None? ==> m == e
    ensures line.Some? ==> m.productId == line.value.productId && m.quantity == line.value.quantity
  {
    match line
    case None => e
    case Some(p) => e.(productId := p.productId, quantity := p.quantity)
  }

  /** The line model's ToDomain. */
  function LineToDomain(e: OrderedProductModel): (line: OrderedProduct)
    ensures LineFromDomain(EmptyLineModel, Some(line)) == e
  {
    OrderedProduct(e.productId, e.quantity)
  }

  /** The line models of some lines, one for one and in order. */
  function LineModels(items: seq<OrderedProduct>): (models: seq<OrderedProductModel>)
    ensures |models| == |items|
    ensures forall i :: 0 <= i < |items| ==> models[i] == LineFromDomain(EmptyLineModel, Some(items[i]))
  {
    seq(|items|, i requires 0 <= i < |items| => LineFromDomain(EmptyLineModel, Some(items[i])))
  }

  /** The lines some line models describe, one for one and in order. */
  function Lines(models: seq<OrderedProductModel>): (items: seq<OrderedProduct>)
    ensures |items| == |models|
    ensures forall i :: 0 <= i < |models| ==> items[i] == LineToDomain(models[i])
  {
    seq(|models|, i requires 0 <= i < |models| => LineToDomain(models[i]))
  }

  /** Lines converted to models and back are the same lines. */
  lemma LinesOfLineModels(items: seq<OrderedProduct>)
    ensures Lines(LineModels(items)) == items
  {
  }

  class OrderModel {
    var id: string
    /** The *[]OrderedProductModel pointer, None for nil. */
    var productItems: Option<seq<OrderedProductModel>>
    var status: string
    var createdAt: Time
    var updatedAt: Time
    // handlers/order/http.go:49 sets a User field, which this struct (model.go:9-15) does not
    // declare; that assignment does not compile.

    /** &OrderModel{} */
    constructor ()
      ensures id == "" && productItems.None? && status == "" && createdAt == ZeroTime && updatedAt == ZeroTime
    {
      id, productItems, status, createdAt, updatedAt := "", None, "", ZeroTime, ZeroTime;
    }

    /** Copies id, status and timestamps of the order and converts its lines one by one, in
        order, into a new list of line models; a nil order changes nothing. The order's
        list must be there: the loop dereferences it. */
    method FromDomain(order: Order?)
      requires order != null ==> order.productItems.Some?
      modifies this
      ensures order == null ==> unchanged(this)
      ensures order != null ==>
        && id == order.id && status == order.status
        && createdAt == order.createdAt && updatedAt == order.updatedAt
        && productItems == Some(LineModels(order.productItems.value))
    {
      if order == null {
        return;
      }
      id := order.id;
      status := order.status;
      createdAt := order.createdAt;
      updatedAt := order.updatedAt;
      var items := order.productItems.value;
      var products: seq<OrderedProductModel> := [];
      var i := 0;
      while i < |items|
        invariant 0 <= i <= |items|
        invariant products == LineModels(items[..i])
      {
        var line := LineFromDomain(EmptyLineModel, Some(items[i]));
        products := products + [line];
        i := i + 1;
      }
      assert items[..i] == items;
      productItems := Some(products);
    }

    /** A new order with the model's id, status, timestamps and lines and no user; a nil
        model gives the zero order. The model's list must be there. */
    static method ToDomain(e: OrderModel?) returns (order: Order)
      requires e != null ==> e.productItems.Some?
      ensures fresh(order)
      ensures e == null ==>
        order.id == "" && order.productItems.None? && order.status == ""
        && order.createdAt == ZeroTime && order.updatedAt == ZeroTime && order.user == null
      ensures e != null ==>
        && order.id == e.id && order.status == e.status
        && order.createdAt == e.createdAt && order.updatedAt == e.updatedAt
        && order.productItems == Some(Lines(e.productItems.value))
        && order.user == null
    {
      if e == null {
        order := new Order("", None, "", ZeroTime, ZeroTime, null);
        return;
      }
      var models := e.productItems.value;
      var products: seq<OrderedProduct> := [];
      var i := 0;
      while i < |models|
        invariant 0 <= i <= |models|
        invariant products == Lines(models[..i])
      {
        products := products + [LineToDomain(models[i])];
        i := i + 1;
      }
      assert models[..i] == models;
      order := new Order(e.id, Some(products), e.status, e.createdAt, e.updatedAt, null);
    }

    /** An order taken through a new model and back: id, status, timestamps and lines are
        kept, the user is lost. */
    static method RoundTrip(order: Order) returns (copy: Order)
      requires order.productItems.Some?
      ensures fresh(copy)
      ensures copy.id == order.id && copy.status == order.status
      ensures copy.createdAt == order.createdAt && copy.updatedAt == order.updatedAt
      ensures copy.productItems == order.productItems
      ensures copy.user == null
    {
      var model := new OrderModel();
      model.FromDomain(order);
      copy := ToDomain(model);
      LinesOfLineModels(order.productItems.value);
    }
  }
}
