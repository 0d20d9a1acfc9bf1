/** The JSON shape of a product, its category as a nested category model, and its
    conversions from and to the domain value. */
module ProductModel {
  import opened Base
  import opened Domain
  import opened CategoryModel

  class ProductModel {
    var id: int
    var name: string
    var shortDescription: string
    var description: string
    var price: Float32
    var quantity: int
    var category: CategoryModel?
    var createdAt: Time
    var updatedAt: Time

    /** &ProductModel{}: every field zero, no category. */
    constructor ()
      ensures id == 0 && name == "" && shortDescription == "" && description == "" && price == 0
      ensures quantity == 0 && category == null && createdAt == ZeroTime && updatedAt == ZeroTime
    {
      id, name, shortDescription, description, price := 0, "", "", "", 0;
      quantity, category, createdAt, updatedAt := 0, null, ZeroTime, ZeroTime;
    }

    /** Copies every field of the product into the model, the category into a new category
        model; a nil product changes nothing. Converting back gives the product itself when
        it has a category, and the product with the zero category when it has none. */
    method FromDomain(product: Option<Product>)
      modifies this
      ensures product.None? ==> unchanged(this)
      ensures product.Some? ==>
        && category != null && fresh(category)
        && id == product.value.productId && name == product.value.name
        && shortDescription == product.value.shortDescription && description == product.value.description
        && price == product.value.price && quantity == product.value.quantity
        && createdAt == product.value.createdAt && updatedAt == product.value.updatedAt
      ensures product.Some? && product.value.category.Some? ==> ToDomain(this) == product.value
      ensures product.Some? && product.value.category.None? ==> ToDomain(this) == product.value.(category := Some(EmptyCategory))
    {
      match product {
        case None => return;
        case Some(p) =>
          id := p.productId;
          name := p.name;
          shortDescription := p.shortDescription;
          description := p.description;
          price := p.price;
          quantity := p.quantity;
          var c := new CategoryModel();
          c.FromDomain(p.category);
          category := c;
          createdAt := p.createdAt;
          updatedAt := p.updatedAt;
      }
    }

    /** The product the model describes, its category converted even when the model has
        none (which gives the zero category); a nil model gives the zero product. */
    static function ToDomain(e: ProductModel?): (p: Product)
      reads e, if e != null then {e.category} else {}
      ensures e == null ==> p == EmptyProduct
      ensures e != null ==>
        && p.productId == e.id && p.name == e.name && p.shortDescription == e.shortDescription
        && p.description == e.description && p.price == e.price && p.quantity == e.quantity
        && p.createdAt == e.createdAt && p.updatedAt == e.updatedAt
        && p.category == Some(CategoryModel.ToDomain(e.category))
    {
      if e == null then Product(0, "", "", "", 0, ZeroTime, ZeroTime, 0, None)
      else Product(e.id, e.name, e.shortDescription, e.description, e.price,
                   e.createdAt, e.updatedAt, e.quantity, Some(CategoryModel.ToDomain(e.category)))
    }
  }
}
