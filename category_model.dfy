/** The JSON shape of a category and its conversions from and to the domain value. */
module CategoryModel {
  import opened Base
  import opened Domain

  class CategoryModel {
    var id: int
    var name: string
    var createdAt: Time
    var updatedAt: Time

    /** &CategoryModel{}: every field zero. */
    constructor ()
      ensures id == 0 && name == "" && createdAt == ZeroTime && updatedAt == ZeroTime
    {
      id, name, createdAt, updatedAt := 0, "", ZeroTime, ZeroTime;
    }

    /** Copies the category's four fields into the model; a nil category changes nothing.
        Converting back gives the category itself. */
    method FromDomain(category: Option<Category>)
      modifies this
      ensures category.None? ==> unchanged(this)
      ensures category.Some? ==>
        && id == category.value.id && name == category.value.name
        && createdAt == category.value.createdAt && updatedAt == category.value.updatedAt
        && ToDomain(this) == category.value
    {
      match category {
        case None => return;
        case Some(c) =>
          id := c.id;
          name := c.name;
          updatedAt := c.updatedAt;
          createdAt := c.createdAt;
      }
    }

    /** The category the model describes; a nil model gives the zero category. */
    static function ToDomain(e: CategoryModel?): (c: Category)
      reads e
      ensures e == null ==> c == EmptyCategory
      ensures e != null ==> c.id == e.id && c.name == e.name && c.createdAt == e.createdAt && c.updatedAt == e.updatedAt
    {
      if e == null then Category(0, "", ZeroTime, ZeroTime)
      else Category(e.id, e.name, e.createdAt, e.updatedAt)
    }
  }
}
