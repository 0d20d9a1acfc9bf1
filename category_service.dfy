/** CategoryService: the category repository behind a guard against nameless categories,
    with every repository error wrapped in a message naming the operation. */
module CategoryService {
  import opened Base
  import opened Domain
  import opened Store
  import CategoryRepo

  const ErrNoName := Text("category doesn't have a name")

  class CategoryService {
    const categoryRepo: CategoryRepo.CategoryRepository

    constructor (categoryRepo: CategoryRepo.CategoryRepository)
      ensures this.categoryRepo == categoryRepo
    {
      this.categoryRepo := categoryRepo;
    }

    /** Every stored category, or the wrapped repository error. */
    method GetAllCategories() returns (r: Result<seq<Category>>)
      ensures var db := categoryRepo.db;
        && (!db.connected ==> r == Failure(Wrapped(ErrConnDone, "Failed to retrieve categories")))
        && (db.connected ==> r.Success?)
      ensures r.Success? ==>
        && (forall i :: 0 <= i < |r.value| ==>
              r.value[i].id in categoryRepo.db.categories
              && r.value[i] == CategoryRepo.CategoryOf(r.value[i].id, categoryRepo.db.categories[r.value[i].id]))
        && (forall id :: id in categoryRepo.db.categories ==> CategoryRepo.CategoryOf(id, categoryRepo.db.categories[id]) in r.value)
    {
      r := categoryRepo.GetAllCategories();
      if r.Failure? {
        return Failure(Wrapped(r.error, "Failed to retrieve categories"));
      }
    }

    /** The stored category with that id, or the wrapped repository error. */
    function FindCategoryById(id: int): (r: Result<Category>)
      reads categoryRepo.db
      ensures r.Success? <==> categoryRepo.db.connected && id in categoryRepo.db.categories
      ensures r.Success? ==> r.value == CategoryRepo.CategoryOf(id, categoryRepo.db.categories[id])
      ensures categoryRepo.db.connected && id !in categoryRepo.db.categories ==>
        r == Failure(Wrapped(CategoryRepo.ErrCategoryNotFound, "Failed to retrieve a category"))
      ensures !categoryRepo.db.connected ==> r == Failure(Wrapped(ErrConnDone, "Failed to retrieve a category"))
    {
      match categoryRepo.FindCategoryById(id)
      case Failure(e) => Failure(Wrapped(e, "Failed to retrieve a category"))
      case Success(c) => Success(c)
    }

    /** Refuses a category with an empty name before the repository is reached; otherwise the
        repository's new id, or 0 and the wrapped error. */
    method CreateCategory(category: Category, now: Time) returns (id: int, err: Option<Error>)
      requires categoryRepo.db.Valid()
      modifies categoryRepo.db`categories, categoryRepo.db`nextCategoryId
      ensures categoryRepo.db.Valid()
      ensures |category.name| == 0 ==> id == 0 && err == Some(ErrNoName) && unchanged(categoryRepo.db)
      ensures |category.name| > 0 && !categoryRepo.db.connected ==>
        id == 0 && err == Some(Wrapped(ErrConnDone, "Failed to create a category")) && unchanged(categoryRepo.db)
      ensures |category.name| > 0 && categoryRepo.db.connected ==>
        && err.None? && id >= 1 && id !in old(categoryRepo.db.categories)
        && categoryRepo.db.categories == old(categoryRepo.db.categories)[id := CategoryRow(category.name, now, now)]
        && FindCategoryById(id) == Success(Category(id, category.name, now, now))
    {
      if |category.name| < 1 {
        return 0, Some(ErrNoName);
      }
      id, err := categoryRepo.InsertCategory(category, now);
      match err {
        case Some(e) => return 0, Some(Wrapped(e, "Failed to create a category"));
        case None =>
      }
    }

    /** The repository's rows affected, or 0 and the wrapped error. */
    method DeleteCategory(id: int) returns (rows: int, err: Option<Error>)
      requires categoryRepo.db.Valid()
      modifies categoryRepo.db`categories
      ensures categoryRepo.db.Valid()
      ensures !categoryRepo.db.connected ==>
        rows == 0 && err == Some(Wrapped(ErrConnDone, "Failed to delete a category")) && unchanged(categoryRepo.db)
      ensures categoryRepo.db.connected ==>
        && err.None? && rows == (if id in old(categoryRepo.db.categories) then 1 else 0)
        && categoryRepo.db.categories == old(categoryRepo.db.categories) - {id}
    {
      rows, err := categoryRepo.DeleteCategory(id);
      match err {
        case Some(e) => return 0, Some(Wrapped(e, "Failed to delete a category"));
        case None =>
      }
    }

    /** The repository's rows affected, or 0 and the wrapped error. */
    method UpdateCategory(category: Category, id: int, now: Time) returns (rows: int, err: Option<Error>)
      requires categoryRepo.db.Valid()
      modifies categoryRepo.db`categories
      ensures categoryRepo.db.Valid()
      ensures !categoryRepo.db.connected ==>
        rows == 0 && err == Some(Wrapped(ErrConnDone, "Failed to edit a category")) && unchanged(categoryRepo.db)
      ensures categoryRepo.db.connected && id !in old(categoryRepo.db.categories) ==>
        rows == 0 && err.None? && unchanged(categoryRepo.db)
      ensures categoryRepo.db.connected && id in old(categoryRepo.db.categories) ==>
        && rows == 1 && err.None?
        && categoryRepo.db.categories
             == old(categoryRepo.db.categories)[id := old(categoryRepo.db.categories[id]).(name := category.name, updatedAt := now)]
        && FindCategoryById(id) == Success(Category(id, category.name, old(categoryRepo.db.categories[id]).createdAt, now))
    {
      rows, err := categoryRepo.UpdateCategory(category, id, now);
      match err {
        case Some(e) => return 0, Some(Wrapped(e, "Failed to edit a category"));
        case None =>
      }
    }
  }
}
