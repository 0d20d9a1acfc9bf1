/** CategoryRepository: the category table's queries and statements. */
module CategoryRepo {
  import opened Base
  import opened Domain
  import opened Store

  const ErrCategoryNotFound := Text("Category not found")

  /** The stored row `id` as a domain value. */
  function CategoryOf(id: int, row: CategoryRow): Category
  {
    Category(id, row.name, row.createdAt, row.updatedAt)
  }

  /** FindCategoryById over the table's contents: the stored category, "Category not found"
      when no row has that id, the store's error when it is unreachable. */
  function Lookup(connected: bool, categories: map<int, CategoryRow>, id: int): (r: Result<Category>)
    ensures r.Success? <==> connected && id in categories
    ensures r.Success? ==> r.value.id == id && r.value.name == categories[id].name
    ensures connected && id !in categories ==> r == Failure(ErrCategoryNotFound)
    ensures !connected ==> r == Failure(ErrConnDone)
  {
    if !connected then Failure(ErrConnDone)
    else if id !in categories then Failure(ErrCategoryNotFound)
    else Success(CategoryOf(id, categories[id]))
  }

  class CategoryRepository {
    const db: Database

    constructor (db: Database)
      ensures this.db == db
    {
      this.db := db;
    }

    /** Every stored category exactly once, in the table's (unspecified) order. */
    method GetAllCategories() returns (r: Result<seq<Category>>)
      ensures !db.connected ==> r == Failure(ErrConnDone)
      ensures db.connected ==> r.Success?
      ensures r.Success? ==>
        && (forall i :: 0 <= i < |r.value| ==>
              r.value[i].id in db.categories && r.value[i] == CategoryOf(r.value[i].id, db.categories[r.value[i].id]))
        && (forall id :: id in db.categories ==> CategoryOf(id, db.categories[id]) in r.value)
        && (forall i, j :: 0 <= i < j < |r.value| ==> r.value[i].id != r.value[j].id)
    {
      if !db.connected {
        return Failure(ErrConnDone);
      }
      var categories: seq<Category> := [];
      var remaining := db.categories.Keys;
      while remaining != {}
        invariant remaining <= db.categories.Keys
        invariant forall i :: 0 <= i < |categories| ==>
          categories[i].id in db.categories.Keys - remaining
          && categories[i] == CategoryOf(categories[i].id, db.categories[categories[i].id])
        invariant forall id :: id in db.categories.Keys - remaining ==> CategoryOf(id, db.categories[id]) in categories
        invariant forall i, j :: 0 <= i < j < |categories| ==> categories[i].id != categories[j].id
        decreases remaining
      {
        ghost var some := ElementOf(remaining);
        var id :| id in remaining;
        categories := categories + [CategoryOf(id, db.categories[id])];
        remaining := remaining - {id};
      }
      return Success(categories);
    }

    function FindCategoryById(id: int): (r: Result<Category>)
      reads db
      ensures r.Success? ==> id in db.categories && r.value == CategoryOf(id, db.categories[id])
      ensures db.connected && id !in db.categories ==> r == Failure(ErrCategoryNotFound)
    {
      Lookup(db.connected, db.categories, id)
    }

    /** Inserts a row named after the category and returns its fresh serial id. */
    method InsertCategory(category: Category, now: Time) returns (id: int, err: Option<Error>)
      requires db.Valid()
      modifies db`categories, db`nextCategoryId
      ensures db.Valid()
      ensures !db.connected ==> id == 0 && err == Some(ErrConnDone) && unchanged(db)
      ensures db.connected ==>
        && err.None? && id >= 1 && id !in old(db.categories)
        && db.categories == old(db.categories)[id := CategoryRow(category.name, now, now)]
        && FindCategoryById(id) == Success(Category(id, category.name, now, now))
    {
      if !db.connected {
        return 0, Some(ErrConnDone);
      }
      id := db.nextCategoryId;
      db.categories := db.categories[id := CategoryRow(category.name, now, now)];
      db.nextCategoryId := db.nextCategoryId + 1;
      err := None;
    }

    /** Deletes the row with that id; rows affected is 1 when there was one and 0 otherwise. */
    method DeleteCategory(id: int) returns (rows: int, err: Option<Error>)
      requires db.Valid()
      modifies db`categories
      ensures db.Valid()
      ensures !db.connected ==> rows == 0 && err == Some(ErrConnDone) && unchanged(db)
      ensures db.connected ==>
        && err.None? && rows == (if id in old(db.categories) then 1 else 0)
        && db.categories == old(db.categories) - {id}
        && FindCategoryById(id) == Failure(ErrCategoryNotFound)
    {
      if !db.connected {
        return 0, Some(ErrConnDone);
      }
      rows := if id in db.categories then 1 else 0;
      db.categories := db.categories - {id};
      err := None;
    }

    /** Sets the name and updated_at of the row with that id (the category's own id is not
        used); rows affected is 1 when there was one and 0 otherwise. */
    method UpdateCategory(category: Category, id: int, now: Time) returns (rows: int, err: Option<Error>)
      requires db.Valid()
      modifies db`categories
      ensures db.Valid()
      ensures !db.connected ==> rows == 0 && err == Some(ErrConnDone) && unchanged(db)
      ensures db.connected && id !in old(db.categories) ==> rows == 0 && err.None? && unchanged(db)
      ensures db.connected && id in old(db.categories) ==>
        && rows == 1 && err.None?
        && db.categories == old(db.categories)[id := old(db.categories[id]).(name := category.name, updatedAt := now)]
        && FindCategoryById(id) == Success(Category(id, category.name, old(db.categories[id]).createdAt, now))
    {
      if !db.connected {
        return 0, Some(ErrConnDone);
      }
      if id !in db.categories {
        return 0, None;
      }
      db.categories := db.categories[id := db.categories[id].(name := category.name, updatedAt := now)];
      rows, err := 1, None;
    }
  }
}
