/** The categories table and its repository (src/categories/repositories/categories.repository.ts). */
module CategoryStore {
  import opened Common
  import opened Text

  /** A row of the categories table. */
  datatype Category = Category(id: Id, userId: Id, name: string, description: Option<string>)

  /** The data a create request carries. */
  datatype NewCategory = NewCategory(name: string, description: Option<string>)

  /** The data an update request carries: only the supplied fields are set;
      the description may be supplied as null. */
  datatype CategoryPatch = CategoryPatch(name: Patch<string>, description: Patch<Option<string>>)

  /** The row `create` saves: the name trimmed, an absent or empty description stored as null. */
  function NewCategoryRow(id: Id, userId: Id, data: NewCategory): (c: Category)
    ensures c.id == id && c.userId == userId && c.name == Trim(data.name)
    ensures c.description.None? <==> Falsy(data.description)
    ensures c.description.Some? ==> c.description == data.description
  {
    Category(id, userId, Trim(data.name), OrNull(data.description))
  }

  /** The row `update` saves: a supplied name trimmed, a supplied description
      assigned as given. */
  function PatchedCategory(c: Category, patch: CategoryPatch): Category {
    Category(c.id, c.userId,
             TrimmedApply(patch.name, c.name),
             patch.description.Apply(c.description))
  }

  /** Sending the same update twice stores the same row as sending it once. */
  lemma PatchedCategoryIdempotent(c: Category, patch: CategoryPatch)
    ensures PatchedCategory(PatchedCategory(c, patch), patch) == PatchedCategory(c, patch)
  {
    TrimmedApplyIdempotent(patch.name, c.name);
  }

  /** The owner-scoped lookup of a category. */
  predicate OwnsCategory(rows: map<Id, Category>, id: Id, userId: Id) {
    id in rows && rows[id].userId == userId
  }

  /** `name LIKE '%q%' OR description LIKE '%q%'`; a null description matches nothing. */
  predicate Matches(c: Category, query: string) {
    Contains(c.name, query) || (c.description.Some? && Contains(c.description.value, query))
  }

  class CategoriesRepository {
    var rows: map<Id, Category>

    /** Each row is stored under its own id. */
    ghost predicate Valid()
      reads this
    {
      forall id :: id in rows ==> rows[id].id == id
    }

    constructor ()
      ensures Valid() && rows == map[]
    {
      rows := map[];
    }

    /** findById: the row only when both id and owner match. */
    method FindById(id: Id, userId: Id) returns (r: Option<Category>)
      ensures r.Some? <==> OwnsCategory(rows, id, userId)
      ensures r.Some? ==> r.value == rows[id]
    {
      if id in rows && rows[id].userId == userId {
        r := Some(rows[id]);
      } else {
        r := None;
      }
    }

    /** create: inserts the row under the generated id. */
    method Create(userId: Id, data: NewCategory, id: Id) returns (c: Category)
      requires Valid() && id !in rows
      modifies this
      ensures Valid()
      ensures c == NewCategoryRow(id, userId, data) && rows == old(rows)[id := c]
    {
      c := Category(id, userId, Trim(data.name), OrNull(data.description));
      rows := rows[id := c];
    }

    /** update: fails when the user owns no such row; otherwise assigns the
        supplied fields and keeps the others. */
    method Update(id: Id, userId: Id, patch: CategoryPatch) returns (r: Result<Category>)
      requires Valid()
      modifies this
      ensures Valid()
      ensures !OwnsCategory(old(rows), id, userId) ==> r == Err(CategoryMissing) && rows == old(rows)
      ensures OwnsCategory(old(rows), id, userId) ==>
                r == Ok(PatchedCategory(old(rows)[id], patch)) && rows == old(rows)[id := r.value]
    {
      var found := FindById(id, userId);
      if found.None? {
        return Err(CategoryMissing);
      }
      var category := found.value;
      var name, description := category.name, category.description;
      if patch.name.Set? { name := Trim(patch.name.value); }
      if patch.description.Set? { description := patch.description.value; }
      category := Category(category.id, category.userId, name, description);
      rows := rows[id := category];
      r := Ok(category);
    }

    /** delete: removes the row, or fails when the user owns no such row. */
    method Delete(id: Id, userId: Id) returns (r: Outcome)
      requires Valid()
      modifies this
      ensures Valid()
      ensures r.Pass? <==> OwnsCategory(old(rows), id, userId)
      ensures r.Fail? ==> r.error == CategoryMissing && rows == old(rows)
      ensures r.Pass? ==> rows == old(rows) - {id}
    {
      if id in rows && rows[id].userId == userId {
        rows := rows - {id};
        r := Pass;
      } else {
        r := Fail(CategoryMissing);
      }
    }

    /** search: the user's rows whose name or description contains the query. */
    function Search(userId: Id, query: string): (r: map<Id, Category>)
      reads this
      ensures forall id :: id in r <==> OwnsCategory(rows, id, userId) && Matches(rows[id], query)
      ensures forall id :: id in r ==> id in rows && r[id] == rows[id]
    {
      map id | id in rows && rows[id].userId == userId && Matches(rows[id], query) :: rows[id]
    }
  }

  /** Every row of the user matches the empty query, and a row always
      matches a search for its own name. */
  lemma SearchFindsOwnName(repository: CategoriesRepository, userId: Id, id: Id)
    requires OwnsCategory(repository.rows, id, userId)
    ensures id in repository.Search(userId, "")
    ensures id in repository.Search(userId, repository.rows[id].name)
  {
    assert OccursAt(repository.rows[id].name, "", 0);
    ContainsSelf(repository.rows[id].name);
  }
}
