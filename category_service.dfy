/** The duplicate-name check of the categories service (src/categories/categories.service.ts). */
module CategoryService {
  import opened Common
  import opened Text
  import opened CategoryStore

  /** `cat.name.toLowerCase() === name.trim().toLowerCase()`. */
  predicate SameName(c: Category, name: string) {
    ToLower(c.name) == ToLower(Trim(name))
  }

  /** `existing.find(...)` found a row: some searched row other than the one
      being updated (`exclude`) has the same name, ignoring case. */
  predicate Clash(found: map<Id, Category>, name: string, exclude: Option<Id>) {
    exists id :: id in found && exclude != Some(found[id].id) && SameName(found[id], name)
  }

  /** A category of the user whose stored name is the trimmed new name is
      always reported, since the search for that name finds it. */
  lemma ExactDuplicateClashes(repository: CategoriesRepository, userId: Id, id: Id, name: string)
    requires OwnsCategory(repository.rows, id, userId) && repository.rows[id].name == Trim(name)
    ensures Clash(repository.Search(userId, Trim(name)), name, None)
  {
    SearchFindsOwnName(repository, userId, id);
  }

  /** A clash is a row of the user that both matches the search for the
      trimmed name and has that name ignoring case. */
  lemma ClashMeans(repository: CategoriesRepository, userId: Id, name: string, exclude: Option<Id>)
    requires repository.Valid()
    ensures Clash(repository.Search(userId, Trim(name)), name, exclude)
            <==> exists id :: OwnsCategory(repository.rows, id, userId) && exclude != Some(id)
                              && Matches(repository.rows[id], Trim(name)) && SameName(repository.rows[id], name)
  {
    var found := repository.Search(userId, Trim(name));
    if Clash(found, name, exclude) {
      var id :| id in found && exclude != Some(found[id].id) && SameName(found[id], name);
      assert OwnsCategory(repository.rows, id, userId) && exclude != Some(id);
    }
  }

  /** Renaming a category to its own name is allowed when no other category
      of the user has that name, although creating it again is refused. */
  lemma OwnNameAllowedOnUpdate(repository: CategoriesRepository, userId: Id, id: Id, name: string)
    requires repository.Valid() && OwnsCategory(repository.rows, id, userId)
    requires repository.rows[id].name == Trim(name)
    requires forall other :: OwnsCategory(repository.rows, other, userId) && other != id ==>
               !SameName(repository.rows[other], name)
    ensures !Clash(repository.Search(userId, Trim(name)), name, Some(id))
    ensures Clash(repository.Search(userId, Trim(name)), name, None)
  {
    ClashMeans(repository, userId, name, Some(id));
    ExactDuplicateClashes(repository, userId, id, name);
  }

  /** The comparison ignores case but the search before it does not: with
      "Food" stored and no description, a new "food" is not reported. */
  lemma CaseVariantNotFound(repository: CategoriesRepository, userId: Id, id: Id)
    requires repository.Valid()
    requires repository.rows == map[id := Category(id, userId, "Food", None)]
    ensures SameName(repository.rows[id], "food")
    ensures !Clash(repository.Search(userId, "food"), "food", None)
  {
    assert Trim("food") == "food" by {
      assert !IsWhitespace('f') && !IsWhitespace('d');
    }
    assert !Contains("Food", "food") by {
      forall i | 0 <= i <= |"Food"| - |"food"| ensures !OccursAt("Food", "food", i) {
        assert "Food"[0] != "food"[0];
      }
    }
    assert ToLower("Food") == "food";
    assert ToLower("food") == "food";
  }

  class CategoriesService {
    const repository: CategoriesRepository

    constructor (repository: CategoriesRepository)
      ensures this.repository == repository
    {
      this.repository := repository;
    }

    /** createCategory: refused when a category of the user with the same
        name (ignoring case) is found by searching for the trimmed name;
        otherwise created. */
    method CreateCategory(userId: Id, data: NewCategory, id: Id) returns (r: Result<Category>)
      requires repository.Valid() && id !in repository.rows
      modifies repository
      ensures repository.Valid()
      ensures Clash(old(repository.Search(userId, Trim(data.name))), data.name, None) ==>
                r == Err(DuplicateCategoryName) && repository.rows == old(repository.rows)
      ensures !Clash(old(repository.Search(userId, Trim(data.name))), data.name, None) ==>
                r == Ok(NewCategoryRow(id, userId, data)) && repository.rows == old(repository.rows)[id := r.value]
    {
      var existing := repository.Search(userId, Trim(data.name));
      if Clash(existing, data.name, None) {
        return Err(DuplicateCategoryName);
      }
      var c := repository.Create(userId, data, id);
      r := Ok(c);
    }

    /** updateCategory: with a name, the same check ignoring the category
        itself; without one, no check; then the repository update. */
    method UpdateCategory(id: Id, userId: Id, patch: CategoryPatch) returns (r: Result<Category>)
      requires repository.Valid()
      modifies repository
      ensures repository.Valid()
      ensures patch.name.Set? && Clash(old(repository.Search(userId, Trim(patch.name.value))), patch.name.value, Some(id)) ==>
                r == Err(DuplicateCategoryName) && repository.rows == old(repository.rows)
      ensures !(patch.name.Set? && Clash(old(repository.Search(userId, Trim(patch.name.value))), patch.name.value, Some(id))) ==>
                && (!OwnsCategory(old(repository.rows), id, userId) ==> r == Err(CategoryMissing) && repository.rows == old(repository.rows))
                && (OwnsCategory(old(repository.rows), id, userId) ==>
                      r == Ok(PatchedCategory(old(repository.rows)[id], patch)) && repository.rows == old(repository.rows)[id := r.value])
    {
      if patch.name.Set? {
        var existing := repository.Search(userId, Trim(patch.name.value));
        if Clash(existing, patch.name.value, Some(id)) {
          return Err(DuplicateCategoryName);
        }
      }
      r := repository.Update(id, userId, patch);
    }
  }
}
