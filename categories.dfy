/** The category store (lib/categories.js): categories whose names are unique ignoring case. */
module Categories {
  import opened Wrappers
  import opened Text
  import opened Seqs

  type Id = string

  datatype Category = Category(id: Id, name: string, description: string)

  /** A creation request; an empty text stands for a missing field, which is stored as empty. */
  datatype CategoryInput = CategoryInput(name: string, description: string)

  /** An update request: a present field replaces the stored one, whatever its value. */
  datatype CategoryPatch = CategoryPatch(name: Option<string>, description: Option<string>)

  /** 'Nome de categoria já existe' */
  datatype CategoryError = DuplicateName

  function IdOf(r: Category): Id {
    r.id
  }

  /** The name as `toLowerCase` compares it. */
  function NameKey(r: Category): string {
    Lower(r.name)
  }

  /** No two categories share a name, ignoring case. */
  predicate UniqueNames(list: seq<Category>) {
    DistinctKeys(list, NameKey)
  }

  /** Some category already has this name, ignoring case. */
  predicate NameTaken(list: seq<Category>, name: string) {
    KeyTaken(list, NameKey, Lower(name))
  }

  /** `findCategoryById`: the first category with that id. */
  function FindCategoryById(list: seq<Category>, id: Id): (r: Option<Category>)
    ensures r.Some? <==> exists i :: 0 <= i < |list| && list[i].id == id
    ensures r.Some? ==> r.value.id == id && r.value in list
    ensures r.Some? ==> exists i :: 0 <= i < |list| && list[i] == r.value
                                   && forall j :: 0 <= j < i ==> list[j].id != id
  {
    var i := FirstIndex(list, (x: Category) => x.id == id);
    if i < |list| then Some(list[i]) else None
  }

  /** `findCategoryByName`: the first category whose name matches ignoring case. */
  function FindCategoryByName(list: seq<Category>, name: string): (r: Option<Category>)
    ensures r.Some? <==> NameTaken(list, name)
    ensures r.Some? ==> r.value in list && Lower(r.value.name) == Lower(name)
    ensures r.Some? ==> exists i :: 0 <= i < |list| && list[i] == r.value
                                   && forall j :: 0 <= j < i ==> Lower(list[j].name) != Lower(name)
  {
    var i := FirstIndex(list, (x: Category) => NameKey(x) == Lower(name));
    if i < |list| then Some(list[i]) else None
  }

  /** With unique names, a name lookup finds the one category with that name, in any letter case. */
  lemma FindByNameUnique(list: seq<Category>, name: string, k: nat)
    requires UniqueNames(list) && k < |list| && Lower(list[k].name) == Lower(name)
    ensures FindCategoryByName(list, name) == Some(list[k])
  {
    FirstIndexUnique(list, NameKey, Lower(name), k);
  }

  /** The record `createCategory` stores under the fresh id. */
  function NewCategory(data: CategoryInput, id: Id): Category {
    Category(id, data.name, data.description)
  }

  /** A creation is accepted exactly when no category has the name ignoring case, and then keeps the
      names unique. */
  lemma CreateKeepsUnique(list: seq<Category>, data: CategoryInput, id: Id)
    requires UniqueNames(list) && !NameTaken(list, data.name)
    ensures UniqueNames(list + [NewCategory(data, id)])
  {
    AppendKeepsDistinct(list, NameKey, NewCategory(data, id));
  }

  /** `updateCategory` refuses a rename (one that changes more than letter case) to a name some
      category already has. */
  predicate UpdateRejected(list: seq<Category>, i: nat, patch: CategoryPatch)
    requires i < |list|
  {
    patch.name.Some? && patch.name.value != "" && Lower(patch.name.value) != Lower(list[i].name)
    && NameTaken(list, patch.name.value)
  }

  /** The record an accepted update stores: present fields override, the id stays. */
  function Merge(r: Category, patch: CategoryPatch): Category {
    Category(r.id, patch.name.GetOr(r.name), patch.description.GetOr(r.description))
  }

  /** An accepted update keeps the names unique, unless it sets an empty name, which skips the
      check and is stored. */
  lemma UpdateKeepsUnique(list: seq<Category>, i: nat, patch: CategoryPatch)
    requires UniqueNames(list) && i < |list| && !UpdateRejected(list, i, patch)
    requires patch.name != Some("")
    ensures UniqueNames(list[i := Merge(list[i], patch)])
  {
    ReplaceKeepsDistinct(list, NameKey, i, Merge(list[i], patch));
  }

  /** `deleteCategory`'s filtered copy: every category with that id removed. */
  function WithoutId(list: seq<Category>, id: Id): seq<Category> {
    Filter(list, (x: Category) => x.id != id)
  }

  class CategoryStore {
    var categories: seq<Category>

    constructor (initial: seq<Category>)
      ensures categories == initial
    {
      categories := initial;
    }

    /** `createCategory`; `id` is the fresh id the id generator hands out. */
    method CreateCategory(data: CategoryInput, id: Id) returns (r: Result<Category, CategoryError>)
      requires forall k :: 0 <= k < |categories| ==> categories[k].id != id
      modifies this
      ensures NameTaken(old(categories), data.name) ==> r == Failure(DuplicateName) && categories == old(categories)
      ensures !NameTaken(old(categories), data.name) ==>
        r == Success(NewCategory(data, id)) && categories == old(categories) + [r.value]
      ensures UniqueNames(old(categories)) ==> UniqueNames(categories)
      ensures DistinctKeys(old(categories), IdOf) ==> DistinctKeys(categories, IdOf)
    {
      if NameTaken(categories, data.name) {
        return Failure(DuplicateName);
      }
      var category := NewCategory(data, id);
      if UniqueNames(categories) {
        CreateKeepsUnique(categories, data, id);
      }
      if DistinctKeys(categories, IdOf) {
        AppendKeepsDistinct(categories, IdOf, category);
      }
      categories := categories + [category];
      r := Success(category);
    }

    /** `updateCategory`: Success(None) is the `null` of an unknown id. */
    method UpdateCategory(id: Id, patch: CategoryPatch) returns (r: Result<Option<Category>, CategoryError>)
      modifies this
      ensures var i := FirstIndex(old(categories), (x: Category) => x.id == id);
        if i == |old(categories)| then r == Success(None) && categories == old(categories)
        else if UpdateRejected(old(categories), i, patch) then r == Failure(DuplicateName) && categories == old(categories)
        else
          var u := Merge(old(categories)[i], patch);
          r == Success(Some(u)) && categories == old(categories)[i := u]
      ensures UniqueNames(old(categories)) && patch.name != Some("") ==> UniqueNames(categories)
      ensures DistinctKeys(old(categories), IdOf) ==> DistinctKeys(categories, IdOf)
    {
      var i := FirstIndex(categories, (x: Category) => x.id == id);
      if i == |categories| {
        return Success(None);
      }
      if UpdateRejected(categories, i, patch) {
        return Failure(DuplicateName);
      }
      var u := Merge(categories[i], patch);
      if UniqueNames(categories) && patch.name != Some("") {
        UpdateKeepsUnique(categories, i, patch);
      }
      if DistinctKeys(categories, IdOf) {
        ReplaceKeepsDistinct(categories, IdOf, i, u);
      }
      categories := categories[i := u];
      r := Success(Some(u));
    }

    /** `deleteCategory`: true, and every category with the id gone, when there was one. */
    method DeleteCategory(id: Id) returns (deleted: bool)
      modifies this
      ensures deleted <==> exists i :: 0 <= i < |old(categories)| && old(categories)[i].id == id
      ensures categories == WithoutId(old(categories), id)
      ensures UniqueNames(old(categories)) ==> UniqueNames(categories)
    {
      var filtered := WithoutId(categories, id);
      FilterKeepsAll(categories, (x: Category) => x.id != id);
      if |filtered| == |categories| {
        FilterIdentity(categories, (x: Category) => x.id != id);
        return false;
      }
      if UniqueNames(categories) {
        FilterKeepsDistinct(categories, NameKey, (x: Category) => x.id != id);
      }
      categories := filtered;
      return true;
    }
  }
}
