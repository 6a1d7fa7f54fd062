/** The in-memory category service (categoryService.js): a module-level
    array of categories that `create` appends to, `update` overwrites at an
    index and `delete` splices. */
module CategoryService {
  import opened Wrappers
  import opened Records

  /** The one error the service raises: `new Error('Category not found')`. */
  datatype StoreError = CategoryNotFound

  const NotFoundMessage: string := "Category not found"

  /** The data passed to `create`: the form's fields. */
  datatype CategoryFields = CategoryFields(name: string, color: string, icon: string)

  /** The data passed to `update`: the fields present, `None` for a field
      the object leaves out. An `Id` in it is ignored, so it is not carried. */
  datatype CategoryPatch = CategoryPatch(name: Option<string>, color: Option<string>, icon: Option<string>)

  ghost predicate UniqueIds(cs: seq<Category>) {
    forall i, j :: 0 <= i < j < |cs| ==> cs[i].Id != cs[j].Id
  }

  /** `Math.max(...categories.map(c => c.Id), 0)` */
  function MaxId(cs: seq<Category>): (m: int)
    ensures m >= 0
    ensures forall c :: c in cs ==> c.Id <= m
    ensures m == 0 || exists c :: c in cs && c.Id == m
  {
    if cs == [] then 0
    else
      var rest := MaxId(cs[1..]);
      assert forall c :: c in cs ==> c == cs[0] || c in cs[1..];
      if cs[0].Id > rest then cs[0].Id else rest
  }

  /** `categories.findIndex(c => c.Id === id)`, `None` for `-1`. */
  function IndexOfId(cs: seq<Category>, id: int): (r: Option<nat>)
    ensures r.Some? ==> r.value < |cs| && cs[r.value].Id == id
    ensures r.Some? ==> forall j :: 0 <= j < r.value ==> cs[j].Id != id
    ensures r.None? <==> forall c :: c in cs ==> c.Id != id
  {
    if cs == [] then None
    else if cs[0].Id == id then Some(0)
    else match IndexOfId(cs[1..], id)
      case None =>
        assert forall c :: c in cs ==> c == cs[0] || c in cs[1..];
        None
      case Some(i) => Some(i + 1)
  }

  /** `categories.find(c => c.Id === id)`, `None` for `null`. */
  function FindById(cs: seq<Category>, id: int): (r: Option<Category>)
    ensures r.Some? ==> r.value in cs && r.value.Id == id
    ensures r.None? <==> forall c :: c in cs ==> c.Id != id
  {
    match IndexOfId(cs, id)
    case Some(i) => Some(cs[i])
    case None => None
  }

  /** `{ ...categoryData, Id: Math.max(...ids, 0) + 1 }` */
  function NewCategory(cs: seq<Category>, fields: CategoryFields): (c: Category)
    ensures c.Id >= 1 && c.Id == MaxId(cs) + 1
    ensures forall x :: x in cs ==> x.Id < c.Id
    ensures c.name == fields.name && c.color == fields.color && c.icon == fields.icon
  {
    Category(MaxId(cs) + 1, fields.name, fields.color, fields.icon)
  }

  /** `{ ...category, ...updates, Id: category.Id }` */
  function Merge(c: Category, patch: CategoryPatch): (r: Category)
    ensures r.Id == c.Id
  {
    Category(c.Id, patch.name.GetOr(c.name), patch.color.GetOr(c.color), patch.icon.GetOr(c.icon))
  }

  /** A field the patch supplies wins; a field it leaves out keeps its value;
      applying the same patch twice changes nothing more. */
  lemma MergeFields(c: Category, patch: CategoryPatch)
    ensures patch.name.Some? ==> Merge(c, patch).name == patch.name.value
    ensures patch.name.None? ==> Merge(c, patch).name == c.name
    ensures patch.color.Some? ==> Merge(c, patch).color == patch.color.value
    ensures patch.color.None? ==> Merge(c, patch).color == c.color
    ensures patch.icon.Some? ==> Merge(c, patch).icon == patch.icon.value
    ensures patch.icon.None? ==> Merge(c, patch).icon == c.icon
    ensures Merge(c, CategoryPatch(None, None, None)) == c
    ensures Merge(Merge(c, patch), patch) == Merge(c, patch)
  {
  }

  /** `splice(index, 1)` */
  function RemoveAt(cs: seq<Category>, i: nat): (r: seq<Category>)
    requires i < |cs|
    ensures |r| == |cs| - 1
    ensures forall j :: 0 <= j < i ==> r[j] == cs[j]
    ensures forall j :: i <= j < |r| ==> r[j] == cs[j + 1]
  {
    cs[..i] + cs[i + 1..]
  }

  /** With unique ids, looking a category's id up finds that category. */
  lemma FindUnique(cs: seq<Category>, i: int)
    requires UniqueIds(cs) && 0 <= i < |cs|
    ensures IndexOfId(cs, cs[i].Id) == Some(i)
    ensures FindById(cs, cs[i].Id) == Some(cs[i])
  {
  }

  /** A created category gets an id no other has, so ids stay unique and the
      new category is found by its id. */
  lemma CreateKeepsIdsUnique(cs: seq<Category>, fields: CategoryFields)
    requires UniqueIds(cs)
    ensures var c := NewCategory(cs, fields);
      UniqueIds(cs + [c]) && FindById(cs + [c], c.Id) == Some(c)
  {
    var c := NewCategory(cs, fields);
    var r := cs + [c];
    forall i, j | 0 <= i < j < |r| ensures r[i].Id != r[j].Id {
      if j == |cs| {
        assert r[i] in cs;
      } else {
        assert r[i] == cs[i] && r[j] == cs[j];
      }
    }
    FindUnique(r, |cs|);
  }

  /** Updating keeps every id, hence their uniqueness. */
  lemma UpdateKeepsIdsUnique(cs: seq<Category>, i: int, patch: CategoryPatch)
    requires UniqueIds(cs) && 0 <= i < |cs|
    ensures UniqueIds(cs[i := Merge(cs[i], patch)])
  {
  }

  /** After a delete, the id is gone and every other category remains. */
  lemma DeleteRemovesOnlyThatId(cs: seq<Category>, i: int)
    requires UniqueIds(cs) && 0 <= i < |cs|
    ensures UniqueIds(RemoveAt(cs, i))
    ensures FindById(RemoveAt(cs, i), cs[i].Id) == None
    ensures forall c :: c in cs && c.Id != cs[i].Id ==> c in RemoveAt(cs, i)
  {
    var r := RemoveAt(cs, i);
    forall c | c in r ensures c.Id != cs[i].Id {
      var j :| 0 <= j < |r| && r[j] == c;
      if j < i { assert r[j] == cs[j]; } else { assert r[j] == cs[j + 1]; }
    }
    forall c | c in cs && c.Id != cs[i].Id ensures c in r {
      var j :| 0 <= j < |cs| && cs[j] == c;
      if j < i { assert r[j] == c; } else { assert r[j - 1] == c; }
    }
  }

  /** The service's state: the module-level `categories` array. */
  class CategoryStore {
    var categories: seq<Category>

    /** `let categories = [...categoriesData]` */
    constructor(seed: seq<Category>)
      ensures categories == seed
    {
      categories := seed;
    }

    /** `getAll`: a copy of the array. */
    method GetAll() returns (r: seq<Category>)
      ensures r == categories
    {
      r := categories;
    }

    /** `getById`: a copy of the first category with that id, or `null`. */
    method GetById(id: int) returns (r: Option<Category>)
      ensures r.Some? ==> r.value in categories && r.value.Id == id
      ensures r.None? <==> forall c :: c in categories ==> c.Id != id
      ensures r == FindById(categories, id)
    {
      r := FindById(categories, id);
    }

    /** `create`: appends a category with the next id and returns it. */
    method Create(fields: CategoryFields) returns (c: Category)
      modifies this
      ensures c == NewCategory(old(categories), fields)
      ensures categories == old(categories) + [c]
      ensures UniqueIds(old(categories)) ==> UniqueIds(categories)
    {
      c := NewCategory(categories, fields);
      if UniqueIds(categories) {
        CreateKeepsIdsUnique(categories, fields);
      }
      categories := categories + [c];
    }

    /** `update`: merges the patch into the first category with that id,
        keeping its id; an unknown id raises and changes nothing. */
    method Update(id: int, patch: CategoryPatch) returns (r: Result<Category, StoreError>)
      modifies this
      ensures IndexOfId(old(categories), id).None? ==>
        r == Err(CategoryNotFound) && categories == old(categories)
      ensures IndexOfId(old(categories), id).Some? ==>
        var i := IndexOfId(old(categories), id).value;
        r == Ok(Merge(old(categories)[i], patch)) && categories == old(categories)[i := r.value]
      ensures UniqueIds(old(categories)) ==> UniqueIds(categories)
    {
      var index := IndexOfId(categories, id);
      if index.None? {
        return Err(CategoryNotFound);
      }
      var i := index.value;
      var updated := Merge(categories[i], patch);
      categories := categories[i := updated];
      r := Ok(updated);
    }

    /** `delete`: removes the first category with that id and returns it; an
        unknown id raises and changes nothing. */
    method Delete(id: int) returns (r: Result<Category, StoreError>)
      modifies this
      ensures IndexOfId(old(categories), id).None? ==>
        r == Err(CategoryNotFound) && categories == old(categories)
      ensures IndexOfId(old(categories), id).Some? ==>
        var i := IndexOfId(old(categories), id).value;
        r == Ok(old(categories)[i]) && categories == RemoveAt(old(categories), i)
      ensures UniqueIds(old(categories)) ==> UniqueIds(categories)
    {
      var index := IndexOfId(categories, id);
      if index.None? {
        return Err(CategoryNotFound);
      }
      var i := index.value;
      var deleted := categories[i];
      if UniqueIds(categories) {
        DeleteRemovesOnlyThatId(categories, i);
      }
      categories := RemoveAt(categories, i);
      r := Ok(deleted);
    }
  }
}
