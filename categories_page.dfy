/** The categories screen (CategoriesPage.jsx): its local copy of the
    categories and tasks, the create/edit form, and the submit and delete
    handlers that call the category service. */
module CategoriesPage {
  import opened Wrappers
  import opened Seqs
  import opened Text
  import opened Records
  import ViewEngine
  import CategoryService

  /** The form's reset value: `{ name: '', color: '#5B4FE9', icon: 'Tag' }`. */
  function EmptyForm(): CategoryService.CategoryFields {
    CategoryService.CategoryFields("", "#5B4FE9", "Tag")
  }

  /** `getCategoryTaskCount` */
  function TaskCount(tasks: seq<Task>, name: string): nat {
    |Filter(tasks, ViewEngine.InCategory(name))|
  }

  /** The filter-and-count agrees with counting category occurrences. */
  lemma {:induction false} TaskCountIsCount(tasks: seq<Task>, name: string)
    ensures TaskCount(tasks, name) == CountInCategory(tasks, name)
    ensures TaskCount(tasks, name) > 0 <==> exists t :: t in tasks && t.category == name
  {
    if tasks != [] {
      assert tasks == [tasks[0]] + tasks[1..];
      FilterConcat([tasks[0]], tasks[1..], ViewEngine.InCategory(name));
      assert [tasks[0]][1..] == [];
      TaskCountIsCount(tasks[1..], name);
    }
    var f := Filter(tasks, ViewEngine.InCategory(name));
    if |f| > 0 {
      assert f[0] in tasks && f[0].category == name;
    }
  }

  /** The guard of `handleSubmit`: a name that trims to nothing is refused. */
  predicate NameAccepted(fields: CategoryService.CategoryFields) {
    Trim(fields.name) != ""
  }

  lemma NameAcceptedIff(fields: CategoryService.CategoryFields)
    ensures !NameAccepted(fields) <==> AllWhitespace(fields.name)
    ensures NameAccepted(fields) ==> fields.name != ""
  {
    TrimEmptyIff(fields.name);
  }

  /** `prev.map(cat => cat.Id === result.Id ? result : cat)` */
  function ReplaceCategory(cs: seq<Category>, c: Category): (r: seq<Category>)
    ensures |r| == |cs|
    ensures forall i :: 0 <= i < |cs| ==> r[i] == if cs[i].Id == c.Id then c else cs[i]
  {
    seq(|cs|, i requires 0 <= i < |cs| => if cs[i].Id == c.Id then c else cs[i])
  }

  function NotCategoryId(id: int): Category -> bool {
    (c: Category) => c.Id != id
  }

  /** `prev.filter(cat => cat.Id !== categoryId)` */
  function RemoveCategory(cs: seq<Category>, id: int): (r: seq<Category>)
    ensures forall c :: c in r <==> c in cs && c.Id != id
    ensures forall c :: multiset(r)[c] == if c.Id == id then 0 else multiset(cs)[c]
  {
    FilterCounts(cs, NotCategoryId(id));
    Filter(cs, NotCategoryId(id))
  }

  /** What `handleDelete` does before calling the service. */
  datatype DeleteStep =
    | CategoryMissing         // `categories.find` gives `undefined`; reading its name throws
    | BlockedByTasks(count: nat)
    | NotConfirmed
    | Proceed

  function DeleteGuard(cs: seq<Category>, tasks: seq<Task>, id: int, confirmed: bool): (step: DeleteStep)
    ensures step == CategoryMissing <==> forall c :: c in cs ==> c.Id != id
    ensures step.BlockedByTasks? ==> step.count > 0
    ensures step == Proceed ==>
      confirmed && CategoryService.FindById(cs, id).Some? &&
      TaskCount(tasks, CategoryService.FindById(cs, id).value.name) == 0
    ensures step == NotConfirmed ==> !confirmed
    ensures CategoryService.FindById(cs, id).Some? && TaskCount(tasks, CategoryService.FindById(cs, id).value.name) > 0
      ==> step == BlockedByTasks(TaskCount(tasks, CategoryService.FindById(cs, id).value.name))
  {
    match CategoryService.FindById(cs, id)
    case None => CategoryMissing
    case Some(c) =>
      var n := TaskCount(tasks, c.name);
      if n > 0 then BlockedByTasks(n)
      else if !confirmed then NotConfirmed
      else Proceed
  }

  /** `disabled={taskCount > 0}` on a category's delete button. */
  predicate DeleteDisabled(tasks: seq<Task>, c: Category) {
    TaskCount(tasks, c.name) > 0
  }

  /** The button is disabled exactly for the categories the handler would
      refuse to delete because tasks use them. */
  lemma DeleteDisabledIffBlocked(cs: seq<Category>, tasks: seq<Task>, i: int, confirmed: bool)
    requires CategoryService.UniqueIds(cs) && 0 <= i < |cs|
    ensures DeleteDisabled(tasks, cs[i]) <==> DeleteGuard(cs, tasks, cs[i].Id, confirmed).BlockedByTasks?
    ensures DeleteDisabled(tasks, cs[i]) <==> exists t :: t in tasks && t.category == cs[i].name
  {
    CategoryService.FindUnique(cs, i);
    TaskCountIsCount(tasks, cs[i].name);
  }

  datatype SubmitOutcome = NameRequired | Saved | SaveFailed

  datatype DeleteOutcome = Missing | HasTasks(count: nat) | Cancelled | Deleted | DeleteFailed

  /** The page's state. */
  class Page {
    var categories: seq<Category>
    var tasks: seq<Task>
    var showCreateForm: bool
    var editingCategory: Option<Category>
    var formData: CategoryService.CategoryFields

    constructor(categories0: seq<Category>, tasks0: seq<Task>)
      ensures categories == categories0 && tasks == tasks0
      ensures !showCreateForm && editingCategory.None? && formData == EmptyForm()
    {
      categories := categories0;
      tasks := tasks0;
      showCreateForm := false;
      editingCategory := None;
      formData := EmptyForm();
    }

    /** `handleEdit`: the form opens on the category's fields. */
    method HandleEdit(c: Category)
      modifies this
      ensures editingCategory == Some(c) && showCreateForm
      ensures formData == CategoryService.CategoryFields(c.name, c.color, c.icon)
      ensures categories == old(categories) && tasks == old(tasks)
    {
      editingCategory := Some(c);
      formData := CategoryService.CategoryFields(c.name, c.color, c.icon);
      showCreateForm := true;
    }

    /** `handleCancel` */
    method HandleCancel()
      modifies this
      ensures !showCreateForm && editingCategory.None? && formData == EmptyForm()
      ensures categories == old(categories) && tasks == old(tasks)
    {
      showCreateForm := false;
      editingCategory := None;
      formData := EmptyForm();
    }

    /** `handleSubmit` */
    method HandleSubmit(store: CategoryService.CategoryStore) returns (outcome: SubmitOutcome)
      modifies this, store
      ensures outcome == NameRequired <==> !NameAccepted(old(formData))
      ensures outcome == NameRequired ==>
        store.categories == old(store.categories) && categories == old(categories) &&
        formData == old(formData) && editingCategory == old(editingCategory) && showCreateForm == old(showCreateForm)
      ensures outcome == SaveFailed ==>
        old(editingCategory).Some? &&
        CategoryService.IndexOfId(old(store.categories), old(editingCategory).value.Id).None? &&
        store.categories == old(store.categories) && categories == old(categories) && formData == old(formData) &&
        editingCategory == old(editingCategory) && showCreateForm == old(showCreateForm)
      ensures outcome == Saved && old(editingCategory).Some? ==>
        CategoryService.IndexOfId(old(store.categories), old(editingCategory).value.Id).Some?
      ensures outcome == Saved && old(editingCategory).Some? &&
              CategoryService.IndexOfId(old(store.categories), old(editingCategory).value.Id).Some?
        ==> var i := CategoryService.IndexOfId(old(store.categories), old(editingCategory).value.Id).value;
        var f := old(formData);
        var updated := CategoryService.Merge(old(store.categories)[i], CategoryService.CategoryPatch(Some(f.name), Some(f.color), Some(f.icon)));
        store.categories == old(store.categories)[i := updated] &&
        categories == ReplaceCategory(old(categories), updated)
      ensures outcome == Saved && old(editingCategory).None? ==>
        var created := CategoryService.NewCategory(old(store.categories), old(formData));
        store.categories == old(store.categories) + [created] &&
        categories == [created] + old(categories)
      ensures outcome == Saved ==> !showCreateForm && editingCategory.None? && formData == EmptyForm()
      ensures tasks == old(tasks)
    {
      if Trim(formData.name) == "" {
        return NameRequired;
      }
      if editingCategory.Some? {
        var patch := CategoryService.CategoryPatch(Some(formData.name), Some(formData.color), Some(formData.icon));
        var result := store.Update(editingCategory.value.Id, patch);
        if result.Err? {
          return SaveFailed;
        }
        categories := ReplaceCategory(categories, result.value);
      } else {
        var created := store.Create(formData);
        categories := [created] + categories;
      }
      showCreateForm := false;
      editingCategory := None;
      formData := EmptyForm();
      outcome := Saved;
    }

    /** `handleDelete`, `confirmed` standing for the answer to `window.confirm`. */
    method HandleDelete(store: CategoryService.CategoryStore, id: int, confirmed: bool) returns (outcome: DeleteOutcome)
      modifies this, store
      ensures var step := DeleteGuard(old(categories), old(tasks), id, confirmed);
        && (step == CategoryMissing ==> outcome == Missing)
        && (step.BlockedByTasks? ==> outcome == HasTasks(step.count))
        && (step == NotConfirmed ==> outcome == Cancelled)
        && (step == Proceed ==> outcome == Deleted || outcome == DeleteFailed)
      ensures outcome != Deleted && outcome != DeleteFailed ==>
        store.categories == old(store.categories) && categories == old(categories)
      ensures outcome == DeleteFailed ==>
        CategoryService.IndexOfId(old(store.categories), id).None? &&
        store.categories == old(store.categories) && categories == old(categories)
      ensures outcome == Deleted ==> CategoryService.IndexOfId(old(store.categories), id).Some?
      ensures outcome == Deleted && CategoryService.IndexOfId(old(store.categories), id).Some? ==>
        var i := CategoryService.IndexOfId(old(store.categories), id).value;
        store.categories == CategoryService.RemoveAt(old(store.categories), i) &&
        categories == RemoveCategory(old(categories), id)
      ensures tasks == old(tasks) && formData == old(formData) && editingCategory == old(editingCategory)
      ensures showCreateForm == old(showCreateForm)
    {
      var step := DeleteGuard(categories, tasks, id, confirmed);
      match step
      case CategoryMissing => return Missing;
      case BlockedByTasks(n) => return HasTasks(n);
      case NotConfirmed => return Cancelled;
      case Proceed =>
        var result := store.Delete(id);
        if result.Err? {
          return DeleteFailed;
        }
        categories := RemoveCategory(categories, id);
        outcome := Deleted;
    }
  }
}
