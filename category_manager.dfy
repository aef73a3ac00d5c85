/** The category administration screen (`CategoryManager.tsx`): a list of categories
    with post counts, and one form that either edits an existing category or creates a
    new one. The new id and the creation time are parameters. */
module CategoryManager {
  import opened Js
  import opened Seqs
  import Store
  import Utils

  /** The screen's own category record, which carries a post count. */
  datatype ManagedCategory = ManagedCategory(id: string, name: string, slug: string,
                                             description: Option<string>, postCount: int,
                                             createdAt: int)

  datatype CategoryForm = CategoryForm(name: string, slug: string, description: string)

  const EmptyForm := CategoryForm("", "", "")

  datatype FormField = NameField | SlugField | DescriptionField

  datatype ManagerState = ManagerState(categories: seq<ManagedCategory>, showForm: bool,
                                       editing: Option<ManagedCategory>, form: CategoryForm)

  function CategoryId(c: ManagedCategory): string { c.id }

  /** `{ ...cat, ...formData }`: the form's three fields over the category. */
  function Overwrite(c: ManagedCategory, f: CategoryForm): ManagedCategory {
    c.(name := f.name, slug := f.slug, description := Some(f.description))
  }

  /** The category a submit without an editing target appends. */
  function Created(f: CategoryForm, newId: string, now: int): ManagedCategory {
    ManagedCategory(newId, f.name, f.slug, Some(f.description), 0, now)
  }

  /** The list after `handleSubmit`. */
  function Saved(cats: seq<ManagedCategory>, editing: Option<ManagedCategory>, f: CategoryForm,
                 newId: string, now: int): seq<ManagedCategory> {
    match editing
    case Some(e) => Store.UpdateById(cats, CategoryId, e.id, (c: ManagedCategory) => Overwrite(c, f))
    case None => cats + [Created(f, newId, now)]
  }

  /** `handleEdit` loads the category into the form; a missing description becomes ''. */
  function FormOf(c: ManagedCategory): (f: CategoryForm)
    ensures f.name == c.name && f.slug == c.slug
    ensures f.description == if c.description.Some? then c.description.value else ""
  {
    CategoryForm(c.name, c.slug, c.description.GetOr(""))
  }

  function SetFormField(f: CategoryForm, field: FormField, value: string): CategoryForm {
    match field
    case NameField => f.(name := value)
    case SlugField => f.(slug := value)
    case DescriptionField => f.(description := value)
  }

  /** `generateSlug`: the slug field becomes the slug of the name, which is made only
      of a-z, 0-9 and single dashes; the name and description are kept. */
  function WithSlug(f: CategoryForm): (r: CategoryForm)
    ensures r.name == f.name && r.description == f.description
    ensures r.slug == Utils.EditorSlug(f.name) && Utils.IsSlug(r.slug)
  {
    Utils.EditorSlugProps(f.name);
    f.(slug := Utils.EditorSlug(f.name))
  }

  /** Saving an edit overwrites the name, slug and description of the categories with
      the edited id and keeps their id, post count and creation time; every other
      category and the length are unchanged. */
  lemma SavedEditing(cats: seq<ManagedCategory>, e: ManagedCategory, f: CategoryForm, newId: string, now: int)
    ensures var r := Saved(cats, Some(e), f, newId, now);
      |r| == |cats|
      && (forall i :: 0 <= i < |cats| && cats[i].id == e.id ==>
            r[i].name == f.name && r[i].slug == f.slug && r[i].description == Some(f.description)
            && r[i].id == cats[i].id && r[i].postCount == cats[i].postCount
            && r[i].createdAt == cats[i].createdAt)
      && (forall i :: 0 <= i < |cats| && cats[i].id != e.id ==> r[i] == cats[i])
  {
    Store.UpdateByIdProps(cats, CategoryId, e.id, (c: ManagedCategory) => Overwrite(c, f));
  }

  /** Saving a new category appends one built from the form, with no posts. */
  lemma SavedCreating(cats: seq<ManagedCategory>, f: CategoryForm, newId: string, now: int)
    ensures var r := Saved(cats, None, f, newId, now);
      |r| == |cats| + 1 && r[..|cats|] == cats
      && r[|cats|] == ManagedCategory(newId, f.name, f.slug, Some(f.description), 0, now)
  {
    var r := Saved(cats, None, f, newId, now);
    assert r == cats + [Created(f, newId, now)];
    assert r[..|cats|] == cats;
  }

  /** Opening a category for editing and submitting the untouched form gives the
      category back, except that a missing description is stored as ''. When the id is
      the category's alone and it has a description, nothing changes. */
  lemma EditThenSubmit(cats: seq<ManagedCategory>, c: ManagedCategory, newId: string, now: int)
    requires forall x :: x in cats && x.id == c.id ==> x == c
    ensures var r := Saved(cats, Some(c), FormOf(c), newId, now);
      |r| == |cats|
      && forall i :: 0 <= i < |cats| ==>
           r[i] == if cats[i].id == c.id then c.(description := Some(c.description.GetOr(""))) else cats[i]
    ensures c.description.Some? ==> Saved(cats, Some(c), FormOf(c), newId, now) == cats
  {
    var r := Saved(cats, Some(c), FormOf(c), newId, now);
    Store.UpdateByIdProps(cats, CategoryId, c.id, (x: ManagedCategory) => Overwrite(x, FormOf(c)));
    forall i | 0 <= i < |cats| && cats[i].id == c.id
      ensures r[i] == c.(description := Some(c.description.GetOr("")))
    {
      assert cats[i] in cats;
    }
    if c.description.Some? {
      assert forall i :: 0 <= i < |cats| ==> r[i] == cats[i];
    }
  }

  /** A confirmed delete removes every category with the id and keeps the rest in order. */
  lemma DeletedProps(cats: seq<ManagedCategory>, id: string)
    ensures var r := Store.DeleteById(cats, CategoryId, id);
      IsSubsequence(r, cats)
      && (forall c :: c in r ==> c.id != id)
      && (forall c :: c in cats && c.id != id ==> c in r)
  {
    Store.DeleteByIdProps(cats, CategoryId, id);
  }

  class Manager {
    var categories: seq<ManagedCategory>
    var showForm: bool
    var editing: Option<ManagedCategory>
    var form: CategoryForm

    function Snapshot(): ManagerState
      reads this
    {
      ManagerState(categories, showForm, editing, form)
    }

    /** The screen opens with no categories, the form closed and empty. */
    constructor()
      ensures Snapshot() == ManagerState([], false, None, EmptyForm)
    {
      categories := [];
      showForm := false;
      editing := None;
      form := EmptyForm;
    }

    /** `loadCategories`: the loaded list replaces the categories; the form is untouched. */
    method Load(loaded: seq<ManagedCategory>)
      modifies this
      ensures Snapshot() == old(Snapshot()).(categories := loaded)
    {
      categories := loaded;
    }

    /** The "Add Category" and "Create" buttons open the form. */
    method OpenForm()
      modifies this
      ensures Snapshot() == old(Snapshot()).(showForm := true)
    {
      showForm := true;
    }

    /** Typing into one of the three inputs. */
    method SetField(field: FormField, value: string)
      modifies this
      ensures Snapshot() == old(Snapshot()).(form := SetFormField(old(form), field, value))
    {
      form := SetFormField(form, field, value);
    }

    /** `handleSubmit`: save the edit or append the new category, then reset the form. */
    method HandleSubmit(newId: string, now: int)
      modifies this
      ensures Snapshot() == ManagerState(Saved(old(categories), old(editing), old(form), newId, now),
                                         false, None, EmptyForm)
    {
      categories := Saved(categories, editing, form, newId, now);
      ResetForm();
    }

    /** `handleEdit`: the category becomes the target and fills the form, which opens. */
    method HandleEdit(c: ManagedCategory)
      modifies this
      ensures Snapshot() == old(Snapshot()).(editing := Some(c), form := FormOf(c), showForm := true)
    {
      editing := Some(c);
      form := FormOf(c);
      showForm := true;
    }

    /** `handleDelete`: only a confirmed delete removes the category. */
    method HandleDelete(id: string, confirmed: bool)
      modifies this
      ensures confirmed ==> Snapshot() == old(Snapshot()).(categories := Store.DeleteById(old(categories), CategoryId, id))
      ensures !confirmed ==> Snapshot() == old(Snapshot())
    {
      if confirmed {
        categories := Store.DeleteById(categories, CategoryId, id);
      }
    }

    /** `resetForm`: empty fields, no target, form closed. */
    method ResetForm()
      modifies this
      ensures Snapshot() == old(Snapshot()).(form := EmptyForm, editing := None, showForm := false)
    {
      form := EmptyForm;
      editing := None;
      showForm := false;
    }

    /** `generateSlug`: only the slug field of the form changes. */
    method GenerateSlug()
      modifies this
      ensures Snapshot() == old(Snapshot()).(form := WithSlug(old(form)))
    {
      form := WithSlug(form);
    }
  }
}
