/** The admin category table: a create box, per-row delete, and a single-row edit mode driven by
    the `editId`/`editName` cells. Server answers are parameters. */
module CategoryList {
  import opened Wrappers
  import opened Text
  import Lists

  datatype Category = Category(id: string, name: string)

  predicate UniqueIds(cats: seq<Category>) {
    forall i, j :: 0 <= i < j < |cats| ==> cats[i].id != cats[j].id
  }

  /** The id the delete filters on and the table keys its rows by. */
  function CategoryId(c: Category): string {
    c.id
  }

  /** Deleting never creates a duplicate id. */
  lemma {:induction false} RemoveKeepsUnique(cats: seq<Category>, id: string)
    requires UniqueIds(cats)
    ensures UniqueIds(Lists.RemoveById(CategoryId, cats, id))
  {
    if cats != [] {
      var rest := cats[1..];
      assert UniqueIds(rest) by {
        forall i, j | 0 <= i < j < |rest| ensures rest[i].id != rest[j].id {
          assert rest[i] == cats[i + 1] && rest[j] == cats[j + 1];
        }
      }
      RemoveKeepsUnique(rest, id);
      var tail := Lists.RemoveById(CategoryId, rest, id);
      var head: seq<Category> := if cats[0].id != id then [cats[0]] else [];
      assert Lists.RemoveById(CategoryId, cats, id) == head + tail;
      forall k | 0 <= k < |tail| ensures tail[k].id != cats[0].id {
        var m :| 0 <= m < |rest| && rest[m] == tail[k];
        assert rest[m] == cats[m + 1];
      }
    }
  }

  /** `categories.map((c) => (c.id === id ? updated : c))` */
  function ReplaceCategory(cats: seq<Category>, id: string, updated: Category): (r: seq<Category>)
    ensures |r| == |cats|
    ensures forall i :: 0 <= i < |cats| ==> r[i] == if cats[i].id == id then updated else cats[i]
  {
    seq(|cats|, i requires 0 <= i < |cats| => if cats[i].id == id then updated else cats[i])
  }

  /** A server value that keeps its id leaves every row's id, and so uniqueness, as it was. */
  lemma ReplaceCategoryKeepsIds(cats: seq<Category>, id: string, updated: Category)
    requires updated.id == id
    ensures forall i :: 0 <= i < |cats| ==> ReplaceCategory(cats, id, updated)[i].id == cats[i].id
    ensures UniqueIds(cats) ==> UniqueIds(ReplaceCategory(cats, id, updated))
  {
  }

  /** Appending a created category with a new id keeps the ids unique. */
  lemma AppendKeepsUnique(cats: seq<Category>, created: Category)
    requires UniqueIds(cats)
    requires forall i :: 0 <= i < |cats| ==> cats[i].id != created.id
    ensures UniqueIds(cats + [created])
  {
  }

  /** The rows the table draws in edit mode (`editId === c.id`). */
  function EditingRows(cats: seq<Category>, editId: Option<string>): set<int> {
    set i | 0 <= i < |cats| && editId == Some(cats[i].id)
  }

  /** With unique ids, at most one row is in edit mode, and none when `editId` is null. */
  lemma AtMostOneRowEditing(cats: seq<Category>, editId: Option<string>)
    requires UniqueIds(cats)
    ensures |EditingRows(cats, editId)| <= 1
    ensures editId == None ==> EditingRows(cats, editId) == {}
  {
    var rows := EditingRows(cats, editId);
    if rows != {} {
      var i0 :| i0 in rows;
      assert rows == {i0};
    }
  }

  /** The component's state cells (`loading` is set by the initial fetch). */
  class CategoryListView {
    var categories: seq<Category>
    var loading: bool
    var newCategory: string
    var editId: Option<string>
    var editName: string

    constructor ()
      ensures categories == [] && loading && newCategory == "" && editId == None && editName == ""
    {
      categories := [];
      loading := true;
      newCategory := "";
      editId := None;
      editName := "";
    }

    /** The mount effect's result: the fetched list replaces the empty one. */
    method Loaded(data: seq<Category>)
      modifies this`categories, this`loading
      ensures categories == data && !loading
    {
      categories := data;
      loading := false;
    }

    /** The "New Category" field's `onChange`. */
    method TypeNewCategory(value: string)
      modifies this`newCategory
      ensures newCategory == value
    {
      newCategory := value;
    }

    /** The edit field's `onChange`. */
    method TypeEditName(value: string)
      modifies this`editName
      ensures editName == value
    {
      editName := value;
    }

    /** `handleCreate`. A blank name sends nothing. Otherwise the access token is fetched
        (`tokenOk`: it was obtained; when it throws nothing is posted) and the name is posted; `ok`
        says the server answered with an ok status and `created` is the body it returned. Only then
        is the category appended and the box cleared. */
    method HandleCreate(tokenOk: bool, ok: bool, created: Category) returns (posted: Option<string>)
      modifies this`categories, this`newCategory
      ensures posted.Some? <==> !IsBlank(old(newCategory)) && tokenOk
      ensures posted.Some? ==> posted.value == old(newCategory)
      ensures posted.Some? && ok ==>
        categories == old(categories) + [created] && newCategory == ""
      ensures !(posted.Some? && ok) ==>
        categories == old(categories) && newCategory == old(newCategory)
    {
      if IsBlank(newCategory) || !tokenOk {
        return None;
      }
      posted := Some(newCategory);
      if ok {
        categories := categories + [created];
        newCategory := "";
      }
    }

    /** `handleDelete(id)`. `responded` says the token was obtained and the DELETE request came
        back with any status at all; the row is then removed whatever that status was. */
    method HandleDelete(id: string, responded: bool)
      modifies this`categories
      ensures categories == if responded then Lists.RemoveById(CategoryId, old(categories), id)
                            else old(categories)
    {
      if responded {
        categories := Lists.RemoveById(CategoryId, categories, id);
      }
    }

    /** `handleEdit(id, name)`: this row, and only this one, enters edit mode. */
    method HandleEdit(id: string, name: string)
      modifies this`editId, this`editName
      ensures editId == Some(id) && editName == name
    {
      editId := Some(id);
      editName := name;
    }

    /** `handleCancelEdit` */
    method HandleCancelEdit()
      modifies this`editId, this`editName
      ensures editId == None && editName == ""
    {
      editId := None;
      editName := "";
    }

    /** `handleSaveEdit(id)`. A blank name is a no-op that stays in edit mode. Otherwise the access
        token is fetched (`tokenOk`; when it throws nothing is sent) and `{id, name: editName}` is
        sent; on an ok answer (`ok`, body `updated`) the rows with that id are replaced and edit
        mode ends, and on anything else nothing changes. */
    method HandleSaveEdit(id: string, tokenOk: bool, ok: bool, updated: Category)
      returns (sent: Option<Category>)
      modifies this`categories, this`editId, this`editName
      ensures sent.Some? <==> !IsBlank(old(editName)) && tokenOk
      ensures sent.Some? ==> sent.value == Category(id, old(editName))
      ensures sent.Some? && ok ==>
        categories == ReplaceCategory(old(categories), id, updated) && editId == None && editName == ""
      ensures !(sent.Some? && ok) ==>
        categories == old(categories) && editId == old(editId) && editName == old(editName)
    {
      if IsBlank(editName) || !tokenOk {
        return None;
      }
      sent := Some(Category(id, editName));
      if ok {
        categories := ReplaceCategory(categories, id, updated);
        editId := None;
        editName := "";
      }
    }
  }
}
