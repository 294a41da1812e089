/** The category manager page: the category list, the new-name input and the edit and
    delete state, changed by the handlers once the server has answered. `None` stands
    for a request that failed and was caught (the list is then left as it was). */
module CategoryManager {
  import opened Util
  import opened Table

  datatype Category = Category(id: Id, name: string)

  /** The characters `String.prototype.trim` removes: white space and line terminators. */
  predicate JsSpace(c: char)
  {
    var n := c as int;
    (0x09 <= n <= 0x0D) || n == 0x20 || n == 0xA0 || n == 0x1680 || (0x2000 <= n <= 0x200A) ||
    n == 0x2028 || n == 0x2029 || n == 0x202F || n == 0x205F || n == 0x3000 || n == 0xFEFF
  }

  predicate Blank(s: string)
  {
    forall i :: 0 <= i < |s| ==> JsSpace(s[i])
  }

  function TrimStart(s: string): (r: string)
    ensures |r| <= |s| && r == s[|s| - |r|..]
    ensures |r| > 0 ==> !JsSpace(r[0])
    ensures forall i :: 0 <= i < |s| - |r| ==> JsSpace(s[i])
  {
    if |s| > 0 && JsSpace(s[0]) then TrimStart(s[1..]) else s
  }

  function TrimEnd(s: string): (r: string)
    ensures |r| <= |s| && r == s[..|r|]
    ensures |r| > 0 ==> !JsSpace(r[|r| - 1])
    ensures forall i :: |r| <= i < |s| ==> JsSpace(s[i])
  {
    if |s| > 0 && JsSpace(s[|s| - 1]) then TrimEnd(s[..|s| - 1]) else s
  }

  /** `s.trim()`. */
  function Trim(s: string): string
  {
    TrimEnd(TrimStart(s))
  }

  /** `!s.trim()` holds exactly for the strings made only of white space, the empty
      string included. */
  lemma TrimEmptyIffBlank(s: string)
    ensures Trim(s) == "" <==> Blank(s)
  {
    var t := TrimStart(s);
    if Trim(s) == "" {
      assert |t| == 0;
    } else {
      assert |t| > 0 && !JsSpace(t[0]);
      assert t[0] == s[|s| - |t|];
    }
  }

  function NotId(id: Id): Category -> bool
  {
    (c: Category) => c.id != id
  }

  class Page {
    var categories: seq<Category>
    var newName: string
    var editingId: Option<Id>
    var editName: string
    var deletingId: Option<Id>

    constructor ()
      ensures categories == [] && newName == "" && editingId.None? && editName == "" && deletingId.None?
    {
      categories := [];
      newName := "";
      editingId := None;
      editName := "";
      deletingId := None;
    }

    /** The load effect: the list becomes the server's list. */
    method Load(resp: Option<seq<Category>>)
      modifies this
      ensures categories == if resp.Some? then resp.value else old(categories)
      ensures newName == old(newName) && editingId == old(editingId) && editName == old(editName)
      ensures deletingId == old(deletingId)
    {
      if resp.Some? {
        categories := resp.value;
      }
    }

    /** `handleAdd`: a blank name sends nothing; otherwise the record the server
        returns is appended and the input cleared. */
    method HandleAdd(added: Option<Category>)
      modifies this
      ensures Blank(old(newName)) || added.None? ==> categories == old(categories) && newName == old(newName)
      ensures !Blank(old(newName)) && added.Some? ==> categories == old(categories) + [added.value] && newName == ""
      ensures editingId == old(editingId) && editName == old(editName) && deletingId == old(deletingId)
    {
      TrimEmptyIffBlank(newName);
      if Trim(newName) == "" {
        return;
      }
      if added.Some? {
        categories := categories + [added.value];
        newName := "";
      }
    }

    /** `handleEditClick(id, currentName)`. */
    method HandleEditClick(id: Id, currentName: string)
      modifies this
      ensures editingId == Some(id) && editName == currentName
      ensures categories == old(categories) && newName == old(newName) && deletingId == old(deletingId)
    {
      editingId := Some(id);
      editName := currentName;
    }

    /** `handleSave(id)`: a blank name sends nothing; otherwise every entry with this id
        becomes the returned record and editing ends. */
    method HandleSave(id: Id, saved: Option<Category>)
      modifies this
      ensures Blank(old(editName)) || saved.None? ==> categories == old(categories) && editingId == old(editingId)
      ensures !Blank(old(editName)) && saved.Some? ==> (|categories| == |old(categories)| && editingId.None? &&
        forall i :: 0 <= i < |categories| ==> categories[i] == if old(categories)[i].id == id then saved.value else old(categories)[i])
      ensures newName == old(newName) && editName == old(editName) && deletingId == old(deletingId)
    {
      TrimEmptyIffBlank(editName);
      if Trim(editName) == "" {
        return;
      }
      if saved.Some? {
        categories := ReplaceWhere(categories, (c: Category) => c.id == id, saved.value);
        editingId := None;
      }
    }

    /** `handleDeleteClick(id)`. */
    method HandleDeleteClick(id: Id)
      modifies this
      ensures deletingId == Some(id)
      ensures categories == old(categories) && newName == old(newName) && editingId == old(editingId)
      ensures editName == old(editName)
    {
      deletingId := Some(id);
    }

    /** The "Hủy" button of a row being edited: `setEditingId(null)`. */
    method CancelEdit()
      modifies this
      ensures editingId.None?
      ensures categories == old(categories) && newName == old(newName) && editName == old(editName)
      ensures deletingId == old(deletingId)
    {
      editingId := None;
    }

    /** The "Hủy" button of a row awaiting delete confirmation: `setDeletingId(null)`. */
    method CancelDelete()
      modifies this
      ensures deletingId.None?
      ensures categories == old(categories) && newName == old(newName) && editingId == old(editingId)
      ensures editName == old(editName)
    {
      deletingId := None;
    }

    /** `confirmDelete(id)`: once the server has deleted it, the entries with this id
        are dropped, the others kept in order, and the pending id cleared. */
    method ConfirmDelete(id: Id, deleted: bool)
      modifies this
      ensures deleted ==> categories == Filter(old(categories), NotId(id)) && deletingId.None?
      ensures !deleted ==> categories == old(categories) && deletingId == old(deletingId)
      ensures newName == old(newName) && editingId == old(editingId) && editName == old(editName)
    {
      if deleted {
        categories := Filter(categories, NotId(id));
        deletingId := None;
      }
    }
  }
}
