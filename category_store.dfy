/** The category controller: named spending categories, kept unique by exact name
    when they are added. */
module CategoryStore {
  import opened Util
  import opened Table
  import opened Http

  datatype Category = Category(name: string)

  /** The `findOne({ name })` filter. */
  function NameFilter(name: string): Category -> bool
  {
    (c: Category) => c.name == name
  }

  /** No two categories carry the same name. */
  ghost predicate NamesUnique(t: map<Id, Category>)
  {
    forall j, k :: j in t && k in t && j != k ==> t[j].name != t[k].name
  }

  /** Inserting under a fresh id a name no category has keeps the names unique. */
  lemma InsertKeepsNamesUnique(t: map<Id, Category>, n: Id, name: string)
    requires NamesUnique(t) && forall k :: k in t ==> k < n
    requires FirstWhere(t, n, NameFilter(name)).None?
    ensures NamesUnique(t[n := Category(name)])
  {
    forall k | k in t
      ensures t[k].name != name
    {
      assert !NameFilter(name)(t[k]);
    }
  }

  class Categories {
    var table: map<Id, Category>
    var nextId: Id

    ghost predicate Valid()
      reads this
    {
      forall k :: k in table ==> k < nextId
    }

    constructor ()
      ensures Valid() && table == map[] && nextId == 0
    {
      table := map[];
      nextId := 0;
    }

    /** `addCategory`: 400 for an empty name before the database is asked, 500 when
        it fails, 400 for a name already taken, otherwise 201 with the new category. */
    method AddCategory(name: string, dbUp: bool) returns (r: Reply<Row<Category>>)
      requires Valid()
      modifies this
      ensures Valid()
      ensures r == BadRequest(MissingField) <==> name == ""
      ensures r == ServerError <==> name != "" && !dbUp
      ensures r == BadRequest(DuplicateName) <==>
        (name != "" && dbUp && exists k :: k in old(table) && old(table)[k].name == name)
      ensures r.Created? <==>
        (name != "" && dbUp && forall k :: k in old(table) ==> old(table)[k].name != name)
      ensures r.Created? ==> (r.body == Row(old(nextId), Category(name)) &&
        table == old(table)[old(nextId) := Category(name)] && nextId == old(nextId) + 1)
      ensures !r.Created? ==> table == old(table) && nextId == old(nextId)
      ensures NamesUnique(old(table)) ==> NamesUnique(table)
    {
      if name == "" {
        return BadRequest(MissingField);
      }
      if !dbUp {
        return ServerError;
      }
      var taken := FirstWhere(table, nextId, NameFilter(name));
      if taken.Some? {
        return BadRequest(DuplicateName);
      }
      if NamesUnique(table) {
        InsertKeepsNamesUnique(table, nextId, name);
      }
      table := table[nextId := Category(name)];
      r := Created(Row(nextId, Category(name)));
      nextId := nextId + 1;
    }

    /** `getCategories`: every category, newest first. */
    function GetCategories(dbUp: bool): (r: Reply<seq<Row<Category>>>)
      requires Valid()
      reads this
      ensures r.Ok? <==> dbUp
      ensures r.ServerError? <==> !dbUp
      ensures r.Ok? ==> forall row :: row in r.body <==> row.id in table && table[row.id] == row.doc
      ensures r.Ok? ==> forall i, j :: 0 <= i < j < |r.body| ==> r.body[i].id > r.body[j].id
    {
      if dbUp then Ok(NewestFirst(table, nextId)) else ServerError
    }

    /** `updateCategory`: 404 for an unknown id, otherwise only that category's name
        changes (when the body has one), with no check against the other names. */
    method UpdateCategory(id: Id, name: Option<string>, dbUp: bool) returns (r: Reply<Row<Category>>)
      requires Valid()
      modifies this
      ensures Valid() && nextId == old(nextId)
      ensures r == ServerError <==> !dbUp
      ensures r == NotFound(CategoryEntity) <==> dbUp && id !in old(table)
      ensures r.Ok? <==> dbUp && id in old(table)
      ensures r.Ok? ==> (r.body.id == id &&
        r.body.doc.name == (if name.Some? then name.value else old(table)[id].name) &&
        table == old(table)[id := r.body.doc])
      ensures !r.Ok? ==> table == old(table)
    {
      if !dbUp {
        return ServerError;
      }
      if id !in table {
        return NotFound(CategoryEntity);
      }
      var c := if name.Some? then Category(name.value) else table[id];
      table := table[id := c];
      r := Ok(Row(id, c));
    }

    /** `deleteCategory`: 200 whether or not the id existed; afterwards it does not. */
    method DeleteCategory(id: Id, dbUp: bool) returns (r: Reply<()>)
      requires Valid()
      modifies this
      ensures Valid() && nextId == old(nextId)
      ensures r == ServerError <==> !dbUp
      ensures r.Ok? <==> dbUp
      ensures r.Ok? ==> table == old(table) - {id} && id !in table
      ensures !r.Ok? ==> table == old(table)
    {
      if !dbUp {
        return ServerError;
      }
      table := table - {id};
      r := Ok(());
    }
  }

  /** Renaming is unchecked: two categories can end up with one name. */
  lemma UpdateCanDuplicateName()
    ensures var t := map[0 := Category("Ăn uống"), 1 := Category("Đi lại")];
      NamesUnique(t) && !NamesUnique(t[1 := Category("Ăn uống")])
  {
    var t' := map[0 := Category("Ăn uống"), 1 := Category("Đi lại")][1 := Category("Ăn uống")];
    assert t'[0].name == t'[1].name;
  }
}
