/** Writing a recipe (backend/api/serializers.py, RecipeCreateSerializer.create, update and
    create_ingredients). Both writes run in one transaction: the request is validated first,
    and a write either completes or leaves every table as it was. Both replace the recipe's
    ingredient rows and tag set by exactly the ones of the request. */
module RecipeWriter {
  import opened Wrappers
  import opened Seqs
  import opened Entities
  import opened Text
  import opened RecipeStore
  import opened RecipeValidation

  /** One ingredient row per entry, in the order of the entries. */
  function RowsFor(id: Id, es: seq<IngredientEntry>): (r: seq<IngredientRow>)
    ensures |r| == |es|
    ensures forall i :: 0 <= i < |es| ==> r[i] == IngredientRow(id, es[i].id, es[i].amount)
  {
    if es == [] then [] else RowsFor(id, es[..|es| - 1]) + [IngredientRow(id, es[|es| - 1].id, es[|es| - 1].amount)]
  }

  /** The tag links `recipe.tags.set(ts)` leaves: one per distinct key. */
  function LinksFor(id: Id, ts: seq<Id>): (links: set<TagLink>)
    ensures forall l :: l in links <==> l.recipe == id && l.tag in ts
  {
    set t | t in ts :: TagLink(id, t)
  }

  /** `recipe.ingredientrecipes`: the rows of one recipe, in table order. */
  function RowsOf(rows: seq<IngredientRow>, id: Id): (r: seq<IngredientRow>)
    ensures forall x :: x in r <==> x in rows && x.recipe == id
  {
    Filter((x: IngredientRow) => x.recipe == id, rows)
  }

  /** `recipe.tags`: the keys of the tags linked with one recipe. */
  function TagsOf(links: set<TagLink>, id: Id): (tags: set<Id>)
    ensures forall t :: t in tags <==> TagLink(id, t) in links
  {
    set l | l in links && l.recipe == id :: l.tag
  }

  /** The recipe row a complete request describes; the validated name and text are the
      stripped ones. */
  function NewRecipe(author: Id, req: RecipeRequest): Recipe
    requires req.name.Some? && req.text.Some? && req.image.Some? && req.cookingTime.Some?
  {
    Recipe(author, Trim(req.name.value), Trim(req.text.value), req.image.value, req.cookingTime.value)
  }

  /** `super().update`: the plain fields the request carries overwrite the old ones, name
      and text as stripped by validation. */
  function ApplyFields(r: Recipe, req: RecipeRequest): (r': Recipe)
    ensures r'.author == r.author
    ensures r'.name == (if req.name.Some? then Trim(req.name.value) else r.name)
    ensures r'.text == (if req.text.Some? then Trim(req.text.value) else r.text)
    ensures r'.image == (if req.image.Some? then req.image.value else r.image)
    ensures r'.cookingTime == (if req.cookingTime.Some? then req.cookingTime.value else r.cookingTime)
  {
    r.(name := if req.name.Some? then Trim(req.name.value) else r.name,
       text := if req.text.Some? then Trim(req.text.value) else r.text,
       image := if req.image.Some? then req.image.value else r.image,
       cookingTime := if req.cookingTime.Some? then req.cookingTime.value else r.cookingTime)
  }

  /** The tables after `create`: a new recipe under the next key, its rows appended to the
      ingredient table and its tag links added. */
  function CreateDb(d: Db, author: Id, req: RecipeRequest): Db
    requires req.name.Some? && req.text.Some? && req.image.Some? && req.cookingTime.Some?
    requires req.ingredients.Some? && req.tags.Some?
  {
    var id := d.nextId;
    d.(recipes := d.recipes[id := NewRecipe(author, req)],
       nextId := id + 1,
       rows := d.rows + RowsFor(id, req.ingredients.value),
       tagLinks := d.tagLinks + LinksFor(id, req.tags.value))
  }

  /** The tables after `update`: the recipe's rows deleted and the new ones appended, its tag
      links cleared and set anew, its plain fields overwritten. */
  function UpdateDb(d: Db, id: Id, req: RecipeRequest): Db
    requires id in d.recipes
    requires req.ingredients.Some? && req.tags.Some?
  {
    d.(recipes := d.recipes[id := ApplyFields(d.recipes[id], req)],
       rows := RowsOutside(d.rows, {id}) + RowsFor(id, req.ingredients.value),
       tagLinks := (set l | l in d.tagLinks && l.recipe != id) + LinksFor(id, req.tags.value))
  }

  /** An accepted request only refers to existing rows and stays within the model's bounds,
      so creating the recipe keeps every constraint of the store. */
  lemma CreateKeepsConstraints(d: Db, c: Config, author: Id, req: RecipeRequest)
    requires DbValid(d) && author in d.users
    requires Acceptable(c, d.ingredients.Keys, d.tags.Keys, req, false)
    ensures DbValid(CreateDb(d, author, req))
  {
    var d' := CreateDb(d, author, req);
    var es := req.ingredients.value;
    forall r | r in d'.rows
      ensures r.recipe in d'.recipes && r.ingredient in d'.ingredients && AmountMin <= r.amount <= AmountMax
    {
      if r !in d.rows {
        var i :| 0 <= i < |es| && RowsFor(d.nextId, es)[i] == r;
      }
    }
  }

  /** Likewise for an update of an existing recipe. */
  lemma UpdateKeepsConstraints(d: Db, c: Config, id: Id, req: RecipeRequest)
    requires DbValid(d) && id in d.recipes
    requires Acceptable(c, d.ingredients.Keys, d.tags.Keys, req, true)
    requires req.ingredients.Some? && req.tags.Some?
    ensures DbValid(UpdateDb(d, id, req))
  {
    var d' := UpdateDb(d, id, req);
    var es := req.ingredients.value;
    forall r | r in d'.rows
      ensures r.recipe in d'.recipes && r.ingredient in d'.ingredients && AmountMin <= r.amount <= AmountMax
    {
      if r !in RowsOutside(d.rows, {id}) {
        var i :| 0 <= i < |es| && RowsFor(id, es)[i] == r;
      }
    }
  }

  /** A freshly created recipe owns exactly one row per request entry, in request order;
      no other recipe's rows change. */
  lemma CreateWritesRows(d: Db, author: Id, req: RecipeRequest, other: Id)
    requires DbValid(d)
    requires req.name.Some? && req.text.Some? && req.image.Some? && req.cookingTime.Some?
    requires req.ingredients.Some? && req.tags.Some?
    ensures d.nextId !in d.recipes
    ensures CreateDb(d, author, req).recipes[d.nextId] == NewRecipe(author, req)
    ensures RowsOf(CreateDb(d, author, req).rows, d.nextId) == RowsFor(d.nextId, req.ingredients.value)
    ensures other != d.nextId ==> RowsOf(CreateDb(d, author, req).rows, other) == RowsOf(d.rows, other)
  {
    var id := d.nextId;
    var added := RowsFor(id, req.ingredients.value);
    FilterAppend((x: IngredientRow) => x.recipe == id, d.rows, added);
    FilterNone((x: IngredientRow) => x.recipe == id, d.rows);
    FilterAll((x: IngredientRow) => x.recipe == id, added);
    FilterAppend((x: IngredientRow) => x.recipe == other, d.rows, added);
    if other != id {
      FilterNone((x: IngredientRow) => x.recipe == other, added);
    }
  }

  /** A freshly created recipe carries exactly the requested tags; no other recipe's tags
      change. */
  lemma CreateWritesTags(d: Db, author: Id, req: RecipeRequest, other: Id)
    requires DbValid(d)
    requires req.name.Some? && req.text.Some? && req.image.Some? && req.cookingTime.Some?
    requires req.ingredients.Some? && req.tags.Some?
    ensures TagsOf(CreateDb(d, author, req).tagLinks, d.nextId) == set t | t in req.tags.value
    ensures other != d.nextId ==> TagsOf(CreateDb(d, author, req).tagLinks, other) == TagsOf(d.tagLinks, other)
  {
    var id := d.nextId;
    var now := TagsOf(CreateDb(d, author, req).tagLinks, id);
    forall t ensures t in now <==> t in req.tags.value {
      assert TagLink(id, t) in d.tagLinks ==> id in d.recipes;
      assert id !in d.recipes;
    }
    assert now == set t | t in req.tags.value;
  }

  /** Deleting one recipe's rows leaves the rows of every other recipe as they were. */
  lemma {:induction false} RowsOfOutside(rows: seq<IngredientRow>, id: Id, other: Id)
    requires other != id
    ensures RowsOf(RowsOutside(rows, {id}), other) == RowsOf(rows, other)
  {
    if rows != [] {
      RowsOfOutside(rows[1..], id, other);
    }
  }

  /** `update` replaces rather than merges: afterwards the recipe's rows are exactly the new
      entries in request order, whatever it held before; every other recipe keeps its rows. */
  lemma UpdateReplacesRows(d: Db, id: Id, req: RecipeRequest, other: Id)
    requires id in d.recipes
    requires req.ingredients.Some? && req.tags.Some?
    ensures RowsOf(UpdateDb(d, id, req).rows, id) == RowsFor(id, req.ingredients.value)
    ensures other != id ==> RowsOf(UpdateDb(d, id, req).rows, other) == RowsOf(d.rows, other)
  {
    var kept := RowsOutside(d.rows, {id});
    var added := RowsFor(id, req.ingredients.value);
    FilterAppend((x: IngredientRow) => x.recipe == id, kept, added);
    FilterNone((x: IngredientRow) => x.recipe == id, kept);
    FilterAll((x: IngredientRow) => x.recipe == id, added);
    if other != id {
      FilterAppend((x: IngredientRow) => x.recipe == other, kept, added);
      FilterNone((x: IngredientRow) => x.recipe == other, added);
      RowsOfOutside(d.rows, id, other);
    }
  }

  /** Likewise the recipe's tags become exactly the new keys (`set`, not `add`); every other
      recipe keeps its tags. */
  lemma UpdateReplacesTags(d: Db, id: Id, req: RecipeRequest, other: Id)
    requires id in d.recipes
    requires req.ingredients.Some? && req.tags.Some?
    ensures TagsOf(UpdateDb(d, id, req).tagLinks, id) == set t | t in req.tags.value
    ensures other != id ==> TagsOf(UpdateDb(d, id, req).tagLinks, other) == TagsOf(d.tagLinks, other)
  {
    var others := set l | l in d.tagLinks && l.recipe != id;
    var links := UpdateDb(d, id, req).tagLinks;
    assert links == others + LinksFor(id, req.tags.value);
    var now := TagsOf(links, id);
    forall t ensures t in now <==> t in req.tags.value {
      assert TagLink(id, t) !in others;
    }
    assert now == set t | t in req.tags.value;
  }

  /** Why a write did not happen. `MissingKey` is the KeyError `update` raises when a partial
      request lacks `ingredients` or `tags`; the transaction is rolled back. */
  datatype WriteError = Invalid(errors: seq<FieldError>) | MissingKey(field: Field)

  /** `create_ingredients`: one bulk insert of a row per entry, appended in entry order. */
  method CreateIngredients(st: Store, id: Id, es: seq<IngredientEntry>)
    modifies st
    ensures st.Contents() == old(st.Contents()).(rows := old(st.rows) + RowsFor(id, es))
  {
    var batch: seq<IngredientRow> := [];
    for i := 0 to |es|
      invariant batch == RowsFor(id, es[..i])
    {
      assert es[..i + 1][..i] == es[..i];
      batch := batch + [IngredientRow(id, es[i].id, es[i].amount)];
    }
    assert es[..|es|] == es;
    st.rows := st.rows + batch;
  }

  /** `create`: validate, then insert the recipe authored by the requesting user, its rows
      and its tags, all or nothing. */
  method Create(st: Store, c: Config, author: Id, req: RecipeRequest) returns (res: Result<Id, WriteError>)
    requires st.Valid() && author in st.users
    modifies st
    ensures st.Valid()
    ensures res.Failure? <==> !Acceptable(c, old(st.ingredients).Keys, old(st.tags).Keys, req, false)
    ensures res.Failure? ==>
      && res.error == Invalid(ValidateRecipe(c, old(st.ingredients).Keys, old(st.tags).Keys, req, false).error)
      && st.Contents() == old(st.Contents())
    ensures res.Success? ==>
      && res.value == old(st.nextId) && res.value !in old(st.recipes)
      && st.Contents() == CreateDb(old(st.Contents()), author, req)
  {
    var v := ValidateRecipe(c, st.ingredients.Keys, st.tags.Keys, req, false);
    if v.Failure? {
      return Failure(Invalid(v.error));
    }
    ghost var before := st.Contents();
    CreateKeepsConstraints(before, c, author, req);
    var id := st.nextId;
    st.recipes := st.recipes[id := NewRecipe(author, req)];
    st.nextId := id + 1;
    CreateIngredients(st, id, req.ingredients.value);
    st.tagLinks := st.tagLinks + LinksFor(id, req.tags.value);
    assert st.Contents() == CreateDb(before, author, req);
    res := Success(id);
  }

  /** What `update` writes once it holds `ingredients` and `tags`: the recipe's tags cleared
      and set to the new keys, the new rows inserted, the plain fields saved. */
  method WriteRecipe(st: Store, id: Id, req: RecipeRequest)
    requires id in st.recipes
    requires req.ingredients.Some? && req.tags.Some?
    modifies st
    ensures st.Contents() == old(st.Contents()).(
      recipes := old(st.recipes)[id := ApplyFields(old(st.recipes)[id], req)],
      rows := old(st.rows) + RowsFor(id, req.ingredients.value),
      tagLinks := (set l | l in old(st.tagLinks) && l.recipe != id) + LinksFor(id, req.tags.value))
  {
    st.tagLinks := set l | l in st.tagLinks && l.recipe != id;
    st.tagLinks := st.tagLinks + LinksFor(id, req.tags.value);
    CreateIngredients(st, id, req.ingredients.value);
    st.recipes := st.recipes[id := ApplyFields(st.recipes[id], req)];
  }

  /** `update` of an existing recipe. Every update arrives as a partial one (the object
      permission refuses PUT), so absent fields pass validation; the method then deletes the
      recipe's rows before it takes `ingredients` and `tags` out of the data, and when either
      is absent the KeyError rolls the deletion back. */
  method Update(st: Store, c: Config, id: Id, req: RecipeRequest) returns (res: Result<Id, WriteError>)
    requires st.Valid() && id in st.recipes
    modifies st
    ensures st.Valid()
    ensures res.Success? <==>
      Acceptable(c, old(st.ingredients).Keys, old(st.tags).Keys, req, true) && req.ingredients.Some? && req.tags.Some?
    ensures !Acceptable(c, old(st.ingredients).Keys, old(st.tags).Keys, req, true) ==>
      res == Failure(Invalid(ValidateRecipe(c, old(st.ingredients).Keys, old(st.tags).Keys, req, true).error))
    ensures res.Failure? ==> st.Contents() == old(st.Contents())
    ensures res.Success? ==> res.value == id && st.Contents() == UpdateDb(old(st.Contents()), id, req)
  {
    var v := ValidateRecipe(c, st.ingredients.Keys, st.tags.Keys, req, true);
    if v.Failure? {
      return Failure(Invalid(v.error));
    }
    var saved := st.Contents();
    // the rows go first; a KeyError on the next line undoes the deletion
    st.rows := RowsOutside(st.rows, {id});
    if req.ingredients.None? {
      st.Store(saved);
      return Failure(MissingKey(IngredientsField));
    }
    if req.tags.None? {
      st.Store(saved);
      return Failure(MissingKey(TagsField));
    }
    UpdateKeepsConstraints(saved, c, id, req);
    WriteRecipe(st, id, req);
    res := Success(id);
  }
}
