/** The recipe store: every table of backend/recipes/models.py and backend/users/models.py as
    a field of one object, its constraints as `Valid()`, the inserts that the database refuses
    when they would break a constraint, and the cascades that run when a user, recipe,
    ingredient or tag row is deleted. The tables are declarative, so each of these changes is
    a function on `Db`, the value of all tables, and the lemma beside it proves that the
    change keeps the constraints. */
module RecipeStore {
  import opened Wrappers
  import opened Seqs
  import opened Entities

  /** The two user-scoped recipe collections; they share one state machine. */
  datatype Collection = Favorites | ShoppingCart

  /** The value of every table at one moment. `nextId` is the auto-increment: every key of
      every table lies below it. */
  datatype Db = Db(
    users: map<Id, User>,
    tags: map<Id, Tag>,
    ingredients: map<Id, Ingredient>,
    recipes: map<Id, Recipe>,
    nextId: Id,
    rows: seq<IngredientRow>,
    tagLinks: set<TagLink>,
    favorites: seq<Pair>,
    carts: seq<Pair>,
    follows: seq<Edge>)
  {
    function PairsIn(c: Collection): seq<Pair> {
      match c
      case Favorites => favorites
      case ShoppingCart => carts
    }

    function WithPairs(c: Collection, pairs: seq<Pair>): (d: Db)
      ensures d.PairsIn(c) == pairs
    {
      match c
      case Favorites => this.(favorites := pairs)
      case ShoppingCart => this.(carts := pairs)
    }
  }

  /** Every constraint of the two models files, together. */
  ghost predicate DbValid(d: Db) {
    && UsersConstrained(d.users)
    && TagsConstrained(d.tags)
    && IngredientsConstrained(d.ingredients)
    && RecipesConstrained(d.recipes, d.users.Keys)
    && RowsConstrained(d.rows, d.recipes.Keys, d.ingredients.Keys)
    && LinksConstrained(d.tagLinks, d.recipes.Keys, d.tags.Keys)
    && PairsConstrained(d.favorites, d.users.Keys, d.recipes.Keys)
    && PairsConstrained(d.carts, d.users.Keys, d.recipes.Keys)
    && EdgesConstrained(d.follows, d.users.Keys)
    && (forall k :: k in d.users ==> k < d.nextId)
    && (forall k :: k in d.tags ==> k < d.nextId)
    && (forall k :: k in d.ingredients ==> k < d.nextId)
    && (forall k :: k in d.recipes ==> k < d.nextId)
  }

  class Store {
    var users: map<Id, User>
    var tags: map<Id, Tag>
    var ingredients: map<Id, Ingredient>
    var recipes: map<Id, Recipe>
    var nextId: Id
    var rows: seq<IngredientRow>
    var tagLinks: set<TagLink>
    var favorites: seq<Pair>
    var carts: seq<Pair>
    var follows: seq<Edge>

    /** The tables as one value. */
    function Contents(): Db
      reads this
    {
      Db(users, tags, ingredients, recipes, nextId, rows, tagLinks, favorites, carts, follows)
    }

    ghost predicate Valid()
      reads this
    {
      DbValid(Contents())
    }

    constructor ()
      ensures Valid()
      ensures Contents() == Db(map[], map[], map[], map[], 1, [], {}, [], [], [])
    {
      users, tags, ingredients, recipes := map[], map[], map[], map[];
      nextId := 1;
      rows, tagLinks, favorites, carts, follows := [], {}, [], [], [];
    }

    /** Replaces every table by the ones in `d`. */
    method Store(d: Db)
      modifies this
      ensures Contents() == d
    {
      users, tags, ingredients, recipes, nextId := d.users, d.tags, d.ingredients, d.recipes, d.nextId;
      rows, tagLinks, favorites, carts, follows := d.rows, d.tagLinks, d.favorites, d.carts, d.follows;
    }
  }

  // ---- the rows a cascade keeps ----

  /** The ingredient rows whose recipe is not among `gone`. */
  function RowsOutside(rows: seq<IngredientRow>, gone: set<Id>): (r: seq<IngredientRow>)
    ensures forall x :: x in r <==> x in rows && x.recipe !in gone
  {
    Filter((x: IngredientRow) => x.recipe !in gone, rows)
  }

  /** The ingredient rows that do not use ingredient `id`. */
  function RowsWithoutIngredient(rows: seq<IngredientRow>, id: Id): (r: seq<IngredientRow>)
    ensures forall x :: x in r <==> x in rows && x.ingredient != id
  {
    Filter((x: IngredientRow) => x.ingredient != id, rows)
  }

  /** The Favorites or ShoppingCart rows of no user among `users` and no recipe among `gone`. */
  function PairsOutside(pairs: seq<Pair>, users: set<Id>, gone: set<Id>): (r: seq<Pair>)
    ensures forall x :: x in r <==> x in pairs && x.user !in users && x.recipe !in gone
    ensures |r| <= |pairs|
    ensures |r| == |pairs| <==> forall x :: x in pairs ==> x.user !in users && x.recipe !in gone
    ensures NoDup(pairs) ==> NoDup(r)
  {
    var r := Filter((x: Pair) => x.user !in users && x.recipe !in gone, pairs);
    assert NoDup(pairs) ==> NoDup(r) by {
      if NoDup(pairs) { FilterNoDup((x: Pair) => x.user !in users && x.recipe !in gone, pairs); }
    }
    r
  }

  /** The Follow edges that do not touch user `u` at either end. */
  function EdgesAvoiding(edges: seq<Edge>, u: Id): (r: seq<Edge>)
    ensures forall x :: x in r <==> x in edges && x.user != u && x.following != u
  {
    Filter((x: Edge) => x.user != u && x.following != u, edges)
  }

  /** The recipes a user wrote: the ones deleted with the user. */
  function AuthoredBy(recipes: map<Id, Recipe>, u: Id): (ids: set<Id>)
    ensures forall r :: r in ids <==> r in recipes && recipes[r].author == u
  {
    set r | r in recipes && recipes[r].author == u
  }

  // ---- cascades ----

  /** Deleting a recipe: its ingredient rows, tag links, Favorites and ShoppingCart rows go. */
  function DeleteRecipeDb(d: Db, id: Id): Db {
    d.(recipes := d.recipes - {id},
       rows := RowsOutside(d.rows, {id}),
       tagLinks := (set l | l in d.tagLinks && l.recipe != id),
       favorites := PairsOutside(d.favorites, {}, {id}),
       carts := PairsOutside(d.carts, {}, {id}))
  }

  lemma DeleteRecipeKeepsConstraints(d: Db, id: Id)
    requires DbValid(d)
    ensures DbValid(DeleteRecipeDb(d, id))
  {
  }

  /** Deleting an ingredient: the rows that use it go. */
  function DeleteIngredientDb(d: Db, id: Id): Db {
    d.(ingredients := d.ingredients - {id}, rows := RowsWithoutIngredient(d.rows, id))
  }

  lemma DeleteIngredientKeepsConstraints(d: Db, id: Id)
    requires DbValid(d)
    ensures DbValid(DeleteIngredientDb(d, id))
  {
  }

  /** Deleting a tag: its links with recipes go. */
  function DeleteTagDb(d: Db, id: Id): Db {
    d.(tags := d.tags - {id}, tagLinks := (set l | l in d.tagLinks && l.tag != id))
  }

  lemma DeleteTagKeepsConstraints(d: Db, id: Id)
    requires DbValid(d)
    ensures DbValid(DeleteTagDb(d, id))
  {
  }

  /** Deleting a user: the user's recipes go (and with them their rows, links, Favorites and
      ShoppingCart rows), so do the user's own Favorites and ShoppingCart rows and every
      Follow edge in which the user is the follower or the author followed. */
  function DeleteUserDb(d: Db, u: Id): Db {
    var gone := AuthoredBy(d.recipes, u);
    d.(users := d.users - {u},
       recipes := map r | r in d.recipes && d.recipes[r].author != u :: d.recipes[r],
       rows := RowsOutside(d.rows, gone),
       tagLinks := (set l | l in d.tagLinks && l.recipe !in gone),
       favorites := PairsOutside(d.favorites, {u}, gone),
       carts := PairsOutside(d.carts, {u}, gone),
       follows := EdgesAvoiding(d.follows, u))
  }

  lemma DeleteUserKeepsConstraints(d: Db, u: Id)
    requires DbValid(d)
    ensures DbValid(DeleteUserDb(d, u))
  {
    var d' := DeleteUserDb(d, u);
    assert d'.recipes.Keys == d.recipes.Keys - AuthoredBy(d.recipes, u);
  }

  /** After a user is deleted nothing in the store refers to that user. */
  lemma DeleteUserLeavesNoReference(d: Db, u: Id)
    requires DbValid(d)
    ensures var d' := DeleteUserDb(d, u);
      && u !in d'.users
      && (forall r :: r in d'.recipes ==> d'.recipes[r].author != u)
      && (forall p :: p in d'.favorites ==> p.user != u)
      && (forall p :: p in d'.carts ==> p.user != u)
      && (forall e :: e in d'.follows ==> e.user != u && e.following != u)
  {
  }

  /** After a recipe is deleted no row, link, Favorites or ShoppingCart row refers to it,
      and every other row is kept. */
  lemma DeleteRecipeLeavesNoReference(d: Db, id: Id)
    ensures var d' := DeleteRecipeDb(d, id);
      && id !in d'.recipes
      && (forall r :: r in d'.rows <==> r in d.rows && r.recipe != id)
      && (forall l :: l in d'.tagLinks ==> l.recipe != id)
      && (forall p :: p in d'.favorites <==> p in d.favorites && p.recipe != id)
      && (forall p :: p in d'.carts <==> p in d.carts && p.recipe != id)
  {
  }

  // ---- inserts ----

  /** Why the database refuses an insert. */
  datatype InsertError = ValueTooLong | UniqueViolation | InvalidColor | InvalidSlug

  /** Saving a new user: the column lengths, then the unique username and email. */
  function InsertUserDb(d: Db, u: User): (r: Result<Db, InsertError>)
    ensures !UserFits(u) ==> r == Failure(ValueTooLong)
    ensures UserFits(u) ==>
      (r == Failure(UniqueViolation) <==>
        exists k :: k in d.users && (d.users[k].username == u.username || d.users[k].email == u.email))
    ensures r.Failure? <==>
      (!UserFits(u) || exists k :: k in d.users && (d.users[k].username == u.username || d.users[k].email == u.email))
    ensures r.Success? ==> r.value == d.(users := d.users[d.nextId := u], nextId := d.nextId + 1)
  {
    if !UserFits(u) then Failure(ValueTooLong)
    else if exists k :: k in d.users && (d.users[k].username == u.username || d.users[k].email == u.email) then
      Failure(UniqueViolation)
    else
      Success(d.(users := d.users[d.nextId := u], nextId := d.nextId + 1))
  }

  lemma InsertUserKeepsConstraints(d: Db, u: User)
    requires DbValid(d)
    ensures InsertUserDb(d, u).Success? ==> DbValid(InsertUserDb(d, u).value)
  {
  }

  /** Saving a new tag after model validation: the colour pattern and the slug format, then
      the unique name, colour and slug. */
  function InsertTagDb(d: Db, t: Tag): (r: Result<Db, InsertError>)
    ensures !MatchesColorPattern(t.color) ==> r == Failure(InvalidColor)
    ensures MatchesColorPattern(t.color) && !IsSlug(t.slug) ==> r == Failure(InvalidSlug)
    ensures MatchesColorPattern(t.color) && IsSlug(t.slug) ==>
      (r == Failure(UniqueViolation) <==>
        exists k :: k in d.tags && (d.tags[k].name == t.name || d.tags[k].color == t.color || d.tags[k].slug == t.slug))
    ensures r.Failure? <==>
      (!MatchesColorPattern(t.color) || !IsSlug(t.slug)
       || exists k :: k in d.tags && (d.tags[k].name == t.name || d.tags[k].color == t.color || d.tags[k].slug == t.slug))
    ensures r.Success? ==> r.value == d.(tags := d.tags[d.nextId := t], nextId := d.nextId + 1)
  {
    if !MatchesColorPattern(t.color) then Failure(InvalidColor)
    else if !IsSlug(t.slug) then Failure(InvalidSlug)
    else if exists k :: k in d.tags && (d.tags[k].name == t.name || d.tags[k].color == t.color || d.tags[k].slug == t.slug) then
      Failure(UniqueViolation)
    else
      Success(d.(tags := d.tags[d.nextId := t], nextId := d.nextId + 1))
  }

  lemma InsertTagKeepsConstraints(d: Db, t: Tag)
    requires DbValid(d)
    ensures InsertTagDb(d, t).Success? ==> DbValid(InsertTagDb(d, t).value)
  {
  }

  /** A slug with a space is refused whatever the store holds, and a plain one passes the
      format check. */
  lemma SlugWithSpaceRefused(d: Db)
    ensures InsertTagDb(d, Tag("x", "#abc", "a b")) == Failure(InvalidSlug)
    ensures IsSlug("breakfast_2-go")
  {
    assert IsHexColor("#abc");
    assert !IsSlugChar("a b"[1]);
  }

  /** Saving a new ingredient: the (name, measurement_unit) pair is unique. */
  function InsertIngredientDb(d: Db, ing: Ingredient): (r: Result<Db, InsertError>)
    ensures r.Failure? <==> exists k :: k in d.ingredients && d.ingredients[k] == ing
    ensures r.Success? ==> r.value == d.(ingredients := d.ingredients[d.nextId := ing], nextId := d.nextId + 1)
  {
    if exists k :: k in d.ingredients && d.ingredients[k] == ing then Failure(UniqueViolation)
    else Success(d.(ingredients := d.ingredients[d.nextId := ing], nextId := d.nextId + 1))
  }

  lemma InsertIngredientKeepsConstraints(d: Db, ing: Ingredient)
    requires DbValid(d)
    ensures InsertIngredientDb(d, ing).Success? ==> DbValid(InsertIngredientDb(d, ing).value)
  {
  }
}
