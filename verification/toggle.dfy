/** The `favorite` and `shopping_cart` actions of the recipe view set
    (backend/api/views.py): POST adds the pair (requesting user, recipe) to the collection,
    DELETE takes the requester's rows out of it. Both collections behave alike, so one
    `Collection` parameter covers the two. */
module Toggle {
  import opened Wrappers
  import opened Seqs
  import opened Entities
  import opened RecipeStore
  import opened Http

  /** What the store holds after a request, and the answer. */
  datatype Outcome = Outcome(status: Status, db: Db)

  datatype PairError = UnknownRecipe | AlreadyAdded

  /** The serializer of a pair: the `recipe` field must name an existing recipe, then
      `validate` refuses a pair the collection already holds. */
  function ValidatePair(d: Db, c: Collection, u: Id, r: Id): (res: Result<Pair, PairError>)
    ensures res.Success? <==> r in d.recipes && Pair(u, r) !in d.PairsIn(c)
    ensures res.Success? ==> res.value == Pair(u, r)
    ensures res == Failure(UnknownRecipe) <==> r !in d.recipes
  {
    if r !in d.recipes then Failure(UnknownRecipe)
    else if Pair(u, r) in d.PairsIn(c) then Failure(AlreadyAdded)
    else Success(Pair(u, r))
  }

  /** `serializer.save()`: the pair is appended to its collection. */
  function AddPairDb(d: Db, c: Collection, u: Id, r: Id): Db {
    d.WithPairs(c, d.PairsIn(c) + [Pair(u, r)])
  }

  /** A pair that passed validation keeps the collection free of repeats. */
  lemma AddPairKeepsConstraints(d: Db, c: Collection, u: Id, r: Id)
    requires DbValid(d) && u in d.users
    requires ValidatePair(d, c, u, r).Success?
    ensures DbValid(AddPairDb(d, c, u, r))
  {
    NoDupAppend(d.PairsIn(c), Pair(u, r));
  }

  /** POST: 201 and exactly one new pair when validation passes, 400 and no change
      otherwise. */
  method Add(st: Store, c: Collection, u: Id, r: Id) returns (status: Status)
    requires st.Valid() && u in st.users
    modifies st
    ensures st.Valid()
    ensures status == Created201 <==> r in old(st.recipes) && Pair(u, r) !in old(st.Contents()).PairsIn(c)
    ensures status != Created201 ==> status == BadRequest400 && st.Contents() == old(st.Contents())
    ensures status == Created201 ==> st.Contents() == AddPairDb(old(st.Contents()), c, u, r)
  {
    var v := ValidatePair(st.Contents(), c, u, r);
    if v.Failure? {
      return BadRequest400;
    }
    AddPairKeepsConstraints(st.Contents(), c, u, r);
    match c {
      case Favorites => st.favorites := st.favorites + [v.value];
      case ShoppingCart => st.carts := st.carts + [v.value];
    }
    status := Created201;
  }

  /** The rows of a collection that name recipe `r`, whoever holds them. */
  function RecipePairs(pairs: seq<Pair>, r: Id): (rs: seq<Pair>)
    ensures forall x :: x in rs <==> x in pairs && x.recipe == r
  {
    Filter((x: Pair) => x.recipe == r, pairs)
  }

  /** The rows of a collection held by user `v`, in table order. */
  function UserPairs(pairs: seq<Pair>, v: Id): (vs: seq<Pair>)
    ensures forall x :: x in vs <==> x in pairs && x.user == v
  {
    Filter((x: Pair) => x.user == v, pairs)
  }

  /** DELETE as the views write it: `get_object_or_404` looks for THE row of recipe `r` by
      any user (none: 404, several: 500), then every row of the requester is deleted, 204 if
      there was one and 400 otherwise. */
  function DeleteAsWritten(d: Db, c: Collection, u: Id, r: Id): Outcome {
    var pairs := d.PairsIn(c);
    var n := |RecipePairs(pairs, r)|;
    if n == 0 then Outcome(NotFound404, d)
    else if n > 1 then Outcome(ServerError500, d)
    else
      var kept := PairsOutside(pairs, {u}, {});
      Outcome(if |kept| < |pairs| then NoContent204 else BadRequest400, d.WithPairs(c, kept))
  }

  /** Deleting a user's rows leaves every other user's rows as they were. */
  lemma {:induction false} UserPairsOutside(pairs: seq<Pair>, u: Id, v: Id)
    requires u != v
    ensures UserPairs(PairsOutside(pairs, {u}, {}), v) == UserPairs(pairs, v)
  {
    if pairs != [] {
      UserPairsOutside(pairs[1..], u, v);
    }
  }

  /** The lookup of the as-written DELETE: 404 iff no row names the recipe, 500 iff several
      do, and in both cases nothing changes. */
  lemma DeleteAsWrittenLookup(d: Db, c: Collection, u: Id, r: Id)
    ensures var o := DeleteAsWritten(d, c, u, r);
      && (o.status == NotFound404 <==> (forall x :: x in d.PairsIn(c) ==> x.recipe != r))
      && (o.status == ServerError500 <==> |RecipePairs(d.PairsIn(c), r)| > 1)
      && (o.status in {NotFound404, ServerError500} ==> o.db == d)
  {
    var rs := RecipePairs(d.PairsIn(c), r);
    if rs != [] {
      assert rs[0] in rs;
    }
  }

  /** Past the lookup, the as-written DELETE leaves the requester no row at all in the
      collection, whatever recipe it named; every other user keeps exactly their rows, and
      the answer is 204 iff the requester held some row, of any recipe. */
  lemma DeleteAsWrittenWipes(d: Db, c: Collection, u: Id, r: Id, v: Id)
    requires |RecipePairs(d.PairsIn(c), r)| == 1
    ensures var o := DeleteAsWritten(d, c, u, r);
      && o.db == d.WithPairs(c, o.db.PairsIn(c))
      && UserPairs(o.db.PairsIn(c), u) == []
      && (v != u ==> UserPairs(o.db.PairsIn(c), v) == UserPairs(d.PairsIn(c), v))
      && (o.status == NoContent204 <==> exists x :: x in d.PairsIn(c) && x.user == u)
      && (o.status == BadRequest400 <==> forall x :: x in d.PairsIn(c) ==> x.user != u)
  {
    var pairs := d.PairsIn(c);
    var kept := PairsOutside(pairs, {u}, {});
    FilterNone((x: Pair) => x.user == u, kept);
    if v != u {
      UserPairsOutside(pairs, u, v);
    }
  }

  /** The as-written DELETE keeps every constraint of the store. */
  lemma DeleteAsWrittenKeepsConstraints(d: Db, c: Collection, u: Id, r: Id)
    requires DbValid(d)
    ensures DbValid(DeleteAsWritten(d, c, u, r).db)
  {
  }

  /** DELETE, as the views do it. */
  method Remove(st: Store, c: Collection, u: Id, r: Id) returns (status: Status)
    requires st.Valid()
    modifies st
    ensures st.Valid()
    ensures Outcome(status, st.Contents()) == DeleteAsWritten(old(st.Contents()), c, u, r)
  {
    var pairs := st.Contents().PairsIn(c);
    var n := |RecipePairs(pairs, r)|;
    if n == 0 {
      return NotFound404;
    }
    if n > 1 {
      return ServerError500;
    }
    DeleteAsWrittenKeepsConstraints(st.Contents(), c, u, r);
    var kept := PairsOutside(pairs, {u}, {});
    match c {
      case Favorites => st.favorites := kept;
      case ShoppingCart => st.carts := kept;
    }
    status := if |kept| < |pairs| then NoContent204 else BadRequest400;
  }

  /** A small store: recipes 10 and 20 by user 1; users 1 and 2. */
  function Sample(favorites: seq<Pair>): Db {
    Db(map[1 := User("a", "a@x", "", ""), 2 := User("b", "b@x", "", "")], map[], map[],
       map[10 := Recipe(1, "soup", "", "", 5), 20 := Recipe(1, "tea", "", "", 5)],
       21, [], {}, favorites, [], [])
  }

  /** Removing recipe 10 from user 1's favorites also removes their recipe 20. */
  lemma AsWrittenDropsOtherRecipes()
    ensures DeleteAsWritten(Sample([Pair(1, 10), Pair(1, 20)]), Favorites, 1, 10)
         == Outcome(NoContent204, Sample([]))
  {
    var pairs := [Pair(1, 10), Pair(1, 20)];
    assert RecipePairs(pairs, 10) == [Pair(1, 10)];
    assert PairsOutside(pairs, {1}, {}) == [];
  }

  /** Once a second user favorites recipe 10, neither can take it out of their favorites:
      the lookup of the single row of recipe 10 fails. */
  lemma AsWrittenFailsOnSharedRecipe()
    ensures DeleteAsWritten(Sample([Pair(1, 10), Pair(2, 10)]), Favorites, 1, 10).status == ServerError500
  {
    assert RecipePairs([Pair(1, 10), Pair(2, 10)], 10) == [Pair(1, 10), Pair(2, 10)];
  }

  /** User 1 asks to unfavorite recipe 10, which only user 2 favorited: the answer is 204
      and user 1 loses recipe 20. */
  lemma AsWrittenDeletesWhatWasNotAsked()
    ensures DeleteAsWritten(Sample([Pair(2, 10), Pair(1, 20)]), Favorites, 1, 10)
         == Outcome(NoContent204, Sample([Pair(2, 10)]))
  {
    var pairs := [Pair(2, 10), Pair(1, 20)];
    assert RecipePairs(pairs, 10) == [Pair(2, 10)];
    assert PairsOutside(pairs, {1}, {}) == [Pair(2, 10)];
  }

  /** The collection without one pair. */
  function Without(pairs: seq<Pair>, p: Pair): (r: seq<Pair>)
    ensures forall x :: x in r <==> x in pairs && x != p
    ensures NoDup(pairs) ==> NoDup(r)
  {
    var r := Filter((x: Pair) => x != p, pairs);
    assert NoDup(pairs) ==> NoDup(r) by {
      if NoDup(pairs) { FilterNoDup((x: Pair) => x != p, pairs); }
    }
    r
  }

  /** DELETE as evidently intended: 404 for an unknown recipe, otherwise exactly the pair
      (requester, recipe) is removed, 204 if it was there and 400 if not. */
  function DeleteIntended(d: Db, c: Collection, u: Id, r: Id): Outcome {
    if r !in d.recipes then Outcome(NotFound404, d)
    else if Pair(u, r) in d.PairsIn(c) then
      Outcome(NoContent204, d.WithPairs(c, Without(d.PairsIn(c), Pair(u, r))))
    else Outcome(BadRequest400, d)
  }

  /** The intended DELETE takes out the one pair asked for and nothing else, and answers 204
      exactly when that pair was there. */
  lemma DeleteIntendedEffect(d: Db, c: Collection, u: Id, r: Id)
    requires DbValid(d)
    ensures var o := DeleteIntended(d, c, u, r);
      && DbValid(o.db)
      && (o.status == NoContent204 <==> Pair(u, r) in d.PairsIn(c))
      && (o.status == NotFound404 <==> r !in d.recipes)
      && (forall x :: x in o.db.PairsIn(c) <==> x in d.PairsIn(c) && x != Pair(u, r))
      && o.db == d.WithPairs(c, o.db.PairsIn(c))
  {
  }

  /** Adding a pair and deleting it again restores the store exactly, with 204. */
  lemma AddThenDeleteIntended(d: Db, c: Collection, u: Id, r: Id)
    requires PairsConstrained(d.PairsIn(c), d.users.Keys, d.recipes.Keys)
    requires ValidatePair(d, c, u, r).Success?
    ensures DeleteIntended(AddPairDb(d, c, u, r), c, u, r) == Outcome(NoContent204, d)
  {
    var p := Pair(u, r);
    var pairs := d.PairsIn(c);
    FilterAppend((x: Pair) => x != p, pairs, [p]);
    FilterAll((x: Pair) => x != p, pairs);
    assert Filter((x: Pair) => x != p, [p]) == [];
    assert Without(pairs + [p], p) == pairs;
    assert d.WithPairs(c, pairs) == d;
  }

  /** On the examples above, the intended DELETE only removes the pair asked for. */
  lemma IntendedOnSamples()
    ensures DeleteIntended(Sample([Pair(1, 10), Pair(1, 20)]), Favorites, 1, 10)
         == Outcome(NoContent204, Sample([Pair(1, 20)]))
    ensures DeleteIntended(Sample([Pair(1, 10), Pair(2, 10)]), Favorites, 1, 10)
         == Outcome(NoContent204, Sample([Pair(2, 10)]))
    ensures DeleteIntended(Sample([Pair(2, 10), Pair(1, 20)]), Favorites, 1, 10).status == BadRequest400
  {
    assert Without([Pair(1, 10), Pair(1, 20)], Pair(1, 10)) == [Pair(1, 20)];
    assert Without([Pair(1, 10), Pair(2, 10)], Pair(1, 10)) == [Pair(2, 10)];
  }
}
