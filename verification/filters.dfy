/** The two boolean filters of the recipe list (backend/api/filters.py): `is_favorited` and
    `is_in_shopping_cart` keep the recipes of the queryset that the requester has favorited or
    put in the cart. The queryset is a sequence of recipe keys. */
module RecipeFilters {
  import opened Wrappers
  import opened Seqs
  import opened Entities
  import opened RecipeStore

  /** `n` copies of recipe `y`. */
  function Copies(y: Id, n: nat): (s: seq<Id>)
    ensures forall x :: x in s <==> n > 0 && x == y
    ensures forall x :: multiset(s)[x] == if x == y then n else 0
  {
    if n == 0 then [] else Copies(y, n - 1) + [y]
  }

  /** `queryset.filter(<collection>__user=u)`: the join repeats a recipe once per row (u,
      recipe) of the collection and drops the recipes without one. */
  function Joined(recipes: seq<Id>, pairs: seq<Pair>, u: Id): (r: seq<Id>)
    ensures forall x :: x in r <==> x in recipes && Pair(u, x) in pairs
  {
    if recipes == [] then []
    else
      assert forall x :: Pair(u, x) in pairs <==> multiset(pairs)[Pair(u, x)] > 0;
      Copies(recipes[0], multiset(pairs)[Pair(u, recipes[0])]) + Joined(recipes[1..], pairs, u)
  }

  /** When the user holds a recipe at most once in the collection, the join lists each held
      recipe as often as the queryset does, and no other. */
  lemma {:induction false} JoinedMultiplicity(recipes: seq<Id>, pairs: seq<Pair>, u: Id, x: Id)
    requires NoDup(pairs)
    ensures multiset(Joined(recipes, pairs, u))[x] == if Pair(u, x) in pairs then multiset(recipes)[x] else 0
  {
    if recipes != [] {
      var y := recipes[0];
      JoinedMultiplicity(recipes[1..], pairs, u, x);
      NoDupCount(pairs, Pair(u, y));
      var head := Copies(y, multiset(pairs)[Pair(u, y)]);
      assert multiset(Joined(recipes, pairs, u)) == multiset(head) + multiset(Joined(recipes[1..], pairs, u));
      assert recipes == [y] + recipes[1..];
      assert multiset(recipes)[x] == (if x == y then 1 else 0) + multiset(recipes[1..])[x];
    }
  }

  /** The body shared by both filter methods: the join when the value is true and the user
      is signed in, the queryset unchanged otherwise. */
  function CollectionFilter(recipes: seq<Id>, pairs: seq<Pair>, user: Option<Id>, value: bool): (r: seq<Id>)
    ensures !value || user.None? ==> r == recipes
    ensures forall x :: x in r ==> x in recipes
  {
    if value && user.Some? then Joined(recipes, pairs, user.value) else recipes
  }

  /** `favorited_method`. */
  function FavoritedMethod(d: Db, recipes: seq<Id>, user: Option<Id>, value: bool): (r: seq<Id>)
    ensures forall x :: x in r ==> x in recipes
  {
    CollectionFilter(recipes, d.favorites, user, value)
  }

  /** `in_shopping_cart_method`. */
  function InShoppingCartMethod(d: Db, recipes: seq<Id>, user: Option<Id>, value: bool): (r: seq<Id>)
    ensures forall x :: x in r ==> x in recipes
  {
    CollectionFilter(recipes, d.carts, user, value)
  }

  /** With the value true and a signed-in user, and the collection free of repeats as the
      store keeps it, the filter keeps exactly the recipes the user holds in the collection,
      each as often as the queryset lists it, and adds nothing. */
  lemma CollectionFilterExact(recipes: seq<Id>, pairs: seq<Pair>, u: Id, x: Id)
    requires NoDup(pairs)
    ensures var r := CollectionFilter(recipes, pairs, Some(u), true);
      && (x in r <==> x in recipes && Pair(u, x) in pairs)
      && multiset(r)[x] == (if Pair(u, x) in pairs then multiset(recipes)[x] else 0)
      && multiset(r) <= multiset(recipes)
  {
    forall y ensures multiset(Joined(recipes, pairs, u))[y] == (if Pair(u, y) in pairs then multiset(recipes)[y] else 0) {
      JoinedMultiplicity(recipes, pairs, u, y);
    }
    assert forall y :: multiset(Joined(recipes, pairs, u))[y] <= multiset(recipes)[y];
  }

  /** On a valid store, `is_favorited=true` keeps exactly the requester's favorites among the
      recipes, and `is_in_shopping_cart=true` exactly the recipes in their cart. */
  lemma FilterMethodsExact(d: Db, recipes: seq<Id>, u: Id, x: Id)
    requires DbValid(d)
    ensures var f := FavoritedMethod(d, recipes, Some(u), true);
      && (x in f <==> x in recipes && Pair(u, x) in d.favorites)
      && multiset(f)[x] == (if Pair(u, x) in d.favorites then multiset(recipes)[x] else 0)
    ensures var c := InShoppingCartMethod(d, recipes, Some(u), true);
      && (x in c <==> x in recipes && Pair(u, x) in d.carts)
      && multiset(c)[x] == (if Pair(u, x) in d.carts then multiset(recipes)[x] else 0)
  {
    CollectionFilterExact(recipes, d.favorites, u, x);
    CollectionFilterExact(recipes, d.carts, u, x);
  }

  /** With the value false, or an anonymous user, both filters return the queryset as it
      came. */
  lemma FilterMethodsPassThrough(d: Db, recipes: seq<Id>, user: Option<Id>, value: bool)
    requires !value || user.None?
    ensures FavoritedMethod(d, recipes, user, value) == recipes
    ensures InShoppingCartMethod(d, recipes, user, value) == recipes
  {
  }
}
