/** Following authors: the `subscribe` action of the user view set (backend/api/views.py),
    the follow serializer's `validate`, `Follow.clean` and the default ordering of Follow rows
    (backend/users/models.py), and the `recipes` field of a followed author with its
    `recipes_limit` query parameter (backend/api/serializers.py). */
module Follows {
  import opened Wrappers
  import opened Seqs
  import opened Text
  import opened Entities
  import opened RecipeStore
  import opened Http

  datatype FollowError = AlreadyFollowing | SelfFollow

  /** `Follow.clean`: an edge from a user to that same user is refused. */
  function Clean(e: Edge): (r: Option<FollowError>)
    ensures r.Some? <==> e.user == e.following
    ensures r.Some? ==> r.value == SelfFollow
  {
    if e.user == e.following then Some(SelfFollow) else None
  }

  /** The follow serializer's `validate`: an existing edge is refused first, then an edge to
      oneself. */
  function ValidateFollow(edges: seq<Edge>, u: Id, t: Id): (r: Result<Edge, FollowError>)
    ensures r == Failure(AlreadyFollowing) <==> Edge(u, t) in edges
    ensures r == Failure(SelfFollow) <==> Edge(u, t) !in edges && u == t
    ensures r.Success? <==> Edge(u, t) !in edges && Clean(Edge(u, t)).None?
    ensures r.Success? ==> r.value == Edge(u, t)
  {
    if Edge(u, t) in edges then Failure(AlreadyFollowing)
    else if u == t then Failure(SelfFollow)
    else Success(Edge(u, t))
  }

  /** A valid store holds no edge from a user to themselves, so on a valid store the order of
      the two checks does not change which requests pass. */
  lemma SelfEdgeNeverStored(d: Db, u: Id)
    requires DbValid(d)
    ensures ValidateFollow(d.follows, u, u) == Failure(SelfFollow)
  {
  }

  function FollowDb(d: Db, u: Id, t: Id): Db {
    d.(follows := d.follows + [Edge(u, t)])
  }

  /** The edges that are not (u, t). */
  function EdgesBesides(edges: seq<Edge>, u: Id, t: Id): (r: seq<Edge>)
    ensures forall x :: x in r <==> x in edges && x != Edge(u, t)
    ensures |r| < |edges| <==> Edge(u, t) in edges
  {
    Filter((x: Edge) => x != Edge(u, t), edges)
  }

  /** `request.user.follower.filter(following=target).delete()`. */
  function UnfollowDb(d: Db, u: Id, t: Id): Db {
    d.(follows := EdgesBesides(d.follows, u, t))
  }

  /** An edge that passed validation between two existing users keeps the Follow table free
      of self-follows. */
  lemma FollowKeepsConstraints(d: Db, u: Id, t: Id)
    requires DbValid(d) && u in d.users && t in d.users
    requires ValidateFollow(d.follows, u, t).Success?
    ensures DbValid(FollowDb(d, u, t))
  {
  }

  /** The Follow table declares no unique constraint, but the serializer refuses an existing
      edge, so following through the API never repeats one: a table free of repeats stays
      free of them. */
  lemma FollowKeepsEdgesUnique(d: Db, u: Id, t: Id)
    requires NoDup(d.follows)
    requires ValidateFollow(d.follows, u, t).Success?
    ensures NoDup(FollowDb(d, u, t).follows)
  {
    NoDupAppend(d.follows, Edge(u, t));
  }

  lemma UnfollowKeepsConstraints(d: Db, u: Id, t: Id)
    requires DbValid(d)
    ensures DbValid(UnfollowDb(d, u, t))
  {
  }

  /** Following and then unfollowing restores the Follow table exactly. */
  lemma FollowThenUnfollow(d: Db, u: Id, t: Id)
    requires ValidateFollow(d.follows, u, t).Success?
    ensures UnfollowDb(FollowDb(d, u, t), u, t) == d
  {
    var e := Edge(u, t);
    FilterAppend((x: Edge) => x != e, d.follows, [e]);
    FilterAll((x: Edge) => x != e, d.follows);
    assert Filter((x: Edge) => x != e, [e]) == [];
  }

  /** POST `subscribe`: 404 for an unknown author, 400 when validation refuses the edge, and
      otherwise 201 with exactly that edge appended. */
  method Subscribe(st: Store, u: Id, t: Id) returns (status: Status)
    requires st.Valid() && u in st.users
    modifies st
    ensures st.Valid()
    ensures status == NotFound404 <==> t !in old(st.users)
    ensures status == BadRequest400 <==> t in old(st.users) && ValidateFollow(old(st.follows), u, t).Failure?
    ensures status == Created201 <==> t in old(st.users) && ValidateFollow(old(st.follows), u, t).Success?
    ensures status == Created201 ==> st.Contents() == FollowDb(old(st.Contents()), u, t)
    ensures status != Created201 ==> st.Contents() == old(st.Contents())
  {
    if t !in st.users {
      return NotFound404;
    }
    var v := ValidateFollow(st.follows, u, t);
    if v.Failure? {
      return BadRequest400;
    }
    FollowKeepsConstraints(st.Contents(), u, t);
    st.follows := st.follows + [v.value];
    status := Created201;
  }

  /** DELETE `subscribe`: 404 for an unknown author; otherwise the edge (requester, author)
      is removed, 204 if it was there and 400 if not. No other edge changes. */
  method Unsubscribe(st: Store, u: Id, t: Id) returns (status: Status)
    requires st.Valid()
    modifies st
    ensures st.Valid()
    ensures status == NotFound404 <==> t !in old(st.users)
    ensures status == NoContent204 <==> t in old(st.users) && Edge(u, t) in old(st.follows)
    ensures status != NotFound404 ==> st.Contents() == UnfollowDb(old(st.Contents()), u, t)
    ensures status == NotFound404 ==> st.Contents() == old(st.Contents())
    ensures status in {NotFound404, NoContent204, BadRequest400}
  {
    if t !in st.users {
      return NotFound404;
    }
    UnfollowKeepsConstraints(st.Contents(), u, t);
    var before := |st.follows|;
    st.follows := EdgesBesides(st.follows, u, t);
    status := if |st.follows| < before then NoContent204 else BadRequest400;
  }

  /** Follow rows ordered by follower (`ordering = ('user',)`), built by insertion. */
  function ByUser(edges: seq<Edge>): (r: seq<Edge>)
    ensures |r| == |edges|
  {
    if edges == [] then [] else InsertByUser(ByUser(edges[..|edges| - 1]), edges[|edges| - 1])
  }

  /** Places `e` after every row whose follower is not greater. */
  function InsertByUser(sorted: seq<Edge>, e: Edge): (r: seq<Edge>)
    ensures |r| == |sorted| + 1
    ensures multiset(r) == multiset(sorted) + multiset{e}
  {
    if sorted == [] || sorted[|sorted| - 1].user <= e.user then sorted + [e]
    else
      assert sorted == sorted[..|sorted| - 1] + [sorted[|sorted| - 1]];
      InsertByUser(sorted[..|sorted| - 1], e) + [sorted[|sorted| - 1]]
  }

  predicate SortedByUser(s: seq<Edge>) {
    forall i, j :: 0 <= i < j < |s| ==> s[i].user <= s[j].user
  }

  lemma {:induction false} InsertKeepsSorted(sorted: seq<Edge>, e: Edge)
    requires SortedByUser(sorted)
    ensures SortedByUser(InsertByUser(sorted, e))
    ensures forall x :: x in InsertByUser(sorted, e) ==> x in sorted || x == e
  {
    if sorted == [] || sorted[|sorted| - 1].user <= e.user {
    } else {
      var init := sorted[..|sorted| - 1];
      InsertKeepsSorted(init, e);
      var r := InsertByUser(init, e);
      assert forall x :: x in r ==> x.user <= sorted[|sorted| - 1].user;
    }
  }

  /** The ordering is a rearrangement of the table, sorted by follower. */
  lemma {:induction false} ByUserSortsAndPermutes(edges: seq<Edge>)
    ensures SortedByUser(ByUser(edges))
    ensures multiset(ByUser(edges)) == multiset(edges)
  {
    if edges != [] {
      var init := edges[..|edges| - 1];
      ByUserSortsAndPermutes(init);
      InsertKeepsSorted(ByUser(init), edges[|edges| - 1]);
      assert edges == init + [edges[|edges| - 1]];
    }
  }

  /** Who asks for the `recipes` field of a followed author. */
  datatype Requester = NoRequest | Anonymous | SignedIn(id: Id)

  /** Why the field cannot be produced: `int()` refuses the limit, or the queryset refuses a
      negative slice bound. */
  datatype LimitError = NotANumber | NegativeLimit

  /** `FollowSerializer.get_recipes` over the author's recipes in queryset order. */
  function GetRecipes<T>(who: Requester, recipes: seq<T>, limit: Option<string>): (r: Result<Option<seq<T>>, LimitError>)
    ensures !who.SignedIn? ==> r == Success(None)
    ensures who.SignedIn? && limit.None? ==> r == Success(Some(recipes))
    ensures r == Failure(NotANumber) <==> who.SignedIn? && limit.Some? && ParseInt(limit.value).None?
    ensures r == Failure(NegativeLimit) <==>
      who.SignedIn? && limit.Some? && ParseInt(limit.value).Some? && ParseInt(limit.value).value < 0
    ensures r.Success? && r.value.Some? ==> r.value.value <= recipes
  {
    if !who.SignedIn? then Success(None)
    else if limit.None? then Success(Some(recipes))
    else
      match ParseInt(limit.value)
      case None => Failure(NotANumber)
      case Some(n) =>
        if n < 0 then Failure(NegativeLimit)
        else if n < |recipes| then Success(Some(recipes[..n]))
        else Success(Some(recipes))
  }

  /** A signed-in requester who sends the limit `n` (written in decimal, n >= 0) gets the first
      min(n, len) recipes. */
  lemma GetRecipesLimit<T>(u: Id, recipes: seq<T>, n: nat)
    ensures var r := GetRecipes(SignedIn(u), recipes, Some(IntToString(n)));
      && r.Success? && r.value.Some?
      && |r.value.value| == (if n < |recipes| then n else |recipes|)
      && r.value.value == recipes[..|r.value.value|]
  {
    IntToStringRoundTrip(n);
  }
}
