/** The rows of the recipe store (backend/recipes/models.py, backend/users/models.py) and
    the constraints the store keeps over them, stated on plain values. */
module Entities {
  import opened Seqs

  /** Primary keys. */
  type Id = int

  // ---- users/models.py ----

  const UsernameMaxLength := 150
  const EmailMaxLength := 254
  const PersonNameMaxLength := 150

  datatype User = User(username: string, email: string, firstName: string, lastName: string)

  predicate UserFits(u: User) {
    && |u.username| <= UsernameMaxLength
    && |u.email| <= EmailMaxLength
    && |u.firstName| <= PersonNameMaxLength
    && |u.lastName| <= PersonNameMaxLength
  }

  /** Follow(user, following): `user` subscribes to the author `following`. */
  datatype Edge = Edge(user: Id, following: Id)

  // ---- recipes/models.py ----

  datatype Tag = Tag(name: string, color: string, slug: string)

  predicate IsHexDigit(ch: char) {
    ('0' <= ch <= '9') || ('a' <= ch <= 'f') || ('A' <= ch <= 'F')
  }

  /** `#` followed by exactly three or exactly six hex digits. */
  predicate IsHexColor(s: string) {
    && (|s| == 4 || |s| == 7)
    && s[0] == '#'
    && forall i :: 1 <= i < |s| ==> IsHexDigit(s[i])
  }

  /** What the tag colour validator accepts: the pattern is anchored with `$`, which in
      Python also matches just before a final newline. */
  predicate MatchesColorPattern(s: string) {
    IsHexColor(s) || (|s| >= 1 && s[|s| - 1] == '\n' && IsHexColor(s[..|s| - 1]))
  }

  predicate IsSlugChar(ch: char) {
    'a' <= ch <= 'z' || 'A' <= ch <= 'Z' || '0' <= ch <= '9' || ch == '-' || ch == '_'
  }

  /** What the validator of a slug field accepts: one or more ASCII letters, digits, hyphens
      and underscores. Its pattern ends in `\Z`, so no final newline is let through. */
  predicate IsSlug(s: string) {
    |s| >= 1 && forall i :: 0 <= i < |s| ==> IsSlugChar(s[i])
  }

  lemma ColorPatternWithoutNewline(s: string)
    requires '\n' !in s
    ensures MatchesColorPattern(s) <==> IsHexColor(s)
  {
    if |s| >= 1 {
      assert s[|s| - 1] in s;
    }
  }

  datatype Ingredient = Ingredient(name: string, measurementUnit: string)

  const CookingTimeMin := 1
  const CookingTimeMax := 100

  datatype Recipe = Recipe(author: Id, name: string, text: string, image: string, cookingTime: int)

  const AmountMin := 1
  const AmountMax := 1000

  /** IngredientRecipe: "this recipe needs `amount` of this ingredient". The table has no
      unique constraint, so a recipe may hold several rows for one ingredient. */
  datatype IngredientRow = IngredientRow(recipe: Id, ingredient: Id, amount: int)

  /** A row of the many-to-many table behind `Recipe.tags`. */
  datatype TagLink = TagLink(recipe: Id, tag: Id)

  /** A Favorites or a ShoppingCart row: `user` keeps `recipe` in that collection. */
  datatype Pair = Pair(user: Id, recipe: Id)

  // ---- constraints over whole tables ----

  ghost predicate UsersConstrained(users: map<Id, User>) {
    && (forall a :: a in users ==> UserFits(users[a]))
    && (forall a, b :: a in users && b in users && a != b ==>
          users[a].username != users[b].username && users[a].email != users[b].email)
  }

  ghost predicate TagsConstrained(tags: map<Id, Tag>) {
    && (forall a :: a in tags ==> MatchesColorPattern(tags[a].color) && IsSlug(tags[a].slug))
    && (forall a, b :: a in tags && b in tags && a != b ==>
          && tags[a].name != tags[b].name
          && tags[a].color != tags[b].color
          && tags[a].slug != tags[b].slug)
  }

  ghost predicate IngredientsConstrained(ingredients: map<Id, Ingredient>) {
    forall a, b :: a in ingredients && b in ingredients && a != b ==> ingredients[a] != ingredients[b]
  }

  ghost predicate RecipesConstrained(recipes: map<Id, Recipe>, users: set<Id>) {
    forall r :: r in recipes ==>
      recipes[r].author in users && CookingTimeMin <= recipes[r].cookingTime <= CookingTimeMax
  }

  ghost predicate RowsConstrained(rows: seq<IngredientRow>, recipes: set<Id>, ingredients: set<Id>) {
    forall r :: r in rows ==>
      r.recipe in recipes && r.ingredient in ingredients && AmountMin <= r.amount <= AmountMax
  }

  ghost predicate LinksConstrained(links: set<TagLink>, recipes: set<Id>, tags: set<Id>) {
    forall l :: l in links ==> l.recipe in recipes && l.tag in tags
  }

  /** Foreign keys hold and (recipe, user) is unique. */
  ghost predicate PairsConstrained(pairs: seq<Pair>, users: set<Id>, recipes: set<Id>) {
    && NoDup(pairs)
    && forall p :: p in pairs ==> p.user in users && p.recipe in recipes
  }

  /** Foreign keys hold and nobody follows themselves. The Follow model declares no unique
      constraint, so an edge may be stored more than once. */
  ghost predicate EdgesConstrained(edges: seq<Edge>, users: set<Id>) {
    forall e :: e in edges ==> e.user in users && e.following in users && e.user != e.following
  }
}
