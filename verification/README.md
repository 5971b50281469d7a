# Foodgram recipe store — a verified model

Foodgram is a recipe-sharing backend. Users write recipes from tags and ingredients with
amounts. They mark recipes as favorites, put them in a shopping cart, download the summed
shopping list of their cart, and follow other authors. This project models the store's
write-side rules and its one read-side fold, and proves what they promise:

- **Recipe write validation** (`validation.dfy`): the bounds on `amount` and `cooking_time`,
  the required fields, and the duplicate check over raw request entries.
- **Recipe create/update** (`recipe_writer.dfy`): replace semantics for a recipe's ingredient
  rows and tag set, inside one transaction. Validation happens first, and a write either
  completes or leaves every table as it was.
- **Favorite/cart toggle** (`toggle.dfy`) and **follow/unfollow** (`follows.dfy`): the
  duplicate-pair and self-follow checks, the state changes and the HTTP statuses. The
  follows module also covers the `recipes_limit` slicing of a followed author's recipes.
- **The shopping list** (`shopping_list.dfy`): the join of recipe rows with the requester's
  cart, grouping by (ingredient name, unit) with summed amounts, and the text file.
- **Permissions and list filters** (`permissions.dfy`, `filters.dfy`).
- **The store** (`entities.dfy`, `store.dfy`): the tables, their constraints (uniqueness,
  bounds, tag colour format, foreign keys) and the cascades on delete.

The store is the class `RecipeStore.Store`, whose fields are the tables. The operations that
change it (`Create`, `Update`, `Toggle.Add`, `Toggle.Remove`, `Follows.Subscribe`,
`Follows.Unsubscribe`) are methods that modify it. Each states its new state through a
function on `Db`, the value of all the tables at once, and keeps `Valid()`: the
uniqueness constraints, foreign keys, bounds and tag colour and slug formats of the two
models files (column maximum lengths apart, see below). The declarative parts of the models (cascades, inserts
by the admin site) are functions on `Db`, each with a lemma showing it keeps every
constraint.

Where the code differs from what it is evidently meant to do, the model follows the code:

- The duplicate check compares whole raw entries, not ingredient keys. The same ingredient
  twice with two amounts passes.
- The shopping list has no ordering. The model states its lines up to permutation rather
  than sorted by ingredient key.
- Each line of the file starts with a space: `" • name: amount unit"`.
- A repeated follow, a repeated favorite and an unfollow of a missing edge all answer 400,
  not a distinct conflict or not-found status.
- Removing a pair the requester does not hold answers 404 only when nobody holds the
  recipe. When exactly one user (any user) holds it, all of the requester's rows in that
  collection are wiped. The answer is 204 if they held any and 400 if they held none. Two or
  more holders give 500. See Findings.
- Every update is a PATCH, because the object permission refuses PUT. A PATCH without
  `ingredients` or `tags` passes validation. The update then deletes the recipe's rows and
  fails on the missing key, and the transaction puts the rows back. `Update` returns
  `MissingKey` with the store unchanged.

## Model

| member | source | states |
|---|---|---|
| RecipeValidation.CheckBounds | backend/api/serializers.py:43-55 | a bounded integer is accepted, and returned unchanged, iff it lies in both the model's window and the configured one; below the window is `BelowMin`, above it is `AboveMax` |
| RecipeValidation.ValidateAmount | backend/api/serializers.py:43-55 | an accepted amount lies in [1, 1000] and the configured bounds and is returned unchanged, and every such amount is accepted |
| RecipeValidation.ValidateCookingTime | backend/api/serializers.py:314-326 | an accepted cooking time lies in [1, 100] and the configured bounds and is returned unchanged, and every such time is accepted |
| RecipeValidation.DefaultAmountWindow | backend/recipes/models.py:90-92 | with the bounds at the model's literals, amounts below 1 give BelowMin, above 1000 give AboveMax, others pass unchanged |
| RecipeValidation.DefaultCookingTimeWindow | backend/recipes/models.py:71-73 | with the bounds at the model's literals, cooking times below 1 give BelowMin, above 100 give AboveMax, others pass unchanged |
| RecipeValidation.CheckForADuplicate | backend/api/serializers.py:276-290 | the flag loop accepts a list iff its length equals the threshold or no raw entry occurs more than threshold times |
| RecipeValidation.ThresholdOneRejectsRepeats | backend/api/serializers.py:276-290 | with threshold one, the check rejects exactly the lists that repeat an entry |
| RecipeValidation.SameIngredientTwiceWithTwoAmountsPasses | backend/api/serializers.py:282-285 | entries are compared whole: one ingredient key twice with two amounts passes the check |
| RecipeValidation.EntryErrors | backend/api/serializers.py:33-41 | no entry errors iff every entry names an existing ingredient with an amount in bounds; every error points at an entry of the list |
| RecipeValidation.IngredientsErrors | backend/api/serializers.py:292-301 | a missing field is required unless partial; an empty list is required before any duplicate check; no errors iff the list is non-empty, valid entry by entry and passes the duplicate check |
| RecipeValidation.FirstUnknown | backend/api/serializers.py:265-267 | finds the first key naming no tag, and all earlier keys name tags; none iff every key names a tag |
| RecipeValidation.TagsErrors | backend/api/serializers.py:303-312 | a missing field is required unless partial; an empty list is required; no errors iff the keys all name tags, the list is non-empty and it passes the duplicate check |
| RecipeValidation.TextErrors | backend/recipes/models.py:66-70 | a text field is missing only in a partial update; after surrounding whitespace is stripped it is not empty and respects its maximum length; an all-whitespace value is refused as blank |
| RecipeValidation.StrippedNames | backend/api/serializers.py:269-274 | concrete cases: a name of spaces is blank, a trailing space does not count towards the maximum length, and a padded name strips to its middle |
| Text.TrimUnique | backend/api/serializers.py:269-274 | stripping whitespace around a middle that neither starts nor ends with whitespace gives exactly that middle |
| Text.TrimEmpty | backend/api/serializers.py:269-274 | a value strips to the empty string iff it is all whitespace |
| RecipeValidation.CookingTimeErrors | backend/api/serializers.py:314-326 | no error iff the field is absent in a partial update or within bounds |
| RecipeValidation.NoErrorsIffAcceptable | backend/api/serializers.py:262-326 | a request yields no errors iff every given field is within bounds and refers to existing rows, and outside a partial update every field is given |
| RecipeValidation.ValidateRecipe | backend/api/serializers.py:262-326 | validation succeeds iff the request is acceptable, returns the request itself, and a failure carries at least one error |
| RecipeWriter.RowsFor | backend/api/serializers.py:328-336 | one row per entry, at the entry's position, with the recipe key, ingredient key and amount of that entry |
| RecipeWriter.LinksFor | backend/api/serializers.py:345 | the tag links of the recipe are exactly the keys given, each once |
| RecipeWriter.ApplyFields | backend/api/serializers.py:360 | every field the request carries overwrites the stored one, name and text stripped; the others and the author stay |
| RecipeWriter.CreateKeepsConstraints | backend/api/serializers.py:338-347 | creating from an acceptable request keeps every constraint of the store |
| RecipeWriter.UpdateKeepsConstraints | backend/api/serializers.py:349-360 | updating with an acceptable request keeps every constraint of the store |
| RecipeWriter.CreateWritesRows | backend/api/serializers.py:339-344 | the new recipe takes a fresh key and is authored by the requester; its rows are one per entry in input order; other recipes' rows are unchanged |
| RecipeWriter.CreateWritesTags | backend/api/serializers.py:345 | the new recipe's tags equal the input keys; other recipes' tags are unchanged |
| RecipeWriter.RowsOfOutside | backend/api/serializers.py:351 | deleting one recipe's rows leaves every other recipe's rows as they were, in order |
| RecipeWriter.UpdateReplacesRows | backend/api/serializers.py:351-358 | after update the recipe's rows are exactly the new entries in order, never a union with the old; other recipes' rows are untouched |
| RecipeWriter.UpdateReplacesTags | backend/api/serializers.py:354-355 | after update the recipe's tags are exactly the new keys; other recipes' tags are untouched |
| RecipeWriter.CreateIngredients | backend/api/serializers.py:328-336 | the bulk insert appends one row per entry, in entry order, and changes no other table |
| RecipeWriter.Create | backend/api/serializers.py:338-347 | fails with the validation errors and no change iff the request is not acceptable; otherwise writes the new recipe, its rows and its tags and returns its fresh key; the store stays valid |
| RecipeWriter.WriteRecipe | backend/api/serializers.py:354-360 | the writes after the pops: the recipe's tags become exactly the new keys, the new rows are appended in entry order, the plain fields are saved; nothing else changes |
| RecipeWriter.Update | backend/api/serializers.py:349-360 | succeeds iff the partial request is acceptable and carries ingredients and tags; any failure leaves the store as it was; success gives the replaced state; the store stays valid |
| Toggle.ValidatePair | backend/api/serializers.py:380-387 | a pair is accepted iff the recipe exists and the pair is not yet in that collection |
| Toggle.AddPairKeepsConstraints | backend/recipes/models.py:130-135 | appending a validated pair keeps (recipe, user) unique and the store valid |
| Toggle.Add | backend/api/views.py:48-55 | 201 with exactly the pair appended iff validation passes; otherwise 400 and the store unchanged |
| Toggle.DeleteAsWrittenLookup | backend/api/views.py:57 | 404 iff no row of that collection names the recipe, 500 iff several do; both leave the store unchanged |
| Toggle.DeleteAsWrittenWipes | backend/api/views.py:58-63 | past the lookup the requester keeps no row at all in the collection, other users keep theirs, and the answer is 204 iff the requester held any row |
| Toggle.DeleteAsWrittenKeepsConstraints | backend/api/views.py:56-63 | the delete keeps every constraint of the store |
| Toggle.Remove | backend/api/views.py:56-63 | the method's status and new store are those of the as-written delete, and the store stays valid |
| Toggle.AsWrittenDropsOtherRecipes | backend/api/views.py:58-60 | concrete case: removing one favorite also removes the requester's other favorite |
| Toggle.AsWrittenFailsOnSharedRecipe | backend/api/views.py:57 | concrete case: a recipe favorited by two users cannot be unfavorited (500) |
| Toggle.AsWrittenDeletesWhatWasNotAsked | backend/api/views.py:57-62 | concrete case: unfavoriting a recipe the requester never favorited answers 204 and deletes their other favorite |
| Toggle.DeleteIntendedEffect | backend/api/views.py:76-83 | the corrected delete removes exactly the pair asked for, answers 204 iff it was there and 404 iff the recipe is unknown, and keeps the store valid |
| Toggle.AddThenDeleteIntended | backend/api/views.py:48-63 | adding a pair then deleting it with the corrected delete restores the store exactly, with 204 |
| Toggle.IntendedOnSamples | backend/api/views.py:56-63 | on the three concrete cases the corrected delete removes only the pair asked for |
| Follows.Clean | backend/users/models.py:63-65 | an edge is refused iff its user follows themselves |
| Follows.ValidateFollow | backend/api/serializers.py:196-208 | an existing edge is refused first; otherwise a self-follow is refused; otherwise the edge is accepted |
| Follows.SelfEdgeNeverStored | backend/api/serializers.py:200-207 | on a valid store a self-follow always meets the self-follow error |
| Follows.EdgesBesides | backend/api/views.py:147-149 | removes exactly the edge (user, author), and shrinks the table iff the edge was there |
| Follows.FollowKeepsConstraints | backend/users/models.py:42-65 | a validated edge between existing users keeps the foreign keys and the table free of self-follows |
| Follows.FollowKeepsEdgesUnique | backend/api/serializers.py:196-203 | the Follow table has no unique constraint, but since the serializer refuses an existing edge, a table free of repeats stays free of them after a follow |
| Follows.UnfollowKeepsConstraints | backend/api/views.py:147-149 | unfollowing keeps every constraint |
| Follows.FollowThenUnfollow | backend/api/views.py:138-152 | following then unfollowing restores the Follow table exactly |
| Follows.Subscribe | backend/api/views.py:138-145 | 404 iff the author is unknown, 400 iff validation refuses, 201 with exactly the edge appended otherwise |
| Follows.Unsubscribe | backend/api/views.py:146-152 | 404 iff the author is unknown; otherwise only the (requester, author) edge is removed, 204 iff it was there, else 400 |
| Follows.InsertKeepsSorted | backend/users/models.py:61 | inserting one edge into a list sorted by follower keeps it sorted |
| Follows.ByUserSortsAndPermutes | backend/users/models.py:61 | the default ordering is a permutation of the Follow table, sorted by follower |
| Follows.GetRecipes | backend/api/serializers.py:165-188 | None without a signed-in requester; all recipes without a limit; an error iff the limit is not an integer or negative; any list returned is a prefix of the recipes |
| Follows.GetRecipesLimit | backend/api/serializers.py:171-181 | a limit n >= 0 returns the first min(n, len) recipes |
| ShoppingList.Purchases | backend/api/views.py:88-93 | every joined portion comes from a row of a recipe in the requester's own cart, with that row's amount and its ingredient's name and unit |
| ShoppingList.PurchasesOfUniqueCart | backend/api/views.py:88-90 | with (recipe, user) unique in the cart, each row of a carted recipe joins exactly once |
| ShoppingList.OtherCartsIgnored | backend/api/views.py:89-90 | dropping every other user's cart rows leaves the purchases unchanged |
| ShoppingList.SumForAppend | backend/api/views.py:92 | the sum of a key over two lists is the sum of the two sums |
| ShoppingList.AddPortionKeys | backend/api/views.py:91-92 | adding a portion to the grouping adds its key and no other |
| ShoppingList.AddPortionDistinct | backend/api/views.py:91-92 | adding a portion keeps one line per key |
| ShoppingList.AddPortionSums | backend/api/views.py:92 | adding a portion adds its amount to its key's sum and to no other |
| ShoppingList.AggregateSums | backend/api/views.py:88-93 | the grouping has distinct keys, exactly the portions' keys, and each key's sum equals the portions' |
| ShoppingList.AggregateIsAggregate | backend/api/views.py:88-93 | the grouping has one line per distinct (name, unit) and no other, each with the summed amount |
| ShoppingList.AggregatesArePermutations | backend/api/views.py:88-93 | any two groupings of the same portions are permutations of each other |
| ShoppingList.LineTextReadsBack | backend/api/views.py:97-101 | a line is the bullet `" • "`, the name, `": "`, the amount in decimal and `" "` followed by the unit, each at a fixed place, and the amount field parses back to the summed amount |
| ShoppingList.FileTextShape | backend/api/views.py:94-102 | an empty list gives exactly the header; each line adds a newline and the line, none at the end; the header comes first |
| ShoppingList.Render | backend/api/views.py:94-102 | the appending loop and the join give exactly the file text of the lines |
| ShoppingList.Download | backend/api/views.py:87-102 | the returned lines are a grouping of the requester's purchases and the file is their text |
| ShoppingList.SaltIsSummed | backend/api/views.py:88-102 | 5 g and 10 g of salt from two carted recipes give one line " • Salt: 15 g" under the header |
| Permissions.HasPermission | backend/api/permissions.py:5-8 | a request is refused only when it is a POST by an anonymous user |
| Permissions.HasObjectPermission | backend/api/permissions.py:10-16 | a request on a recipe is allowed only if it is a GET or comes from the author |
| Permissions.PermissionTable | backend/api/permissions.py:5-8 | POST is allowed iff signed in; every other method passes |
| Permissions.ObjectPermissionTable | backend/api/permissions.py:10-16 | PATCH and DELETE iff the requester is the author; GET always; every other method never |
| Permissions.EveryUpdateIsPartial | backend/api/permissions.py:11-16 | PUT never reaches a recipe, so every permitted update is a PATCH |
| Permissions.AnonymousOnlyReads | backend/api/permissions.py:5-16 | an anonymous user passes both checks only with GET |
| RecipeFilters.Joined | backend/api/filters.py:42-43 | the join lists exactly the recipes of the queryset the user holds in the collection |
| RecipeFilters.JoinedMultiplicity | backend/api/filters.py:42-49 | with the collection free of repeats, each held recipe appears as often as in the queryset, others never |
| RecipeFilters.CollectionFilter | backend/api/filters.py:40-50 | with the value false or an anonymous user the queryset is returned as it came; nothing outside the queryset is ever added |
| RecipeFilters.FavoritedMethod | backend/api/filters.py:40-44 | the result never holds a recipe outside the queryset |
| RecipeFilters.InShoppingCartMethod | backend/api/filters.py:46-50 | the result never holds a recipe outside the queryset |
| RecipeFilters.CollectionFilterExact | backend/api/filters.py:42-49 | with the value true and a signed-in user, the result is exactly the held recipes, with their queryset multiplicity, a sub-multiset of the queryset |
| RecipeFilters.FilterMethodsExact | backend/api/filters.py:40-50 | on a valid store `is_favorited` keeps exactly the favorites and `is_in_shopping_cart` exactly the carted recipes |
| RecipeFilters.FilterMethodsPassThrough | backend/api/filters.py:40-50 | value false or an anonymous user: both filters return the queryset unchanged |
| Entities.ColorPatternWithoutNewline | backend/recipes/models.py:17-24 | for a colour without a newline, the validator accepts exactly `#` and three or six hex digits |
| RecipeStore.DeleteRecipeKeepsConstraints | backend/recipes/models.py:84-89 | deleting a recipe with its cascades keeps every constraint |
| RecipeStore.DeleteIngredientKeepsConstraints | backend/recipes/models.py:88-89 | deleting an ingredient with its rows keeps every constraint |
| RecipeStore.DeleteTagKeepsConstraints | backend/recipes/models.py:59-60 | deleting a tag with its links keeps every constraint |
| RecipeStore.DeleteUserKeepsConstraints | backend/users/models.py:42-56 | deleting a user with all cascades keeps every constraint |
| RecipeStore.DeleteUserLeavesNoReference | backend/users/models.py:44-56 | after a user is deleted no recipe, favorite, cart row or follow edge refers to them |
| RecipeStore.DeleteRecipeLeavesNoReference | backend/recipes/models.py:84-87 | after a recipe is deleted nothing refers to it and every other row, favorite and cart row stays |
| RecipeStore.InsertUserDb | backend/users/models.py:11-20 | a user is refused iff a column is too long or the username or email is taken |
| RecipeStore.InsertUserKeepsConstraints | backend/users/models.py:11-20 | a user that is inserted keeps usernames and emails unique |
| RecipeStore.InsertTagDb | backend/recipes/models.py:15-26 | a tag is refused iff its colour fails the pattern, its slug is not letters, digits, `-` and `_`, or its name, colour or slug is taken |
| RecipeStore.SlugWithSpaceRefused | backend/recipes/models.py:25-26 | concrete case: a slug with a space is refused in any store; a slug of letters, digits, `_` and `-` passes the format |
| RecipeStore.InsertTagKeepsConstraints | backend/recipes/models.py:15-26 | an inserted tag keeps names, colours and slugs unique, and colours and slugs well-formed |
| RecipeStore.InsertIngredientDb | backend/recipes/models.py:46-51 | an ingredient is refused iff its (name, measurement unit) pair is taken |
| RecipeStore.InsertIngredientKeepsConstraints | backend/recipes/models.py:46-51 | an inserted ingredient keeps (name, measurement unit) unique |
| RecipeStore.Store.Store | backend/api/serializers.py:349-350 | restores every table to a saved value, as a rolled-back transaction does |
| Text.IntToStringRoundTrip | backend/api/views.py:99 | reading back the printed amount gives the amount |

## Left out

- Image handling: base64 decoding and file storage of `image` are library calls. The model
  keeps `image` as an opaque string.
- Password hashing, the user views of the authentication library and token issuance are
  foreign code.
- The username `\w` pattern and the email format check depend on Python regex and library
  validator semantics that are not part of this model. Only the lengths and uniqueness are
  modelled.
- Maximum lengths of tag and ingredient columns come from a settings module that is not part
  of this model. The recipe name limit is a parameter (`Config.recipeNameMaxLength`).
- `pub_date` (the clock) and the presentation of results (`to_representation`, the
  `is_subscribed` / `is_favorited` / `is_in_shopping_cart` fields) are not modelled.
- The tag slug filter and the ingredient search filter live in the filtering library.
- Users, tags and ingredients are created by the admin site and the import commands. They
  appear here only as the insert functions on `Db`, with no method.
- Raw request entries with missing keys or values of the wrong type are outside the request
  datatype. Entries are compared as (key, amount) values only, not as whole JSON objects
  with extra keys.
- Follows.GetRecipes: `int()` is modelled for an optional sign and ASCII digits only.
  Surrounding whitespace and digit-group underscores, which Python also accepts, are not
  modelled.
- HTTP methods other than POST and DELETE on the action routes (405) and the
  authentication-required checks of the actions are left to the router.
- The `Recipe.ingredients` many-to-many table is never written by the write path. The
  `RecipeTag` model is a table apart from the implicit link table of `Recipe.tags`, and
  nothing writes it. The link table is modelled as the set `tagLinks`, so (recipe, tag) is
  unique by construction.
- Model field validators only run when a form validates the model. Recipes from the API are
  bounded by the serializer. The tag colour pattern and slug format are enforced in
  `InsertTagDb`, as the admin site does; the import command bypasses them, which is not
  modelled.
- RecipeStore.InsertTagDb: when several fields fail, Django reports all of them; the model
  reports one (the colour first, then the slug). The admin form's whitespace stripping is not
  modelled.
- Concurrency is not modelled. For favorites and the cart, two requests racing on one pair
  rely on the database's unique constraint. The Follow table has no such constraint, so a
  race (or the admin site) can store an edge twice. The store invariant therefore allows
  repeated edges, and unfollowing removes every copy. Transactions are modelled as
  all-or-nothing steps.
- RecipeValidation.TextErrors: the validators that refuse a NUL character in a text field
  are not modelled. A name or text holding U+0000 passes in the model.
- Follows.ByUser: among the rows of one follower the database promises no order. The model
  keeps table order.
- Toggle.Remove models the delete as written; the corrected behaviour is
  `Toggle.DeleteIntended` (see Findings).

## Findings

| source | as written | input that shows it | evidently intended | confidence | as-written member | corrected member |
|---|---|---|---|---|---|---|
| backend/api/views.py:56-63 (and 76-83 for the cart) | DELETE looks up THE row of the recipe by any user, then deletes every row of the requester in that collection | favorites [(1,10), (1,20)], user 1 removes 10: both go, 204. Favorites [(1,10), (2,10)]: user 1 removing 10 gets 500. Favorites [(2,10), (1,20)]: user 1 removing 10 gets 204 and loses 20 | remove only the pair (requester, recipe): 204 if it was there, 400 if not, 404 for an unknown recipe | high, not executed | Toggle.AsWrittenDropsOtherRecipes | Toggle.DeleteIntendedEffect |
