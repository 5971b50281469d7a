/** Validation of a recipe write (backend/api/serializers.py, RecipeCreateSerializer and
    WriteIngredientInRecipe). The serializer fields for `amount` and `cooking_time` are
    generated from the model fields, so the model's validators run first and the
    serializer's own `validate_amount` / `validate_cooking_time` run after them with the
    configured bounds. Errors are gathered field by field, in the order of `Meta.fields`. */
module RecipeValidation {
  import opened Wrappers
  import opened Seqs
  import opened Entities
  import opened Text

  datatype Bounds = Bounds(min: int, max: int)

  /** The values of the settings module the write path reads. */
  datatype Config = Config(
    amount: Bounds,
    cookingTime: Bounds,
    duplicateThreshold: nat,
    recipeNameMaxLength: nat)

  datatype RangeError = BelowMin | AboveMax

  function Max(a: int, b: int): int { if a < b then b else a }
  function Min(a: int, b: int): int { if a < b then a else b }

  /** A bounded integer field: the model's minimum and maximum, then the configured ones. */
  function CheckBounds(modelMin: int, modelMax: int, b: Bounds, x: int): (r: Result<int, RangeError>)
    requires modelMin <= modelMax
    ensures r.Success? <==> Max(modelMin, b.min) <= x <= Min(modelMax, b.max)
    ensures r.Success? ==> r.value == x
    ensures r == Failure(BelowMin) <==> x < Max(modelMin, b.min) && x <= modelMax
  {
    if x < modelMin then Failure(BelowMin)
    else if x > modelMax then Failure(AboveMax)
    else if x < b.min then Failure(BelowMin)
    else if x > b.max then Failure(AboveMax)
    else Success(x)
  }

  /** `validate_amount` behind the model's [1, 1000]. */
  function ValidateAmount(c: Config, x: int): (r: Result<int, RangeError>)
    ensures r.Success? ==> r.value == x && AmountMin <= x <= AmountMax
    ensures r.Success? <==> AmountMin <= x <= AmountMax && c.amount.min <= x <= c.amount.max
  {
    CheckBounds(AmountMin, AmountMax, c.amount, x)
  }

  /** `validate_cooking_time` behind the model's [1, 100]. */
  function ValidateCookingTime(c: Config, x: int): (r: Result<int, RangeError>)
    ensures r.Success? ==> r.value == x && CookingTimeMin <= x <= CookingTimeMax
    ensures r.Success? <==> CookingTimeMin <= x <= CookingTimeMax && c.cookingTime.min <= x <= c.cookingTime.max
  {
    CheckBounds(CookingTimeMin, CookingTimeMax, c.cookingTime, x)
  }

  /** With the settings equal to the model's literals, `amount` is accepted and returned
      unchanged exactly in [1, 1000], and the two ways out are told apart. */
  lemma DefaultAmountWindow(c: Config, x: int)
    requires c.amount == Bounds(1, 1000)
    ensures ValidateAmount(c, x) ==
      if x < 1 then Failure(BelowMin) else if x > 1000 then Failure(AboveMax) else Success(x)
  {
  }

  /** With the settings equal to the model's literals, `cooking_time` is accepted exactly in
      [1, 100]. */
  lemma DefaultCookingTimeWindow(c: Config, x: int)
    requires c.cookingTime == Bounds(1, 100)
    ensures ValidateCookingTime(c, x) ==
      if x < 1 then Failure(BelowMin) else if x > 100 then Failure(AboveMax) else Success(x)
  {
  }

  // ---- check_for_a_duplicate ----

  /** What `check_for_a_duplicate` lets through: a list exactly `threshold` long, or one in
      which no element occurs more than `threshold` times. Elements are the raw request
      entries, compared whole. */
  predicate PassesDuplicateCheck<T(==)>(raw: seq<T>, threshold: nat) {
    |raw| == threshold || forall i :: 0 <= i < |raw| ==> multiset(raw)[raw[i]] <= threshold
  }

  /** The loop of `check_for_a_duplicate`, which sets a flag when `object.count(el)` exceeds
      the threshold for some element. */
  method CheckForADuplicate<T(==)>(raw: seq<T>, threshold: nat) returns (ok: bool)
    ensures ok <==> PassesDuplicateCheck(raw, threshold)
  {
    if |raw| == threshold {
      return true;
    }
    var isDuplicate := false;
    for i := 0 to |raw|
      invariant isDuplicate <==> exists j :: 0 <= j < i && multiset(raw)[raw[j]] > threshold
    {
      if multiset(raw)[raw[i]] > threshold {
        isDuplicate := true;
      }
    }
    ok := !isDuplicate;
  }

  /** With the threshold at one, the check rejects exactly the lists that repeat an entry. */
  lemma ThresholdOneRejectsRepeats<T>(raw: seq<T>)
    ensures PassesDuplicateCheck(raw, 1) <==> NoDup(raw)
  {
    if NoDup(raw) {
      forall i | 0 <= i < |raw| ensures multiset(raw)[raw[i]] <= 1 {
        NoDupCount(raw, raw[i]);
      }
    }
    if !NoDup(raw) {
      var i, j :| 0 <= i < j < |raw| && raw[i] == raw[j];
      CountOfRepeated(raw, i, j);
    }
  }

  /** One ingredient entry of the request: the ingredient's key and the amount. */
  datatype IngredientEntry = IngredientEntry(id: Id, amount: int)

  /** Entries are compared whole: the same ingredient twice with two amounts passes. */
  lemma SameIngredientTwiceWithTwoAmountsPasses(id: Id, a: int, b: int)
    requires a != b
    ensures PassesDuplicateCheck([IngredientEntry(id, a), IngredientEntry(id, b)], 1)
  {
    var raw := [IngredientEntry(id, a), IngredientEntry(id, b)];
    assert NoDup(raw);
    ThresholdOneRejectsRepeats(raw);
  }

  // ---- the request and its errors ----

  datatype Field = IngredientsField | TagsField | ImageField | NameField | TextField | CookingTimeField

  datatype Problem = Required | Blank | TooLong | OutOfRange(range: RangeError) | DoesNotExist | Repeated

  /** An error on a field, or on the item at an index of a list field. */
  datatype FieldError = FieldError(field: Field, item: Option<nat>, problem: Problem)

  /** A recipe write request; `None` is a field the request does not carry. */
  datatype RecipeRequest = RecipeRequest(
    ingredients: Option<seq<IngredientEntry>>,
    tags: Option<seq<Id>>,
    image: Option<string>,
    name: Option<string>,
    text: Option<string>,
    cookingTime: Option<int>)

  /** The errors of the entries `es[from..]`: an unknown ingredient key and an amount out of
      bounds are both reported for each entry. */
  function EntryErrors(c: Config, known: set<Id>, es: seq<IngredientEntry>, from: nat): (errs: seq<FieldError>)
    requires from <= |es|
    ensures errs == [] <==>
      forall j :: from <= j < |es| ==> es[j].id in known && ValidateAmount(c, es[j].amount).Success?
    ensures forall e :: e in errs ==> e.field == IngredientsField && e.item.Some? && from <= e.item.value < |es|
    decreases |es| - from
  {
    if from == |es| then []
    else
      var e := es[from];
      (if e.id in known then [] else [FieldError(IngredientsField, Some(from), DoesNotExist)])
      + (match ValidateAmount(c, e.amount)
         case Success(_) => []
         case Failure(k) => [FieldError(IngredientsField, Some(from), OutOfRange(k))])
      + EntryErrors(c, known, es, from + 1)
  }

  /** The `ingredients` field: a missing field is required (unless the update is partial);
      the entries are checked one by one; then `validate_ingredients` rejects an empty list
      as required before it runs the duplicate check. */
  function IngredientsErrors(c: Config, known: set<Id>, raw: Option<seq<IngredientEntry>>, partial: bool): (errs: seq<FieldError>)
    ensures raw == None ==> errs == if partial then [] else [FieldError(IngredientsField, None, Required)]
    ensures raw == Some([]) ==> errs == [FieldError(IngredientsField, None, Required)]
    ensures errs == [] <==>
      match raw
      case None => partial
      case Some(es) =>
        && |es| > 0
        && (forall j :: 0 <= j < |es| ==> es[j].id in known && ValidateAmount(c, es[j].amount).Success?)
        && PassesDuplicateCheck(es, c.duplicateThreshold)
  {
    match raw
    case None => if partial then [] else [FieldError(IngredientsField, None, Required)]
    case Some(es) =>
      var entryErrs := EntryErrors(c, known, es, 0);
      if entryErrs != [] then entryErrs
      else if es == [] then [FieldError(IngredientsField, None, Required)]
      else if !PassesDuplicateCheck(es, c.duplicateThreshold) then [FieldError(IngredientsField, None, Repeated)]
      else []
  }

  /** The index of the first key in `ts[from..]` that names no tag. */
  function FirstUnknown(ts: seq<Id>, known: set<Id>, from: nat): (r: Option<nat>)
    requires from <= |ts|
    ensures r.None? <==> forall j :: from <= j < |ts| ==> ts[j] in known
    ensures r.Some? ==>
      && from <= r.value < |ts| && ts[r.value] !in known
      && forall j :: from <= j < r.value ==> ts[j] in known
    decreases |ts| - from
  {
    if from == |ts| then None
    else if ts[from] !in known then Some(from)
    else FirstUnknown(ts, known, from + 1)
  }

  /** The `tags` field: a missing field is required (unless partial); the related-field
      lookup stops at the first unknown key; then `validate_tags` rejects an empty list as
      required before it runs the duplicate check. */
  function TagsErrors(c: Config, known: set<Id>, raw: Option<seq<Id>>, partial: bool): (errs: seq<FieldError>)
    ensures raw == None ==> errs == if partial then [] else [FieldError(TagsField, None, Required)]
    ensures raw == Some([]) ==> errs == [FieldError(TagsField, None, Required)]
    ensures |errs| <= 1
    ensures errs == [] <==>
      match raw
      case None => partial
      case Some(ts) =>
        && |ts| > 0
        && (forall j :: 0 <= j < |ts| ==> ts[j] in known)
        && PassesDuplicateCheck(ts, c.duplicateThreshold)
  {
    match raw
    case None => if partial then [] else [FieldError(TagsField, None, Required)]
    case Some(ts) =>
      match FirstUnknown(ts, known, 0)
      case Some(i) => [FieldError(TagsField, Some(i), DoesNotExist)]
      case None =>
        if ts == [] then [FieldError(TagsField, None, Required)]
        else if !PassesDuplicateCheck(ts, c.duplicateThreshold) then [FieldError(TagsField, None, Repeated)]
        else []
  }

  /** A text field: required unless partial; the value is stripped of surrounding
      whitespace first, and the stripped value must not be empty and must not be longer than
      `maxLength` when the field has a limit. */
  function TextErrors(f: Field, raw: Option<string>, maxLength: Option<nat>, partial: bool): (errs: seq<FieldError>)
    ensures |errs| <= 1
    ensures errs == [] <==>
      match raw
      case None => partial
      case Some(s) => Trim(s) != "" && (maxLength.Some? ==> |Trim(s)| <= maxLength.value)
    ensures raw.Some? && AllSpace(raw.value) ==> errs == [FieldError(f, None, Blank)]
  {
    match raw
    case None => if partial then [] else [FieldError(f, None, Required)]
    case Some(s) =>
      TrimEmpty(s);
      if s == "" || Trim(s) == "" then [FieldError(f, None, Blank)]
      else if maxLength.Some? && |Trim(s)| > maxLength.value then [FieldError(f, None, TooLong)]
      else []
  }

  /** The `cooking_time` field. */
  function CookingTimeErrors(c: Config, raw: Option<int>, partial: bool): (errs: seq<FieldError>)
    ensures |errs| <= 1
    ensures errs == [] <==>
      match raw
      case None => partial
      case Some(x) => ValidateCookingTime(c, x).Success?
  {
    match raw
    case None => if partial then [] else [FieldError(CookingTimeField, None, Required)]
    case Some(x) =>
      match ValidateCookingTime(c, x)
      case Success(_) => []
      case Failure(k) => [FieldError(CookingTimeField, None, OutOfRange(k))]
  }

  /** Every error of a request, field by field in the order of `Meta.fields`. */
  function RequestErrors(c: Config, knownIngredients: set<Id>, knownTags: set<Id>, req: RecipeRequest, partial: bool): seq<FieldError> {
    IngredientsErrors(c, knownIngredients, req.ingredients, partial)
    + TagsErrors(c, knownTags, req.tags, partial)
    + (if req.image.None? && !partial then [FieldError(ImageField, None, Required)] else [])
    + TextErrors(NameField, req.name, Some(c.recipeNameMaxLength), partial)
    + TextErrors(TextField, req.text, None, partial)
    + CookingTimeErrors(c, req.cookingTime, partial)
  }

  /** A request the store can take: every given field within its bounds and referring to
      existing rows, and, outside a partial update, every field given. */
  ghost predicate Acceptable(c: Config, knownIngredients: set<Id>, knownTags: set<Id>, req: RecipeRequest, partial: bool) {
    && (!partial ==> req.ingredients.Some? && req.tags.Some? && req.image.Some?
                     && req.name.Some? && req.text.Some? && req.cookingTime.Some?)
    && (req.ingredients.Some? ==>
          var es := req.ingredients.value;
          && |es| > 0
          && (forall j :: 0 <= j < |es| ==> es[j].id in knownIngredients)
          && (forall j :: 0 <= j < |es| ==>
                AmountMin <= es[j].amount <= AmountMax && c.amount.min <= es[j].amount <= c.amount.max)
          && PassesDuplicateCheck(es, c.duplicateThreshold))
    && (req.tags.Some? ==>
          var ts := req.tags.value;
          && |ts| > 0
          && (forall j :: 0 <= j < |ts| ==> ts[j] in knownTags)
          && PassesDuplicateCheck(ts, c.duplicateThreshold))
    && (req.name.Some? ==> Trim(req.name.value) != "" && |Trim(req.name.value)| <= c.recipeNameMaxLength)
    && (req.text.Some? ==> Trim(req.text.value) != "")
    && (req.cookingTime.Some? ==>
          CookingTimeMin <= req.cookingTime.value <= CookingTimeMax
          && c.cookingTime.min <= req.cookingTime.value <= c.cookingTime.max)
  }

  lemma NoErrorsIffAcceptable(c: Config, knownIngredients: set<Id>, knownTags: set<Id>, req: RecipeRequest, partial: bool)
    ensures RequestErrors(c, knownIngredients, knownTags, req, partial) == [] <==>
            Acceptable(c, knownIngredients, knownTags, req, partial)
  {
    var e1 := IngredientsErrors(c, knownIngredients, req.ingredients, partial);
    var e2 := TagsErrors(c, knownTags, req.tags, partial);
    var e3: seq<FieldError> := if req.image.None? && !partial then [FieldError(ImageField, None, Required)] else [];
    var e4 := TextErrors(NameField, req.name, Some(c.recipeNameMaxLength), partial);
    var e5 := TextErrors(TextField, req.text, None, partial);
    var e6 := CookingTimeErrors(c, req.cookingTime, partial);
    assert RequestErrors(c, knownIngredients, knownTags, req, partial) == e1 + e2 + e3 + e4 + e5 + e6;
    assert e1 + e2 + e3 + e4 + e5 + e6 == [] <==>
      e1 == [] && e2 == [] && e3 == [] && e4 == [] && e5 == [] && e6 == [];
    assert e4 == [] <==>
      (req.name.None? ==> partial)
      && (req.name.Some? ==> Trim(req.name.value) != "" && |Trim(req.name.value)| <= c.recipeNameMaxLength);
    assert e5 == [] <==> (req.text.None? ==> partial) && (req.text.Some? ==> Trim(req.text.value) != "");
    assert e6 == [] <==>
      (req.cookingTime.None? ==> partial)
      && (req.cookingTime.Some? ==>
            CookingTimeMin <= req.cookingTime.value <= CookingTimeMax
            && c.cookingTime.min <= req.cookingTime.value <= c.cookingTime.max);
  }

  /** `is_valid()`: the validated data is the request itself, or the list of errors. */
  function ValidateRecipe(c: Config, knownIngredients: set<Id>, knownTags: set<Id>, req: RecipeRequest, partial: bool)
    : (r: Result<RecipeRequest, seq<FieldError>>)
    ensures r.Success? <==> Acceptable(c, knownIngredients, knownTags, req, partial)
    ensures r.Success? ==> r.value == req
    ensures r.Failure? ==> r.error != []
  {
    var errs := RequestErrors(c, knownIngredients, knownTags, req, partial);
    NoErrorsIffAcceptable(c, knownIngredients, knownTags, req, partial);
    if errs == [] then Success(req) else Failure(errs)
  }

  /** Text fields are judged after stripping: a name of spaces is blank, padding does not
      count towards the length, and the stored name is the stripped one. */
  lemma StrippedNames()
    ensures TextErrors(NameField, Some("   "), Some(4), false) == [FieldError(NameField, None, Blank)]
    ensures TextErrors(NameField, Some("Soup "), Some(4), false) == []
    ensures Trim("  Soup  ") == "Soup"
  {
    assert AllSpace("   ");
    assert "" + "Soup" + " " == "Soup ";
    TrimUnique("", "Soup", " ");
    assert "  " + "Soup" + "  " == "  Soup  ";
    TrimUnique("  ", "Soup", "  ");
  }
}
