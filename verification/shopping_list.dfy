/** The shopping-list download (`download_shopping_cart`, backend/api/views.py): the
    ingredient rows of every recipe in the requester's cart, grouped by ingredient name and
    measurement unit with their amounts summed, written out as plain text under a header. */
module ShoppingList {
  import opened Wrappers
  import opened Seqs
  import opened Text
  import opened Entities
  import opened RecipeStore

  /** An amount of one ingredient: a joined row before grouping, a line after. */
  datatype Portion = Portion(name: string, unit: string, amount: int)

  /** What the query groups by: `ingredient__name`, `ingredient__measurement_unit`. */
  datatype Key = Key(name: string, unit: string)

  function KeyOf(p: Portion): Key {
    Key(p.name, p.unit)
  }

  function PortionOf(r: IngredientRow, ing: Ingredient): (p: Portion)
    ensures p.amount == r.amount && KeyOf(p) == Key(ing.name, ing.measurementUnit)
  {
    Portion(ing.name, ing.measurementUnit, r.amount)
  }

  function Repeat(p: Portion, n: nat): (s: seq<Portion>)
    ensures |s| == n && forall x :: x in s ==> x == p
  {
    seq(n, _ => p)
  }

  /** The join `IngredientRecipe.objects.filter(recipe__shopping_cart__user=u)`: each row of
      a recipe appears once per cart row (u, recipe), together with its ingredient; rows
      whose recipe is in no cart of `u` do not appear, whoever else has them in a cart. */
  function Purchases(rows: seq<IngredientRow>, ingredients: map<Id, Ingredient>, carts: seq<Pair>, u: Id)
    : (ps: seq<Portion>)
    ensures forall p :: p in ps ==>
      exists r :: r in rows && Pair(u, r.recipe) in carts && r.ingredient in ingredients
        && p == PortionOf(r, ingredients[r.ingredient])
  {
    if rows == [] then []
    else
      var r := rows[0];
      var here := if r.ingredient in ingredients
        then Repeat(PortionOf(r, ingredients[r.ingredient]), multiset(carts)[Pair(u, r.recipe)])
        else [];
      here + Purchases(rows[1..], ingredients, carts, u)
  }

  /** One portion per row of a recipe in u's cart. */
  function CartPortions(rows: seq<IngredientRow>, ingredients: map<Id, Ingredient>, carts: seq<Pair>, u: Id)
    : seq<Portion>
  {
    if rows == [] then []
    else
      var r := rows[0];
      (if Pair(u, r.recipe) in carts && r.ingredient in ingredients
       then [PortionOf(r, ingredients[r.ingredient])] else [])
      + CartPortions(rows[1..], ingredients, carts, u)
  }

  /** Because (recipe, user) is unique in the cart, the join lists each row of a carted
      recipe exactly once. */
  lemma {:induction false} PurchasesOfUniqueCart(rows: seq<IngredientRow>, ingredients: map<Id, Ingredient>,
                                                  carts: seq<Pair>, u: Id)
    requires NoDup(carts)
    ensures Purchases(rows, ingredients, carts, u) == CartPortions(rows, ingredients, carts, u)
  {
    if rows != [] {
      NoDupCount(carts, Pair(u, rows[0].recipe));
      PurchasesOfUniqueCart(rows[1..], ingredients, carts, u);
    }
  }

  /** Only the requester's own cart rows matter: dropping every other user's rows from the
      cart table leaves the purchases as they were. */
  lemma {:induction false} OtherCartsIgnored(rows: seq<IngredientRow>, ingredients: map<Id, Ingredient>,
                                             carts: seq<Pair>, u: Id)
    ensures Purchases(rows, ingredients, carts, u)
         == Purchases(rows, ingredients, Filter((p: Pair) => p.user == u, carts), u)
  {
    if rows != [] {
      FilterMultiplicity((p: Pair) => p.user == u, carts, Pair(u, rows[0].recipe));
      OtherCartsIgnored(rows[1..], ingredients, carts, u);
    }
  }

  /** `Sum('amount')` over the portions of one key. */
  function SumFor(ps: seq<Portion>, k: Key): int {
    if ps == [] then 0 else (if KeyOf(ps[0]) == k then ps[0].amount else 0) + SumFor(ps[1..], k)
  }

  lemma {:induction false} SumForAppend(a: seq<Portion>, b: seq<Portion>, k: Key)
    ensures SumFor(a + b, k) == SumFor(a, k) + SumFor(b, k)
  {
    if a == [] {
      assert a + b == b;
    } else {
      assert (a + b)[1..] == a[1..] + b;
      SumForAppend(a[1..], b, k);
    }
  }

  function KeysOf(ps: seq<Portion>): (ks: set<Key>)
    ensures forall p :: p in ps ==> KeyOf(p) in ks
    ensures forall k :: k in ks ==> exists p :: p in ps && KeyOf(p) == k
  {
    set p | p in ps :: KeyOf(p)
  }

  /** No two lines share a key: the first line's key is on no later line, and so on. */
  predicate DistinctKeys(lines: seq<Portion>) {
    lines == [] || (KeyOf(lines[0]) !in KeysOf(lines[1..]) && DistinctKeys(lines[1..]))
  }

  lemma {:induction false} DistinctKeysNoDup(lines: seq<Portion>)
    requires DistinctKeys(lines)
    ensures NoDup(lines)
  {
    if lines != [] {
      DistinctKeysNoDup(lines[1..]);
      forall i, j | 0 <= i < j < |lines| ensures lines[i] != lines[j] {
        if i == 0 {
          assert lines[j] == lines[1..][j - 1];
        } else {
          assert lines[i] == lines[1..][i - 1] && lines[j] == lines[1..][j - 1];
        }
      }
    }
  }

  /** `lines` is a grouping of `ps`: one line per distinct key of `ps` and no other, each
      carrying the sum of that key's amounts. The query sets no order, so any order of the
      lines is a grouping. */
  ghost predicate IsAggregate(ps: seq<Portion>, lines: seq<Portion>) {
    && DistinctKeys(lines)
    && KeysOf(lines) == KeysOf(ps)
    && forall i :: 0 <= i < |lines| ==> lines[i].amount == SumFor(ps, KeyOf(lines[i]))
  }

  /** Adds one portion to a grouping: onto the line of its key, or as a new last line. */
  function AddPortion(lines: seq<Portion>, p: Portion): (r: seq<Portion>)
    ensures |r| == |lines| || r == lines + [p]
  {
    if lines == [] then [p]
    else if KeyOf(lines[0]) == KeyOf(p) then [lines[0].(amount := lines[0].amount + p.amount)] + lines[1..]
    else [lines[0]] + AddPortion(lines[1..], p)
  }

  lemma KeysOfCons(x: Portion, s: seq<Portion>)
    ensures KeysOf([x] + s) == {KeyOf(x)} + KeysOf(s)
  {
    assert forall q :: q in [x] + s <==> q == x || q in s;
  }

  /** Adding a portion adds its key and no other. */
  lemma {:induction false} AddPortionKeys(lines: seq<Portion>, p: Portion)
    ensures KeysOf(AddPortion(lines, p)) == KeysOf(lines) + {KeyOf(p)}
  {
    if lines != [] {
      KeysOfCons(lines[0], lines[1..]);
      assert lines == [lines[0]] + lines[1..];
      if KeyOf(lines[0]) == KeyOf(p) {
        KeysOfCons(lines[0].(amount := lines[0].amount + p.amount), lines[1..]);
      } else {
        AddPortionKeys(lines[1..], p);
        KeysOfCons(lines[0], AddPortion(lines[1..], p));
      }
    }
  }

  /** Adding a portion keeps one line per key. */
  lemma {:induction false} AddPortionDistinct(lines: seq<Portion>, p: Portion)
    requires DistinctKeys(lines)
    ensures DistinctKeys(AddPortion(lines, p))
  {
    if lines != [] && KeyOf(lines[0]) != KeyOf(p) {
      AddPortionDistinct(lines[1..], p);
      AddPortionKeys(lines[1..], p);
      assert AddPortion(lines, p)[1..] == AddPortion(lines[1..], p);
    }
  }

  /** Adding a portion adds its amount to the sum of its key and to no other. */
  lemma {:induction false} AddPortionSums(lines: seq<Portion>, p: Portion, k: Key)
    ensures SumFor(AddPortion(lines, p), k) == SumFor(lines, k) + (if KeyOf(p) == k then p.amount else 0)
  {
    if lines != [] && KeyOf(lines[0]) != KeyOf(p) {
      AddPortionSums(lines[1..], p, k);
    }
  }

  /** The grouping the query computes, in order of first appearance. */
  function Aggregate(ps: seq<Portion>): seq<Portion> {
    if ps == [] then [] else AddPortion(Aggregate(ps[..|ps| - 1]), ps[|ps| - 1])
  }

  /** With distinct keys, a key's sum over the lines is the amount of its one line. */
  lemma {:induction false} SumOfDistinct(lines: seq<Portion>, i: nat)
    requires DistinctKeys(lines) && i < |lines|
    ensures SumFor(lines, KeyOf(lines[i])) == lines[i].amount
  {
    var k := KeyOf(lines[i]);
    if i == 0 {
      forall j | 0 <= j < |lines[1..]| ensures KeyOf(lines[1..][j]) != k {
        assert lines[1..][j] in lines[1..];
      }
      SumAbsent(lines[1..], k);
    } else {
      SumOfDistinct(lines[1..], i - 1);
    }
  }

  lemma {:induction false} SumAbsent(ps: seq<Portion>, k: Key)
    requires forall i :: 0 <= i < |ps| ==> KeyOf(ps[i]) != k
    ensures SumFor(ps, k) == 0
  {
    if ps != [] {
      SumAbsent(ps[1..], k);
    }
  }

  lemma KeysOfSnoc(s: seq<Portion>, x: Portion)
    ensures KeysOf(s + [x]) == KeysOf(s) + {KeyOf(x)}
  {
    assert forall q :: q in s + [x] <==> q in s || q == x;
  }

  /** One step of the fold: the sums of the portions and of the lines grow alike. */
  lemma AggregateStep(init: seq<Portion>, last: Portion, k: Key)
    requires SumFor(Aggregate(init), k) == SumFor(init, k)
    ensures SumFor(Aggregate(init + [last]), k) == SumFor(init + [last], k)
  {
    assert (init + [last])[..|init|] == init;
    SumForAppend(init, [last], k);
    AddPortionSums(Aggregate(init), last, k);
  }

  lemma {:induction false} AggregateSums(ps: seq<Portion>)
    ensures DistinctKeys(Aggregate(ps))
    ensures KeysOf(Aggregate(ps)) == KeysOf(ps)
    ensures forall k :: SumFor(Aggregate(ps), k) == SumFor(ps, k)
  {
    if ps != [] {
      var init := ps[..|ps| - 1];
      var last := ps[|ps| - 1];
      AggregateSums(init);
      assert ps == init + [last];
      AddPortionKeys(Aggregate(init), last);
      AddPortionDistinct(Aggregate(init), last);
      KeysOfSnoc(init, last);
      forall k ensures SumFor(Aggregate(ps), k) == SumFor(ps, k) {
        AggregateStep(init, last, k);
      }
    }
  }

  /** The fold yields a grouping: one line per distinct (name, unit), with the summed
      amount. */
  lemma AggregateIsAggregate(ps: seq<Portion>)
    ensures IsAggregate(ps, Aggregate(ps))
  {
    AggregateSums(ps);
    var lines := Aggregate(ps);
    forall i | 0 <= i < |lines| ensures lines[i].amount == SumFor(ps, KeyOf(lines[i])) {
      SumOfDistinct(lines, i);
    }
  }

  /** Any two groupings of the same portions hold the same lines, possibly in another
      order: the file's content is fixed up to the order of its lines. */
  lemma AggregatesArePermutations(ps: seq<Portion>, a: seq<Portion>, b: seq<Portion>)
    requires IsAggregate(ps, a) && IsAggregate(ps, b)
    ensures multiset(a) == multiset(b)
  {
    DistinctKeysNoDup(a);
    DistinctKeysNoDup(b);
    forall x ensures x in a <==> x in b {
      if x in a {
        var i :| 0 <= i < |a| && a[i] == x;
        assert KeyOf(x) in KeysOf(b);
        var j :| 0 <= j < |b| && KeyOf(b[j]) == KeyOf(x);
        assert b[j] == x;
      }
      if x in b {
        var j :| 0 <= j < |b| && b[j] == x;
        assert KeyOf(x) in KeysOf(a);
        var i :| 0 <= i < |a| && KeyOf(a[i]) == KeyOf(x);
        assert a[i] == x;
      }
    }
    SameElementsSameMultiset(a, b);
  }

  const Header: string := "Список необходимых ингредиентов:"

  /** One line of the file: ` • name: amount unit`. */
  function LineText(p: Portion): (s: string)
  {
    " • " + p.name + ": " + IntToString(p.amount) + " " + p.unit
  }

  /** A line can be read back: the bullet, the name, the amount as a decimal and the unit
      sit at fixed places, and the amount field parses to the amount summed. */
  lemma LineTextReadsBack(p: Portion)
    ensures var s := LineText(p);
      var k := |p.name| + 5;
      var j := |s| - |p.unit| - 1;
      k <= j && s[..3] == " • " && s[3..k - 2] == p.name && s[k - 2..k] == ": "
      && s[j] == ' ' && s[j + 1..] == p.unit && ParseInt(s[k..j]) == Some(p.amount)
  {
    var s := LineText(p);
    var k := |p.name| + 5;
    var j := |s| - |p.unit| - 1;
    assert s[k..j] == IntToString(p.amount);
    IntToStringRoundTrip(p.amount);
  }

  function LineTexts(lines: seq<Portion>): (ts: seq<string>)
    ensures |ts| == |lines| && forall i :: 0 <= i < |lines| ==> ts[i] == LineText(lines[i])
  {
    seq(|lines|, i requires 0 <= i < |lines| => LineText(lines[i]))
  }

  /** The file: the header, then one line per grouped ingredient, joined by newlines. */
  function FileText(lines: seq<Portion>): string {
    Join("\n", [Header] + LineTexts(lines))
  }

  /** An empty cart gives exactly the header; each further line adds a newline and that
      line, with no newline at the end; the header always comes first. */
  lemma FileTextShape(lines: seq<Portion>, p: Portion)
    ensures FileText([]) == Header
    ensures FileText(lines + [p]) == FileText(lines) + "\n" + LineText(p)
    ensures Header <= FileText(lines)
  {
    assert [Header] + LineTexts(lines + [p]) == ([Header] + LineTexts(lines)) + [LineText(p)];
    JoinAppend("\n", [Header] + LineTexts(lines), LineText(p));
    JoinStartsWithFirst("\n", [Header] + LineTexts(lines));
  }

  /** Builds the file as the view does: a list that starts with the header, one appended
      line per grouped ingredient, then `'\n'.join`. */
  method Render(lines: seq<Portion>) returns (file: string)
    ensures file == FileText(lines)
  {
    var list := [Header];
    for i := 0 to |lines|
      invariant list == [Header] + LineTexts(lines[..i])
    {
      assert LineTexts(lines[..i + 1]) == LineTexts(lines[..i]) + [LineText(lines[i])];
      list := list + [LineText(lines[i])];
    }
    assert lines[..|lines|] == lines;
    file := Join("\n", list);
  }

  /** `download_shopping_cart` for user `u`: the grouped purchases of the store's rows and
      the file made of them. */
  method Download(st: Store, u: Id) returns (lines: seq<Portion>, file: string)
    ensures IsAggregate(Purchases(st.rows, st.ingredients, st.carts, u), lines)
    ensures file == FileText(lines)
  {
    var ps := Purchases(st.rows, st.ingredients, st.carts, u);
    lines := Aggregate(ps);
    AggregateIsAggregate(ps);
    file := Render(lines);
  }

  function SaltIngredients(): map<Id, Ingredient> {
    map[7 := Ingredient("Salt", "g")]
  }

  lemma SaltPurchases()
    ensures Purchases([IngredientRow(1, 7, 5), IngredientRow(2, 7, 10)], SaltIngredients(), [Pair(3, 1), Pair(3, 2)], 3)
         == [Portion("Salt", "g", 5), Portion("Salt", "g", 10)]
  {
    var carts := [Pair(3, 1), Pair(3, 2)];
    assert multiset(carts) == multiset{Pair(3, 1), Pair(3, 2)};
    var rows := [IngredientRow(1, 7, 5), IngredientRow(2, 7, 10)];
    assert rows[1..] == [IngredientRow(2, 7, 10)];
    assert rows[1..][1..] == [];
  }

  lemma SaltGrouped()
    ensures Aggregate([Portion("Salt", "g", 5), Portion("Salt", "g", 10)]) == [Portion("Salt", "g", 15)]
  {
    var ps := [Portion("Salt", "g", 5), Portion("Salt", "g", 10)];
    assert ps[..1] == [Portion("Salt", "g", 5)];
    assert ps[..1][..0] == [];
  }

  lemma SaltFile()
    ensures FileText([Portion("Salt", "g", 15)]) == Header + "\n • Salt: 15 g"
  {
    assert IntToString(15) == "15";
    assert LineText(Portion("Salt", "g", 15)) == " • " + "Salt" + ": " + "15" + " " + "g";
    assert " • " + "Salt" + ": " + "15" + " " + "g" == " • Salt: 15 g";
    var ts := LineTexts([Portion("Salt", "g", 15)]);
    assert |ts| == 1 && ts[0] == " • Salt: 15 g";
    assert ts == [" • Salt: 15 g"];
    assert [Header] + [" • Salt: 15 g"] == [Header, " • Salt: 15 g"];
  }

  /** Two recipes in the cart, each asking for salt in grams (5 g and 10 g): the file holds
      one salt line with 15 g. */
  lemma SaltIsSummed()
    ensures FileText(Aggregate(Purchases([IngredientRow(1, 7, 5), IngredientRow(2, 7, 10)], SaltIngredients(),
                                         [Pair(3, 1), Pair(3, 2)], 3)))
         == Header + "\n • Salt: 15 g"
  {
    SaltPurchases();
    SaltGrouped();
    SaltFile();
  }
}
