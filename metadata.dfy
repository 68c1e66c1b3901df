/** The category metadata the handler loads once from the database: the
    categories, their indicators grouped by type, and their coding
    examples. Query results are passed in as sequences of rows, in the
    order the query returns them. */
module Metadata {
  import opened Json

  /** A row of `comb_categories`. */
  datatype Category = Category(id: int, name: string, description: string)

  /** An `indicator_type` value other than the two the loader knows. */
  type OtherColumn = c: string | c != "positive" && c != "negative" witness ""

  /** The free-text `indicator_type` column: 'positive', 'negative', or any
      other string, each with exactly one encoding. */
  datatype IndicatorKind = Positive | Negative | OtherKind(column: OtherColumn)

  /** A row of `indicators`. */
  datatype IndicatorRow = IndicatorRow(categoryId: int, text: string, kind: IndicatorKind)

  /** A row of `coding_examples`; the explanation column is nullable. */
  datatype ExampleRow = ExampleRow(categoryId: int, text: string, explanation: Option<string>)

  /** An entry of a category's example list: `{'text': ..., 'explanation': ...}`. */
  datatype Example = Example(text: string, explanation: Option<string>)

  /** A category's `{'positive': [...], 'negative': [...]}` lists. */
  datatype IndicatorGroups = IndicatorGroups(positive: seq<string>, negative: seq<string>)

  /** The keys of the handler's `categories` dict. */
  function Ids(categories: seq<Category>): set<int> {
    set c | c in categories :: c.id
  }

  /** One more category adds its id to the keys. */
  lemma IdsPrefix(categories: seq<Category>, i: nat)
    requires i < |categories|
    ensures Ids(categories[..i + 1]) == Ids(categories[..i]) + {categories[i].id}
  {
    assert categories[..i + 1] == categories[..i] + [categories[i]];
  }

  /** The category list is a dict keyed by primary key: no id twice. */
  ghost predicate DistinctIds(categories: seq<Category>) {
    forall j, k :: 0 <= j < k < |categories| ==> categories[j].id != categories[k].id
  }

  /** The texts of the rows of category `id` and type `kind`, in row order. */
  function TextsOf(rows: seq<IndicatorRow>, id: int, kind: IndicatorKind): seq<string> {
    if rows == [] then []
    else
      var last := rows[|rows| - 1];
      TextsOf(rows[..|rows| - 1], id, kind) +
        (if last.categoryId == id && last.kind == kind then [last.text] else [])
  }

  /** The examples of category `id`, in row order. */
  function ExamplesOf(rows: seq<ExampleRow>, id: int): seq<Example> {
    if rows == [] then []
    else
      var last := rows[|rows| - 1];
      ExamplesOf(rows[..|rows| - 1], id) +
        (if last.categoryId == id then [Example(last.text, last.explanation)] else [])
  }

  /** Reading one more row extends the texts by that row's text, if it belongs. */
  lemma TextsOfPrefix(rows: seq<IndicatorRow>, j: nat, id: int, kind: IndicatorKind)
    requires j < |rows|
    ensures TextsOf(rows[..j + 1], id, kind) == TextsOf(rows[..j], id, kind) +
      (if rows[j].categoryId == id && rows[j].kind == kind then [rows[j].text] else [])
  {
    assert rows[..j + 1][..j] == rows[..j];
  }

  /** Reading one more row extends the examples by that row's example, if it belongs. */
  lemma ExamplesOfPrefix(rows: seq<ExampleRow>, j: nat, id: int)
    requires j < |rows|
    ensures ExamplesOf(rows[..j + 1], id) == ExamplesOf(rows[..j], id) +
      (if rows[j].categoryId == id then [Example(rows[j].text, rows[j].explanation)] else [])
  {
    assert rows[..j + 1][..j] == rows[..j];
  }

  /** The two lists `_load_indicators` builds for category `id` from `rows`. */
  function GroupsOf(rows: seq<IndicatorRow>, id: int): IndicatorGroups {
    IndicatorGroups(TextsOf(rows, id, Positive), TextsOf(rows, id, Negative))
  }

  /** Appending row `j`'s text to the list of its category and type turns
      the lists built from `rows[..j]` into those built from `rows[..j + 1]`. */
  lemma AppendIndicatorStep(before: map<int, IndicatorGroups>, after: map<int, IndicatorGroups>,
                            rows: seq<IndicatorRow>, j: nat)
    requires j < |rows| && rows[j].categoryId in before && !rows[j].kind.OtherKind?
    requires forall id :: id in before ==> before[id] == GroupsOf(rows[..j], id)
    requires var g := before[rows[j].categoryId];
      after == before[rows[j].categoryId :=
        if rows[j].kind == Positive then g.(positive := g.positive + [rows[j].text])
        else g.(negative := g.negative + [rows[j].text])]
    ensures after.Keys == before.Keys
    ensures forall id :: id in after ==> after[id] == GroupsOf(rows[..j + 1], id)
  {
    forall id | id in after ensures after[id] == GroupsOf(rows[..j + 1], id) {
      TextsOfPrefix(rows, j, id, Positive);
      TextsOfPrefix(rows, j, id, Negative);
    }
  }

  /** `indicators[indicator.category_id][indicator.indicator_type]` exists. */
  predicate IndicatorFits(categories: seq<Category>, row: IndicatorRow) {
    row.categoryId in Ids(categories) && !row.kind.OtherKind?
  }

  /** A text is listed for a category and type exactly when some row of
      that category and type carries it. */
  lemma {:induction false} TextsOfMember(rows: seq<IndicatorRow>, id: int, kind: IndicatorKind, t: string)
    ensures t in TextsOf(rows, id, kind) <==>
      exists k :: 0 <= k < |rows| && rows[k] == IndicatorRow(id, t, kind)
  {
    if rows != [] {
      var init := rows[..|rows| - 1];
      TextsOfMember(init, id, kind, t);
      if exists k :: 0 <= k < |init| && init[k] == IndicatorRow(id, t, kind) {
        var k :| 0 <= k < |init| && init[k] == IndicatorRow(id, t, kind);
        assert rows[k] == init[k];
      }
      if exists k :: 0 <= k < |rows| && rows[k] == IndicatorRow(id, t, kind) {
        var k :| 0 <= k < |rows| && rows[k] == IndicatorRow(id, t, kind);
        if k < |init| {
          assert init[k] == rows[k];
        }
      }
    }
  }

  /** Rows keep their query order: the texts of a concatenation of row
      lists are the concatenated texts. */
  lemma {:induction false} TextsOfAppend(a: seq<IndicatorRow>, b: seq<IndicatorRow>, id: int, kind: IndicatorKind)
    ensures TextsOf(a + b, id, kind) == TextsOf(a, id, kind) + TextsOf(b, id, kind)
  {
    if b == [] {
      assert a + b == a;
    } else {
      var b0 := b[..|b| - 1];
      assert (a + b)[..|a + b| - 1] == a + b0;
      TextsOfAppend(a, b0, id, kind);
    }
  }

  /** Example rows keep their query order: the examples of a concatenation
      of row lists are the concatenated examples. */
  lemma {:induction false} ExamplesOfAppend(a: seq<ExampleRow>, b: seq<ExampleRow>, id: int)
    ensures ExamplesOf(a + b, id) == ExamplesOf(a, id) + ExamplesOf(b, id)
  {
    if b == [] {
      assert a + b == a;
    } else {
      var b0 := b[..|b| - 1];
      assert (a + b)[..|a + b| - 1] == a + b0;
      ExamplesOfAppend(a, b0, id);
    }
  }

  /** A single row gives its example to its own category, and nothing to
      the others. */
  lemma ExamplesOfSingle(row: ExampleRow, id: int)
    ensures ExamplesOf([row], id) == if row.categoryId == id then [Example(row.text, row.explanation)] else []
  {
    assert [row][..0] == [];
  }

  /** An example is listed for a category exactly when some row of that
      category carries it. */
  lemma {:induction false} ExamplesOfMember(rows: seq<ExampleRow>, id: int, x: Example)
    ensures x in ExamplesOf(rows, id) <==>
      exists k :: 0 <= k < |rows| && rows[k] == ExampleRow(id, x.text, x.explanation)
  {
    if rows != [] {
      var init := rows[..|rows| - 1];
      ExamplesOfMember(init, id, x);
      if exists k :: 0 <= k < |init| && init[k] == ExampleRow(id, x.text, x.explanation) {
        var k :| 0 <= k < |init| && init[k] == ExampleRow(id, x.text, x.explanation);
        assert rows[k] == init[k];
      }
      if exists k :: 0 <= k < |rows| && rows[k] == ExampleRow(id, x.text, x.explanation) {
        var k :| 0 <= k < |rows| && rows[k] == ExampleRow(id, x.text, x.explanation);
        if k < |init| {
          assert init[k] == rows[k];
        }
      }
    }
  }

  /** `_load_indicators`: an empty pair of lists for every category, then
      each indicator row appended to its category's list of its type.
      `None` is the `KeyError` raised by a row whose category is unknown or
      whose type is neither 'positive' nor 'negative'. */
  method LoadIndicators(categories: seq<Category>, rows: seq<IndicatorRow>)
    returns (r: Option<map<int, IndicatorGroups>>)
    ensures r.Some? <==> forall k :: 0 <= k < |rows| ==> IndicatorFits(categories, rows[k])
    ensures r.Some? ==> r.value.Keys == Ids(categories)
    ensures r.Some? ==> forall id :: id in r.value ==> r.value[id] == GroupsOf(rows, id)
  {
    var indicators: map<int, IndicatorGroups> := map[];
    var i := 0;
    while i < |categories|
      invariant 0 <= i <= |categories|
      invariant indicators.Keys == Ids(categories[..i])
      invariant forall id :: id in indicators ==> indicators[id] == IndicatorGroups([], [])
    {
      IdsPrefix(categories, i);
      indicators := indicators[categories[i].id := IndicatorGroups([], [])];
      i := i + 1;
    }
    assert categories[..i] == categories;
    var j := 0;
    while j < |rows|
      invariant 0 <= j <= |rows|
      invariant forall k :: 0 <= k < j ==> IndicatorFits(categories, rows[k])
      invariant indicators.Keys == Ids(categories)
      invariant forall id :: id in indicators ==> indicators[id] == GroupsOf(rows[..j], id)
    {
      var row := rows[j];
      if row.categoryId !in indicators || row.kind.OtherKind? {
        return None;
      }
      var groups := indicators[row.categoryId];
      if row.kind == Positive {
        groups := groups.(positive := groups.positive + [row.text]);
      } else {
        groups := groups.(negative := groups.negative + [row.text]);
      }
      ghost var before := indicators;
      indicators := indicators[row.categoryId := groups];
      AppendIndicatorStep(before, indicators, rows, j);
      j := j + 1;
    }
    assert rows[..j] == rows;
    return Some(indicators);
  }

  /** `_load_examples`: an empty list for every category, then each example
      row appended to its category's list. `None` is the `KeyError` raised
      by a row whose category is unknown. */
  method LoadExamples(categories: seq<Category>, rows: seq<ExampleRow>)
    returns (r: Option<map<int, seq<Example>>>)
    ensures r.Some? <==> forall k :: 0 <= k < |rows| ==> rows[k].categoryId in Ids(categories)
    ensures r.Some? ==> r.value.Keys == Ids(categories)
    ensures r.Some? ==> forall id :: id in r.value ==> r.value[id] == ExamplesOf(rows, id)
  {
    var examples: map<int, seq<Example>> := map[];
    var i := 0;
    while i < |categories|
      invariant 0 <= i <= |categories|
      invariant examples.Keys == Ids(categories[..i])
      invariant forall id :: id in examples ==> examples[id] == []
    {
      IdsPrefix(categories, i);
      examples := examples[categories[i].id := []];
      i := i + 1;
    }
    assert categories[..i] == categories;
    var j := 0;
    while j < |rows|
      invariant 0 <= j <= |rows|
      invariant forall k :: 0 <= k < j ==> rows[k].categoryId in Ids(categories)
      invariant examples.Keys == Ids(categories)
      invariant forall id :: id in examples ==> examples[id] == ExamplesOf(rows[..j], id)
    {
      var row := rows[j];
      if row.categoryId !in examples {
        return None;
      }
      examples := examples[row.categoryId := examples[row.categoryId] + [Example(row.text, row.explanation)]];
      forall id | id in examples ensures examples[id] == ExamplesOf(rows[..j + 1], id) {
        ExamplesOfPrefix(rows, j, id);
      }
      j := j + 1;
    }
    assert rows[..j] == rows;
    return Some(examples);
  }

  /** `category_id_by_name`: a dict comprehension over the categories in
      order, so a name shared by several categories ends up with the id of
      the last of them. */
  function IdByName(categories: seq<Category>): map<string, int> {
    if categories == [] then map[]
    else
      var last := categories[|categories| - 1];
      IdByName(categories[..|categories| - 1])[last.name := last.id]
  }

  /** Exactly the category names are keys. */
  lemma {:induction false} IdByNameKeys(categories: seq<Category>, n: string)
    ensures n in IdByName(categories) <==> exists k :: 0 <= k < |categories| && categories[k].name == n
  {
    if categories != [] {
      var init := categories[..|categories| - 1];
      IdByNameKeys(init, n);
      if exists k :: 0 <= k < |init| && init[k].name == n {
        var k :| 0 <= k < |init| && init[k].name == n;
        assert categories[k] == init[k];
      }
      if exists k :: 0 <= k < |categories| && categories[k].name == n {
        var k :| 0 <= k < |categories| && categories[k].name == n;
        if k < |init| {
          assert init[k] == categories[k];
        }
      }
    }
  }

  /** Every name is looked up to the id of the last category carrying it. */
  lemma {:induction false} IdByNameSpec(categories: seq<Category>, n: string)
    requires n in IdByName(categories)
    ensures exists k ::
      0 <= k < |categories| && categories[k].name == n && categories[k].id == IdByName(categories)[n] &&
      (forall k' :: k < k' < |categories| ==> categories[k'].name != n)
  {
    var init := categories[..|categories| - 1];
    var last := categories[|categories| - 1];
    if last.name != n {
      IdByNameSpec(init, n);
      var k :| 0 <= k < |init| &&
        init[k].name == n && init[k].id == IdByName(init)[n] &&
        (forall k' :: k < k' < |init| ==> init[k'].name != n);
      assert categories[k] == init[k];
    } else {
      assert categories[|categories| - 1].id == IdByName(categories)[n];
    }
  }

  /** When the names are distinct, each name is looked up to its own
      category's id. */
  lemma IdByNameDistinct(categories: seq<Category>, k: nat)
    requires k < |categories|
    requires forall i, j :: 0 <= i < j < |categories| ==> categories[i].name != categories[j].name
    ensures categories[k].name in IdByName(categories)
    ensures IdByName(categories)[categories[k].name] == categories[k].id
  {
    IdByNameKeys(categories, categories[k].name);
    IdByNameSpec(categories, categories[k].name);
  }
}
