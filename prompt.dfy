/** The prompt `LlamaModelHandler._create_coding_prompt` builds: the
    categories with their descriptions, at most three positive indicators
    and at most one example per category, the output instructions, and the
    input text in double quotes. */
module Prompt {
  import opened Metadata

  const Opening: string :=
    "You are an expert qualitative researcher coding interview transcripts using the COM-B framework. "
  const CategoryCount: string := "The COM-B framework consists of 6 categories:\n\n"
  const IndicatorsHeading: string := "\nKey indicators for each category:\n\n"
  const ExamplesHeading: string := "Example for each category:\n\n"

  /** The output instructions, ending just before the quoted input text. */
  const Instructions: string :=
    "\n" +
    "Analyze the following text and identify the TOP TWO COM-B categories it fits into. For each identified category:\n" +
    "1. Explain briefly why it fits that category\n" +
    "2. Provide a confidence level (0-100%)\n" +
    "3. Only include categories where your confidence is ABOVE 60%\n" +
    "4. Format your response as JSON with this structure:\n" +
    "{\n" +
    "    \"categories\": [\n" +
    "        {\n" +
    "            \"category\": \"Category Name\",\n" +
    "            \"explanation\": \"Brief explanation of why it fits that category\",\n" +
    "            \"confidence\": 85\n" +
    "        },\n" +
    "        // Additional categories if applicable\n" +
    "    ]\n" +
    "}\n" +
    "\n" +
    "Text to analyze:\n"

  /** Every category has an entry in `m`, as every category id is a key of
      the handler's indicator and example dicts. */
  predicate Covers<V>(categories: seq<Category>, m: map<int, V>) {
    forall k :: 0 <= k < |categories| ==> categories[k].id in m
  }

  /** `f"{category['name']}: {category['description']}\n"` */
  function CategoryLine(c: Category): string {
    c.name + ": " + c.description + "\n"
  }

  function CategoryLines(categories: seq<Category>): string {
    if categories == [] then ""
    else CategoryLines(categories[..|categories| - 1]) + CategoryLine(categories[|categories| - 1])
  }

  /** Python's `xs[:3]`. */
  function FirstThree(xs: seq<string>): (r: seq<string>)
    ensures |r| == if |xs| < 3 then |xs| else 3
    ensures r == xs[..|r|]
  {
    if |xs| <= 3 then xs else xs[..3]
  }

  /** `f"- {indicator}\n"` */
  function Bullet(indicator: string): string {
    "- " + indicator + "\n"
  }

  function Bullets(indicators: seq<string>): string {
    if indicators == [] then ""
    else Bullets(indicators[..|indicators| - 1]) + Bullet(indicators[|indicators| - 1])
  }

  /** A category's name line, its first three positive indicators and a
      blank line; the negative ones are not shown. */
  function IndicatorBlock(c: Category, g: IndicatorGroups): string {
    c.name + ":\n" + Bullets(FirstThree(g.positive)) + "\n"
  }

  function IndicatorSection(categories: seq<Category>, indicators: map<int, IndicatorGroups>): string
    requires Covers(categories, indicators)
  {
    if categories == [] then ""
    else
      var last := categories[|categories| - 1];
      IndicatorSection(categories[..|categories| - 1], indicators) + IndicatorBlock(last, indicators[last.id])
  }

  /** A category's first example in quotes, or nothing when it has none. */
  function ExampleBlock(c: Category, examples: seq<Example>): string {
    if examples == [] then ""
    else c.name + " example: \"" + examples[0].text + "\"\n\n"
  }

  function ExampleSection(categories: seq<Category>, examples: map<int, seq<Example>>): string
    requires Covers(categories, examples)
  {
    if categories == [] then ""
    else
      var last := categories[|categories| - 1];
      ExampleSection(categories[..|categories| - 1], examples) + ExampleBlock(last, examples[last.id])
  }

  /** `f"\"{text}\"\n"` */
  function Quoted(text: string): string {
    "\"" + text + "\"\n"
  }

  /** The whole prompt, section by section. */
  function PromptText(categories: seq<Category>, indicators: map<int, IndicatorGroups>,
                      examples: map<int, seq<Example>>, text: string): string
    requires Covers(categories, indicators) && Covers(categories, examples)
  {
    Opening + CategoryCount + CategoryLines(categories) +
    IndicatorsHeading + IndicatorSection(categories, indicators) +
    ExamplesHeading + ExampleSection(categories, examples) +
    Instructions + Quoted(text)
  }

  /** `q` occurs in `p` starting at index `i`. */
  ghost predicate OccursAt(p: string, q: string, i: int) {
    0 <= i <= |p| - |q| && p[i..i + |q|] == q
  }

  /** `q` occurs in `p` as a contiguous piece. */
  ghost predicate Contains(p: string, q: string) {
    exists i :: OccursAt(p, q, i)
  }

  lemma ContainsOwn(q: string)
    ensures Contains(q, q)
  {
    assert q[0..|q|] == q;
    assert OccursAt(q, q, 0);
  }

  lemma ContainsLeft(a: string, b: string, q: string)
    requires Contains(a, q)
    ensures Contains(a + b, q)
  {
    var i :| OccursAt(a, q, i);
    assert (a + b)[i..i + |q|] == a[i..i + |q|];
    assert OccursAt(a + b, q, i);
  }

  lemma ContainsRight(a: string, b: string, q: string)
    requires Contains(b, q)
    ensures Contains(a + b, q)
  {
    var i :| OccursAt(b, q, i);
    assert (a + b)[|a| + i..|a| + i + |q|] == b[i..i + |q|];
    assert OccursAt(a + b, q, |a| + i);
  }

  /** The prompt ends with the input text in double quotes and a newline. */
  lemma PromptEndsWithQuotedText(categories: seq<Category>, indicators: map<int, IndicatorGroups>,
                                 examples: map<int, seq<Example>>, text: string)
    requires Covers(categories, indicators) && Covers(categories, examples)
    ensures var p := PromptText(categories, indicators, examples, text);
      |p| >= |text| + 3 && p[|p| - |text| - 3..] == "\"" + text + "\"\n"
  {
  }

  lemma {:induction false} CategoryLinesContain(categories: seq<Category>, k: nat)
    requires k < |categories|
    ensures Contains(CategoryLines(categories), CategoryLine(categories[k]))
  {
    var init := categories[..|categories| - 1];
    var line := CategoryLine(categories[|categories| - 1]);
    if k == |categories| - 1 {
      ContainsOwn(line);
      ContainsRight(CategoryLines(init), line, line);
    } else {
      CategoryLinesContain(init, k);
      ContainsLeft(CategoryLines(init), line, CategoryLine(categories[k]));
    }
  }

  lemma {:induction false} IndicatorSectionContains(categories: seq<Category>,
                                                    indicators: map<int, IndicatorGroups>, k: nat)
    requires Covers(categories, indicators) && k < |categories|
    ensures Contains(IndicatorSection(categories, indicators),
                     IndicatorBlock(categories[k], indicators[categories[k].id]))
  {
    var init := categories[..|categories| - 1];
    var last := categories[|categories| - 1];
    var block := IndicatorBlock(last, indicators[last.id]);
    if k == |categories| - 1 {
      ContainsOwn(block);
      ContainsRight(IndicatorSection(init, indicators), block, block);
    } else {
      IndicatorSectionContains(init, indicators, k);
      ContainsLeft(IndicatorSection(init, indicators), block,
                   IndicatorBlock(categories[k], indicators[categories[k].id]));
    }
  }

  lemma {:induction false} ExampleSectionContains(categories: seq<Category>,
                                                  examples: map<int, seq<Example>>, k: nat)
    requires Covers(categories, examples) && k < |categories|
    ensures Contains(ExampleSection(categories, examples),
                     ExampleBlock(categories[k], examples[categories[k].id]))
  {
    var init := categories[..|categories| - 1];
    var last := categories[|categories| - 1];
    var block := ExampleBlock(last, examples[last.id]);
    if k == |categories| - 1 {
      ContainsOwn(block);
      ContainsRight(ExampleSection(init, examples), block, block);
    } else {
      ExampleSectionContains(init, examples, k);
      ContainsLeft(ExampleSection(init, examples), block,
                   ExampleBlock(categories[k], examples[categories[k].id]));
    }
  }

  /** Every category appears with its description, with its block of
      leading positive indicators, and, when it has examples, with its
      first example. */
  lemma PromptShowsEveryCategory(categories: seq<Category>, indicators: map<int, IndicatorGroups>,
                                 examples: map<int, seq<Example>>, text: string, k: nat)
    requires Covers(categories, indicators) && Covers(categories, examples) && k < |categories|
    ensures var p := PromptText(categories, indicators, examples, text);
      var c := categories[k];
      Contains(p, CategoryLine(c)) &&
      Contains(p, IndicatorBlock(c, indicators[c.id])) &&
      (examples[c.id] != [] ==> Contains(p, ExampleBlock(c, examples[c.id])))
  {
    var c := categories[k];
    var s2 := Opening + CategoryCount;
    var s3 := s2 + CategoryLines(categories);
    var s4 := s3 + IndicatorsHeading;
    var s5 := s4 + IndicatorSection(categories, indicators);
    var s6 := s5 + ExamplesHeading;
    var s7 := s6 + ExampleSection(categories, examples);
    var s8 := s7 + Instructions;
    var q := Quoted(text);
    CategoryLinesContain(categories, k);
    var line := CategoryLine(c);
    ContainsRight(s2, CategoryLines(categories), line);
    ContainsLeft(s3, IndicatorsHeading, line);
    ContainsLeft(s4, IndicatorSection(categories, indicators), line);
    ContainsLeft(s5, ExamplesHeading, line);
    ContainsLeft(s6, ExampleSection(categories, examples), line);
    ContainsLeft(s7, Instructions, line);
    ContainsLeft(s8, q, line);
    IndicatorSectionContains(categories, indicators, k);
    var block := IndicatorBlock(c, indicators[c.id]);
    ContainsRight(s4, IndicatorSection(categories, indicators), block);
    ContainsLeft(s5, ExamplesHeading, block);
    ContainsLeft(s6, ExampleSection(categories, examples), block);
    ContainsLeft(s7, Instructions, block);
    ContainsLeft(s8, q, block);
    ExampleSectionContains(categories, examples, k);
    var ex := ExampleBlock(c, examples[c.id]);
    ContainsRight(s6, ExampleSection(categories, examples), ex);
    ContainsLeft(s7, Instructions, ex);
    ContainsLeft(s8, q, ex);
  }

  lemma {:induction false} IndicatorSectionSame(categories: seq<Category>,
                                                i1: map<int, IndicatorGroups>, i2: map<int, IndicatorGroups>)
    requires Covers(categories, i1) && Covers(categories, i2)
    requires forall k :: 0 <= k < |categories| ==>
      FirstThree(i1[categories[k].id].positive) == FirstThree(i2[categories[k].id].positive)
    ensures IndicatorSection(categories, i1) == IndicatorSection(categories, i2)
  {
    if categories != [] {
      IndicatorSectionSame(categories[..|categories| - 1], i1, i2);
    }
  }

  lemma {:induction false} ExampleSectionSame(categories: seq<Category>,
                                              e1: map<int, seq<Example>>, e2: map<int, seq<Example>>)
    requires Covers(categories, e1) && Covers(categories, e2)
    requires forall k :: 0 <= k < |categories| ==>
      (e1[categories[k].id] == [] <==> e2[categories[k].id] == []) &&
      (e1[categories[k].id] != [] ==> e1[categories[k].id][0].text == e2[categories[k].id][0].text)
    ensures ExampleSection(categories, e1) == ExampleSection(categories, e2)
  {
    if categories != [] {
      ExampleSectionSame(categories[..|categories| - 1], e1, e2);
    }
  }

  /** Only the first three positive indicators of each category reach the
      prompt: any two indicator dicts that agree on those give the same
      prompt, whatever their negative lists and later entries hold. */
  lemma PromptShowsOnlyLeadingPositives(categories: seq<Category>,
                                        i1: map<int, IndicatorGroups>, i2: map<int, IndicatorGroups>,
                                        examples: map<int, seq<Example>>, text: string)
    requires Covers(categories, i1) && Covers(categories, i2) && Covers(categories, examples)
    requires forall k :: 0 <= k < |categories| ==>
      FirstThree(i1[categories[k].id].positive) == FirstThree(i2[categories[k].id].positive)
    ensures PromptText(categories, i1, examples, text) == PromptText(categories, i2, examples, text)
  {
    IndicatorSectionSame(categories, i1, i2);
  }

  /** Only the text of each category's first example reaches the prompt. */
  lemma PromptShowsOnlyFirstExample(categories: seq<Category>, indicators: map<int, IndicatorGroups>,
                                    e1: map<int, seq<Example>>, e2: map<int, seq<Example>>, text: string)
    requires Covers(categories, indicators) && Covers(categories, e1) && Covers(categories, e2)
    requires forall k :: 0 <= k < |categories| ==>
      (e1[categories[k].id] == [] <==> e2[categories[k].id] == []) &&
      (e1[categories[k].id] != [] ==> e1[categories[k].id][0].text == e2[categories[k].id][0].text)
    ensures PromptText(categories, indicators, e1, text) == PromptText(categories, indicators, e2, text)
  {
    ExampleSectionSame(categories, e1, e2);
  }
}
