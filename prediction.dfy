/**
 * What `predictTransactionCategory` (`src/lib/services/openai.ts`) does
 * around the chat-completion call: the category list it writes into the
 * prompt, and the checks that the answer it parses names a category of the
 * supplied taxonomy and, optionally, one of that category's subcategories.
 */
module Prediction {
  import opened Js

  datatype Subcategory = Subcategory(id: int, name: string)

  /** A category; `subcategories` may be missing, which counts as none. */
  datatype Category = Category(id: int, name: string, subcategories: Option<seq<Subcategory>>)

  function SubcategoriesOf(c: Category): seq<Subcategory> {
    if c.subcategories.Some? then c.subcategories.value else []
  }

  // ---------------------------------------------------------------- the category list

  /** `      - ${sub.name} (id: ${sub.id})`. */
  function SubcategoryLine(s: Subcategory): string {
    "      - " + s.name + " (id: " + IntString(s.id) + ")"
  }

  /** `- ${cat.name} (id: ${cat.id})`. */
  function HeaderLine(c: Category): string {
    "- " + c.name + " (id: " + IntString(c.id) + ")"
  }

  const SubcategoriesHeading: string := "    Subcategories:"

  function SubcategoryLines(subs: seq<Subcategory>): (r: seq<string>)
    ensures |r| == |subs| && forall i :: 0 <= i < |subs| ==> r[i] == SubcategoryLine(subs[i])
  {
    seq(|subs|, i requires 0 <= i < |subs| => SubcategoryLine(subs[i]))
  }

  /** The text for one category as the template builds it. */
  function CategoryBlock(c: Category): string {
    var subs := SubcategoriesOf(c);
    HeaderLine(c) + (if |subs| > 0 then "\n" + SubcategoriesHeading + "\n" + Join(SubcategoryLines(subs), "\n") else "")
  }

  function CategoryBlocks(cs: seq<Category>): (r: seq<string>)
    ensures |r| == |cs| && forall i :: 0 <= i < |cs| ==> r[i] == CategoryBlock(cs[i])
  {
    seq(|cs|, i requires 0 <= i < |cs| => CategoryBlock(cs[i]))
  }

  /** `categoryList`: the category blocks joined with newlines. */
  function CategoryList(cs: seq<Category>): string {
    Join(CategoryBlocks(cs), "\n")
  }

  /** The lines of one category: its header, then, when it has subcategories, the heading and one line each. */
  function CategoryLines(c: Category): (r: seq<string>)
    ensures |r| >= 1 && r[0] == HeaderLine(c)
  {
    var subs := SubcategoriesOf(c);
    [HeaderLine(c)] + (if |subs| > 0 then [SubcategoriesHeading] + SubcategoryLines(subs) else [])
  }

  /** Every category's lines, one category after another in input order. */
  function Lines(cs: seq<Category>): seq<string> {
    if cs == [] then [] else CategoryLines(cs[0]) + Lines(cs[1..])
  }

  lemma {:induction false} JoinAppend(a: seq<string>, b: seq<string>, sep: string)
    requires a != [] && b != []
    ensures Join(a + b, sep) == Join(a, sep) + sep + Join(b, sep)
  {
    if |a| == 1 {
      assert (a + b)[1..] == b;
    } else {
      assert (a + b)[1..] == a[1..] + b;
      JoinAppend(a[1..], b, sep);
    }
  }

  lemma CategoryBlockLines(c: Category)
    ensures CategoryBlock(c) == Join(CategoryLines(c), "\n")
  {
    var subs := SubcategoriesOf(c);
    if |subs| > 0 {
      var rest := [SubcategoriesHeading] + SubcategoryLines(subs);
      JoinAppend([HeaderLine(c)], rest, "\n");
      JoinAppend([SubcategoriesHeading], SubcategoryLines(subs), "\n");
    }
  }

  /**
   * The category list is the flat sequence of lines joined with newlines:
   * one header line per category in input order, each followed by a
   * subcategory block only when the category has subcategories.
   */
  lemma {:induction false} CategoryListIsLines(cs: seq<Category>)
    ensures CategoryList(cs) == Join(Lines(cs), "\n")
  {
    if cs != [] {
      CategoryBlockLines(cs[0]);
      if |cs| == 1 {
        assert Lines(cs[1..]) == [];
        assert Lines(cs) == CategoryLines(cs[0]);
      } else {
        CategoryListIsLines(cs[1..]);
        assert CategoryBlocks(cs)[1..] == CategoryBlocks(cs[1..]);
        NonEmptyLines(cs[1..]);
        JoinAppend(CategoryLines(cs[0]), Lines(cs[1..]), "\n");
      }
    }
  }

  lemma NonEmptyLines(cs: seq<Category>)
    requires cs != []
    ensures Lines(cs) != [] && Lines(cs)[0] == HeaderLine(cs[0])
  {
  }

  /** One header line per category, in input order. */
  function HeaderLines(cs: seq<Category>): (r: seq<string>)
    ensures |r| == |cs|
    ensures forall i :: 0 <= i < |cs| ==> r[i] == HeaderLine(cs[i])
  {
    if cs == [] then [] else
      var tail := HeaderLines(cs[1..]);
      assert forall i :: 0 < i < |cs| ==> ([HeaderLine(cs[0])] + tail)[i] == tail[i - 1] && cs[1..][i - 1] == cs[i];
      [HeaderLine(cs[0])] + tail
  }

  /** Without subcategories, the list has exactly one line per category, in input order. */
  lemma HeadersOnly(cs: seq<Category>)
    requires forall i :: 0 <= i < |cs| ==> SubcategoriesOf(cs[i]) == []
    ensures |Lines(cs)| == |cs|
    ensures forall i :: 0 <= i < |cs| ==> Lines(cs)[i] == HeaderLine(cs[i])
  {
    LinesAreHeaders(cs);
  }

  lemma {:induction false} LinesAreHeaders(cs: seq<Category>)
    requires forall i :: 0 <= i < |cs| ==> SubcategoriesOf(cs[i]) == []
    ensures Lines(cs) == HeaderLines(cs)
  {
    if cs != [] {
      LinesAreHeaders(cs[1..]);
      HeaderOnlyLines(cs[0]);
    }
  }

  lemma HeaderOnlyLines(c: Category)
    requires SubcategoriesOf(c) == []
    ensures CategoryLines(c) == [HeaderLine(c)]
  {
  }

  // ---------------------------------------------------------------- validating the answer

  /** A JavaScript value as the answer's fields may hold it; numbers are integers here. */
  datatype JsValue = Undefined | Null | Num(n: int) | Str(s: string) | Bool(b: bool) | Obj

  /** The two fields read from `JSON.parse(content)`. */
  datatype Fields = Fields(categoryId: JsValue, subcategoryId: JsValue)

  datatype Prediction = Prediction(categoryId: int, subcategoryId: Option<int>)

  datatype Result<T> = Ok(value: T) | Err(message: string)

  /** `s.find(p)`: the first element that passes, if any. */
  function Find<T>(s: seq<T>, p: T -> bool): (r: Option<T>)
    ensures r.None? <==> forall i :: 0 <= i < |s| ==> !p(s[i])
    ensures r.Some? ==> exists i :: 0 <= i < |s| && s[i] == r.value && p(s[i]) && forall j :: 0 <= j < i ==> !p(s[j])
  {
    if s == [] then None
    else if p(s[0]) then Some(s[0])
    else
      var r := Find(s[1..], p);
      assert forall i :: 1 <= i < |s| ==> s[i] == s[1..][i - 1];
      r
  }

  /** The checks of the inner `try`, each with its own message. */
  function ValidateFields(f: Fields, cs: seq<Category>): Result<Prediction> {
    if !f.categoryId.Num? then Err("Invalid categoryId in AI response")
    else if !(f.subcategoryId.Null? || f.subcategoryId.Num?) then Err("Invalid subcategoryId in AI response")
    else
      var found := Find(cs, (c: Category) => c.id == f.categoryId.n);
      if found.None? then Err("Selected category ID does not exist")
      else if f.subcategoryId.Num? && Find(SubcategoriesOf(found.value), (s: Subcategory) => s.id == f.subcategoryId.n).None? then
        Err("Selected subcategory ID does not belong to the selected category")
      else Ok(Prediction(f.categoryId.n, if f.subcategoryId.Num? then Some(f.subcategoryId.n) else None))
  }

  /** The category `find` settles on: the first one carrying the id. */
  ghost predicate FirstWithId(cs: seq<Category>, i: int, id: int) {
    0 <= i < |cs| && cs[i].id == id && forall j :: 0 <= j < i ==> cs[j].id != id
  }

  /** The prediction names a supplied category and, if any subcategory, one of that category's. */
  ghost predicate InTaxonomy(p: Prediction, cs: seq<Category>) {
    exists i :: FirstWithId(cs, i, p.categoryId) &&
      (p.subcategoryId.Some? ==> exists k :: 0 <= k < |SubcategoriesOf(cs[i])| && SubcategoriesOf(cs[i])[k].id == p.subcategoryId.value)
  }

  /** `categoryId` is a number, and `subcategoryId` is null or a number: a missing field fails. */
  predicate WellTyped(f: Fields) {
    f.categoryId.Num? && (f.subcategoryId.Null? || f.subcategoryId.Num?)
  }

  /**
   * An answer is accepted exactly when its fields are well typed and the
   * pair lies in the taxonomy, and then it is the parsed pair unchanged.
   */
  lemma AcceptedIffInTaxonomy(f: Fields, cs: seq<Category>)
    ensures ValidateFields(f, cs).Ok? <==>
      WellTyped(f) && InTaxonomy(Prediction(f.categoryId.n, if f.subcategoryId.Num? then Some(f.subcategoryId.n) else None), cs)
    ensures ValidateFields(f, cs).Ok? ==>
      ValidateFields(f, cs).value.categoryId == f.categoryId.n &&
      (ValidateFields(f, cs).value.subcategoryId.None? <==> f.subcategoryId.Null?)
  {
    if WellTyped(f) {
      var p := Prediction(f.categoryId.n, if f.subcategoryId.Num? then Some(f.subcategoryId.n) else None);
      var found := Find(cs, (c: Category) => c.id == f.categoryId.n);
      if found.Some? {
        var i :| 0 <= i < |cs| && cs[i] == found.value && cs[i].id == f.categoryId.n && forall j :: 0 <= j < i ==> cs[j].id != f.categoryId.n;
        InTaxonomyAt(p, cs, i);
      } else {
        assert !InTaxonomy(p, cs);
      }
    }
  }

  /** Only the first category carrying the id decides membership. */
  lemma InTaxonomyAt(p: Prediction, cs: seq<Category>, i: int)
    requires FirstWithId(cs, i, p.categoryId)
    ensures InTaxonomy(p, cs) <==>
      (p.subcategoryId.Some? ==> exists k :: 0 <= k < |SubcategoriesOf(cs[i])| && SubcategoriesOf(cs[i])[k].id == p.subcategoryId.value)
  {
    if InTaxonomy(p, cs) {
      var i' :| FirstWithId(cs, i', p.categoryId) &&
        (p.subcategoryId.Some? ==> exists k :: 0 <= k < |SubcategoriesOf(cs[i'])| && SubcategoriesOf(cs[i'])[k].id == p.subcategoryId.value);
      assert i' == i;
    }
  }

  /**
   * The checks run in order: the type of `categoryId`, the type of
   * `subcategoryId` (so a missing one fails), the category's existence, the
   * subcategory's membership.
   */
  lemma ValidationOrder(f: Fields, cs: seq<Category>)
    ensures !f.categoryId.Num? ==> ValidateFields(f, cs) == Err("Invalid categoryId in AI response")
    ensures f.categoryId.Num? && f.subcategoryId.Undefined? ==> ValidateFields(f, cs) == Err("Invalid subcategoryId in AI response")
    ensures WellTyped(f) && (forall i :: 0 <= i < |cs| ==> cs[i].id != f.categoryId.n) ==>
      ValidateFields(f, cs) == Err("Selected category ID does not exist")
  {
  }

  // ---------------------------------------------------------------- the whole prediction

  /** The chat-completion response: whether it was ok, and the first choice's message content, if any. */
  datatype ApiResponse = ApiResponse(ok: bool, content: Option<string>)

  /**
   * `predictTransactionCategory` after the request. `parseJson` stands for
   * `JSON.parse` followed by reading the two fields; it answers `None` when
   * the content is not JSON or the fields cannot be read.
   */
  function Predict(response: ApiResponse, parseJson: string -> Option<Fields>, cs: seq<Category>): Result<Prediction> {
    if !response.ok then Err("Failed to predict category")
    else if response.content.None? || response.content.value == "" then Err("No prediction received from AI")
    else
      var parsed := parseJson(response.content.value);
      if parsed.None? || ValidateFields(parsed.value, cs).Err? then Err("Failed to parse AI prediction")
      else ValidateFields(parsed.value, cs)
  }

  /**
   * A failed response is reported first, then missing content; every parse
   * or validation failure after that surfaces as the one message 'Failed to
   * parse AI prediction'. A prediction is returned exactly when the response
   * is ok, has content, and its fields pass validation.
   */
  lemma PredictOutcomes(response: ApiResponse, parseJson: string -> Option<Fields>, cs: seq<Category>)
    ensures !response.ok ==> Predict(response, parseJson, cs) == Err("Failed to predict category")
    ensures response.ok && (response.content.None? || response.content.value == "") ==>
      Predict(response, parseJson, cs) == Err("No prediction received from AI")
    ensures Predict(response, parseJson, cs).Err? ==>
      Predict(response, parseJson, cs).message in {"Failed to predict category", "No prediction received from AI", "Failed to parse AI prediction"}
    ensures Predict(response, parseJson, cs).Ok? <==>
      response.ok && response.content.Some? && response.content.value != "" &&
      parseJson(response.content.value).Some? && ValidateFields(parseJson(response.content.value).value, cs).Ok?
    ensures Predict(response, parseJson, cs).Ok? ==>
      WellTyped(parseJson(response.content.value).value) && InTaxonomy(Predict(response, parseJson, cs).value, cs)
  {
    if Predict(response, parseJson, cs).Ok? {
      AcceptedIffInTaxonomy(parseJson(response.content.value).value, cs);
    }
  }
}
