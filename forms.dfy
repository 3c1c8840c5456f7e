/**
 * Form fields and URL search parameters as the handlers read them:
 * `formData.get(name)` and `url.searchParams.get(name)` give a
 * string, or null when the value is missing, and the checks that guard the
 * actions test JavaScript truthiness.
 */
module Forms {
  import opened Js

  /** `if (field)`: present and not the empty string. */
  predicate Truthy(field: Option<string>) {
    field.Some? && field.value != ""
  }

  /** `value || fallback`. */
  function OrElse(value: Option<string>, fallback: string): (r: string)
    ensures Truthy(value) ==> r == value.value
    ensures !Truthy(value) ==> r == fallback
  {
    if Truthy(value) then value.value else fallback
  }

  /** `formData.get(name)?.toString().trim()`. */
  function Trimmed(field: Option<string>): (r: Option<string>)
    ensures r.Some? <==> field.Some?
    ensures r.Some? ==> r.value == Trim(field.value)
  {
    if field.Some? then Some(Trim(field.value)) else None
  }

  /**
   * The row id a form value selects once the database reads it as a number:
   * `None` when there is no value or it is not an integer spelling, and then
   * the statement that uses it fails.
   */
  function RowId(field: Option<string>): Option<int> {
    if field.Some? && field.value != "" then NumberOf(field.value) else None
  }

  /** A form value written out from a row id selects that row. */
  lemma RowIdOfIntString(n: int)
    ensures RowId(Some(IntString(n))) == Some(n)
  {
    NumberOfIntString(n);
  }

  /** `parseInt('1')`, the default page. */
  lemma ParseIntOfOne()
    ensures ParseInt("1") == Some(1)
  {
    var d1 := ['1'];
    assert RadixValue(d1, 10) == 1 by { assert d1[..0] == []; }
    ParseIntPrefix(d1, []);
    assert d1 + [] == "1";
  }

  /** A field made only of white space trims to the empty string, which a form guard reads as missing. */
  lemma BlankFieldIsMissing(field: string)
    requires forall i :: 0 <= i < |field| ==> IsWhitespace(field[i])
    ensures Trimmed(Some(field)) == Some("")
    ensures !Truthy(Trimmed(Some(field)))
  {
  }

  /** A name of one ideographic space (U+3000) is refused like a missing name. */
  lemma IdeographicSpaceIsBlank()
    ensures !Truthy(Trimmed(Some("\U{3000}")))
  {
    BlankFieldIsMissing("\U{3000}");
  }
}
