/**
 * The two string validators the document schemas use, as the document store
 * applies them when a document is saved.
 */
module Schema {

  import opened Wrappers

  /** `required: true` on a String field: the value is present and not the empty string. */
  predicate Required(s: Option<string>) {
    s.Some? && s.value != ""
  }

  /** The UTF-16 code units JavaScript stores `c` in: two for a character above U+FFFF. */
  function CodeUnits(c: char): nat {
    if c <= '\U{FFFF}' then 1 else 2
  }

  /**
   * `s.length` in JavaScript, which `maxlength` compares: the number of UTF-16
   * code units, so never less than the number of characters and at most twice it.
   */
  function JsLength(s: string): (n: nat)
    ensures |s| <= n <= 2 * |s|
  {
    if s == [] then 0 else CodeUnits(s[0]) + JsLength(s[1..])
  }

  /** The JavaScript length of a concatenation is the sum of the lengths. */
  lemma {:induction false} JsLengthAppend(a: string, b: string)
    ensures JsLength(a + b) == JsLength(a) + JsLength(b)
  {
    if a == [] {
      assert a + b == b;
    } else {
      assert (a + b)[0] == a[0];
      assert (a + b)[1..] == a[1..] + b;
      JsLengthAppend(a[1..], b);
    }
  }

  /** The JavaScript length equals the number of characters exactly when none lies above U+FFFF. */
  lemma {:induction false} JsLengthBmp(s: string)
    ensures JsLength(s) == |s| <==> forall i :: 0 <= i < |s| ==> s[i] <= '\U{FFFF}'
  {
    if s != [] {
      JsLengthBmp(s[1..]);
      assert forall i :: 1 <= i < |s| ==> s[i] == s[1..][i - 1];
    }
  }

  /** A text made only of characters above U+FFFF is twice as long in JavaScript. */
  lemma {:induction false} JsLengthAstral(s: string)
    requires forall i :: 0 <= i < |s| ==> s[i] > '\U{FFFF}'
    ensures JsLength(s) == 2 * |s|
  {
    if s != [] {
      assert forall i :: 0 <= i < |s[1..]| ==> s[1..][i] == s[i + 1];
      JsLengthAstral(s[1..]);
    }
  }

  /** `maxlength: n` on a String field: at most `n` UTF-16 code units. */
  predicate MaxLength(s: string, n: nat) {
    JsLength(s) <= n
  }

  /** `maxlength: n` on an optional String field; an absent value passes. */
  predicate WithinLength(s: Option<string>, n: nat) {
    s.None? || MaxLength(s.value, n)
  }

  /**
   * JavaScript truthiness of an optional string read from a request body:
   * `undefined`, `null` and `""` are falsy.
   */
  predicate Truthy(s: Option<string>) {
    s.Some? && s.value != ""
  }

  /** `s || ""` on an optional string. */
  function OrEmpty(s: Option<string>): (r: string)
    ensures Truthy(s) ==> r == s.value
    ensures !Truthy(s) ==> r == ""
  {
    s.GetOr("")
  }
}
