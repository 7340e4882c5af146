/**
 * String operations of the JavaScript runtime that the client relies on:
 * String.prototype.trim, the `length` of a string, which counts UTF-16
 * code units rather than code points, and the `text || fallback` idiom that
 * both the client and the server use for absent or empty strings.
 */
module Text {

  import opened Wrappers

  predicate StartsWith(s: string, prefix: string) {
    |prefix| <= |s| && s[..|prefix|] == prefix
  }

  /** JavaScript and Python truthiness of an optional string: present and not empty. */
  predicate Truthy(s: Option<string>) {
    s.Some? && s.value != ""
  }

  /**
   * `text || fallback` (JavaScript) and `text or fallback` (Python) on a
   * string: the text unless it is empty. The result is one of the two, and a
   * non-empty fallback makes it non-empty.
   */
  function Or(text: string, fallback: string): (t: string)
    ensures t == text || t == fallback
    ensures text != "" ==> t == text
    ensures text == "" ==> t == fallback
    ensures fallback != "" ==> t != ""
  {
    if text != "" then text else fallback
  }

  /**
   * `field || fallback` for an optional string field: an absent field
   * (`undefined`) and an empty one both give the fallback.
   */
  function OrElse(field: Option<string>, fallback: string): (t: string)
    ensures t == fallback || Some(t) == field
    ensures Truthy(field) ==> t == field.value
    ensures !Truthy(field) ==> t == fallback
    ensures fallback != "" ==> t != ""
  {
    Or(if field.Some? then field.value else "", fallback)
  }

  /**
   * The code points String.prototype.trim removes: ECMAScript's WhiteSpace
   * (tab, vertical tab, form feed, space, no-break space, zero width no-break
   * space and the Unicode "Space_Separator" category) and LineTerminator
   * (line feed, carriage return, line and paragraph separators).
   */
  predicate IsWhitespace(c: char) {
    || c == '\t' || c == '\n' || c == '\U{000B}' || c == '\U{000C}' || c == '\r'
    || c == ' ' || c == '\U{00A0}' || c == '\U{1680}'
    || ('\U{2000}' <= c <= '\U{200A}')
    || c == '\U{2028}' || c == '\U{2029}' || c == '\U{202F}' || c == '\U{205F}'
    || c == '\U{3000}' || c == '\U{FEFF}'
  }

  predicate AllWhitespace(s: string) {
    forall i | 0 <= i < |s| :: IsWhitespace(s[i])
  }

  /** The first index at or after `i` that does not hold whitespace. */
  function SkipLeading(s: string, i: nat): (k: nat)
    requires i <= |s|
    ensures i <= k <= |s|
    ensures forall j | i <= j < k :: IsWhitespace(s[j])
    ensures k < |s| ==> !IsWhitespace(s[k])
    decreases |s| - i
  {
    if i == |s| || !IsWhitespace(s[i]) then i else SkipLeading(s, i + 1)
  }

  /** The end of `s[lo..j]` once its trailing whitespace is dropped. */
  function SkipTrailing(s: string, lo: nat, j: nat): (k: nat)
    requires lo <= j <= |s|
    ensures lo <= k <= j
    ensures forall m | k <= m < j :: IsWhitespace(s[m])
    ensures lo < k ==> !IsWhitespace(s[k - 1])
    decreases j - lo
  {
    if j == lo || !IsWhitespace(s[j - 1]) then j else SkipTrailing(s, lo, j - 1)
  }

  /** Where the trimmed string starts inside `s`. */
  function TrimStart(s: string): (a: nat)
    ensures a <= |s|
  {
    SkipLeading(s, 0)
  }

  /**
   * String.prototype.trim: `s` with its leading and trailing whitespace
   * removed. The result is the part of `s` between two whitespace-only
   * margins, and it neither begins nor ends with whitespace.
   */
  function Trim(s: string): (r: string)
    ensures TrimStart(s) + |r| <= |s|
    ensures r == s[TrimStart(s)..TrimStart(s) + |r|]
    ensures AllWhitespace(s[..TrimStart(s)]) && AllWhitespace(s[TrimStart(s) + |r|..])
    ensures r != [] ==> !IsWhitespace(r[0]) && !IsWhitespace(r[|r| - 1])
    ensures r == [] <==> AllWhitespace(s)
  {
    var a := SkipLeading(s, 0);
    var b := SkipTrailing(s, a, |s|);
    assert AllWhitespace(s) ==> b == a;
    s[a..b]
  }

  /** Trimming an already trimmed string changes nothing. */
  lemma TrimIdempotent(s: string)
    ensures Trim(Trim(s)) == Trim(s)
  {
    var r := Trim(s);
    if r != [] {
      assert SkipLeading(r, 0) == 0;
      assert SkipTrailing(r, 0, |r|) == |r|;
    }
  }

  /** The number of UTF-16 code units that encode `c`. */
  function Utf16Units(c: char): nat {
    if c as int > 0xFFFF then 2 else 1
  }

  /**
   * JavaScript's `s.length`: each code point outside the Basic Multilingual
   * Plane is a surrogate pair and counts twice.
   */
  function Utf16Length(s: string): (n: nat)
    ensures |s| <= n <= 2 * |s|
    ensures (forall i | 0 <= i < |s| :: s[i] as int <= 0xFFFF) ==> n == |s|
  {
    if s == [] then 0 else Utf16Units(s[0]) + Utf16Length(s[1..])
  }
}
