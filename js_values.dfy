/** JavaScript values as the service's code sees them: optional values,
    string properties of parsed JSON that may be missing or null, and the
    two string conversions the code relies on (template-literal
    stringification and `toLowerCase`). */
module JsValues {

  /** `undefined`/`null` versus a present value, where the code does not
      tell the two apart (`??` and optional chaining treat them alike). */
  datatype Option<T> = None | Some(value: T) {
    /** `this ?? default` */
    function GetOr(default: T): T {
      match this
      case Some(v) => v
      case None => default
    }
  }

  /** A string-valued property of a JSON object where `undefined` and
      `null` give different results (template literals print them as
      "undefined" and "null"; destructuring defaults apply only to
      `undefined`). */
  datatype JsString = Undefined | Null | Str(s: string)

  /** `${v}` for a string property. */
  function Show(v: JsString): (r: string)
    ensures v.Str? ==> r == v.s
  {
    match v
    case Undefined => "undefined"
    case Null => "null"
    case Str(s) => s
  }

  /** `${v}` for an optional string (absent prints as "undefined"). */
  function ShowOption(v: Option<string>): (r: string)
    ensures v.Some? ==> r == v.value
  {
    match v
    case None => "undefined"
    case Some(s) => s
  }

  /** A string is truthy in JavaScript exactly when it is present and non-empty. */
  predicate Truthy(v: Option<string>) {
    v.Some? && v.value != ""
  }

  /** Lower-casing of one character; only A-Z change (see README). */
  function LowerChar(c: char): char {
    if 'A' <= c <= 'Z' then (c as int + 32) as char else c
  }

  /** `s.toLowerCase()` restricted to the ASCII letters. */
  function ToLower(s: string): string {
    if s == [] then [] else [LowerChar(s[0])] + ToLower(s[1..])
  }

  /** Lower-casing works character by character and keeps the length. */
  lemma {:induction false} ToLowerAt(s: string)
    ensures |ToLower(s)| == |s|
    ensures forall i :: 0 <= i < |s| ==> ToLower(s)[i] == LowerChar(s[i])
  {
    if s != [] {
      ToLowerAt(s[1..]);
      assert ToLower(s) == [LowerChar(s[0])] + ToLower(s[1..]);
    }
  }

  /** A word without capital letters is its own lower-case form. */
  lemma LowerWordIsFixed(word: string)
    requires forall i :: 0 <= i < |word| ==> !('A' <= word[i] <= 'Z')
    ensures ToLower(word) == word
  {
    ToLowerAt(word);
  }

  /** Two strings that are equal once both are lower-cased. */
  predicate SameIgnoringCase(a: string, b: string) {
    |a| == |b| && forall i :: 0 <= i < |a| ==> LowerChar(a[i]) == LowerChar(b[i])
  }

  /** Comparing a lower-cased string with a lower-case word is a
      case-insensitive comparison. */
  lemma ToLowerEquals(s: string, word: string)
    requires ToLower(word) == word
    ensures ToLower(s) == word <==> SameIgnoringCase(s, word)
  {
    ToLowerAt(s);
    ToLowerAt(word);
    if SameIgnoringCase(s, word) {
      assert forall i :: 0 <= i < |s| ==> ToLower(s)[i] == word[i] by {
        forall i | 0 <= i < |s| ensures ToLower(s)[i] == word[i] {
          assert ToLower(word)[i] == LowerChar(word[i]);
        }
      }
    }
  }

  /** The decimal digit of a number below ten. */
  function DigitChar(d: nat): (c: char)
    requires d < 10
    ensures '0' <= c <= '9'
  {
    ('0' as int + d) as char
  }

  /** `${n}` for a non-negative integer. */
  function NatToDecimal(n: nat): (r: string)
    ensures |r| > 0
    ensures forall i :: 0 <= i < |r| ==> '0' <= r[i] <= '9'
    decreases n
  {
    if n < 10 then [DigitChar(n)] else NatToDecimal(n / 10) + [DigitChar(n % 10)]
  }

  /** The number a string of decimal digits denotes. */
  function DecimalValue(s: string): nat
    requires forall i :: 0 <= i < |s| ==> '0' <= s[i] <= '9'
  {
    if s == [] then 0 else 10 * DecimalValue(s[..|s| - 1]) + (s[|s| - 1] as int - '0' as int)
  }

  /** `${n}` reads back as `n`. */
  lemma {:induction false} DecimalRoundTrip(n: nat)
    ensures DecimalValue(NatToDecimal(n)) == n
    decreases n
  {
    if n >= 10 {
      DecimalRoundTrip(n / 10);
      var r := NatToDecimal(n);
      assert r[..|r| - 1] == NatToDecimal(n / 10);
    }
  }
}
