/**
 * The JavaScript string behaviour that server.js relies on: truthiness of a
 * value that is a string or `undefined`, the string conversion applied by
 * template literals and `+`, `||` on such values, `String.prototype.indexOf`,
 * `String.prototype.replace` with a string pattern and an empty replacement,
 * and the decimal rendering of a non-negative integer.
 */
module JsText {
  import opened Wrappers

  /** A JavaScript value that is either a string (`Some`) or `undefined` (`None`). */
  type JsValue = Option<string>

  /** JavaScript truthiness: `undefined` and `""` are falsy, every other string is truthy. */
  predicate Truthy(v: JsValue) {
    v.Some? && v.value != ""
  }

  /** The string a template literal `${v}` or a concatenation `v + s` makes of `v`. */
  function ToJsString(v: JsValue): (r: string)
    ensures Truthy(v) ==> r == v.value
    ensures r == "" <==> v == Some("")
    ensures v.None? ==> r == "undefined"
  {
    match v
    case Some(s) => s
    case None => "undefined"
  }

  /** `v || fallback` where the fallback is a string. */
  function OrElse(v: JsValue, fallback: string): (r: string)
    ensures Truthy(v) ==> r == ToJsString(v)
    ensures !Truthy(v) ==> r == fallback
    ensures r == "" <==> !Truthy(v) && fallback == ""
  {
    if Truthy(v) then v.value else fallback
  }

  /** The pattern `p` occurs in `s` starting at index `i`. */
  predicate OccursAt(s: string, p: string, i: nat) {
    i + |p| <= |s| && s[i..i + |p|] == p
  }

  /** `s.indexOf(p, from)`: the first index at or after `from` where `p` occurs. */
  function IndexOfFrom(s: string, p: string, from: nat): (r: Option<nat>)
    requires from <= |s|
    ensures r.Some? ==> from <= r.value && OccursAt(s, p, r.value)
    ensures r.Some? ==> forall j: nat :: from <= j < r.value ==> !OccursAt(s, p, j)
    ensures r.None? ==> forall j: nat :: from <= j ==> !OccursAt(s, p, j)
    decreases |s| - from
  {
    if OccursAt(s, p, from) then Some(from)
    else if from == |s| then None
    else IndexOfFrom(s, p, from + 1)
  }

  /** `s.indexOf(p)`; the empty pattern is found at index 0. */
  function IndexOf(s: string, p: string): (r: Option<nat>)
    ensures r.Some? ==> OccursAt(s, p, r.value)
    ensures r.Some? ==> forall j: nat :: j < r.value ==> !OccursAt(s, p, j)
    ensures r.None? <==> forall j: nat :: !OccursAt(s, p, j)
  {
    IndexOfFrom(s, p, 0)
  }

  /**
   * `s.replace(p, '')`: removes the FIRST occurrence of `p` only, and leaves
   * `s` unchanged when `p` does not occur (or is empty).
   */
  function RemoveFirst(s: string, p: string): string {
    match IndexOf(s, p)
    case None => s
    case Some(i) => s[..i] + s[i + |p|..]
  }

  /** What `replace` with a string pattern does, stated by occurrences rather than by `indexOf`. */
  lemma RemoveFirstSpec(s: string, p: string)
    ensures (forall j: nat :: !OccursAt(s, p, j)) ==> RemoveFirst(s, p) == s
    ensures forall i: nat :: OccursAt(s, p, i) && (forall j: nat :: j < i ==> !OccursAt(s, p, j))
                             ==> RemoveFirst(s, p) == s[..i] + s[i + |p|..]
  {
    match IndexOf(s, p)
    case None =>
    case Some(k) =>
      forall i: nat | OccursAt(s, p, i) && (forall j: nat :: j < i ==> !OccursAt(s, p, j))
        ensures RemoveFirst(s, p) == s[..i] + s[i + |p|..]
      {
        assert i == k;
      }
  }

  /** Removing the empty pattern leaves every string as it is. */
  lemma RemoveFirstEmpty(s: string)
    ensures RemoveFirst(s, "") == s
  {
    assert OccursAt(s, "", 0);
    assert s[..0] + s[0..] == s;
  }

  /** A pattern that occurs only as a suffix is removed from the end. */
  lemma RemoveFirstSuffix(s: string, p: string)
    requires |p| <= |s| && OccursAt(s, p, |s| - |p|)
    requires forall j: nat :: j < |s| - |p| ==> !OccursAt(s, p, j)
    ensures RemoveFirst(s, p) + p == s
  {
    var n := |s| - |p|;
    assert IndexOf(s, p) == Some(n);
    assert s[..n] + s[n + |p|..] + p == s;
  }

  /** Removing at the index `indexOf` reports. */
  lemma RemoveFirstAt(s: string, p: string, i: nat)
    requires IndexOf(s, p) == Some(i)
    ensures RemoveFirst(s, p) == s[..i] + s[i + |p|..]
  {
  }

  /** Removing a pattern that occurs shortens the string by the pattern's length. */
  lemma RemoveFirstLength(s: string, p: string, i: nat)
    requires OccursAt(s, p, i)
    ensures |RemoveFirst(s, p)| == |s| - |p|
  {
    assert IndexOf(s, p).Some?;
  }

  predicate IsDigit(c: char) {
    '0' <= c <= '9'
  }

  function DigitChar(d: nat): (c: char)
    requires d < 10
    ensures IsDigit(c)
  {
    ('0' as int + d) as char
  }

  function DigitValue(c: char): (d: nat)
    requires IsDigit(c)
    ensures d < 10 && DigitChar(d) == c
  {
    c as int - '0' as int
  }

  /** `String(n)` for a non-negative integer: its decimal digits, no leading zero. */
  function NumberToString(n: nat): (r: string)
    ensures |r| >= 1
    ensures forall k :: 0 <= k < |r| ==> IsDigit(r[k])
    ensures |r| > 1 ==> r[0] != '0'
    decreases n
  {
    if n < 10 then [DigitChar(n)] else NumberToString(n / 10) + [DigitChar(n % 10)]
  }

  /** Reads a string of decimal digits back as a number. */
  function ParseDecimal(s: string): nat
    requires forall k :: 0 <= k < |s| ==> IsDigit(s[k])
  {
    if s == [] then 0 else ParseDecimal(s[..|s| - 1]) * 10 + DigitValue(s[|s| - 1])
  }

  /** Reading the decimal rendering back gives the number that was rendered. */
  lemma {:induction false} NumberToStringRoundTrip(n: nat)
    ensures ParseDecimal(NumberToString(n)) == n
    decreases n
  {
    var r := NumberToString(n);
    if n < 10 {
      assert r[..|r| - 1] == [];
    } else {
      var prefix := NumberToString(n / 10);
      assert r[..|r| - 1] == prefix;
      NumberToStringRoundTrip(n / 10);
    }
  }

  /** Distinct numbers have distinct decimal renderings. */
  lemma NumberToStringInjective(m: nat, n: nat)
    requires NumberToString(m) == NumberToString(n)
    ensures m == n
  {
    NumberToStringRoundTrip(m);
    NumberToStringRoundTrip(n);
  }
}
