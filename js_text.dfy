/**
 * JavaScript string and number operations used by the web app: `split` with
 * a separator of several characters, `startsWith`, and `parseInt(s, 10)`.
 */
module JsText {
  import opened Wrappers
  import opened Text

  /** `sep` occurs in `s` starting at position `j`. */
  predicate MatchAt(s: string, sep: string, j: nat) {
    j + |sep| <= |s| && s[j..j + |sep|] == sep
  }

  /** The position of the first occurrence of `sep` in `s`, if any. */
  function Find(s: string, sep: string): (r: Option<nat>)
    requires |sep| > 0
    ensures r.Some? ==> MatchAt(s, sep, r.value)
    ensures r.Some? ==> forall j :: 0 <= j < r.value ==> !MatchAt(s, sep, j)
    ensures r.None? ==> forall j :: 0 <= j ==> !MatchAt(s, sep, j)
    decreases |s|
  {
    if |s| < |sep| then None
    else if s[..|sep|] == sep then Some(0)
    else
      var rest := Find(s[1..], sep);
      MatchShift(s, sep);
      assert !MatchAt(s, sep, 0);
      assert forall j: nat :: j > 0 ==> (MatchAt(s, sep, j) <==> MatchAt(s[1..], sep, j - 1));
      if rest.None? then None else Some(rest.value + 1)
  }

  /** Occurrences in the tail of `s` are those in `s` one position on. */
  lemma MatchShift(s: string, sep: string)
    requires |s| > 0
    ensures forall j: nat :: MatchAt(s[1..], sep, j) <==> MatchAt(s, sep, j + 1)
  {
    forall j: nat ensures MatchAt(s[1..], sep, j) <==> MatchAt(s, sep, j + 1) {
      if j + 1 + |sep| <= |s| {
        assert s[1..][j..j + |sep|] == s[j + 1..j + 1 + |sep|];
      }
    }
  }

  /** A match with no earlier match is the one `Find` reports. */
  lemma FindFirst(s: string, sep: string, i: nat)
    requires |sep| > 0 && MatchAt(s, sep, i)
    requires forall j :: 0 <= j < i ==> !MatchAt(s, sep, j)
    ensures Find(s, sep) == Some(i)
  {
  }

  /**
   * `s.split(sep)` for a non-empty separator string: the pieces between the
   * successive leftmost occurrences of `sep`, always at least one.
   */
  function SplitOn(s: string, sep: string): (parts: seq<string>)
    requires |sep| > 0
    ensures |parts| >= 1
    decreases |s|
  {
    match Find(s, sep)
    case None => [s]
    case Some(i) => [s[..i]] + SplitOn(s[i + |sep|..], sep)
  }

  /** With no earlier occurrence, splitting "a<sep>b" cuts right after `a`. */
  lemma SplitOnAfter(a: string, sep: string, b: string)
    requires |sep| > 0
    requires forall j :: 0 <= j < |a| ==> !MatchAt(a + sep + b, sep, j)
    ensures SplitOn(a + sep + b, sep) == [a] + SplitOn(b, sep)
  {
    var s := a + sep + b;
    assert s[|a|..|a| + |sep|] == sep;
    FindFirst(s, sep, |a|);
    assert s[..|a|] == a;
    assert s[|a| + |sep|..] == b;
  }

  /** Without an occurrence the split is the whole string. */
  lemma SplitOnNone(s: string, sep: string)
    requires |sep| > 0
    requires forall j :: 0 <= j ==> !MatchAt(s, sep, j)
    ensures SplitOn(s, sep) == [s]
  {
  }

  /** A string lacking a character of `sep` has no occurrence of it. */
  lemma NoMatchWithout(s: string, sep: string, k: nat)
    requires k < |sep| && sep[k] !in s
    ensures forall j :: 0 <= j ==> !MatchAt(s, sep, j)
  {
    forall j | 0 <= j ensures !MatchAt(s, sep, j) {
      if j + |sep| <= |s| {
        assert s[j..j + |sep|][k] == s[j + k] && s[j + k] in s;
      }
    }
  }

  /** `s.startsWith(p)`. */
  predicate StartsWith(s: string, p: string) {
    p <= s
  }

  /** The longest run of digits at the start of `s`. */
  function DigitPrefix(s: string): (p: string)
    ensures p <= s && AllDigits(p)
    ensures |p| < |s| ==> !IsDigit(s[|p|])
  {
    if |s| > 0 && IsDigit(s[0]) then [s[0]] + DigitPrefix(s[1..]) else []
  }

  /**
   * `parseInt(s, 10)`: leading whitespace skipped, an optional sign, then the
   * longest run of decimal digits; `None` is NaN, which is what a string
   * without a leading digit gives.
   */
  function ParseIntJs(s: string): (r: Option<int>)
    ensures r.Some? ==> exists k :: 0 <= k < |s| && IsDigit(s[k])
  {
    var t := TrimLeft(s);
    TrimLeftSuffix(s);
    var signed := |t| > 0 && (t[0] == '-' || t[0] == '+');
    var body := if signed then t[1..] else t;
    var digits := DigitPrefix(body);
    if digits == [] then None
    else
      assert IsDigit(body[0]) && body[0] in s;
      Some(if signed && t[0] == '-' then -(DigitsValue(digits) as int) else DigitsValue(digits) as int)
  }

  /** `TrimLeft` keeps a tail of its argument. */
  lemma {:induction false} TrimLeftSuffix(s: string)
    ensures forall c :: c in TrimLeft(s) ==> c in s
    decreases |s|
  {
    if |s| > 0 && IsSpace(s[0]) {
      TrimLeftSuffix(s[1..]);
    }
  }

  /** A run of digits is its own digit prefix. */
  lemma {:induction false} DigitPrefixAll(s: string)
    requires AllDigits(s)
    ensures DigitPrefix(s) == s
    decreases |s|
  {
    if |s| > 0 {
      DigitPrefixAll(s[1..]);
    }
  }

  /** `parseInt(String(n), 10)` is `n` for every natural number `n`. */
  lemma ParseIntJsOfNat(n: nat)
    ensures ParseIntJs(NatToString(n)) == Some(n as int)
  {
    var d := NatToString(n);
    assert TrimLeft(d) == d by {
      assert IsDigit(d[0]);
    }
    assert !(d[0] == '-' || d[0] == '+') by {
      assert IsDigit(d[0]);
    }
    DigitPrefixAll(d);
    NatToStringValue(n);
  }
}
