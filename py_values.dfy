/**
 * Cells of the pandas frames that the nba_api endpoints return, and the
 * converters the box-score and player collectors apply to them:
 * `safe_int`, `safe_float`, `safe_str` and `parse_minutes`
 * (src/data_collection/collect_player_stats.py:9-42; collect_batch.py:10-43
 * repeats the same four definitions word for word), and the stricter
 * `safe_int` of src/data_collection/collect_players.py:10-16.
 *
 * Python floats are modelled as exact reals. `str` of a float is Python's
 * shortest round-trip representation, which the model does not compute: a
 * float cell carries that text with it.
 */
module PyValues {
  import opened Wrappers
  import opened Text
  import Numeric

  /** A frame cell: `None`, NaN, an `int`, a `float` with its `str`, or a `str`. */
  datatype Value = PyNone | NaN | Int(i: int) | Float(x: real, repr: string) | Str(s: string)

  /** `pd.isna(v)`. */
  predicate IsNA(v: Value) {
    v.PyNone? || v.NaN?
  }

  /** `pd.isna(v) or v == ''`, the guard the three `safe_*` converters share. */
  predicate Blank(v: Value) {
    IsNA(v) || v == Str("")
  }

  /** `str(v)`. */
  function StrOf(v: Value): string {
    match v
    case PyNone => "None"
    case NaN => "nan"
    case Int(i) => IntToString(i)
    case Float(_, repr) => repr
    case Str(s) => s
  }

  /** `int(x)` of a float: truncation toward zero. */
  function Truncate(x: real): (n: int)
    ensures x >= 0.0 ==> n as real <= x < n as real + 1.0
    ensures x < 0.0 ==> n as real - 1.0 < x <= n as real
  {
    if x >= 0.0 then x.Floor else -((-x).Floor)
  }

  /** `safe_int`: blank cells and conversions that raise give `None`. */
  function SafeInt(v: Value): (r: Option<int>)
    ensures Blank(v) ==> r.None?
    ensures v.Int? ==> r == Some(v.i)
    ensures v.Float? ==> r.Some? && -1.0 < v.x - r.value as real < 1.0
  {
    match v
    case PyNone => None
    case NaN => None
    case Int(i) => Some(i)
    case Float(x, _) => Some(Truncate(x))
    case Str(s) => if s == "" then None else ParseInt(s)
  }

  /** `safe_float`: blank cells and conversions that raise give `None`. */
  function SafeFloat(v: Value): (r: Option<real>)
    ensures Blank(v) ==> r.None?
    ensures v.Int? ==> r == Some(v.i as real)
    ensures v.Float? ==> r == Some(v.x)
  {
    match v
    case PyNone => None
    case NaN => None
    case Int(i) => Some(i as real)
    case Float(x, _) => Some(x)
    case Str(s) => if s == "" then None else ParseDecimal(s)
  }

  /** `safe_str`: blank cells give `None`, anything else its `str`. */
  function SafeStr(v: Value): (r: Option<string>)
    ensures r.None? <==> Blank(v)
    ensures r.Some? ==> r.value == StrOf(v)
    ensures r.Some? && !v.Float? ==> r.value != ""
  {
    if Blank(v) then None else Some(StrOf(v))
  }

  /** A numeric cell equal to 0, the only cells for which `v == 0` holds. */
  predicate NumericZero(v: Value) {
    v == Int(0) || (v.Float? && v.x == 0.0)
  }

  /** The `safe_int` of collect_players.py, which also turns 'Undrafted' and a numeric 0 into `None`. */
  function SafeIntStrict(v: Value): (r: Option<int>)
    ensures r.Some? ==> r == SafeInt(v)
  {
    if Blank(v) || v == Str("Undrafted") || NumericZero(v) then None
    else SafeInt(v)
  }

  /**
   * The two `safe_int`s differ exactly on numeric zero cells: those read as
   * 0 under the lenient one and as `None` under the strict one.
   */
  lemma SafeIntStrictDiffers(v: Value)
    ensures SafeIntStrict(v) != SafeInt(v) <==> NumericZero(v)
    ensures NumericZero(v) ==> SafeInt(v) == Some(0) && SafeIntStrict(v).None?
  {
    if v == Str("Undrafted") {
      assert Strip("Undrafted") == "Undrafted";
      assert !AllDigits("Undrafted") by { assert !IsDigit("Undrafted"[0]); }
    }
    if v.Float? && v.x == 0.0 {
      assert Truncate(v.x) == 0;
    }
  }

  /** A string of digits is its own stripped form. */
  lemma StripDigits(a: string)
    requires |a| >= 1 && AllDigits(a)
    ensures Strip(a) == a
  {
    assert !IsSpace(a[0]) && !IsSpace(a[|a| - 1]);
    assert TrimRight(a) == a;
  }

  /** `safe_int` reads back every printed integer, whether the cell holds the number or its text. */
  lemma SafeIntReadsBack(i: int)
    ensures SafeInt(Int(i)) == Some(i)
    ensures SafeInt(Str(IntToString(i))) == Some(i)
    ensures SafeFloat(Str(IntToString(i))) == Some(i as real)
  {
    var n: nat := if i < 0 then -i else i;
    var d := NatToString(n);
    NatToStringValue(n);
    StripDigits(d);
    if i < 0 {
      var t := "-" + d;
      assert !IsSpace(t[0]) && !IsSpace(t[|t| - 1]);
      assert TrimRight(t) == t;
      assert Strip(t) == t;
      assert t[1..] == d;
      assert '.' !in d;
    } else {
      assert '.' !in d;
    }
  }

  /** The text `parse_minutes` treats as missing. */
  predicate NullMinutes(v: Value) {
    IsNA(v) || v == Str("") || v == Str("None")
  }

  /**
   * `parse_minutes`: a null-like cell gives `None`; text with a ':' is read
   * as minutes and seconds before and after the first ':' and rounded to two
   * decimals; anything else goes through `float`. Every conversion that
   * raises gives `None`.
   */
  function ParseMinutes(v: Value): (r: Option<real>)
    ensures NullMinutes(v) ==> r.None?
    ensures v.Int? ==> r == Some(v.i as real)
    ensures v.Str? && ':' !in v.s && !NullMinutes(v) ==> r == ParseDecimal(v.s)
  {
    if NullMinutes(v) then None
    else
      var t := StrOf(v);
      if ':' in t then ClockText(t)
      else
        match v
        case Int(i) => Some(i as real)
        case Float(x, _) => Some(x)
        case Str(s) => ParseDecimal(s)
        case _ => None
  }

  /** The ':' branch of `parse_minutes`: `int` of the pieces before and after the first ':'. */
  function ClockText(t: string): Option<real>
    requires ':' in t
  {
    var parts := Split(t, ':');
    match (ParseInt(parts[0]), ParseInt(parts[1]))
    case (Some(m), Some(s)) => Some(ClockMinutes(m, s))
    case _ => None
  }

  /** `round(m + s / 60, 2)`: the clock reading of a box score's minutes. */
  function ClockMinutes(m: int, s: int): real {
    Numeric.RoundTo(m as real + s as real / 60.0, 2)
  }

  /**
   * Rounding a clock reading to hundredths keeps it in the minute it
   * started in, and only "0:00" rounds to zero.
   */
  lemma ClockMinutesBounds(m: nat, s: nat)
    requires s < 60
    ensures m as real <= ClockMinutes(m, s) < m as real + 1.0
    ensures ClockMinutes(m, s) == 0.0 <==> m == 0 && s == 0
  {
    var x := m as real + s as real / 60.0;
    assert Text.Pow10(2) == 100 by {
      assert Text.Pow10(1) == 10;
    }
    var n := Numeric.RoundHalfEven(x * 100.0);
    assert ClockMinutes(m, s) == n as real / 100.0;
    assert x * 100.0 == 100.0 * m as real + s as real * 100.0 / 60.0;
    assert n >= 100 * m by {
      assert n as real >= x * 100.0 - 0.5;
    }
    assert n <= 100 * m + 99 by {
      assert s as real * 100.0 / 60.0 <= 5900.0 / 60.0;
      assert n as real <= x * 100.0 + 0.5;
    }
    if m == 0 && s > 0 {
      assert s as real * 100.0 / 60.0 >= 100.0 / 60.0;
      assert n >= 1 by {
        assert n as real >= x * 100.0 - 0.5;
      }
    }
    if m == 0 && s == 0 {
      Numeric.RoundInteger(0);
    }
  }

  /** A non-empty string of decimal digits parses as its value. */
  lemma ParseDigits(a: string)
    requires |a| >= 1 && AllDigits(a)
    ensures ParseInt(a) == Some(DigitsValue(a) as int)
  {
    StripDigits(a);
  }

  /**
   * A box-score clock "M:S" of decimal digits reads as M + S / 60 rounded to
   * two decimals.
   */
  lemma ParseClock(a: string, b: string)
    requires |a| >= 1 && AllDigits(a) && |b| >= 1 && AllDigits(b)
    ensures ParseMinutes(Str(a + ":" + b)) == Some(ClockMinutes(DigitsValue(a), DigitsValue(b)))
  {
    var t := a + ":" + b;
    assert ':' !in a && ':' !in b;
    assert t[|a|] == ':';
    assert !NullMinutes(Str(t)) by {
      assert t != "None" by { assert t[|a|] == ':'; }
    }
    assert ':' in StrOf(Str(t));
    assert ParseMinutes(Str(t)) == ClockText(t);
    SplitPair(a, ':', b);
    var parts := Split(t, ':');
    assert parts[0] == a && parts[1] == b;
    ParseDigits(a);
    ParseDigits(b);
    assert ParseInt(parts[0]) == Some(DigitsValue(a) as int);
    assert ParseInt(parts[1]) == Some(DigitsValue(b) as int);
  }
}
