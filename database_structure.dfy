/**
 * The column rendering of src/database/analyze_database_structure.py: the
 * type name `format_data_type` makes of an information_schema column
 * (lines 195-240) and the bracketed property suffix of each column line
 * (lines 279-287). The introspection queries are not part of this model.
 */
module DatabaseStructure {
  import opened Wrappers
  import opened Text

  /**
   * The information_schema cells `format_data_type` reads: the type name
   * and the character length, numeric precision and numeric scale, each
   * NULL (`None`) when it does not apply.
   */
  datatype ColumnType = ColumnType(dataType: string, maxLength: Option<int>, precision: Option<int>,
                                   scale: Option<int>)

  /** A number cell that passes `if x:`: present and not 0. */
  predicate Truthy(x: Option<int>) {
    x.Some? && x.value != 0
  }

  /** The type names with a fixed rendering, and the token each renders as. */
  function FixedToken(dataType: string): Option<string> {
    match dataType
    case "integer" => Some("INTEGER")
    case "bigint" => Some("BIGINT")
    case "smallint" => Some("SMALLINT")
    case "boolean" => Some("BOOLEAN")
    case "date" => Some("DATE")
    case "timestamp without time zone" => Some("TIMESTAMP")
    case "timestamp with time zone" => Some("TIMESTAMPTZ")
    case "text" => Some("TEXT")
    case "double precision" => Some("DOUBLE PRECISION")
    case "real" => Some("REAL")
    case "serial" => Some("SERIAL")
    case "bigserial" => Some("BIGSERIAL")
    case _ => None
  }

  /** A name that is neither parametrised nor listed. */
  predicate Unlisted(dataType: string) {
    dataType != "character varying" && dataType != "character" && dataType != "numeric" &&
    FixedToken(dataType).None?
  }

  /**
   * `format_data_type`: VARCHAR and CHAR carry the length when there is one,
   * DECIMAL the precision and then the scale when there are, the listed
   * names their token, and any other name is upper-cased.
   */
  function FormatDataType(col: ColumnType): (r: string)
    ensures col.dataType == "character varying" ==> (r == "VARCHAR" <==> !Truthy(col.maxLength))
    ensures col.dataType == "character" ==> (r == "CHAR" <==> !Truthy(col.maxLength))
    ensures col.dataType == "numeric" ==> (r == "DECIMAL" <==> !Truthy(col.precision))
    ensures FixedToken(col.dataType).Some? ==> r == FixedToken(col.dataType).value
    ensures Unlisted(col.dataType) ==> r == Upper(col.dataType)
  {
    var t := col.dataType;
    if t == "character varying" then
      if Truthy(col.maxLength) then "VARCHAR(" + IntToString(col.maxLength.value) + ")" else "VARCHAR"
    else if t == "character" then
      if Truthy(col.maxLength) then "CHAR(" + IntToString(col.maxLength.value) + ")" else "CHAR"
    else if t == "numeric" then
      if Truthy(col.precision) && Truthy(col.scale) then
        "DECIMAL(" + IntToString(col.precision.value) + "," + IntToString(col.scale.value) + ")"
      else if Truthy(col.precision) then "DECIMAL(" + IntToString(col.precision.value) + ")"
      else "DECIMAL"
    else if FixedToken(t).Some? then FixedToken(t).value
    else Upper(t)
  }

  /** No lower-case ASCII letter. */
  predicate UpperCase(s: string) {
    forall i :: 0 <= i < |s| ==> !('a' <= s[i] <= 'z')
  }

  lemma IntTextUpper(i: int)
    ensures UpperCase(IntToString(i))
  {
    var d := NatToString(if i < 0 then -i else i);
    assert forall k :: 0 <= k < |d| ==> IsDigit(d[k]);
  }

  /** Every rendered type name is in upper case, whatever the name it came from. */
  lemma FormatIsUpperCase(col: ColumnType)
    ensures UpperCase(FormatDataType(col))
  {
    var t := col.dataType;
    if t == "character varying" || t == "character" {
      if Truthy(col.maxLength) {
        IntTextUpper(col.maxLength.value);
        ConcatUpper("VARCHAR(", IntToString(col.maxLength.value), ")");
        ConcatUpper("CHAR(", IntToString(col.maxLength.value), ")");
      }
    } else if t == "numeric" {
      if Truthy(col.precision) {
        IntTextUpper(col.precision.value);
        ConcatUpper("DECIMAL(", IntToString(col.precision.value), ")");
        if Truthy(col.scale) {
          IntTextUpper(col.scale.value);
          ConcatUpper(IntToString(col.precision.value), ",", IntToString(col.scale.value));
          ConcatUpper("DECIMAL(", IntToString(col.precision.value) + "," + IntToString(col.scale.value), ")");
        }
      }
    } else if FixedToken(t).Some? {
      FixedTokensUpper(t);
    } else {
      UpperIsUpperCase(t);
    }
  }

  lemma ConcatUpper(a: string, b: string, c: string)
    requires UpperCase(a) && UpperCase(b) && UpperCase(c)
    ensures UpperCase(a + b + c)
  {
    var s := a + b + c;
    forall i | 0 <= i < |s| ensures !('a' <= s[i] <= 'z') {
      if i < |a| {
        assert s[i] == a[i];
      } else if i < |a| + |b| {
        assert s[i] == b[i - |a|];
      } else {
        assert s[i] == c[i - |a| - |b|];
      }
    }
  }

  lemma FixedTokensUpper(t: string)
    requires FixedToken(t).Some?
    ensures UpperCase(FixedToken(t).value)
  {
    var r := FixedToken(t).value;
    forall i | 0 <= i < |r| ensures !('a' <= r[i] <= 'z') {
      assert r in {"INTEGER", "BIGINT", "SMALLINT", "BOOLEAN", "DATE", "TIMESTAMP", "TIMESTAMPTZ", "TEXT",
                   "DOUBLE PRECISION", "REAL", "SERIAL", "BIGSERIAL"};
    }
  }

  lemma UpperIsUpperCase(t: string)
    ensures UpperCase(Upper(t))
  {
    forall i | 0 <= i < |t| ensures !('a' <= Upper(t)[i] <= 'z') {
      assert Upper(t)[i] == UpperChar(t[i]);
    }
  }

  /** The length inside "VARCHAR(n)" reads back as `n`. */
  lemma VarcharReadsBack(n: nat, precision: Option<int>, scale: Option<int>)
    requires n > 0
    ensures var r := FormatDataType(ColumnType("character varying", Some(n), precision, scale));
      |r| > 9 && r[..8] == "VARCHAR(" && r[|r| - 1] == ')' && ParseInt(r[8..|r| - 1]) == Some(n)
  {
    var d := NatToString(n);
    var r := "VARCHAR(" + d + ")";
    assert r[8..|r| - 1] == d;
    ParseIntOfNat(n);
  }

  /** The length inside "CHAR(n)" reads back as `n`. */
  lemma CharReadsBack(n: nat, precision: Option<int>, scale: Option<int>)
    requires n > 0
    ensures var r := FormatDataType(ColumnType("character", Some(n), precision, scale));
      |r| > 6 && r[..5] == "CHAR(" && r[|r| - 1] == ')' && ParseInt(r[5..|r| - 1]) == Some(n)
  {
    var d := NatToString(n);
    var r := "CHAR(" + d + ")";
    assert r[5..|r| - 1] == d;
    ParseIntOfNat(n);
  }

  /**
   * With a precision and no scale (NULL or 0) the type is "DECIMAL(p)": one
   * number, no comma, reading back as `p`.
   */
  lemma DecimalPrecisionOnlyReadsBack(p: nat, scale: Option<int>, maxLength: Option<int>)
    requires p > 0 && !Truthy(scale)
    ensures var r := FormatDataType(ColumnType("numeric", maxLength, Some(p), scale));
      |r| > 9 && r[..8] == "DECIMAL(" && r[|r| - 1] == ')' && ',' !in r &&
      ParseInt(r[8..|r| - 1]) == Some(p)
  {
    var d := NatToString(p);
    var r := "DECIMAL(" + d + ")";
    assert r[8..|r| - 1] == d;
    assert forall k :: 0 <= k < |d| ==> IsDigit(d[k]);
    assert forall k :: 0 <= k < |r| ==> r[k] != ',' by {
      forall k | 0 <= k < |r| ensures r[k] != ',' {
        if 8 <= k < |r| - 1 {
          assert r[k] == d[k - 8];
        }
      }
    }
    ParseIntOfNat(p);
  }

  /** The precision and scale inside "DECIMAL(p,s)" read back as `p` and `s`. */
  lemma DecimalReadsBack(p: nat, s: nat, maxLength: Option<int>)
    requires p > 0 && s > 0
    ensures var r := FormatDataType(ColumnType("numeric", maxLength, Some(p), Some(s)));
      |r| > 9 && r[..8] == "DECIMAL(" && r[|r| - 1] == ')' &&
      var inner := Split(r[8..|r| - 1], ',');
      |inner| == 2 && ParseInt(inner[0]) == Some(p) && ParseInt(inner[1]) == Some(s)
  {
    var a := NatToString(p);
    var b := NatToString(s);
    var r := "DECIMAL(" + a + "," + b + ")";
    assert r[8..|r| - 1] == a + [','] + b;
    assert ',' !in a && ',' !in b by {
      assert forall k :: 0 <= k < |a| ==> IsDigit(a[k]);
      assert forall k :: 0 <= k < |b| ==> IsDigit(b[k]);
    }
    SplitPair(a, ',', b);
    ParseIntOfNat(p);
    ParseIntOfNat(s);
  }

  /** A column default that passes `if default:`: present and not empty. */
  predicate HasDefault(default: Option<string>) {
    default.Some? && default.value != ""
  }

  /**
   * The `props` list of a column line, built by appending: PRIMARY KEY when
   * the column is a primary key, NOT NULL when `is_nullable` is 'NO', and
   * the default when there is one, in that order.
   */
  method ColumnProps(colName: string, primaryKeys: seq<string>, isNullable: string, default: Option<string>)
    returns (props: seq<string>)
    ensures "PRIMARY KEY" in props <==> colName in primaryKeys
    ensures "NOT NULL" in props <==> isNullable == "NO"
    ensures HasDefault(default) ==> |props| > 0 && props[|props| - 1] == "DEFAULT: " + default.value
    ensures forall p :: p in props ==>
      p == "PRIMARY KEY" || p == "NOT NULL" || (HasDefault(default) && p == "DEFAULT: " + default.value)
    ensures colName in primaryKeys ==> props[0] == "PRIMARY KEY"
    ensures colName in primaryKeys && isNullable == "NO" ==> props[1] == "NOT NULL"
    ensures |props| == (if colName in primaryKeys then 1 else 0) + (if isNullable == "NO" then 1 else 0) +
                       (if HasDefault(default) then 1 else 0)
  {
    props := [];
    if colName in primaryKeys {
      props := props + ["PRIMARY KEY"];
    }
    if isNullable == "NO" {
      props := props + ["NOT NULL"];
    }
    if HasDefault(default) {
      var d := "DEFAULT: " + default.value;
      assert d[0] == 'D' && d != "PRIMARY KEY" && d != "NOT NULL";
      props := props + [d];
    }
  }

  /** `f" [{', '.join(props)}]" if props else ""`. */
  function PropSuffix(props: seq<string>): (s: string)
    ensures s == "" <==> props == []
    ensures props != [] ==> |s| >= 3 && s[..2] == " [" && s[|s| - 1] == ']'
  {
    if props == [] then "" else " [" + Join(props, ", ") + "]"
  }
}
