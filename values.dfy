/**
 * The values a parsed GeoJSON feature carries in its `properties` object, and
 * the three JavaScript conversions the map script applies to them: property
 * lookup, `Number(...)` and truthiness (the test of an `if`).
 */
module Values {
  import opened Wrappers

  /** A JSON value as `JSON.parse` leaves it in a property (objects and arrays are not used). */
  datatype Value = Num(x: real) | Text(s: string) | Bool(b: bool) | Null

  /**
   * A feature's `properties` object: the property names in the order a
   * `for ... in` loop enumerates them, and the value of each name.
   */
  datatype Properties = Properties(names: seq<string>, values: map<string, Value>)

  /** The names of `s` are pairwise different. */
  predicate Distinct(s: seq<string>)
  {
    forall i, j :: 0 <= i < j < |s| ==> s[i] != s[j]
  }

  /**
   * What a parsed object guarantees: `for ... in` lists each own property
   * exactly once, and lists all of them.
   */
  predicate WellFormed(p: Properties)
  {
    Distinct(p.names) &&
    (forall n :: n in p.names ==> n in p.values) &&
    (forall n :: n in p.values ==> n in p.names)
  }

  /** One GeoJSON feature (one city). */
  datatype Feature = Feature(properties: Properties)

  /** `properties[name]`: `None` is `undefined`, the value of a missing property. */
  function Get(p: Properties, name: string): (r: Option<Value>)
    ensures r.Some? <==> name in p.values
    ensures r.Some? ==> r.value == p.values[name]
  {
    if name in p.values then Some(p.values[name]) else None
  }

  /** JavaScript truthiness of a property value: `undefined`, `null`, `false`, `0` and `""` are falsy. */
  predicate Truthy(v: Option<Value>)
  {
    match v
    case None => false
    case Some(Num(x)) => x != 0.0
    case Some(Text(s)) => s != ""
    case Some(Bool(b)) => b
    case Some(Null) => false
  }

  /** `Number(v)`; `None` is `NaN`. */
  function ToNumber(v: Option<Value>): Option<real>
  {
    match v
    case None => None
    case Some(Num(x)) => Some(x)
    case Some(Text(s)) => StringToNumber(s)
    case Some(Bool(b)) => Some(if b then 1.0 else 0.0)
    case Some(Null) => Some(0.0)
  }

  predicate IsSpace(c: char)
  {
    c == ' ' || c == '\t' || c == '\n' || c == '\r' || c == '\U{000B}' || c == '\U{000C}'
  }

  predicate IsDigit(c: char)
  {
    '0' <= c <= '9'
  }

  /** `s` with leading and trailing white space removed. */
  function Trim(s: string): (t: string)
    ensures |t| <= |s|
    decreases |s|
  {
    if |s| > 0 && IsSpace(s[0]) then Trim(s[1..])
    else if |s| > 0 && IsSpace(s[|s| - 1]) then Trim(s[..|s| - 1])
    else s
  }

  /** The value of a string of decimal digits read left to right. */
  function DigitsValue(d: string): nat
    requires AllDigits(d)
  {
    if d == [] then 0
    else
      assert IsDigit(d[|d| - 1]);
      DigitsValue(d[..|d| - 1]) * 10 + (d[|d| - 1] as int - '0' as int)
  }

  function Pow10(n: nat): (r: nat)
    ensures r > 0
  {
    if n == 0 then 1 else 10 * Pow10(n - 1)
  }

  predicate AllDigits(d: string)
  {
    forall i :: 0 <= i < |d| ==> IsDigit(d[i])
  }

  /** The position of the first `.` in `t`. */
  function FirstDot(t: string): (k: nat)
    requires '.' in t
    ensures k < |t| && t[k] == '.'
  {
    if t[0] == '.' then 0 else 1 + FirstDot(t[1..])
  }

  /** The value of the literal `whole.frac`. */
  function DecimalValue(whole: string, frac: string): real
    requires AllDigits(whole) && AllDigits(frac)
  {
    DigitsValue(whole) as real + DigitsValue(frac) as real / Pow10(|frac|) as real
  }

  /** An unsigned decimal literal `ddd`, `ddd.ddd`, `.ddd` or `ddd.`; anything else is `NaN`. */
  function UnsignedDecimal(t: string): Option<real>
  {
    if t == [] then None
    else if '.' in t then
      var k := FirstDot(t);
      var whole, frac := t[..k], t[k + 1..];
      if (whole == [] && frac == []) || !AllDigits(whole) || !AllDigits(frac) then None
      else Some(DecimalValue(whole, frac))
    else if AllDigits(t) then Some(DigitsValue(t) as real)
    else None
  }

  /**
   * JavaScript's conversion of a string to a number, for plain decimal text:
   * white space around it is ignored, an empty string is 0, a sign may lead.
   */
  function StringToNumber(s: string): Option<real>
  {
    var t := Trim(s);
    if t == [] then Some(0.0)
    else if t[0] == '-' then
      match UnsignedDecimal(t[1..])
      case Some(x) => Some(-x)
      case None => None
    else if t[0] == '+' then UnsignedDecimal(t[1..])
    else UnsignedDecimal(t)
  }

  /**
   * Truthiness and `Number(...)` agree on numbers, booleans, `null` and
   * `undefined` (truthy exactly when the number is neither 0 nor `NaN`),
   * but not on text: `"0"` is truthy and converts to 0.
   */
  lemma TruthyVersusNumber(v: Option<Value>)
    ensures v.None? ==> !Truthy(v) && ToNumber(v).None?
    ensures v.Some? && !v.value.Text? ==>
      (Truthy(v) <==> ToNumber(v).Some? && ToNumber(v).value != 0.0)
    ensures Truthy(Some(Text("0"))) && ToNumber(Some(Text("0"))) == Some(0.0)
  {
    DigitsNumber("0");
  }

  /** Text without white space at either end is left as it is by `Trim`. */
  lemma TrimUntouched(s: string)
    requires s != [] ==> !IsSpace(s[0]) && !IsSpace(s[|s| - 1])
    ensures Trim(s) == s
  {
  }

  /** A trailing white-space character is trimmed away. */
  lemma {:induction false} TrimDropsTrailing(s: string, c: char)
    requires IsSpace(c)
    ensures Trim(s + [c]) == Trim(s)
    decreases |s|
  {
    var t := s + [c];
    if s == [] {
      assert t[1..] == [];
    } else if IsSpace(s[0]) {
      assert t[1..] == s[1..] + [c];
      TrimDropsTrailing(s[1..], c);
    } else {
      assert t[..|t| - 1] == s;
    }
  }

  /** White space before or after the text does not change the number. */
  lemma SpaceIgnored(s: string, c: char)
    requires IsSpace(c)
    ensures StringToNumber([c] + s) == StringToNumber(s)
    ensures StringToNumber(s + [c]) == StringToNumber(s)
  {
    assert ([c] + s)[1..] == s;
    TrimDropsTrailing(s, c);
  }

  /** Text made of white space only, the empty string included, is 0. */
  lemma {:induction false} BlankIsZero(s: string)
    requires forall i :: 0 <= i < |s| ==> IsSpace(s[i])
    ensures StringToNumber(s) == Some(0.0)
    decreases |s|
  {
    if s != [] {
      BlankIsZero(s[1..]);
      assert [s[0]] + s[1..] == s;
      SpaceIgnored(s[1..], s[0]);
    }
  }

  /** Decimal digits convert to their value. */
  lemma DigitsNumber(d: string)
    requires d != [] && AllDigits(d)
    ensures StringToNumber(d) == Some(DigitsValue(d) as real)
  {
    assert IsDigit(d[0]) && IsDigit(d[|d| - 1]);
    TrimUntouched(d);
  }

  /** A leading `-` negates, a leading `+` does nothing. */
  lemma SignedDigitsNumber(d: string)
    requires d != [] && AllDigits(d)
    ensures StringToNumber("-" + d) == Some(-(DigitsValue(d) as real))
    ensures StringToNumber("+" + d) == Some(DigitsValue(d) as real)
  {
    assert IsDigit(d[|d| - 1]);
    assert ("-" + d)[|"-" + d| - 1] == d[|d| - 1] && ("-" + d)[1..] == d;
    assert ("+" + d)[|"+" + d| - 1] == d[|d| - 1] && ("+" + d)[1..] == d;
    TrimUntouched("-" + d);
    TrimUntouched("+" + d);
  }

  /** The first `.` after a run of digits is the one right after them. */
  lemma {:induction false} FirstDotAfterDigits(w: string, f: string)
    requires AllDigits(w)
    ensures FirstDot(w + "." + f) == |w|
    decreases |w|
  {
    if w != [] {
      assert IsDigit(w[0]);
      assert (w + "." + f)[1..] == w[1..] + "." + f;
      FirstDotAfterDigits(w[1..], f);
    }
  }

  /** Text without white space at its ends nor a leading sign is read as an unsigned decimal. */
  lemma UnsignedIsNumber(t: string)
    requires t != [] && !IsSpace(t[0]) && !IsSpace(t[|t| - 1]) && t[0] != '-' && t[0] != '+'
    ensures StringToNumber(t) == UnsignedDecimal(t)
  {
    TrimUntouched(t);
  }

  /** The unsigned reading of `whole.frac`. */
  lemma UnsignedDecimalParts(w: string, f: string)
    requires AllDigits(w) && AllDigits(f) && (w != [] || f != [])
    ensures UnsignedDecimal(w + "." + f) ==
      Some(DecimalValue(w, f))
  {
    var t := w + "." + f;
    FirstDotAfterDigits(w, f);
    assert t[|w|] == '.';
    assert t[..|w|] == w && t[|w| + 1..] == f;
  }

  /** `whole.frac`, with digits on at least one side, is the whole part plus the fraction. */
  lemma DecimalNumber(w: string, f: string)
    requires AllDigits(w) && AllDigits(f) && (w != [] || f != [])
    ensures StringToNumber(w + "." + f) ==
      Some(DecimalValue(w, f))
  {
    var t := w + "." + f;
    assert t[0] == if w != [] then w[0] else '.';
    assert w != [] ==> IsDigit(w[0]);
    assert t[|t| - 1] == if f != [] then f[|f| - 1] else '.';
    assert f != [] ==> IsDigit(f[|f| - 1]);
    UnsignedIsNumber(t);
    UnsignedDecimalParts(w, f);
  }

  /** Text with some character that is neither a digit nor `.` is `NaN` when unsigned. */
  lemma UnsignedOtherIsNaN(u: string, c: char)
    requires c in u && !IsDigit(c) && c != '.'
    ensures UnsignedDecimal(u) == None
  {
    var i :| 0 <= i < |u| && u[i] == c;
    if '.' in u {
      var k := FirstDot(u);
      if i < k {
        assert u[..k][i] == c;
      } else {
        assert u[k + 1..][i - k - 1] == c;
      }
    }
  }

  /** Any character besides white space, digits, signs and `.` makes the text `NaN`. */
  lemma OtherCharIsNaN(s: string, c: char)
    requires c in Trim(s) && !IsDigit(c) && c != '.' && c != '+' && c != '-'
    ensures StringToNumber(s) == None
  {
    var t := Trim(s);
    var i :| 0 <= i < |t| && t[i] == c;
    if t[0] == '-' || t[0] == '+' {
      assert t[1..][i - 1] == c;
      UnsignedOtherIsNaN(t[1..], c);
    } else {
      UnsignedOtherIsNaN(t, c);
    }
  }

  /**
   * String concatenation of a property value (`"" + v`); numbers are shown
   * by `showNumber`, which stands for JavaScript's number-to-text conversion.
   */
  function Show(v: Option<Value>, showNumber: real -> string): string
  {
    match v
    case None => "undefined"
    case Some(Num(x)) => showNumber(x)
    case Some(Text(s)) => s
    case Some(Bool(b)) => if b then "true" else "false"
    case Some(Null) => "null"
  }
}
