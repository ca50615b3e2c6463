/**
 * The two string builtins the map script relies on: `indexOf`, used to
 * recognise temperature attributes, and `split("_")`, used to read the
 * year out of an attribute name such as `Temp_2018`.
 */
module Strings {
  import opened Wrappers

  /** `sub` occurs in `s` starting at position `i`. */
  predicate OccursAt(s: string, sub: string, i: nat)
  {
    i + |sub| <= |s| && s[i..i + |sub|] == sub
  }

  /** `sub` is a substring of `s`. */
  predicate Contains(s: string, sub: string)
  {
    exists i: nat | i <= |s| :: OccursAt(s, sub, i)
  }

  /**
   * `s.indexOf(sub, i)` for a non-empty `sub`: the first position at or after
   * `i` where `sub` occurs, or -1. (JavaScript clamps `i` to `|s|`, which
   * matters only for an empty `sub`; the script searches for `Temp`.)
   */
  function IndexFrom(s: string, sub: string, i: nat): (r: int)
    ensures r == -1 || (i <= r && OccursAt(s, sub, r))
    ensures r == -1 ==> forall j: nat :: i <= j ==> !OccursAt(s, sub, j)
    ensures r != -1 ==> forall j: nat :: i <= j < r ==> !OccursAt(s, sub, j)
    decreases |s| - i
  {
    if i + |sub| > |s| then -1
    else if s[i..i + |sub|] == sub then i
    else IndexFrom(s, sub, i + 1)
  }

  /** `s.indexOf(sub)`. */
  function IndexOf(s: string, sub: string): int
  {
    IndexFrom(s, sub, 0)
  }

  /** `indexOf` finds something exactly when the substring occurs, and then finds its first occurrence. */
  lemma IndexOfContains(s: string, sub: string)
    ensures IndexOf(s, sub) > -1 <==> Contains(s, sub)
    ensures IndexOf(s, sub) > -1 ==>
      OccursAt(s, sub, IndexOf(s, sub)) &&
      forall j: nat :: j < IndexOf(s, sub) ==> !OccursAt(s, sub, j)
  {
    var r := IndexOf(s, sub);
    if r > -1 {
      assert OccursAt(s, sub, r as nat);
    }
  }

  /** The position of the first `c` in `s`. */
  function CharIndex(s: string, c: char): (k: nat)
    requires c in s
    ensures k < |s| && s[k] == c && c !in s[..k]
  {
    if s[0] == c then 0
    else
      var k := 1 + CharIndex(s[1..], c);
      assert s[..k] == [s[0]] + s[1..][..k - 1];
      k
  }

  /** `s.split(sep)` for a one-character separator: the pieces between separators, empty ones included. */
  function Split(s: string, sep: char): (parts: seq<string>)
    ensures |parts| >= 1
    ensures forall i :: 0 <= i < |parts| ==> sep !in parts[i]
    decreases |s|
  {
    if sep !in s then [s]
    else
      var k := CharIndex(s, sep);
      [s[..k]] + Split(s[k + 1..], sep)
  }

  /** `parts.join(sep)`. */
  function Join(parts: seq<string>, sep: char): string
    requires |parts| >= 1
  {
    if |parts| == 1 then parts[0] else parts[0] + [sep] + Join(parts[1..], sep)
  }

  /** Splitting at a first separator after a separator-free piece. */
  lemma SplitFirst(a: string, sep: char, rest: string)
    requires sep !in a
    ensures Split(a + [sep] + rest, sep) == [a] + Split(rest, sep)
  {
    var s := a + [sep] + rest;
    assert s[|a|] == sep;
    var k := CharIndex(s, sep);
    assert s[..|a|] == a;
    assert k == |a|;
    assert s[..k] == a;
    assert s[k + 1..] == rest;
  }

  /** Joining a first piece onto the others. */
  lemma JoinFirst(a: string, sep: char, rest: seq<string>)
    requires |rest| >= 1
    ensures Join([a] + rest, sep) == a + [sep] + Join(rest, sep)
  {
    assert ([a] + rest)[1..] == rest;
  }

  /** Joining the pieces of a split gives back the string. */
  lemma {:induction false} JoinSplit(s: string, sep: char)
    ensures Join(Split(s, sep), sep) == s
    decreases |s|
  {
    if sep in s {
      var k := CharIndex(s, sep);
      var a, rest := s[..k], s[k + 1..];
      assert s == a + [sep] + rest;
      SplitFirst(a, sep, rest);
      JoinSplit(rest, sep);
      JoinFirst(a, sep, Split(rest, sep));
    }
  }

  /** Splitting a join of separator-free pieces gives back the pieces. */
  lemma {:induction false} SplitJoin(parts: seq<string>, sep: char)
    requires |parts| >= 1
    requires forall i :: 0 <= i < |parts| ==> sep !in parts[i]
    ensures Split(Join(parts, sep), sep) == parts
    decreases |parts|
  {
    if |parts| > 1 {
      var a, rest := parts[0], parts[1..];
      assert parts == [a] + rest;
      assert forall i :: 0 <= i < |rest| ==> rest[i] == parts[i + 1];
      JoinFirst(a, sep, rest);
      SplitFirst(a, sep, Join(rest, sep));
      SplitJoin(rest, sep);
    }
  }

  /** `attribute.split("_")[1]`: the year part of an attribute name; `None` is `undefined`. */
  function Year(attribute: string): Option<string>
  {
    var parts := Split(attribute, '_');
    if |parts| > 1 then Some(parts[1]) else None
  }

  /** The year as string concatenation renders it (`undefined` when there is none). */
  function YearText(attribute: string): string
  {
    match Year(attribute)
    case Some(y) => y
    case None => "undefined"
  }

  /** An attribute name has a year exactly when it contains an underscore. */
  lemma YearDefined(attribute: string)
    ensures Year(attribute).Some? <==> '_' in attribute
  {
  }

  /**
   * For `p + "_" + rest` with no underscore in `p`, the year is the text after
   * that underscore up to the next underscore, if any.
   */
  lemma YearAfterFirstUnderscore(p: string, rest: string)
    requires '_' !in p
    ensures Year(p + "_" + rest) == Some(Split(rest, '_')[0])
    ensures '_' !in Split(rest, '_')[0]
    ensures '_' !in rest ==> Year(p + "_" + rest) == Some(rest)
  {
    var parts := [p] + Split(rest, '_');
    forall i | 0 <= i < |parts| ensures '_' !in parts[i] {
      if i > 0 { assert parts[i] == Split(rest, '_')[i - 1]; }
    }
    JoinSplit(rest, '_');
    assert parts[1..] == Split(rest, '_');
    assert Join(parts, '_') == p + "_" + rest;
    SplitJoin(parts, '_');
  }

  /** The dataset's attribute names: `Temp_2018` has year `2018`. */
  lemma YearOfTemp2018()
    ensures Year("Temp_2018") == Some("2018")
  {
    YearAfterFirstUnderscore("Temp", "2018");
  }
}
