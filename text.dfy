/**
 * The few JavaScript string operations the core relies on: String.split on a
 * single character, Number() of a string of decimal digits, and String.trim.
 */
module Text {

  /** String.prototype.split(sep) for a one-character separator. */
  function Split(s: string, sep: char): (parts: seq<string>)
    ensures |parts| >= 1
    ensures forall i, j :: 0 <= i < |parts| && 0 <= j < |parts[i]| ==> parts[i][j] != sep
  {
    if s == [] then [[]]
    else
      var rest := Split(s[1..], sep);
      if s[0] == sep then [[]] + rest
      else [[s[0]] + rest[0]] + rest[1..]
  }

  /** Array.prototype.join(sep), the inverse of Split. */
  function Join(parts: seq<string>, sep: char): string {
    if parts == [] then []
    else if |parts| == 1 then parts[0]
    else parts[0] + [sep] + Join(parts[1..], sep)
  }

  lemma {:induction false} JoinSplit(s: string, sep: char)
    ensures Join(Split(s, sep), sep) == s
  {
    if s != [] {
      JoinSplit(s[1..], sep);
      var rest := Split(s[1..], sep);
      if s[0] == sep {
        assert ([[]] + rest)[1..] == rest;
      } else {
        if |rest| == 1 {
          assert Join(rest, sep) == rest[0];
        } else {
          assert Join(rest, sep) == rest[0] + [sep] + Join(rest[1..], sep);
          assert ([[s[0]] + rest[0]] + rest[1..])[1..] == rest[1..];
        }
      }
    }
  }

  lemma {:induction false} SplitJoin(parts: seq<string>, sep: char)
    requires |parts| >= 1
    requires forall i, j :: 0 <= i < |parts| && 0 <= j < |parts[i]| ==> parts[i][j] != sep
    ensures Split(Join(parts, sep), sep) == parts
    decreases |parts|, |parts[0]|
  {
    if parts[0] == [] {
      if |parts| > 1 {
        assert Join(parts, sep) == [sep] + Join(parts[1..], sep);
        SplitJoin(parts[1..], sep);
        SplitSep(Join(parts[1..], sep), sep);
        assert [[]] + parts[1..] == parts;
      }
    } else {
      var p0 := parts[0];
      var shorter := [p0[1..]] + parts[1..];
      ShorterHasNoSep(parts, sep);
      SplitJoin(shorter, sep);
      JoinCons(parts, sep);
      assert p0[0] != sep;
      SplitCons(p0[0], Join(shorter, sep), sep);
      assert shorter[0] == p0[1..] && shorter[1..] == parts[1..];
      assert [p0[0]] + p0[1..] == p0;
      assert [p0] + parts[1..] == parts;
    }
  }

  lemma SplitSep(rest: string, sep: char)
    ensures Split([sep] + rest, sep) == [[]] + Split(rest, sep)
  {
    assert ([sep] + rest)[1..] == rest;
  }

  lemma SplitCons(c: char, rest: string, sep: char)
    requires c != sep
    ensures Split([c] + rest, sep) == [[c] + Split(rest, sep)[0]] + Split(rest, sep)[1..]
  {
    assert ([c] + rest)[1..] == rest;
  }

  /** Joining parts whose first part is not empty starts with that part's first character. */
  lemma JoinCons(parts: seq<string>, sep: char)
    requires |parts| >= 1 && parts[0] != []
    ensures Join(parts, sep) == [parts[0][0]] + Join([parts[0][1..]] + parts[1..], sep)
  {
    var shorter := [parts[0][1..]] + parts[1..];
    assert shorter[1..] == parts[1..];
    assert parts[0] == [parts[0][0]] + parts[0][1..];
  }

  lemma ShorterHasNoSep(parts: seq<string>, sep: char)
    requires |parts| >= 1 && parts[0] != []
    requires forall i, j :: 0 <= i < |parts| && 0 <= j < |parts[i]| ==> parts[i][j] != sep
    ensures var shorter := [parts[0][1..]] + parts[1..];
      forall i, j :: 0 <= i < |shorter| && 0 <= j < |shorter[i]| ==> shorter[i][j] != sep
  {
    var shorter := [parts[0][1..]] + parts[1..];
    forall i, j | 0 <= i < |shorter| && 0 <= j < |shorter[i]| ensures shorter[i][j] != sep {
      if i == 0 { assert shorter[0][j] == parts[0][j + 1]; } else { assert shorter[i] == parts[i]; }
    }
  }

  predicate IsDigit(c: char) {
    '0' <= c <= '9'
  }

  predicate IsDigits(s: string) {
    forall i :: 0 <= i < |s| ==> IsDigit(s[i])
  }

  /** Number(s) for a string of decimal digits; Number("") is 0. */
  function DigitsValue(s: string): nat
    requires IsDigits(s)
  {
    if s == [] then 0
    else DigitsValue(s[..|s| - 1]) * 10 + (s[|s| - 1] as int - '0' as int)
  }

  /** The two-digit decimal rendering of n, with a leading zero below 10. */
  function TwoDigits(n: nat): (s: string)
    requires n < 100
    ensures |s| == 2 && IsDigits(s)
  {
    [('0' as int + n / 10) as char, ('0' as int + n % 10) as char]
  }

  lemma TwoDigitsValue(n: nat)
    requires n < 100
    ensures DigitsValue(TwoDigits(n)) == n
  {
    var s := TwoDigits(n);
    assert s[..1][..0] == [];
    assert DigitsValue(s[..1]) == n / 10;
  }

  /** The characters String.prototype.trim removes: WhiteSpace and LineTerminator of ECMAScript. */
  predicate IsSpace(c: char) {
    || c == '\t' || c == '\n' || c == '\U{000B}' || c == '\U{000C}' || c == '\r' || c == ' '
    || c == '\U{00A0}' || c == '\U{1680}' || ('\U{2000}' <= c <= '\U{200A}')
    || c == '\U{2028}' || c == '\U{2029}' || c == '\U{202F}' || c == '\U{205F}'
    || c == '\U{3000}' || c == '\U{FEFF}'
  }

  function TrimStart(s: string): (r: string)
    ensures |r| <= |s| && r == s[|s| - |r|..]
    ensures r != [] ==> !IsSpace(r[0])
    ensures forall i :: 0 <= i < |s| - |r| ==> IsSpace(s[i])
  {
    if s != [] && IsSpace(s[0]) then TrimStart(s[1..]) else s
  }

  function TrimEnd(s: string): (r: string)
    ensures |r| <= |s| && r == s[..|r|]
    ensures r != [] ==> !IsSpace(r[|r| - 1])
    ensures forall i :: |r| <= i < |s| ==> IsSpace(s[i])
  {
    if s != [] && IsSpace(s[|s| - 1]) then TrimEnd(s[..|s| - 1]) else s
  }

  /** String.prototype.trim. */
  function Trim(s: string): string {
    TrimEnd(TrimStart(s))
  }

  /**
   * Trim keeps a contiguous middle part of the string, drops only spaces
   * around it, and the part it keeps neither starts nor ends with a space.
   */
  lemma TrimIsMiddle(s: string)
    ensures var r, i := Trim(s), |s| - |TrimStart(s)|;
      && (r == [] || (!IsSpace(r[0]) && !IsSpace(r[|r| - 1])))
      && i + |r| <= |s| && r == s[i..i + |r|]
      && (forall j :: 0 <= j < i ==> IsSpace(s[j]))
      && (forall j :: i + |r| <= j < |s| ==> IsSpace(s[j]))
  {
    TrimEnds(s);
    TrimSlice(s);
    TrimLeading(s);
    TrimTrailing(s);
  }

  lemma TrimSlice(s: string)
    ensures var r, i := Trim(s), |s| - |TrimStart(s)|;
      i + |r| <= |s| && r == s[i..i + |r|]
  {
  }

  lemma TrimLeading(s: string)
    ensures var i := |s| - |TrimStart(s)|;
      forall j :: 0 <= j < i ==> IsSpace(s[j])
  {
  }

  lemma TrimTrailing(s: string)
    ensures var r, i := Trim(s), |s| - |TrimStart(s)|;
      forall j :: i + |r| <= j < |s| ==> IsSpace(s[j])
  {
    var t := TrimStart(s);
    SuffixSpaces(s, |s| - |t|, t, |TrimEnd(t)|);
  }

  /** Spaces at the end of a suffix `t` of `s` are spaces at the end of `s`. */
  lemma SuffixSpaces(s: string, i: nat, t: string, n: nat)
    requires i <= |s| && t == s[i..] && n <= |t|
    requires forall k :: n <= k < |t| ==> IsSpace(t[k])
    ensures forall j :: i + n <= j < |s| ==> IsSpace(s[j])
  {
    forall j | i + n <= j < |s| ensures IsSpace(s[j]) {
      assert s[j] == t[j - i];
    }
  }

  /** The trimmed string neither starts nor ends with a space. */
  lemma TrimEnds(s: string)
    ensures var r := Trim(s); r == [] || (!IsSpace(r[0]) && !IsSpace(r[|r| - 1]))
  {
    var t := TrimStart(s);
    var r := TrimEnd(t);
    if r != [] {
      assert t != [] && r[0] == t[0];
    }
  }

  lemma {:induction false} TrimIdempotent(s: string)
    ensures Trim(Trim(s)) == Trim(s)
  {
    var r := Trim(s);
    TrimIsMiddle(s);
    if r != [] {
      assert TrimStart(r) == r;
      assert TrimEnd(r) == r;
    }
  }
}
