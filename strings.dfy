/**
 * String operations with the meaning JavaScript gives them. A string is a
 * sequence of Unicode code points.
 */
module Strings {

  /** JavaScript's `\s` class. `String.prototype.trim` strips the same set. */
  predicate IsSpace(c: char) {
    || c == ' ' || c == '\t' || c == '\n' || c == '\U{000B}' || c == '\U{000C}' || c == '\r'
    || c == '\U{00A0}' || c == '\U{1680}' || ('\U{2000}' <= c <= '\U{200A}')
    || c == '\U{2028}' || c == '\U{2029}' || c == '\U{202F}' || c == '\U{205F}'
    || c == '\U{3000}' || c == '\U{FEFF}'
  }

  /** True when the string has no character outside `\s` (the empty string included). */
  predicate IsBlank(s: string) {
    LeadingSpaces(s) == |s|
  }

  /** No whitespace at either end. */
  predicate Trimmed(s: string) {
    s == [] || (!IsSpace(s[0]) && !IsSpace(s[|s| - 1]))
  }

  function LeadingSpaces(s: string): (n: nat)
    ensures n <= |s|
    ensures forall i :: 0 <= i < n ==> IsSpace(s[i])
    ensures n < |s| ==> !IsSpace(s[n])
  {
    if s == [] || !IsSpace(s[0]) then 0 else 1 + LeadingSpaces(s[1..])
  }

  function TrailingSpaces(s: string): (n: nat)
    ensures n <= |s|
    ensures forall i :: |s| - n <= i < |s| ==> IsSpace(s[i])
    ensures n < |s| ==> !IsSpace(s[|s| - 1 - n])
  {
    if s == [] || !IsSpace(s[|s| - 1]) then 0 else 1 + TrailingSpaces(s[..|s| - 1])
  }

  /** `s.trim()`: the slice of `s` left after dropping whitespace at both ends. */
  function Trim(s: string): (r: string)
    ensures Trimmed(r)
    ensures LeadingSpaces(s) + |r| <= |s|
    ensures r == s[LeadingSpaces(s)..LeadingSpaces(s) + |r|]
    ensures forall i :: LeadingSpaces(s) + |r| <= i < |s| ==> IsSpace(s[i])
    ensures r == [] <==> IsBlank(s)
  {
    var t := s[LeadingSpaces(s)..];
    var r := t[..|t| - TrailingSpaces(t)];
    r
  }

  /** Trimming a suffix of `s` gives a suffix of `s` trimmed. */
  lemma TrimOfSuffix(s: string, d: nat)
    requires d <= |s|
    ensures EndsWith(Trim(s), Trim(s[d..]))
  {
    var r', t := Trim(s[d..]), s[d..];
    if r' != [] {
      var r := Trim(s);
      var L, L' := LeadingSpaces(s), LeadingSpaces(t);
      var E, E' := L + |r|, L' + |r'|;
      assert r'[0] == s[d + L'];
      assert r'[|r'| - 1] == s[d + E' - 1];
      assert forall i :: d + E' <= i < |s| ==> IsSpace(s[i]) by {
        forall i | d + E' <= i < |s| ensures IsSpace(s[i]) {
          assert t[i - d] == s[i];
        }
      }
      assert !IsBlank(s) by { assert !IsSpace(s[d + L']); }
      assert r[|r| - 1] == s[E - 1];
      assert E == d + E';
      assert d + L' >= L;
      assert r[d + L' - L..] == r';
    }
  }

  /** Trimming a slice of `s` leaves a piece of `s` that starts where the slice's leading spaces end. */
  lemma {:induction false} TrimOfSlice(s: string, a: nat, b: nat)
    requires a <= b <= |s|
    ensures OccursAt(s, Trim(s[a..b]), a + LeadingSpaces(s[a..b]))
  {
    var t := s[a..b];
    TrimIsPiece(t);
    OccursInSlice(s, a, b, Trim(t), LeadingSpaces(t));
  }

  /** The trimmed text is the piece of the text after its leading spaces. */
  lemma TrimIsPiece(t: string)
    ensures LeadingSpaces(t) + |Trim(t)| <= |t|
    ensures Trim(t) == t[LeadingSpaces(t)..LeadingSpaces(t) + |Trim(t)|]
  {
  }

  /** A piece of a slice of `s` occurs in `s`, shifted by the slice's start. */
  lemma OccursInSlice(s: string, a: nat, b: nat, r: string, i: nat)
    requires a <= b <= |s| && i + |r| <= b - a && r == s[a..b][i..i + |r|]
    ensures OccursAt(s, r, a + i)
  {
    SliceOfSlice(s, a, b, i, i + |r|);
  }

  lemma SliceOfSlice<T>(s: seq<T>, a: nat, b: nat, i: nat, j: nat)
    requires a <= b <= |s| && i <= j <= b - a
    ensures s[a..b][i..j] == s[a + i..a + j]
  {
    var x, y := s[a..b][i..j], s[a + i..a + j];
    forall k | 0 <= k < |x| ensures x[k] == y[k] {
      assert x[k] == s[a..b][i + k];
    }
  }

  lemma {:induction false} TrimTrimmed(s: string)
    requires Trimmed(s)
    ensures Trim(s) == s
  {
    if s != [] {
      assert LeadingSpaces(s) == 0;
      assert TrailingSpaces(s) == 0;
    }
  }

  /** The characters of `s` that are not whitespace, in order. */
  function NonSpace(s: string): (r: string)
    ensures |r| <= |s|
  {
    if s == [] then [] else (if IsSpace(s[0]) then [] else [s[0]]) + NonSpace(s[1..])
  }

  lemma {:induction false} NonSpaceAppend(a: string, b: string)
    ensures NonSpace(a + b) == NonSpace(a) + NonSpace(b)
  {
    if a == [] {
      assert a + b == b;
    } else {
      assert (a + b)[0] == a[0];
      assert (a + b)[1..] == a[1..] + b;
      NonSpaceAppend(a[1..], b);
    }
  }

  /** Leading whitespace contributes nothing. */
  lemma {:induction false} NonSpaceSkip(s: string, n: nat)
    requires n <= |s|
    requires forall i :: 0 <= i < n ==> IsSpace(s[i])
    ensures NonSpace(s) == NonSpace(s[n..])
    decreases n
  {
    if n > 0 {
      NonSpaceSkip(s[1..], n - 1);
      assert s[1..][n - 1..] == s[n..];
    }
  }

  /** Trimming removes only whitespace. */
  lemma NonSpaceTrim(s: string)
    ensures NonSpace(Trim(s)) == NonSpace(s)
  {
    var a := LeadingSpaces(s);
    var r := Trim(s);
    var b := a + |r|;
    NonSpaceSplit(s, a, b);
    assert s[a..b] == r;
    NonSpaceSkip(s[..a], a);
    NonSpaceSkip(s[b..], |s| - b);
  }

  lemma NonSpaceCut(s: string, a: nat)
    requires a <= |s|
    ensures NonSpace(s) == NonSpace(s[..a]) + NonSpace(s[a..])
  {
    assert s == s[..a] + s[a..];
    NonSpaceAppend(s[..a], s[a..]);
  }

  lemma NonSpaceSplit(s: string, a: nat, b: nat)
    requires a <= b <= |s|
    ensures NonSpace(s) == NonSpace(s[..a]) + NonSpace(s[a..b]) + NonSpace(s[b..])
  {
    NonSpaceCut(s, b);
    NonSpaceCut(s[..b], a);
    assert s[..b][..a] == s[..a];
    assert s[..b][a..] == s[a..b];
  }

  /**
   * `s.replace(/\s+/g, ' ')`: every maximal run of whitespace becomes a single
   * space, and every other character is kept, in order.
   */
  function CollapseSpaces(s: string): (r: string)
    ensures |r| <= |s|
    ensures s == [] <==> r == []
    ensures r != [] ==> (IsSpace(r[0]) <==> IsSpace(s[0]))
    ensures forall i :: 0 <= i < |r| && IsSpace(r[i]) ==> r[i] == ' '
    ensures forall i :: 0 <= i < |r| - 1 ==> !(IsSpace(r[i]) && IsSpace(r[i + 1]))
    ensures NonSpace(r) == NonSpace(s)
    decreases |s|
  {
    if s == [] then []
    else if IsSpace(s[0]) then
      NonSpaceSkip(s, LeadingSpaces(s));
      [' '] + CollapseSpaces(s[LeadingSpaces(s)..])
    else [s[0]] + CollapseSpaces(s[1..])
  }

  /**
   * The same replacement read one character at a time: a character that is
   * not whitespace is kept; a whitespace character becomes a space when it
   * starts a run and is dropped when it continues one. `afterSpace` says
   * whether the character before `s` was whitespace.
   */
  function Squeeze(s: string, afterSpace: bool): string {
    if s == [] then []
    else (if !IsSpace(s[0]) then [s[0]] else if afterSpace then [] else [' ']) + Squeeze(s[1..], IsSpace(s[0]))
  }

  lemma {:induction false} SqueezeSkip(s: string, n: nat)
    requires n <= |s|
    requires forall i :: 0 <= i < n ==> IsSpace(s[i])
    ensures Squeeze(s, true) == Squeeze(s[n..], true)
    decreases n
  {
    if n > 0 {
      SqueezeSkip(s[1..], n - 1);
      assert s[1..][n - 1..] == s[n..];
    }
  }

  /** Collapsing runs agrees with the character-by-character reading on every input. */
  lemma {:induction false} CollapseSpacesBySqueeze(s: string)
    ensures CollapseSpaces(s) == Squeeze(s, false)
    decreases |s|
  {
    if s != [] {
      if IsSpace(s[0]) {
        var n := LeadingSpaces(s);
        CollapseSpacesBySqueeze(s[n..]);
        assert Squeeze(s[n..], true) == Squeeze(s[n..], false);
        SqueezeSkip(s[1..], n - 1);
        assert s[1..][n - 1..] == s[n..];
      } else {
        CollapseSpacesBySqueeze(s[1..]);
      }
    }
  }

  /** Whitespace only as single spaces, and none at either end. */
  predicate Normalized(s: string) {
    && Trimmed(s)
    && (forall i :: 0 <= i < |s| && IsSpace(s[i]) ==> s[i] == ' ')
    && (forall i :: 0 <= i < |s| - 1 ==> !(IsSpace(s[i]) && IsSpace(s[i + 1])))
  }

  /** `text.replace(/\s+/g, ' ').trim()`: normalised, with the same non-whitespace characters in the same order. */
  function CollapseAndTrim(s: string): (r: string)
    ensures Normalized(r)
    ensures |r| <= |s|
    ensures r == [] <==> IsBlank(s)
    ensures NonSpace(r) == NonSpace(s)
  {
    var c := CollapseSpaces(s);
    var r := Trim(c);
    assert r == [] <==> IsBlank(s) by {
      if s != [] {
        var n := LeadingSpaces(s);
        if IsBlank(s) {
          assert n == |s|;
          assert c == [' '];
        }
      }
    }
    NonSpaceTrim(c);
    r
  }

  predicate StartsWith(s: string, p: string) {
    |p| <= |s| && s[..|p|] == p
  }

  predicate EndsWith(s: string, p: string) {
    |p| <= |s| && s[|s| - |p|..] == p
  }

  /** `p` occurs in `s` at offset `i`. */
  predicate OccursAt(s: string, p: string, i: int) {
    0 <= i && i + |p| <= |s| && s[i..i + |p|] == p
  }

  function LastIndexFrom(s: string, p: string, i: int): (r: int)
    requires -1 <= i < |s|
    ensures -1 <= r <= i
    ensures r >= 0 ==> OccursAt(s, p, r)
    ensures forall j :: r < j <= i ==> !OccursAt(s, p, j)
    decreases i + 1
  {
    if i < 0 then -1 else if OccursAt(s, p, i) then i else LastIndexFrom(s, p, i - 1)
  }

  /** `s.lastIndexOf(p)` for a non-empty `p`: the last offset where `p` occurs, or -1. */
  function LastIndexOf(s: string, p: string): (r: int)
    requires p != []
    ensures -1 <= r
    ensures r >= 0 ==> OccursAt(s, p, r)
    ensures forall j :: r < j && OccursAt(s, p, j) ==> false
  {
    if |p| > |s| then -1 else LastIndexFrom(s, p, |s| - |p|)
  }

  function IndexFrom(s: string, p: string, i: nat): (r: int)
    ensures r == -1 || i <= r
    ensures r >= 0 ==> OccursAt(s, p, r)
    ensures forall j :: i <= j && (r < 0 || j < r) ==> !OccursAt(s, p, j)
    decreases |s| - i
  {
    if i + |p| > |s| then -1 else if OccursAt(s, p, i) then i else IndexFrom(s, p, i + 1)
  }

  /** `s.indexOf(p)`: the first offset where `p` occurs, or -1. */
  function IndexOf(s: string, p: string): (r: int)
    ensures r >= 0 ==> OccursAt(s, p, r)
    ensures forall j :: 0 <= j && (r < 0 || j < r) ==> !OccursAt(s, p, j)
  {
    IndexFrom(s, p, 0)
  }

  /** `s.includes(p)`. */
  predicate Contains(s: string, p: string) {
    IndexOf(s, p) >= 0
  }

  lemma ContainsAt(s: string, p: string, i: int)
    requires OccursAt(s, p, i)
    ensures Contains(s, p)
  {
  }

  /** A concatenation starts with its first part and ends with its second. */
  lemma Concatenated(a: string, b: string)
    ensures StartsWith(a + b, a) && EndsWith(a + b, b)
  {
    assert (a + b)[..|a|] == a;
    assert (a + b)[|a + b| - |b|..] == b;
  }

  /** The middle part of a concatenation occurs in it. */
  lemma ContainsMiddle(a: string, x: string, b: string)
    ensures Contains(a + x + b, x)
  {
    assert (a + x + b)[|a|..|a| + |x|] == x;
    ContainsAt(a + x + b, x, |a|);
  }

  function LowerChar(c: char): char {
    if 'A' <= c <= 'Z' then (c as int + 32) as char else c
  }

  function UpperChar(c: char): char {
    if 'a' <= c <= 'z' then (c as int - 32) as char else c
  }

  /** `s.toLowerCase()` on ASCII letters. */
  function ToLower(s: string): (r: string)
    ensures |r| == |s|
    ensures forall i :: 0 <= i < |s| ==> r[i] == LowerChar(s[i])
  {
    seq(|s|, i requires 0 <= i < |s| => LowerChar(s[i]))
  }

  /** `s.toUpperCase()` on ASCII letters. */
  function ToUpper(s: string): (r: string)
    ensures |r| == |s|
    ensures forall i :: 0 <= i < |s| ==> r[i] == UpperChar(s[i])
  {
    seq(|s|, i requires 0 <= i < |s| => UpperChar(s[i]))
  }

  /** `parts.join(sep)`. */
  function Join(parts: seq<string>, sep: string): string {
    if parts == [] then []
    else if |parts| == 1 then parts[0]
    else parts[0] + sep + Join(parts[1..], sep)
  }

  lemma {:induction false} JoinSnoc(parts: seq<string>, x: string, sep: string)
    requires parts != []
    ensures Join(parts + [x], sep) == Join(parts, sep) + sep + x
    decreases |parts|
  {
    if |parts| == 1 {
      assert parts + [x] == [parts[0], x];
    } else {
      assert (parts + [x])[1..] == parts[1..] + [x];
      JoinSnoc(parts[1..], x, sep);
    }
  }

  /** The index of the first `c` in `s`, or `|s|` when there is none. */
  function IndexOfChar(s: string, c: char): (i: nat)
    ensures i <= |s|
    ensures i < |s| ==> s[i] == c
    ensures c !in s[..i]
  {
    if s == [] then 0 else if s[0] == c then 0 else 1 + IndexOfChar(s[1..], c)
  }

  /** `s.split(sep)` for a one-character separator. */
  function Split(s: string, sep: char): (parts: seq<string>)
    ensures |parts| >= 1
    ensures forall k :: 0 <= k < |parts| ==> sep !in parts[k]
    decreases |s|
  {
    var i := IndexOfChar(s, sep);
    if i == |s| then [s] else [s[..i]] + Split(s[i + 1..], sep)
  }

  /** Splitting a string without the separator gives the string alone, and one with it gives two parts or more. */
  lemma SplitSingle(s: string, sep: char)
    ensures |Split(s, sep)| == 1 <==> sep !in s
    ensures |Split(s, sep)| == 1 ==> Split(s, sep) == [s]
  {
    var i := IndexOfChar(s, sep);
    if i < |s| {
      assert sep in s;
      assert |Split(s[i + 1..], sep)| >= 1;
    } else {
      assert s[..i] == s;
    }
  }

  /** The first part is everything before the first separator. */
  lemma SplitAt(a: string, sep: char, b: string)
    requires sep !in a
    ensures Split(a + [sep] + b, sep) == [a] + Split(b, sep)
  {
    var s := a + [sep] + b;
    assert s[|a|] == sep;
    assert s[..|a|] == a;
    assert IndexOfChar(s, sep) == |a|;
    assert s[..|a|] == a && s[|a| + 1..] == b;
  }

  /** Splitting and joining with the same separator gives the string back. */
  lemma {:induction false} SplitJoin(s: string, sep: char)
    ensures Join(Split(s, sep), [sep]) == s
    decreases |s|
  {
    var i := IndexOfChar(s, sep);
    if i < |s| {
      var rest := Split(s[i + 1..], sep);
      assert Split(s, sep) == [s[..i]] + rest;
      assert ([s[..i]] + rest)[1..] == rest;
      assert Join([s[..i]] + rest, [sep]) == s[..i] + [sep] + Join(rest, [sep]);
      SplitJoin(s[i + 1..], sep);
      assert s == s[..i] + [sep] + s[i + 1..];
    }
  }

  function DigitChar(d: nat): (c: char)
    requires d < 10
    ensures '0' <= c <= '9' && c as int - '0' as int == d
  {
    (d + '0' as int) as char
  }

  predicate IsDigit(c: char) {
    '0' <= c <= '9'
  }

  /** Decimal rendering of a natural number, as `${n}` produces it. */
  function NatToString(n: nat): (r: string)
    ensures |r| >= 1
    ensures forall i :: 0 <= i < |r| ==> IsDigit(r[i])
    ensures n >= 10 ==> r[0] != '0'
    decreases n
  {
    if n < 10 then [DigitChar(n)] else NatToString(n / 10) + [DigitChar(n % 10)]
  }

  /** Decimal rendering of an integer, `-` first when negative. */
  function IntToString(i: int): string {
    if i < 0 then "-" + NatToString(-i) else NatToString(i)
  }

  /** The value of a string of decimal digits. */
  function DigitsValue(s: string): nat
    requires forall i :: 0 <= i < |s| ==> IsDigit(s[i])
  {
    if s == [] then 0
    else
      assert IsDigit(s[|s| - 1]);
      10 * DigitsValue(s[..|s| - 1]) + (s[|s| - 1] as int - '0' as int)
  }

  /** Reading back a rendered number gives the number. */
  lemma {:induction false} DigitsValueOfNatToString(n: nat)
    ensures DigitsValue(NatToString(n)) == n
    decreases n
  {
    if n >= 10 {
      var r := NatToString(n);
      assert r[..|r| - 1] == NatToString(n / 10);
      DigitsValueOfNatToString(n / 10);
    }
  }

  /** An occurrence in `s` is one at its start or one in its tail. */
  lemma ContainsShift(s: string, p: string)
    requires s != []
    ensures Contains(s, p) <==> StartsWith(s, p) || Contains(s[1..], p)
  {
    if Contains(s, p) && !StartsWith(s, p) {
      var j := IndexOf(s, p);
      assert j != 0;
      assert s[1..][j - 1..j - 1 + |p|] == s[j..j + |p|];
      ContainsAt(s[1..], p, j - 1);
    }
    if StartsWith(s, p) {
      ContainsAt(s, p, 0);
    }
    if Contains(s[1..], p) {
      var j := IndexOf(s[1..], p);
      assert s[1..][j..j + |p|] == s[j + 1..j + 1 + |p|];
      ContainsAt(s, p, j + 1);
    }
  }

  /**
   * `s.replace(p, '')` with a global regular expression for the literal `p`:
   * a left-to-right scan that drops each non-overlapping occurrence. The text
   * is left as it is exactly when `p` does not occur in it.
   */
  function RemoveAll(s: string, p: string): (r: string)
    requires p != []
    ensures |r| <= |s|
    ensures r == s <==> !Contains(s, p)
    decreases |s|
  {
    if s == [] then
      assert !Contains(s, p);
      []
    else
      ContainsShift(s, p);
      if StartsWith(s, p) then RemoveAll(s[|p|..], p)
      else
        var r := [s[0]] + RemoveAll(s[1..], p);
        assert r == s <==> RemoveAll(s[1..], p) == s[1..] by {
          assert s == [s[0]] + s[1..];
          if r == s { assert r[1..] == RemoveAll(s[1..], p); }
        }
        r
  }

  /** A `p` followed by more text, after a shorter non-empty text, cannot start the result. */
  lemma NoStraddle(s: string, p: string, b: string)
    requires 0 < |s| < |p| && p[|p| - 1] !in p[..|p| - 1]
    ensures !StartsWith(s + p + b, p)
  {
    var j := |p| - 1 - |s|;
    assert (s + p + b)[|p| - 1] == p[j];
    assert p[..|p| - 1][j] == p[j];
  }

  /** A prefix within `s` of `s + t` is a prefix of `s`. */
  lemma StartsWithLeft(s: string, t: string, p: string)
    requires |p| <= |s|
    ensures StartsWith(s + t, p) ==> Contains(s, p)
  {
    assert (s + t)[..|p|] == s[..|p|];
    if StartsWith(s, p) {
      ContainsAt(s, p, 0);
    }
  }

  /**
   * When the last character of `p` occurs nowhere else in it, no occurrence
   * straddles a text without `p` and a `p` that follows it: the scan keeps
   * the text, drops that `p`, and goes on with what comes after.
   */
  lemma {:induction false} RemoveAllSplice(a: string, p: string, b: string)
    requires p != [] && p[|p| - 1] !in p[..|p| - 1]
    requires !Contains(a, p)
    ensures RemoveAll(a + p + b, p) == a + RemoveAll(b, p)
    decreases |a|
  {
    if a == [] {
      assert a + p + b == p + b && (p + b)[..|p|] == p && (p + b)[|p|..] == b;
    } else {
      if |p| <= |a| {
        assert a + p + b == a + (p + b);
        StartsWithLeft(a, p + b, p);
      } else {
        NoStraddle(a, p, b);
      }
      ContainsShift(a, p);
      RemoveAllSplice(a[1..], p, b);
      TailOfSplice(a, p, b);
      RemoveAllKeeps(a + p + b, a, RemoveAll(b, p), p);
    }
  }

  /** The tail of `a + p + b`, for a non-empty `a`. */
  lemma TailOfSplice(a: string, p: string, b: string)
    requires a != []
    ensures (a + p + b)[0] == a[0] && (a + p + b)[1..] == a[1..] + p + b
  {
    assert a + p + b == [a[0]] + (a[1..] + p + b) by {
      assert a == [a[0]] + a[1..];
    }
  }

  /**
   * Without an occurrence at the start of `x`, its first character is kept:
   * when the rest of `x` is scanned to the rest of `a` followed by `out`, and
   * `x` and `a` start alike, `x` is scanned to `a` followed by `out`.
   */
  lemma {:induction false} RemoveAllKeeps(x: string, a: string, out: string, p: string)
    requires p != [] && x != [] && a != [] && !StartsWith(x, p) && x[0] == a[0]
    requires RemoveAll(x[1..], p) == a[1..] + out
    ensures RemoveAll(x, p) == a + out
  {
    assert RemoveAll(x, p) == [x[0]] + RemoveAll(x[1..], p);
    assert a + out == [a[0]] + (a[1..] + out) by {
      assert a == [a[0]] + a[1..];
    }
  }

  /** Removing one `p` appended to a text without it gives the text back. */
  lemma RemoveAllAppended(s: string, p: string)
    requires p != [] && p[|p| - 1] !in p[..|p| - 1]
    requires !Contains(s, p)
    ensures RemoveAll(s + p, p) == s
  {
    RemoveAllSplice(s, p, []);
    assert s + p + [] == s + p;
  }

  /** The parts one after the other, with nothing between them. */
  function Concat(parts: seq<string>): (r: string)
    ensures |parts| == 1 ==> r == parts[0]
  {
    if parts == [] then [] else parts[0] + Concat(parts[1..])
  }

  /**
   * Every copy of `p` is removed: texts without `p`, joined by `p`, come out
   * of the scan as the same texts with nothing between them.
   */
  lemma {:induction false} RemoveAllJoined(parts: seq<string>, p: string)
    requires p != [] && p[|p| - 1] !in p[..|p| - 1]
    requires forall i :: 0 <= i < |parts| ==> !Contains(parts[i], p)
    ensures RemoveAll(Join(parts, p), p) == Concat(parts)
    decreases |parts|
  {
    if |parts| > 1 {
      RemoveAllSplice(parts[0], p, Join(parts[1..], p));
      RemoveAllJoined(parts[1..], p);
    }
  }
}
