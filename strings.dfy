/** The string built-ins the calendar code calls: `startsWith`, `includes`,
    `toLowerCase` (ASCII letters only), `trim` and `split(/\r?\n/)`. */
module Strings {

  predicate IsDigit(c: char) {
    '0' <= c <= '9'
  }

  predicate AllDigits(s: string) {
    forall i :: 0 <= i < |s| ==> IsDigit(s[i])
  }

  /** `s.startsWith(p)` */
  predicate StartsWith(s: string, p: string) {
    |p| <= |s| && s[..|p|] == p
  }

  /** `s.includes(sub)`, searched position by position from the left. */
  predicate Contains(s: string, sub: string)
    decreases |s|
  {
    StartsWith(s, sub) || (|s| > 0 && Contains(s[1..], sub))
  }

  /** `sub` occurs in `s` at offset `i`. */
  predicate OccursAt(s: string, sub: string, i: int) {
    0 <= i <= |s| - |sub| && s[i..i + |sub|] == sub
  }

  /** `Contains` agrees with the textbook definition: `sub` occurs at some offset of `s`. */
  lemma {:induction false} ContainsIff(s: string, sub: string)
    ensures Contains(s, sub) <==> exists i :: OccursAt(s, sub, i)
    decreases |s|
  {
    if StartsWith(s, sub) {
      assert OccursAt(s, sub, 0);
    } else if |s| == 0 {
    } else {
      ContainsIff(s[1..], sub);
      if Contains(s[1..], sub) {
        var i :| OccursAt(s[1..], sub, i);
        assert s[i + 1..i + 1 + |sub|] == s[1..][i..i + |sub|];
        assert OccursAt(s, sub, i + 1);
      }
      if i :| OccursAt(s, sub, i) {
        assert i != 0;
        assert s[1..][i - 1..i - 1 + |sub|] == s[i..i + |sub|];
        assert OccursAt(s[1..], sub, i - 1);
      }
    }
  }

  /** A non-empty needle never occurs in the empty string. */
  lemma NotContainedInEmpty(sub: string)
    requires sub != ""
    ensures !Contains("", sub)
  {
  }

  /** Position of the first `c` in `s`, or `|s|` when there is none (`indexOf` with -1 mapped to `|s|`). */
  function IndexOf(s: string, c: char): (k: nat)
    ensures k <= |s|
    ensures k < |s| ==> s[k] == c
    ensures forall i :: 0 <= i < k ==> s[i] != c
    decreases |s|
  {
    if |s| == 0 then 0
    else if s[0] == c then 0
    else 1 + IndexOf(s[1..], c)
  }

  function LowerChar(c: char): char {
    if 'A' <= c <= 'Z' then (c as int + 32) as char else c
  }

  function UpperChar(c: char): char {
    if 'a' <= c <= 'z' then (c as int - 32) as char else c
  }

  /** `toLowerCase`, on ASCII letters. */
  function Lower(s: string): (r: string)
    ensures |r| == |s|
  {
    if s == [] then [] else [LowerChar(s[0])] + Lower(s[1..])
  }

  /** `toUpperCase`, on ASCII letters; used only to state case-insensitivity. */
  function Upper(s: string): (r: string)
    ensures |r| == |s|
  {
    if s == [] then [] else [UpperChar(s[0])] + Upper(s[1..])
  }

  lemma {:induction false} LowerIdempotent(s: string)
    ensures Lower(Lower(s)) == Lower(s)
  {
    if s != [] {
      LowerIdempotent(s[1..]);
      assert Lower(s)[1..] == Lower(s[1..]);
    }
  }

  /** No ASCII capital letter in `s`. */
  predicate NoCapitals(s: string) {
    forall i :: 0 <= i < |s| ==> !('A' <= s[i] <= 'Z')
  }

  /** Text without capitals is its own lower-case form. */
  lemma {:induction false} LowerOfNoCapitals(s: string)
    requires NoCapitals(s)
    ensures Lower(s) == s
  {
    if s != [] {
      LowerOfNoCapitals(s[1..]);
      assert s == [s[0]] + s[1..];
    }
  }

  /** Lower-casing forgets the case of every letter: `s` and its upper-case form lower to the same text. */
  lemma {:induction false} LowerOfUpper(s: string)
    ensures Lower(Upper(s)) == Lower(s)
  {
    if s != [] {
      LowerOfUpper(s[1..]);
      assert Upper(s)[1..] == Upper(s[1..]);
    }
  }

  /** The characters `String.prototype.trim` removes: ECMAScript WhiteSpace and LineTerminator. */
  predicate IsSpace(c: char) {
    c == '\t' || c == '\n' || c == '\U{000B}' || c == '\U{000C}' || c == '\r' || c == ' ' ||
    c == '\U{00A0}' || c == '\U{1680}' || ('\U{2000}' <= c <= '\U{200A}') ||
    c == '\U{2028}' || c == '\U{2029}' || c == '\U{202F}' || c == '\U{205F}' ||
    c == '\U{3000}' || c == '\U{FEFF}'
  }

  function TrimStart(s: string): (r: string)
    ensures |r| <= |s| && r == s[|s| - |r|..]
    ensures forall i :: 0 <= i < |s| - |r| ==> IsSpace(s[i])
    ensures r != [] ==> !IsSpace(r[0])
  {
    if s != [] && IsSpace(s[0]) then TrimStart(s[1..]) else s
  }

  function TrimEnd(s: string): (r: string)
    ensures |r| <= |s| && r == s[..|r|]
    ensures forall i :: |r| <= i < |s| ==> IsSpace(s[i])
    ensures r != [] ==> !IsSpace(r[|r| - 1])
  {
    if s != [] && IsSpace(s[|s| - 1]) then TrimEnd(s[..|s| - 1]) else s
  }

  /** `trim()`: the infix of `s` left after removing white space at both ends. */
  function Trim(s: string): (r: string)
    ensures exists i :: OccursAt(s, r, i)
    ensures r != [] ==> !IsSpace(r[0]) && !IsSpace(r[|r| - 1])
  {
    var e := TrimEnd(s);
    var r := TrimStart(e);
    var i := |e| - |r|;
    assert OccursAt(s, r, i);
    r
  }

  /** `Trim` removes nothing but white space: the result sits at some offset of `s`, with only
      white space before and after it. */
  lemma TrimDropsOnlySpace(s: string)
    ensures exists i :: OccursAt(s, Trim(s), i) && RemovedOnlySpace(s, i, i + |Trim(s)|)
  {
    var e := TrimEnd(s);
    var r := TrimStart(e);
    assert Trim(s) == r;
    var i := |e| - |r|;
    assert OccursAt(s, r, i);
    forall k | 0 <= k < i ensures IsSpace(s[k]) {
      assert s[k] == e[k];
    }
    assert RemovedOnlySpace(s, i, i + |r|);
  }

  /** Everything of `s` before position `i` and from position `j` on is white space. */
  predicate RemovedOnlySpace(s: string, i: int, j: int) {
    (forall k :: 0 <= k < i && k < |s| ==> IsSpace(s[k])) &&
    (forall k :: j <= k < |s| && 0 <= k ==> IsSpace(s[k]))
  }

  /** Text without white space is left alone by `trim()`. */
  lemma TrimNoSpace(s: string)
    requires forall i :: 0 <= i < |s| ==> !IsSpace(s[i])
    ensures Trim(s) == s
  {
  }

  /** One trailing carriage return removed: the `\r?` part of the line separator. */
  function DropCR(s: string): (r: string)
    ensures r == s || (s == r + "\r")
  {
    if |s| > 0 && s[|s| - 1] == '\r' then s[..|s| - 1] else s
  }

  /** `split(/\r?\n/)`: the pieces between line feeds, each without the carriage return
      that directly precedes its line feed. */
  function SplitLines(t: string): (ls: seq<string>)
    ensures |ls| >= 1
    ensures forall k :: 0 <= k < |ls| ==> '\n' !in ls[k]
    decreases |t|
  {
    var k := IndexOf(t, '\n');
    if k == |t| then [t] else [DropCR(t[..k])] + SplitLines(t[k + 1..])
  }

  /** The lines put back together with line feeds. */
  function JoinLines(ls: seq<string>): string
    requires |ls| >= 1
  {
    if |ls| == 1 then ls[0] else ls[0] + "\n" + JoinLines(ls[1..])
  }

  /** The lines put back together with `\r\n`, the line separator of RFC 5545 section 3.1. */
  function JoinCRLF(ls: seq<string>): string
    requires |ls| >= 1
  {
    if |ls| == 1 then ls[0] else ls[0] + "\r\n" + JoinCRLF(ls[1..])
  }

  /** Lines without line feeds joined with `\r\n` split back into the same lines: the carriage
      return of each separator is dropped, and only that one. */
  lemma {:induction false} SplitJoinCRLF(ls: seq<string>)
    requires |ls| >= 1
    requires forall k :: 0 <= k < |ls| ==> '\n' !in ls[k]
    ensures SplitLines(JoinCRLF(ls)) == ls
  {
    if |ls| > 1 {
      SplitJoinCRLF(ls[1..]);
      CRLFStep(ls[0], JoinCRLF(ls[1..]));
    }
  }

  /** Splitting `line + "\r\n" + rest`, for a line without line feeds, gives the line and then the
      lines of `rest`. */
  lemma CRLFStep(line: string, rest: string)
    requires '\n' !in line
    ensures SplitLines(line + "\r\n" + rest) == [line] + SplitLines(rest)
  {
    var t := line + "\r\n" + rest;
    var head := line + "\r";
    assert '\n' !in head;
    IndexOfConcat(head, "\n" + rest, '\n');
    assert t == head + ("\n" + rest);
    var k := IndexOf(t, '\n');
    assert k == |head|;
    assert t[..k] == head;
    assert t[k + 1..] == rest;
    assert DropCR(head) == line;
  }

  /** The first `c` in `a + b`, when `a` has none, is the first `c` in `b`, shifted by `|a|`. */
  lemma {:induction false} IndexOfConcat(a: string, b: string, c: char)
    requires c !in a
    ensures IndexOf(a + b, c) == |a| + IndexOf(b, c)
  {
    if a != [] {
      assert (a + b)[0] == a[0] != c;
      assert (a + b)[1..] == a[1..] + b;
      assert forall x :: x in a[1..] ==> x in a;
      IndexOfConcat(a[1..], b, c);
    } else {
      assert a + b == b;
    }
  }

  /** A character missing from `s` is missing from every slice of it. */
  lemma NotInSlice(s: string, c: char, i: nat, j: nat)
    requires i <= j <= |s| && c !in s
    ensures c !in s[i..j]
  {
  }

  /** `s` is what lies before position `k`, the character at `k` and what lies after it. */
  lemma SplitAround(s: string, k: nat)
    requires k < |s|
    ensures s == s[..k] + [s[k]] + s[k + 1..]
  {
  }

  /** For text with no carriage return, splitting into lines and joining them again gives back the text. */
  lemma {:induction false} JoinSplitLines(t: string)
    requires '\r' !in t
    ensures JoinLines(SplitLines(t)) == t
    decreases |t|
  {
    var k := IndexOf(t, '\n');
    if k < |t| {
      SplitStep(t, k);
      JoinSplitLines(t[k + 1..]);
    }
  }

  /** One step of the split: the first line, then the lines of what follows the first line feed. */
  lemma SplitStep(t: string, k: nat)
    requires '\r' !in t && k == IndexOf(t, '\n') && k < |t|
    ensures '\r' !in t[k + 1..]
    ensures JoinLines(SplitLines(t)) == t[..k] + "\n" + JoinLines(SplitLines(t[k + 1..]))
    ensures t == t[..k] + "\n" + t[k + 1..]
  {
    var head, rest := t[..k], t[k + 1..];
    NotInSlice(t, '\r', k + 1, |t|);
    assert SplitLines(t) == [head] + SplitLines(rest) by {
      NotInSlice(t, '\r', 0, k);
      assert DropCR(head) == head;
    }
    assert ([head] + SplitLines(rest))[1..] == SplitLines(rest);
    SplitAround(t, k);
    assert [t[k]] == "\n";
  }

}
