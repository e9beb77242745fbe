/**
 * Python's `str` operations that the bots use, over Dafny strings
 * (sequences of Unicode scalar values, which is what a Python `str`
 * holds once it has been decoded).
 */
module Strings {

  /** `pat` occurs in `t` starting at index `i`. */
  predicate OccursAt(t: string, pat: string, i: nat) {
    i + |pat| <= |t| && t[i..i + |pat|] == pat
  }

  /** Python's `pat in t`. */
  predicate Contains(t: string, pat: string) {
    exists i :: 0 <= i <= |t| && OccursAt(t, pat, i)
  }

  /** A text that contains a string contains each of its prefixes. */
  lemma ContainsPrefix(t: string, p: string, q: string)
    requires Contains(t, p + q)
    ensures Contains(t, p)
  {
    var i :| 0 <= i <= |t| && OccursAt(t, p + q, i);
    assert t[i..i + |p|] == (p + q)[..|p|] == p;
    assert OccursAt(t, p, i);
  }

  /** Python's `t.startswith(pat)`. */
  predicate StartsWith(t: string, pat: string) {
    |pat| <= |t| && t[..|pat|] == pat
  }

  /** Python's `t.endswith(pat)`. */
  predicate EndsWith(t: string, pat: string) {
    |pat| <= |t| && t[|t| - |pat|..] == pat
  }

  /** Python's `s[:n]`: at most the first `n` characters. */
  function Take(s: string, n: nat): (r: string)
    ensures |s| <= n ==> r == s
    ensures |s| > n ==> |r| == n && r == s[..n]
  {
    if |s| <= n then s else s[..n]
  }

  /** Python's `s.count(c)` for a one-character argument. */
  function CountChar(s: string, c: char): nat {
    if |s| == 0 then 0 else (if s[0] == c then 1 else 0) + CountChar(s[1..], c)
  }

  lemma {:induction false} CountCharConcat(a: string, b: string, c: char)
    ensures CountChar(a + b, c) == CountChar(a, c) + CountChar(b, c)
    decreases |a|
  {
    if |a| > 0 {
      assert (a + b)[1..] == a[1..] + b;
      CountCharConcat(a[1..], b, c);
    } else {
      assert a + b == b;
    }
  }

  lemma {:induction false} CountCharAbsent(s: string, c: char)
    requires c !in s
    ensures CountChar(s, c) == 0
    decreases |s|
  {
    if |s| > 0 {
      CountCharAbsent(s[1..], c);
    }
  }

  // ---------------------------------------------------------------------
  // str.replace
  // ---------------------------------------------------------------------

  /**
   * Python's `s.replace(pat, rep)` for a non-empty `pat`: occurrences are
   * found left to right and do not overlap; the text inserted by `rep` is
   * never searched again.
   */
  function ReplaceAll(s: string, pat: string, rep: string): string
    requires |pat| > 0
    decreases |s|
  {
    if |s| < |pat| then s
    else if s[..|pat|] == pat then rep + ReplaceAll(s[|pat|..], pat, rep)
    else [s[0]] + ReplaceAll(s[1..], pat, rep)
  }

  /** Replacing a pattern that does not occur changes nothing. */
  lemma {:induction false} ReplaceAllAbsent(s: string, pat: string, rep: string)
    requires |pat| > 0 && !Contains(s, pat)
    ensures ReplaceAll(s, pat, rep) == s
    decreases |s|
  {
    if |s| >= |pat| {
      assert !OccursAt(s, pat, 0);
      forall i | 0 <= i <= |s[1..]| && OccursAt(s[1..], pat, i)
        ensures false
      {
        assert s[1..][i..i + |pat|] == s[i + 1..i + 1 + |pat|];
        assert OccursAt(s, pat, i + 1);
      }
      ReplaceAllAbsent(s[1..], pat, rep);
    }
  }

  /** Text in front of which no occurrence starts is copied unchanged. */
  lemma {:induction false} ReplaceAllSkip(a: string, b: string, pat: string, rep: string)
    requires |pat| > 0
    requires forall i :: 0 <= i < |a| ==> !OccursAt(a + b, pat, i)
    ensures ReplaceAll(a + b, pat, rep) == a + ReplaceAll(b, pat, rep)
    decreases |a|
  {
    if |a| > 0 {
      var s := a + b;
      if |s| < |pat| {
        assert ReplaceAll(b, pat, rep) == b;
      } else {
        assert !OccursAt(s, pat, 0);
        assert s[0..|pat|] == s[..|pat|];
        assert s[1..] == a[1..] + b;
        forall i | 0 <= i < |a[1..]|
          ensures !OccursAt(a[1..] + b, pat, i)
        {
          if OccursAt(a[1..] + b, pat, i) {
            assert s[i + 1..i + 1 + |pat|] == (a[1..] + b)[i..i + |pat|];
            assert OccursAt(s, pat, i + 1);
          }
        }
        ReplaceAllSkip(a[1..], b, pat, rep);
        assert s[0] == a[0] && [a[0]] + a[1..] == a;
      }
    } else {
      assert a + b == b;
    }
  }

  /** An occurrence at the front is replaced. */
  lemma ReplaceAllAtFront(pat: string, rest: string, rep: string)
    requires |pat| > 0
    ensures ReplaceAll(pat + rest, pat, rep) == rep + ReplaceAll(rest, pat, rep)
  {
    assert (pat + rest)[..|pat|] == pat;
    assert (pat + rest)[|pat|..] == rest;
  }

  /**
   * If `pat[k]` is a character that `pre` does not hold and that `rest`
   * does not hold in its first `k` places, no occurrence of `pat` in
   * `pre + rest` starts inside `pre`.
   */
  lemma NoOccurrenceInside(pre: string, rest: string, pat: string, k: nat)
    requires k < |pat| && pat[k] !in pre
    requires forall j :: 0 <= j < k && j < |rest| ==> rest[j] != pat[k]
    ensures forall i :: 0 <= i < |pre| ==> !OccursAt(pre + rest, pat, i)
  {
    var t := pre + rest;
    forall i | 0 <= i < |pre|
      ensures !OccursAt(t, pat, i)
    {
      if i + |pat| <= |t| {
        if i + k < |pre| {
          assert t[i + k] == pre[i + k];
        } else {
          assert t[i + k] == rest[i + k - |pre|];
        }
        assert t[i..i + |pat|][k] != pat[k];
      }
    }
  }

  /** A text that lacks the `k`-th character of a pattern does not contain the pattern. */
  lemma AbsentWithoutKey(s: string, pat: string, k: nat)
    requires k < |pat| && pat[k] !in s
    ensures !Contains(s, pat)
  {
    forall i | 0 <= i <= |s|
      ensures !OccursAt(s, pat, i)
    {
      if i + |pat| <= |s| {
        assert s[i..i + |pat|][k] == s[i + k];
      }
    }
  }

  /**
   * When the `k`-th character of a pattern is found neither around it nor
   * among its own first `k` characters, the pattern placed between `pre`
   * and `rest` is found, and replacing it replaces exactly that placement.
   */
  lemma ReplaceSoleOccurrence(pre: string, pat: string, rest: string, k: nat, rep: string)
    requires k < |pat| && pat[k] !in pre && pat[k] !in rest && pat[k] !in pat[..k]
    ensures Contains(pre + pat + rest, pat)
    ensures ReplaceAll(pre + pat + rest, pat, rep) == pre + rep + rest
  {
    var tail := pat + rest;
    assert pre + pat + rest == pre + tail;
    forall j | 0 <= j < k && j < |tail|
      ensures tail[j] != pat[k]
    {
      assert tail[j] == pat[..k][j];
    }
    NoOccurrenceInside(pre, tail, pat, k);
    assert OccursAt(pre + tail, pat, |pre|) by {
      assert (pre + tail)[|pre|..|pre| + |pat|] == pat;
    }
    ReplaceAllSkip(pre, tail, pat, rep);
    ReplaceAllAtFront(pat, rest, rep);
    AbsentWithoutKey(rest, pat, k);
    ReplaceAllAbsent(rest, pat, rep);
  }

  /**
   * A pattern whose key character is absent before it and from its own
   * prefix before the key occurs at the end of `pre + pat` and nowhere else.
   */
  lemma SoleOccurrenceAtEnd(pre: string, pat: string, k: nat)
    requires k < |pat| && pat[k] !in pre && pat[k] !in pat[..k]
    ensures forall i :: 0 <= i <= |pre + pat| ==> (OccursAt(pre + pat, pat, i) <==> i == |pre|)
  {
    forall j | 0 <= j < k && j < |pat|
      ensures pat[j] != pat[k]
    {
      assert pat[j] == pat[..k][j];
    }
    NoOccurrenceInside(pre, pat, pat, k);
    assert (pre + pat)[|pre|..|pre| + |pat|] == pat;
  }

  /** Moves the brackets of a five-part concatenation. */
  lemma Regroup(a: string, b: string, c: string, d: string, e: string)
    ensures a + (b + c + d) + e == a + b + (c + d + e)
  {
  }

  /** One-character replacement, character by character. */
  function ReplaceChar(s: string, c: char, rep: string): string {
    if |s| == 0 then [] else (if s[0] == c then rep else [s[0]]) + ReplaceChar(s[1..], c, rep)
  }

  lemma {:induction false} ReplaceAllOneChar(s: string, c: char, rep: string)
    ensures ReplaceAll(s, [c], rep) == ReplaceChar(s, c, rep)
    decreases |s|
  {
    if |s| > 0 {
      ReplaceAllOneChar(s[1..], c, rep);
    }
  }

  lemma {:induction false} ReplaceCharConcat(a: string, b: string, c: char, rep: string)
    ensures ReplaceChar(a + b, c, rep) == ReplaceChar(a, c, rep) + ReplaceChar(b, c, rep)
    decreases |a|
  {
    if |a| > 0 {
      assert (a + b)[1..] == a[1..] + b;
      ReplaceCharConcat(a[1..], b, c, rep);
    } else {
      assert a + b == b;
    }
  }

  /** A replacement text without `c` leaves no `c` behind. */
  lemma {:induction false} ReplaceCharRemoves(s: string, c: char, rep: string)
    requires c !in rep
    ensures c !in ReplaceChar(s, c, rep)
    decreases |s|
  {
    if |s| > 0 {
      ReplaceCharRemoves(s[1..], c, rep);
    }
  }

  /**
   * Python's universal newlines when a file is read in text mode: every
   * `\r\n`, then every remaining `\r`, becomes `\n`.
   */
  function TranslateNewlines(raw: string): string {
    ReplaceAll(ReplaceAll(raw, "\r\n", "\n"), "\r", "\n")
  }

  /** After reading, no carriage return is left. */
  lemma TranslateNewlinesNoCr(raw: string)
    ensures '\r' !in TranslateNewlines(raw)
  {
    var t := ReplaceAll(raw, "\r\n", "\n");
    ReplaceAllOneChar(t, '\r', "\n");
    ReplaceCharRemoves(t, '\r', "\n");
  }

  /** Text without carriage returns reads back as it was written. */
  lemma TranslateNewlinesPlain(s: string)
    requires '\r' !in s
    ensures TranslateNewlines(s) == s
  {
    AbsentWithoutKey(s, "\r\n", 0);
    ReplaceAllAbsent(s, "\r\n", "\n");
    AbsentWithoutKey(s, "\r", 0);
    ReplaceAllAbsent(s, "\r", "\n");
  }

  /** A line ended by `\r\n` reads back ended by `\n`. */
  lemma TranslateNewlinesCrLf(line: string)
    requires '\r' !in line
    ensures TranslateNewlines(line + "\r\n") == line + "\n"
  {
    forall i | 0 <= i < |line|
      ensures !OccursAt(line + "\r\n", "\r\n", i)
    {
      if i + 2 <= |line| + 2 {
        assert (line + "\r\n")[i..i + 2][0] == (line + "\r\n")[i];
        if i < |line| {
          assert (line + "\r\n")[i] == line[i];
        }
      }
    }
    ReplaceAllSkip(line, "\r\n", "\r\n", "\n");
    ReplaceAllAtFront("\r\n", "", "\n");
    assert ReplaceAll("", "\r\n", "\n") == "";
    assert "\r\n" + "" == "\r\n";
    var first := ReplaceAll(line + "\r\n", "\r\n", "\n");
    assert first == line + "\n";
    assert '\r' !in line + "\n";
    AbsentWithoutKey(line + "\n", "\r", 0);
    ReplaceAllAbsent(line + "\n", "\r", "\n");
  }

  // ---------------------------------------------------------------------
  // str.split and str.join
  // ---------------------------------------------------------------------

  /** Python's `s.split(pat)` for a non-empty `pat`. */
  function SplitOn(s: string, pat: string): (parts: seq<string>)
    requires |pat| > 0
    ensures |parts| >= 1
    decreases |s|
  {
    if |s| < |pat| then [s]
    else if s[..|pat|] == pat then [""] + SplitOn(s[|pat|..], pat)
    else
      var r := SplitOn(s[1..], pat);
      [[s[0]] + r[0]] + r[1..]
  }

  /** Python's `sep.join(parts)`. */
  function Join(parts: seq<string>, sep: string): string
    decreases |parts|
  {
    if |parts| == 0 then ""
    else if |parts| == 1 then parts[0]
    else parts[0] + sep + Join(parts[1..], sep)
  }

  /** `s.replace(pat, rep)` is `rep.join(s.split(pat))`. */
  lemma {:induction false} ReplaceIsJoinOfSplit(s: string, pat: string, rep: string)
    requires |pat| > 0
    ensures ReplaceAll(s, pat, rep) == Join(SplitOn(s, pat), rep)
    decreases |s|
  {
    if |s| < |pat| {
    } else if s[..|pat|] == pat {
      ReplaceIsJoinOfSplit(s[|pat|..], pat, rep);
      JoinAfterEmpty(SplitOn(s[|pat|..], pat), rep);
    } else {
      ReplaceIsJoinOfSplit(s[1..], pat, rep);
      JoinExtendFirst(s[0], SplitOn(s[1..], pat), rep);
    }
  }

  /** Joining after an empty first part puts the separator in front. */
  lemma JoinAfterEmpty(r: seq<string>, sep: string)
    requires |r| >= 1
    ensures Join([""] + r, sep) == sep + Join(r, sep)
  {
    assert ([""] + r)[1..] == r;
  }

  /** A character put in front of the first part comes first in the join. */
  lemma JoinExtendFirst(c: char, r: seq<string>, sep: string)
    requires |r| >= 1
    ensures Join([[c] + r[0]] + r[1..], sep) == [c] + Join(r, sep)
  {
    var parts := [[c] + r[0]] + r[1..];
    if |r| > 1 {
      assert parts[1..] == r[1..];
    }
  }

  /** Replacing a pattern by itself gives the text back. */
  lemma {:induction false} ReplaceByItself(s: string, pat: string)
    requires |pat| > 0
    ensures ReplaceAll(s, pat, pat) == s
    decreases |s|
  {
    if |s| >= |pat| {
      if s[..|pat|] == pat {
        ReplaceByItself(s[|pat|..], pat);
        assert s == s[..|pat|] + s[|pat|..];
      } else {
        ReplaceByItself(s[1..], pat);
      }
    }
  }

  /** Splitting and joining with the same separator is the identity. */
  lemma SplitJoinRoundTrip(s: string, pat: string)
    requires |pat| > 0
    ensures Join(SplitOn(s, pat), pat) == s
  {
    ReplaceIsJoinOfSplit(s, pat, pat);
    ReplaceByItself(s, pat);
  }

  /** A text without the one-character separator is a single piece. */
  lemma {:induction false} SplitOnCharAbsent(s: string, c: char)
    requires c !in s
    ensures SplitOn(s, [c]) == [s]
    decreases |s|
  {
    if |s| > 0 {
      assert s[0] != c;
      assert s[..1] != [c];
      SplitOnCharAbsent(s[1..], c);
      assert [s[0]] + s[1..] == s;
    }
  }

  /** A text opening with a character other than the separator adds it to the first piece of the rest. */
  lemma SplitOnCons(s: string, c: char)
    requires |s| > 0 && s[0] != c
    ensures SplitOn(s, [c]) == [[s[0]] + SplitOn(s[1..], [c])[0]] + SplitOn(s[1..], [c])[1..]
  {
    assert s[..1] != [c];
  }

  /** A text opening with the separator splits off an empty piece. */
  lemma SplitOnSeparatorFirst(s: string, c: char)
    requires |s| > 0 && s[0] == c
    ensures SplitOn(s, [c]) == [""] + SplitOn(s[1..], [c])
  {
    assert s[..1] == [c];
  }

  lemma TailOfConcat(a: string, c: char, b: string)
    requires |a| > 0
    ensures (a + [c] + b)[0] == a[0] && (a + [c] + b)[1..] == a[1..] + [c] + b
  {
  }

  /** Adding a character to the first piece commutes with appending more pieces. */
  lemma ConsPieces(x: char, q: seq<string>, w: seq<string>)
    requires |q| > 0
    ensures [[x] + (q + w)[0]] + (q + w)[1..] == [[x] + q[0]] + q[1..] + w
  {
    assert (q + w)[0] == q[0];
    assert (q + w)[1..] == q[1..] + w;
  }

  /** A concatenation opening with the separator splits off an empty piece. */
  lemma SplitOnConcatSeparatorFirst(a: string, c: char, b: string)
    requires |a| > 0 && a[0] == c
    ensures SplitOn(a + [c] + b, [c]) == [""] + SplitOn(a[1..] + [c] + b, [c])
  {
    TailOfConcat(a, c, b);
    SplitOnSeparatorFirst(a + [c] + b, c);
  }

  lemma EmptyFirstPiece(q: seq<string>, w: seq<string>)
    ensures [""] + (q + w) == [""] + q + w
  {
  }

  /** The step of `SplitOnCharConcat` for a text that opens with the separator. */
  lemma SplitOnConcatSeparatorStep(a: string, c: char, b: string)
    requires |a| > 0 && a[0] == c
    requires SplitOn(a[1..] + [c] + b, [c]) == SplitOn(a[1..], [c]) + SplitOn(b, [c])
    ensures SplitOn(a + [c] + b, [c]) == SplitOn(a, [c]) + SplitOn(b, [c])
  {
    SplitOnConcatSeparatorFirst(a, c, b);
    SplitOnSeparatorFirst(a, c);
    EmptyFirstPiece(SplitOn(a[1..], [c]), SplitOn(b, [c]));
  }

  /** The step of `SplitOnCharConcat` for a text that opens with another character. */
  lemma SplitOnConcatConsStep(a: string, c: char, b: string)
    requires |a| > 0 && a[0] != c
    requires SplitOn(a[1..] + [c] + b, [c]) == SplitOn(a[1..], [c]) + SplitOn(b, [c])
    ensures SplitOn(a + [c] + b, [c]) == SplitOn(a, [c]) + SplitOn(b, [c])
  {
    TailOfConcat(a, c, b);
    SplitOnCons(a + [c] + b, c);
    SplitOnCons(a, c);
    ConsPieces(a[0], SplitOn(a[1..], [c]), SplitOn(b, [c]));
  }

  /** A one-character separator splits a concatenation at that separator. */
  lemma {:induction false} SplitOnCharConcat(a: string, c: char, b: string)
    ensures SplitOn(a + [c] + b, [c]) == SplitOn(a, [c]) + SplitOn(b, [c])
    decreases |a|
  {
    if |a| == 0 {
      assert a + [c] + b == [c] + b;
      SplitOnSeparatorFirst([c] + b, c);
      assert ([c] + b)[1..] == b;
      assert SplitOn(a, [c]) == [""];
    } else {
      SplitOnCharConcat(a[1..], c, b);
      if a[0] == c {
        SplitOnConcatSeparatorStep(a, c, b);
      } else {
        SplitOnConcatConsStep(a, c, b);
      }
    }
  }

  /** A text without the separator's key character is one piece. */
  lemma {:induction false} SplitOnAbsent(s: string, pat: string, k: nat)
    requires k < |pat| && pat[k] !in s
    ensures SplitOn(s, pat) == [s]
    decreases |s|
  {
    if |s| >= |pat| {
      assert s[..|pat|][k] == s[k];
      SplitOnAbsent(s[1..], pat, k);
      assert [s[0]] + s[1..] == s;
    }
  }

  /**
   * A separator whose key character is absent before it, and from its own
   * prefix before the key, ends the first piece.
   */
  lemma {:induction false} SplitOnSole(pre: string, pat: string, rest: string, k: nat)
    requires k < |pat| && pat[k] !in pre && pat[k] !in pat[..k]
    ensures SplitOn(pre + pat + rest, pat) == [pre] + SplitOn(rest, pat)
    decreases |pre|
  {
    var s := pre + pat + rest;
    if |pre| == 0 {
      assert s == pat + rest;
      assert s[..|pat|] == pat && s[|pat|..] == rest;
    } else {
      assert s[..|pat|] != pat by {
        if k < |pre| {
          assert s[..|pat|][k] == pre[k];
        } else {
          assert s[..|pat|][k] == pat[k - |pre|] == pat[..k][k - |pre|];
        }
      }
      assert s[1..] == pre[1..] + pat + rest;
      SplitOnSole(pre[1..], pat, rest, k);
      assert [pre[0]] + pre[1..] == pre;
    }
  }

  /** Every piece of a split is made of characters of the text. */
  lemma {:induction false} SplitOnPartsFrom(s: string, pat: string, p: string, x: char)
    requires |pat| > 0 && p in SplitOn(s, pat) && x in p
    ensures x in s
    decreases |s|
  {
    if |s| < |pat| {
    } else if s[..|pat|] == pat {
      if p != "" {
        SplitOnPartsFrom(s[|pat|..], pat, p, x);
      }
    } else {
      var r := SplitOn(s[1..], pat);
      if p == [s[0]] + r[0] {
        if x != s[0] {
          assert x in r[0];
          SplitOnPartsFrom(s[1..], pat, r[0], x);
        }
      } else {
        assert p in r;
        SplitOnPartsFrom(s[1..], pat, p, x);
      }
    }
  }

  // ---------------------------------------------------------------------
  // Lines
  // ---------------------------------------------------------------------

  /**
   * The lines of a text. Python's `readlines()` keeps each line's `"\n"`
   * and yields no empty piece after a final `"\n"`; the bots only test
   * each line after `strip()`, which makes both differences invisible.
   */
  function Lines(s: string): (ls: seq<string>)
    ensures |ls| >= 1
  {
    SplitOn(s, "\n")
  }

  /** Each line followed by a newline, one after the other. */
  function Unlines(ls: seq<string>): string
    decreases |ls|
  {
    if |ls| == 0 then "" else ls[0] + "\n" + Unlines(ls[1..])
  }

  lemma {:induction false} UnlinesConcat(a: seq<string>, b: seq<string>)
    ensures Unlines(a + b) == Unlines(a) + Unlines(b)
    decreases |a|
  {
    if |a| > 0 {
      assert (a + b)[1..] == a[1..] + b;
      UnlinesConcat(a[1..], b);
    } else {
      assert a + b == b;
    }
  }

  /** A character other than the newline that no line holds is not in the joined text. */
  lemma {:induction false} UnlinesFree(ls: seq<string>, c: char)
    requires c != '\n' && forall i :: 0 <= i < |ls| ==> c !in ls[i]
    ensures c !in Unlines(ls)
    decreases |ls|
  {
    if |ls| > 0 {
      UnlinesFree(ls[1..], c);
      assert c !in ls[0] + "\n";
    }
  }

  /** One more line joins as that line and a newline at the end. */
  lemma UnlinesSnoc(ls: seq<string>, line: string)
    ensures Unlines(ls + [line]) == Unlines(ls) + line + "\n"
  {
    UnlinesConcat(ls, [line]);
    assert [line][1..] == [];
    assert Unlines([line]) == line + "\n" + "";
  }

  /** Lines without a newline. */
  predicate Breakless(ls: seq<string>) {
    forall i :: 0 <= i < |ls| ==> '\n' !in ls[i]
  }

  /** A text starting with a line that starts with a newline-free line starts with that very line. */
  lemma LineHead(y: string, rest: string, b: string, rest2: string)
    requires '\n' !in y && '\n' !in b
    requires StartsWith(y + "\n" + rest, b + "\n" + rest2)
    ensures y == b && StartsWith(rest, rest2)
  {
    var t := y + "\n" + rest;
    var p := b + "\n" + rest2;
    assert t[..|p|] == p;
    assert forall k :: 0 <= k < |p| ==> t[k] == p[k];
    assert t[|y|] == '\n' && p[|b|] == '\n';
    assert |y| == |b| by {
      assert forall k :: 0 <= k < |y| ==> t[k] == y[k];
      assert forall k :: 0 <= k < |b| ==> p[k] == b[k];
    }
    assert y == t[..|y|] == p[..|b|] == b;
    assert rest[..|rest2|] == t[|y| + 1..|p|] == p[|b| + 1..] == rest2;
  }

  /** Joined newline-free lines that start with other joined lines start with those lines. */
  lemma {:induction false} UnlinesPrefix(ys: seq<string>, bs: seq<string>)
    requires Breakless(ys) && Breakless(bs)
    requires StartsWith(Unlines(ys), Unlines(bs))
    ensures |bs| <= |ys| && ys[..|bs|] == bs
    decreases |bs|
  {
    if |bs| > 0 {
      assert |Unlines(bs)| > 0;
      assert |ys| > 0;
      LineHead(ys[0], Unlines(ys[1..]), bs[0], Unlines(bs[1..]));
      UnlinesPrefix(ys[1..], bs[1..]);
      assert ys[..|bs|] == [ys[0]] + ys[1..][..|bs| - 1];
      assert bs == [bs[0]] + bs[1..];
    }
  }

  /** A character of a text at an occurrence is the pattern's character. */
  lemma OccursChar(t: string, pat: string, i: nat, k: int)
    requires OccursAt(t, pat, i)
    ensures 0 <= k < |pat| ==> t[i + k] == pat[k]
  {
    if 0 <= k < |pat| {
      assert t[i + k] == t[i..i + |pat|][k];
    }
  }

  /** A slice of a text at an occurrence is the same slice of the pattern. */
  lemma OccursSlice(t: string, pat: string, i: nat, lo: nat, hi: nat)
    requires OccursAt(t, pat, i) && lo <= hi <= |pat|
    ensures t[i + lo..i + hi] == pat[lo..hi]
  {
    var w := t[i..i + |pat|];
    assert forall k :: 0 <= k < hi - lo ==> w[lo..hi][k] == t[i + lo + k];
  }

  /** Before the first newline of a text, no character is a newline. */
  lemma BeforeBreak(x: string, u: string, j: int)
    requires '\n' !in x
    ensures 0 <= j < |x| ==> (x + "\n" + u)[j] != '\n'
  {
    if 0 <= j < |x| {
      assert (x + "\n" + u)[j] == x[j];
    }
  }

  /** A slice inside the left part of a concatenation. */
  lemma SliceLeft(p: string, q: string, lo: nat, hi: nat)
    requires lo <= hi <= |p|
    ensures (p + q)[lo..hi] == p[lo..hi]
  {
  }

  /** A slice inside the right part of a concatenation. */
  lemma SliceRight(p: string, q: string, lo: nat, hi: nat)
    requires |p| <= lo <= hi <= |p| + |q|
    ensures (p + q)[lo..hi] == q[lo - |p|..hi - |p|]
  {
  }

  /**
   * An occurrence of a newline-free `a`, a newline and `ub` that starts in
   * the newline-free first line `x` of a text ends that line with `a`, and
   * the rest of the text starts with `ub`.
   */
  lemma BreakAligned(x: string, u: string, a: string, ub: string, i: nat)
    requires '\n' !in x && '\n' !in a
    requires i <= |x| && OccursAt(x + "\n" + u, a + "\n" + ub, i)
    ensures EndsWith(x, a) && StartsWith(u, ub)
  {
    var xn := x + "\n";
    var an := a + "\n";
    var t := xn + u;
    var pat := an + ub;
    assert pat[|a|] == '\n' && t[|x|] == '\n';
    OccursChar(t, pat, i, |a|);
    BeforeBreak(x, u, i + |a|);
    OccursChar(t, pat, i, |x| - i);
    BeforeBreak(a, ub, |x| - i);
    assert i + |a| == |x|;
    OccursSlice(t, pat, i, 0, |a|);
    SliceLeft(xn, u, i, |x|);
    SliceLeft(x, "\n", i, |x|);
    SliceLeft(an, ub, 0, |a|);
    SliceLeft(a, "\n", 0, |a|);
    assert x[|x| - |a|..] == x[i..|x|];
    assert a[0..|a|] == a;
    OccursSlice(t, pat, i, |a| + 1, |pat|);
    SliceRight(xn, u, |x| + 1, |x| + 1 + |ub|);
    SliceRight(an, ub, |a| + 1, |pat|);
    assert ub[0..|ub|] == ub;
  }

  /**
   * An occurrence of `a` followed by joined lines `bs`, starting in the
   * first of some joined lines, ends that line with `a` and is followed
   * by exactly the lines `bs`.
   */
  lemma RunAtFirstLine(x: string, ys: seq<string>, a: string, bs: seq<string>, i: nat)
    requires '\n' !in x && '\n' !in a && Breakless(ys) && Breakless(bs)
    requires i <= |x| && OccursAt(x + "\n" + Unlines(ys), a + "\n" + Unlines(bs), i)
    ensures EndsWith(x, a) && |bs| <= |ys| && ys[..|bs|] == bs
  {
    BreakAligned(x, Unlines(ys), a, Unlines(bs), i);
    UnlinesPrefix(ys, bs);
  }

  /** Past text without the pattern's newline, an occurrence right after it is replaced first. */
  lemma RunFront(pre: string, a: string, ub: string, r: string, rep: string)
    requires '\n' !in pre && '\n' !in a && |a| > 0
    ensures ReplaceAll(pre + ((a + "\n" + ub) + r), a + "\n" + ub, rep)
      == pre + rep + ReplaceAll(r, a + "\n" + ub, rep)
  {
    var pat := a + "\n" + ub;
    assert pat[|a|] == '\n';
    assert forall j :: 0 <= j < |a| ==> (pat + r)[j] == a[j];
    NoOccurrenceInside(pre, pat + r, pat, |a|);
    ReplaceAllSkip(pre, pat + r, pat, rep);
    ReplaceAllAtFront(pat, r, rep);
  }

  /** A first line that does not end a run keeps no occurrence, so it is passed over whole. */
  lemma PastFirstLine(x: string, ys: seq<string>, a: string, bs: seq<string>, rep: string)
    requires '\n' !in x && '\n' !in a && |a| > 0 && Breakless(ys) && Breakless(bs)
    requires !(EndsWith(x, a) && |bs| <= |ys| && ys[..|bs|] == bs)
    ensures ReplaceAll(x + "\n" + Unlines(ys), a + "\n" + Unlines(bs), rep)
      == x + "\n" + ReplaceAll(Unlines(ys), a + "\n" + Unlines(bs), rep)
  {
    var pat := a + "\n" + Unlines(bs);
    var t := x + "\n" + Unlines(ys);
    forall i | 0 <= i < |x + "\n"| && OccursAt(t, pat, i)
      ensures false
    {
      RunAtFirstLine(x, ys, a, bs, i);
    }
    assert t == (x + "\n") + Unlines(ys);
    ReplaceAllSkip(x + "\n", Unlines(ys), pat, rep);
  }

  /**
   * The lines with `ins` inserted after every run of lines made of a line
   * ending in `a` followed by the lines `bs`, runs taken left to right
   * without overlap.
   */
  function InsertAfterRuns(ls: seq<string>, a: string, bs: seq<string>, ins: string): seq<string>
    decreases |ls|
  {
    if |ls| == 0 then []
    else if EndsWith(ls[0], a) && |bs| < |ls| && ls[1..|bs| + 1] == bs then
      ls[..|bs| + 1] + [ins] + InsertAfterRuns(ls[|bs| + 1..], a, bs, ins)
    else [ls[0]] + InsertAfterRuns(ls[1..], a, bs, ins)
  }

  /** Every line of the result is one of the lines or the inserted one. */
  lemma {:induction false} InsertAfterRunsElements(ls: seq<string>, a: string, bs: seq<string>, ins: string)
    ensures forall k :: 0 <= k < |InsertAfterRuns(ls, a, bs, ins)| ==>
      InsertAfterRuns(ls, a, bs, ins)[k] in ls || InsertAfterRuns(ls, a, bs, ins)[k] == ins
    decreases |ls|
  {
    if |ls| > 0 {
      if EndsWith(ls[0], a) && |bs| < |ls| && ls[1..|bs| + 1] == bs {
        InsertAfterRunsElements(ls[|bs| + 1..], a, bs, ins);
        var r := InsertAfterRuns(ls[|bs| + 1..], a, bs, ins);
        assert forall k :: 0 <= k < |r| ==> r[k] in ls[|bs| + 1..] || r[k] == ins;
        assert forall x :: x in ls[..|bs| + 1] || x in ls[|bs| + 1..] ==> x in ls;
      } else {
        InsertAfterRunsElements(ls[1..], a, bs, ins);
        assert forall x :: x in ls[1..] ==> x in ls;
      }
    }
  }

  /**
   * Replacing every occurrence of `a`, a newline and the joined lines `bs`
   * by itself followed by `ins` and a newline, in newline-free lines joined
   * together, inserts `ins` as a line after every such run.
   */
  lemma {:induction false} ReplaceRunsInLines(ls: seq<string>, a: string, bs: seq<string>, ins: string)
    requires '\n' !in a && |a| > 0 && Breakless(ls) && Breakless(bs)
    ensures ReplaceAll(Unlines(ls), a + "\n" + Unlines(bs), a + "\n" + Unlines(bs) + ins + "\n")
      == Unlines(InsertAfterRuns(ls, a, bs, ins))
    decreases |ls|
  {
    if |ls| == 0 {
    } else if EndsWith(ls[0], a) && |bs| < |ls| && ls[1..|bs| + 1] == bs {
      ReplaceRunsInLines(ls[|bs| + 1..], a, bs, ins);
      ReplaceRunsStep(ls, a, bs, ins);
    } else {
      ReplaceRunsInLines(ls[1..], a, bs, ins);
      ReplaceRunsPass(ls, a, bs, ins);
    }
  }

  /** The step of `ReplaceRunsInLines` at a run: its lines and `ins`, then the rest. */
  lemma ReplaceRunsStep(ls: seq<string>, a: string, bs: seq<string>, ins: string)
    requires '\n' !in a && |a| > 0 && Breakless(ls) && Breakless(bs)
    requires |ls| > 0 && EndsWith(ls[0], a) && |bs| < |ls| && ls[1..|bs| + 1] == bs
    requires ReplaceAll(Unlines(ls[|bs| + 1..]), a + "\n" + Unlines(bs), a + "\n" + Unlines(bs) + ins + "\n")
      == Unlines(InsertAfterRuns(ls[|bs| + 1..], a, bs, ins))
    ensures ReplaceAll(Unlines(ls), a + "\n" + Unlines(bs), a + "\n" + Unlines(bs) + ins + "\n")
      == Unlines(InsertAfterRuns(ls, a, bs, ins))
  {
    var pat := a + "\n" + Unlines(bs);
    var x := ls[0];
    var pre := x[..|x| - |a|];
    var r := Unlines(ls[|bs| + 1..]);
    RunJoined(ls, a, bs);
    RunFront(pre, a, Unlines(bs), r, pat + ins + "\n");
    var out := InsertAfterRuns(ls[|bs| + 1..], a, bs, ins);
    assert x == pre + a;
    assert InsertAfterRuns(ls, a, bs, ins) == [pre + a] + bs + [ins] + out;
    RunInserted(pre, a, bs, ins, out);
  }

  /** Joined lines starting with a run: the run's text, then the rest. */
  lemma RunJoined(ls: seq<string>, a: string, bs: seq<string>)
    requires |ls| > 0 && EndsWith(ls[0], a) && |bs| < |ls| && ls[1..|bs| + 1] == bs
    ensures Unlines(ls) == ls[0][..|ls[0]| - |a|] + ((a + "\n" + Unlines(bs)) + Unlines(ls[|bs| + 1..]))
  {
    var n := |bs| + 1;
    var x := ls[0];
    assert x == x[..|x| - |a|] + a;
    assert ls[..n] == [x] + bs;
    assert ls == ls[..n] + ls[n..];
    UnlinesConcat(ls[..n], ls[n..]);
  }

  /** A line, some lines, an inserted line and the rest, joined. */
  lemma RunInserted(pre: string, a: string, bs: seq<string>, ins: string, out: seq<string>)
    ensures Unlines([pre + a] + bs + [ins] + out)
      == pre + ((a + "\n" + Unlines(bs)) + ins + "\n") + Unlines(out)
  {
    var head := [pre + a] + bs;
    assert head[1..] == bs;
    UnlinesConcat(head + [ins], out);
    UnlinesSnoc(head, ins);
  }


  /** The step of `ReplaceRunsInLines` past a line that does not start a run. */
  lemma ReplaceRunsPass(ls: seq<string>, a: string, bs: seq<string>, ins: string)
    requires '\n' !in a && |a| > 0 && Breakless(ls) && Breakless(bs)
    requires |ls| > 0 && !(EndsWith(ls[0], a) && |bs| < |ls| && ls[1..|bs| + 1] == bs)
    requires ReplaceAll(Unlines(ls[1..]), a + "\n" + Unlines(bs), a + "\n" + Unlines(bs) + ins + "\n")
      == Unlines(InsertAfterRuns(ls[1..], a, bs, ins))
    ensures ReplaceAll(Unlines(ls), a + "\n" + Unlines(bs), a + "\n" + Unlines(bs) + ins + "\n")
      == Unlines(InsertAfterRuns(ls, a, bs, ins))
  {
    if |bs| < |ls| {
      assert ls[1..][..|bs|] == ls[1..|bs| + 1];
    }
    PastFirstLine(ls[0], ls[1..], a, bs, a + "\n" + Unlines(bs) + ins + "\n");
  }



  /** A newline-free line followed by a newline is the first line of the text. */
  lemma LinesCons(line: string, tail: string)
    requires '\n' !in line
    ensures Lines(line + "\n" + tail) == [line] + Lines(tail)
  {
    SplitOnCharConcat(line, '\n', tail);
    SplitOnCharAbsent(line, '\n');
  }

  /** Lines of newline-free lines joined this way are those lines and a last empty one. */
  lemma {:induction false} LinesOfUnlines(ls: seq<string>, rest: string)
    requires forall i :: 0 <= i < |ls| ==> '\n' !in ls[i]
    ensures Lines(Unlines(ls) + rest) == ls + Lines(rest)
    decreases |ls|
  {
    if |ls| > 0 {
      var tail := Unlines(ls[1..]) + rest;
      assert Unlines(ls) + rest == ls[0] + "\n" + tail;
      LinesCons(ls[0], tail);
      LinesOfUnlines(ls[1..], rest);
      assert ls == [ls[0]] + ls[1..];
    } else {
      assert Unlines(ls) + rest == rest;
    }
  }

  /** The second of four concatenated texts sits right after the first. */
  lemma SliceOfConcat(a: string, b: string, c: string, d: string)
    ensures (a + b + c + d)[|a|..|a| + |b|] == b
  {
  }

  /** In `h + (a + b + c)`, the text `b` occurs right after `h` and `a`. */
  lemma OccursAtSeam(h: string, a: string, b: string, c: string)
    ensures OccursAt(h + (a + b + c), b, |h| + |a|)
  {
    assert (h + (a + b + c))[|h| + |a|..|h| + |a| + |b|] == b;
  }

  /** The pieces one after the other: Python's `"".join(pieces)`. */
  function Concat(pieces: seq<string>): string
    decreases |pieces|
  {
    if |pieces| == 0 then "" else Concat(pieces[..|pieces| - 1]) + pieces[|pieces| - 1]
  }

  lemma {:induction false} ConcatAppend(a: seq<string>, b: seq<string>)
    ensures Concat(a + b) == Concat(a) + Concat(b)
    decreases |b|
  {
    if |b| > 0 {
      var b' := b[..|b| - 1];
      assert (a + b)[..|a + b| - 1] == a + b';
      assert (a + b)[|a + b| - 1] == b[|b| - 1];
      ConcatAppend(a, b');
    } else {
      assert a + b == a;
    }
  }

  // ---------------------------------------------------------------------
  // str.strip
  // ---------------------------------------------------------------------

  /** The characters Python's `str.isspace()` accepts. */
  predicate IsSpace(c: char) {
    c == ' ' || ('\t' <= c <= '\r') || ('\U{1c}' <= c <= '\U{1f}')
    || c == '\U{85}' || c == '\U{a0}' || c == '\U{1680}'
    || ('\U{2000}' <= c <= '\U{200a}') || c == '\U{2028}' || c == '\U{2029}'
    || c == '\U{202f}' || c == '\U{205f}' || c == '\U{3000}'
  }

  function LStrip(s: string): (r: string)
    ensures |r| <= |s| && r == s[|s| - |r|..]
    ensures |r| > 0 ==> !IsSpace(r[0])
  {
    if |s| > 0 && IsSpace(s[0]) then LStrip(s[1..]) else s
  }

  function RStrip(s: string): (r: string)
    ensures |r| <= |s| && r == s[..|r|]
    ensures |r| > 0 ==> !IsSpace(r[|r| - 1])
    ensures |s| > 0 && !IsSpace(s[0]) ==> |r| > 0
  {
    if |s| > 0 && IsSpace(s[|s| - 1]) then RStrip(s[..|s| - 1]) else s
  }

  /** Python's `s.strip()`. */
  function Strip(s: string): (r: string)
    ensures |s| > 0 && !IsSpace(s[0]) ==> |r| > 0 && r[0] == s[0]
  {
    RStrip(LStrip(s))
  }

  // ---------------------------------------------------------------------
  // Case and numbers
  // ---------------------------------------------------------------------

  /** Python's `s.lower()` on the ASCII letters. */
  function AsciiLower(s: string): (r: string)
    ensures |r| == |s|
    ensures forall i :: 0 <= i < |s| ==> r[i] == (if 'A' <= s[i] <= 'Z' then s[i] - 'A' + 'a' else s[i])
  {
    if |s| == 0 then [] else
      [if 'A' <= s[0] <= 'Z' then s[0] - 'A' + 'a' else s[0]] + AsciiLower(s[1..])
  }

  predicate IsDigit(c: char) { '0' <= c <= '9' }

  /** Python's `str(n)` for a natural number. */
  function NatToDecimal(n: nat): (r: string)
    ensures |r| > 0 && forall i :: 0 <= i < |r| ==> IsDigit(r[i])
  {
    if n < 10 then [('0' as int + n) as char]
    else NatToDecimal(n / 10) + [('0' as int + n % 10) as char]
  }

  function DigitValue(c: char): nat
    requires IsDigit(c)
  {
    c as int - '0' as int
  }

  /** The value of a string of decimal digits. */
  function DecimalValue(s: string): nat
    requires forall i :: 0 <= i < |s| ==> IsDigit(s[i])
    decreases |s|
  {
    if |s| == 0 then 0
    else 10 * DecimalValue(s[..|s| - 1]) + DigitValue(s[|s| - 1])
  }

  /** The decimal text of a count reads back as that count. */
  lemma {:induction false} DecimalRoundTrip(n: nat)
    ensures DecimalValue(NatToDecimal(n)) == n
  {
    if n >= 10 {
      var r := NatToDecimal(n);
      assert r[..|r| - 1] == NatToDecimal(n / 10);
      DecimalRoundTrip(n / 10);
    }
  }

  // ---------------------------------------------------------------------
  // UTF-8
  // ---------------------------------------------------------------------

  /** Bytes `c` takes in UTF-8. */
  function Utf8Width(c: char): nat {
    if c as int < 0x80 then 1
    else if c as int < 0x800 then 2
    else if c as int < 0x10000 then 3
    else 4
  }

  /** Python's `len(s.encode('utf-8'))`. */
  function Utf8Length(s: string): nat {
    if |s| == 0 then 0 else Utf8Width(s[0]) + Utf8Length(s[1..])
  }

  /** Every character takes between one and four bytes. */
  lemma {:induction false} Utf8LengthBounds(s: string)
    ensures |s| <= Utf8Length(s) <= 4 * |s|
  {
    if |s| > 0 {
      Utf8LengthBounds(s[1..]);
    }
  }
}
