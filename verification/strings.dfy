/**
 String operations the application relies on: JavaScript's `String.prototype.trim`,
 used by the form's guards, and the multi-line template literal of the draft, seen
 as a list of lines joined by line feeds.
 */
module Strings {

  /** The characters `trim` removes: ECMAScript's WhiteSpace and LineTerminator
      code points. Nothing below depends on which characters these are. */
  predicate IsWhitespace(c: char)
  {
    || c == '\t' || c == '\n' || c == '\U{000B}' || c == '\U{000C}' || c == '\r'
    || c == ' ' || c == '\U{00A0}' || c == '\U{1680}'
    || ('\U{2000}' <= c <= '\U{200A}')
    || c == '\U{2028}' || c == '\U{2029}' || c == '\U{202F}' || c == '\U{205F}'
    || c == '\U{3000}' || c == '\U{FEFF}'
  }

  predicate AllWhitespace(s: string)
  {
    forall i :: 0 <= i < |s| ==> IsWhitespace(s[i])
  }

  /** Drops the leading whitespace run. */
  function TrimStart(s: string): (r: string)
    ensures |r| <= |s| && r == s[|s| - |r|..]
    ensures AllWhitespace(s[..|s| - |r|])
    ensures r == [] || !IsWhitespace(r[0])
  {
    if |s| > 0 && IsWhitespace(s[0]) then
      var r := TrimStart(s[1..]);
      assert s[..|s| - |r|] == [s[0]] + s[1..][..|s| - 1 - |r|];
      r
    else s
  }

  /** Drops the trailing whitespace run. */
  function TrimEnd(s: string): (r: string)
    ensures |r| <= |s| && r == s[..|r|]
    ensures AllWhitespace(s[|r|..])
    ensures r == [] || !IsWhitespace(r[|r| - 1])
  {
    if |s| > 0 && IsWhitespace(s[|s| - 1]) then
      var r := TrimEnd(s[..|s| - 1]);
      assert s[|r|..] == s[..|s| - 1][|r|..] + [s[|s| - 1]];
      r
    else s
  }

  lemma AllWhitespaceConcat(a: string, b: string)
    ensures AllWhitespace(a + b) <==> AllWhitespace(a) && AllWhitespace(b)
  {
    if AllWhitespace(a + b) {
      forall k | 0 <= k < |a| ensures IsWhitespace(a[k]) {
        assert a[k] == (a + b)[k];
      }
      forall k | 0 <= k < |b| ensures IsWhitespace(b[k]) {
        assert b[k] == (a + b)[|a| + k];
      }
    }
  }

  /** `s` is `pre + r + post` with `pre` and `post` whitespace only, and `r` neither
      starts nor ends with whitespace. */
  ghost predicate IsTrimOf(s: string, r: string)
  {
    && |r| <= |s|
    && (exists i :: 0 <= i <= |s| - |r| && s[i..i + |r|] == r
                    && AllWhitespace(s[..i]) && AllWhitespace(s[i + |r|..]))
    && (r == [] || (!IsWhitespace(r[0]) && !IsWhitespace(r[|r| - 1])))
  }

  /** JavaScript `s.trim()`. */
  function Trim(s: string): (r: string)
    ensures IsTrimOf(s, r)
    ensures r == [] <==> AllWhitespace(s)
  {
    var t := TrimStart(s);
    var r := TrimEnd(t);
    TrimSplits(s, t, r);
    r
  }

  /** What `TrimStart` and then `TrimEnd` promise, put together. */
  lemma TrimSplits(s: string, t: string, r: string)
    requires |t| <= |s| && t == s[|s| - |t|..] && AllWhitespace(s[..|s| - |t|])
    requires t == [] || !IsWhitespace(t[0])
    requires |r| <= |t| && r == t[..|r|] && AllWhitespace(t[|r|..])
    requires r == [] || !IsWhitespace(r[|r| - 1])
    ensures IsTrimOf(s, r)
    ensures r == [] <==> AllWhitespace(s)
  {
    var i := |s| - |t|;
    assert s[i..i + |r|] == r by {
      assert s[i..i + |r|] == s[i..][..|r|];
    }
    assert s[i + |r|..] == t[|r|..];
    if r == [] {
      assert t[|r|..] == t;
      assert s == s[..i] + t;
      AllWhitespaceConcat(s[..i], t);
    } else {
      assert s[i] == r[0];
    }
  }

  /** Trimming is idempotent. */
  lemma TrimIdempotent(s: string)
    ensures Trim(Trim(s)) == Trim(s)
  {
  }

  lemma {:induction false} TrimStartAt(s: string, i: nat)
    requires i < |s| && AllWhitespace(s[..i]) && !IsWhitespace(s[i])
    ensures TrimStart(s) == s[i..]
  {
    if i > 0 {
      assert s[0] == s[..i][0];
      assert s[1..][..i - 1] == s[1..i];
      assert forall k | 0 <= k < i - 1 :: s[1..i][k] == s[..i][k + 1];
      TrimStartAt(s[1..], i - 1);
      assert s[1..][i - 1..] == s[i..];
    }
  }

  /** The trim is determined by its specification: any split of `s` into a
      whitespace prefix, a core that neither starts nor ends with whitespace, and a
      whitespace suffix has `Trim(s)` as its core. */
  lemma TrimUnique(s: string, i: nat, j: nat)
    requires i <= j <= |s|
    requires AllWhitespace(s[..i]) && AllWhitespace(s[j..])
    requires i < j ==> !IsWhitespace(s[i]) && !IsWhitespace(s[j - 1])
    requires i == j ==> AllWhitespace(s)
    ensures Trim(s) == s[i..j]
  {
    if i < j {
      TrimCore(s, i, j);
    }
  }

  lemma TrimCore(s: string, i: nat, j: nat)
    requires i < j <= |s|
    requires AllWhitespace(s[..i]) && AllWhitespace(s[j..])
    requires !IsWhitespace(s[i]) && !IsWhitespace(s[j - 1])
    ensures TrimEnd(TrimStart(s)) == s[i..j]
  {
    TrimStartAt(s, i);
    TrimEndSlice(s, i, j);
  }

  lemma {:induction false} TrimEndSlice(s: string, i: nat, j: nat)
    requires i < j <= |s| && AllWhitespace(s[j..]) && !IsWhitespace(s[j - 1])
    ensures TrimEnd(s[i..]) == s[i..j]
    decreases |s|
  {
    var t := s[i..];
    if j == |s| {
      assert t[|t| - 1] == s[j - 1];
      assert t == s[i..j];
    } else {
      var u := s[..|s| - 1];
      assert t[|t| - 1] == s[j..][|s| - 1 - j];
      assert t[..|t| - 1] == u[i..];
      assert u[j..] == s[j..][..|s| - 1 - j];
      TrimEndSlice(u, i, j);
      assert u[i..j] == s[i..j];
    }
  }

  /** Joins lines with line feeds, as a multi-line template literal does. */
  function JoinLines(ls: seq<string>): string
  {
    if |ls| == 0 then ""
    else if |ls| == 1 then ls[0]
    else ls[0] + "\n" + JoinLines(ls[1..])
  }

  predicate NoLineBreak(s: string)
  {
    '\n' !in s
  }

  function FirstLineBreak(s: string): (i: nat)
    requires '\n' in s
    ensures i < |s| && s[i] == '\n' && NoLineBreak(s[..i])
  {
    if s[0] == '\n' then 0
    else
      var i := 1 + FirstLineBreak(s[1..]);
      assert s[..i] == [s[0]] + s[1..][..i - 1];
      i
  }

  /** Splits text at every line feed: the lines a reader of the text sees. */
  function SplitLines(s: string): (ls: seq<string>)
    ensures |ls| >= 1
    ensures LinesWithoutBreaks(ls)
    ensures JoinLines(ls) == s
    decreases |s|
  {
    if '\n' !in s then [s]
    else
      var i := FirstLineBreak(s);
      var rest := SplitLines(s[i + 1..]);
      var ls := [s[..i]] + rest;
      assert ls[1..] == rest;
      assert s == s[..i] + "\n" + s[i + 1..];
      ls
  }

  predicate LinesWithoutBreaks(ls: seq<string>)
  {
    forall k :: 0 <= k < |ls| ==> NoLineBreak(ls[k])
  }

  lemma LinesWithoutBreaksConcat(a: seq<string>, b: seq<string>)
    requires LinesWithoutBreaks(a) && LinesWithoutBreaks(b)
    ensures LinesWithoutBreaks(a + b)
  {
    forall k | 0 <= k < |a + b| ensures NoLineBreak((a + b)[k]) {
      if k >= |a| {
        assert (a + b)[k] == b[k - |a|];
      }
    }
  }

  lemma {:induction false} FirstLineBreakAfter(a: string, b: string)
    requires NoLineBreak(a)
    ensures '\n' in a + "\n" + b && FirstLineBreak(a + "\n" + b) == |a|
  {
    var s := a + "\n" + b;
    assert s[|a|] == '\n';
    if |a| > 0 {
      assert s[1..] == a[1..] + "\n" + b;
      assert NoLineBreak(a[1..]);
      FirstLineBreakAfter(a[1..], b);
    }
  }

  /** Splitting a join of line-feed-free lines gives back the lines. */
  lemma {:induction false} SplitJoin(ls: seq<string>)
    requires |ls| >= 1 && LinesWithoutBreaks(ls)
    ensures SplitLines(JoinLines(ls)) == ls
  {
    if |ls| > 1 {
      var l, rest := ls[0], ls[1..];
      var s := JoinLines(ls);
      assert s == l + "\n" + JoinLines(rest);
      FirstLineBreakAfter(l, JoinLines(rest));
      assert s[..|l|] == l;
      assert s[|l| + 1..] == JoinLines(rest);
      assert LinesWithoutBreaks(rest) by {
        assert forall k :: 0 <= k < |rest| ==> rest[k] == ls[k + 1];
      }
      SplitJoin(rest);
      assert SplitLines(s) == [l] + SplitLines(JoinLines(rest));
      assert ls == [l] + rest;
    }
  }

  /** `part` occurs in `text` starting at `pos`. */
  predicate OccursAt(text: string, pos: nat, part: string)
  {
    pos + |part| <= |text| && text[pos..pos + |part|] == part
  }

  /** A part of a part occurs in the whole. */
  lemma OccursWithin(text: string, pos: nat, line: string, off: nat, part: string)
    requires OccursAt(text, pos, line) && OccursAt(line, off, part)
    ensures OccursAt(text, pos + off, part)
  {
    forall k | 0 <= k < |part| ensures part[k] == text[pos + off + k] {
      assert part[k] == line[off + k];
      assert line[off + k] == text[pos..pos + |line|][off + k];
    }
  }

  /** Position at which line `k` starts in `JoinLines(ls)`. */
  function LineStart(ls: seq<string>, k: nat): nat
    requires k <= |ls|
  {
    if k == 0 then 0 else LineStart(ls, k - 1) + |ls[k - 1]| + 1
  }

  /** Every line occurs verbatim in the joined text, at its `LineStart`. */
  lemma {:induction false} LineAt(ls: seq<string>, k: nat)
    requires k < |ls|
    ensures OccursAt(JoinLines(ls), LineStart(ls, k), ls[k])
  {
    if k > 0 {
      LineAt(ls[1..], k - 1);
      LineStartTail(ls, k);
      assert ls[1..][k - 1] == ls[k];
    }
  }

  lemma {:induction false} LineStartTail(ls: seq<string>, k: nat)
    requires 0 < k <= |ls|
    ensures LineStart(ls, k) == |ls[0]| + 1 + LineStart(ls[1..], k - 1)
  {
    if k > 1 {
      LineStartTail(ls, k - 1);
      assert ls[1..][k - 2] == ls[k - 1];
    }
  }

  /** Later lines start later. */
  lemma {:induction false} LineStartMonotone(ls: seq<string>, j: nat, k: nat)
    requires j < k <= |ls|
    ensures LineStart(ls, j) + |ls[j]| < LineStart(ls, k)
  {
    if j < k - 1 {
      LineStartMonotone(ls, j, k - 1);
    }
  }
}
