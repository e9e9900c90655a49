/** The line tokeniser of the mesh parser (`parser::split`): the line is cut at
    every non-overlapping, left-to-right occurrence of the delimiter, and the
    text between two cuts (possibly empty) is one token. */
module Split {
  import opened Wrappers

  /** `d` occurs in `s` starting at position `p`. */
  predicate OccursAt(s: string, d: string, p: nat) {
    p + |d| <= |s| && forall k :: 0 <= k < |d| ==> s[p + k] == d[k]
  }

  /** `d` occurs nowhere in `s`. */
  predicate Free(s: string, d: string) {
    forall p: nat | p <= |s| :: !OccursAt(s, d, p)
  }

  /** `std::string::find(d, from)`: the first occurrence of `d` at or after
      `from`, or `None` for `npos`. */
  function Find(s: string, d: string, from: nat): (r: Option<nat>)
    ensures r.Some? ==> from <= r.value && OccursAt(s, d, r.value)
    ensures r.Some? ==> forall q: nat :: from <= q < r.value ==> !OccursAt(s, d, q)
    ensures r.None? ==> forall q: nat :: from <= q ==> !OccursAt(s, d, q)
    decreases |s| - from
  {
    if from + |d| > |s| then None
    else if OccursAt(s, d, from) then Some(from)
    else Find(s, d, from + 1)
  }

  /** The tokens the loop of `split` produces once `pos_start` has reached
      `start`. */
  function SplitFrom(line: string, d: string, start: nat): (r: seq<string>)
    requires |d| > 0
    requires start <= |line|
    decreases |line| - start
  {
    match Find(line, d, start)
    case None => [line[start..]]
    case Some(p) => [line[start..p]] + SplitFrom(line, d, p + |d|)
  }

  /** `parser::split(args, line, d)`: the contents of `args` afterwards. */
  function Split(line: string, d: string): (r: seq<string>)
    requires |d| > 0
    ensures |r| >= 1
    ensures Join(r, d) == line
    ensures forall i :: 0 <= i < |r| ==> Free(r[i], d)
  {
    SplitProperties(line, d, 0);
    SplitFrom(line, d, 0)
  }

  /** The tokens glued back together with the delimiter between them. */
  function Join(toks: seq<string>, d: string): string {
    if |toks| == 0 then ""
    else if |toks| == 1 then toks[0]
    else toks[0] + d + Join(toks[1..], d)
  }

  /** Each token but the last is cut at the FIRST occurrence of the delimiter
      after it starts: no occurrence begins inside the token. */
  predicate Leftmost(toks: seq<string>, d: string) {
    forall i, q: nat :: 0 <= i < |toks| - 1 && q < |toks[i]| ==> !OccursAt(toks[i] + d, d, q)
  }

  /** A list of tokens is a leftmost split of `s`. */
  predicate IsLeftmostSplit(toks: seq<string>, s: string, d: string) {
    && |toks| >= 1
    && Join(toks, d) == s
    && Leftmost(toks, d)
    && Free(toks[|toks| - 1], d)
  }

  /** Number of non-overlapping occurrences of `d` in `s`, counted by a
      left-to-right scan that skips over each match. */
  function Occurrences(s: string, d: string): nat
    requires |d| > 0
  {
    OccurrencesFrom(s, d, 0)
  }

  /** The same count, for the scan started at position `i`. */
  function OccurrencesFrom(s: string, d: string, i: nat): nat
    requires |d| > 0
    decreases |s| - i
  {
    if i + |d| > |s| then 0
    else if OccursAt(s, d, i) then 1 + OccurrencesFrom(s, d, i + |d|)
    else OccurrencesFrom(s, d, i + 1)
  }

  // ---------------------------------------------------------------------------
  // Proofs

  /** An occurrence inside a slice is an occurrence in the whole string. */
  lemma SliceOccurrence(s: string, d: string, lo: nat, hi: nat, q: nat)
    requires lo <= hi <= |s|
    ensures OccursAt(s[lo..hi], d, q) ==> OccursAt(s, d, lo + q)
  {
    if OccursAt(s[lo..hi], d, q) {
      var t := s[lo..hi];
      forall k | 0 <= k < |d| ensures s[lo + q + k] == d[k] {
        assert t[q + k] == s[lo + q + k];
      }
    }
  }

  lemma SuffixOccurrence(s: string, d: string, lo: nat, q: nat)
    requires lo <= |s|
    ensures OccursAt(s[lo..], d, q) ==> OccursAt(s, d, lo + q)
  {
    assert s[lo..] == s[lo..|s|];
    SliceOccurrence(s, d, lo, |s|, q);
  }

  /** With a one-character delimiter an occurrence is that character. */
  lemma CharOccurrence(s: string, d: string, q: nat)
    requires |d| == 1
    ensures OccursAt(s, d, q) <==> q < |s| && s[q] == d[0]
  {
    if q < |s| && s[q] == d[0] {
      forall k | 0 <= k < |d| ensures s[q + k] == d[k] {
        assert k == 0;
      }
    }
  }

  lemma {:induction false} SplitProperties(line: string, d: string, start: nat)
    requires |d| > 0
    requires start <= |line|
    ensures IsLeftmostSplit(SplitFrom(line, d, start), line[start..], d)
    ensures forall i :: 0 <= i < |SplitFrom(line, d, start)| ==> Free(SplitFrom(line, d, start)[i], d)
    decreases |line| - start
  {
    match Find(line, d, start)
    case None =>
      forall p: nat ensures !OccursAt(line[start..], d, p) {
        SuffixOccurrence(line, d, start, p);
      }
    case Some(p) =>
      SplitProperties(line, d, p + |d|);
      SplitFromStep(line, d, start, p, p + |d|);
      CutFacts(line, d, start, p);
      ConsLeftmost(line[start..p], SplitFrom(line, d, p + |d|), line[p + |d|..], d);
  }

  /** What a match at `p` says about the token before it. */
  lemma CutFacts(line: string, d: string, start: nat, p: nat)
    requires |d| > 0
    requires start <= |line|
    requires Find(line, d, start) == Some(p)
    ensures p + |d| <= |line|
    ensures line[start..] == line[start..p] + d + line[p + |d|..]
    ensures forall q: nat :: q < |line[start..p]| ==> !OccursAt(line[start..p] + d, d, q)
    ensures Free(line[start..p], d)
  {
    var tok := line[start..p];
    forall q: nat | q < |tok| ensures !OccursAt(tok + d, d, q) {
      assert tok + d == line[start..p + |d|];
      SliceOccurrence(line, d, start, p + |d|, q);
    }
    forall q: nat ensures !OccursAt(tok, d, q) {
      SliceOccurrence(line, d, start, p, q);
    }
  }

  /** A token with no delimiter starting inside it, followed by a leftmost
      split of the rest, is a leftmost split of the whole. */
  lemma ConsLeftmost(tok: string, rest: seq<string>, s: string, d: string)
    requires IsLeftmostSplit(rest, s, d)
    requires forall i :: 0 <= i < |rest| ==> Free(rest[i], d)
    requires forall q: nat :: q < |tok| ==> !OccursAt(tok + d, d, q)
    requires Free(tok, d)
    ensures IsLeftmostSplit([tok] + rest, tok + d + s, d)
    ensures forall i :: 0 <= i < |[tok] + rest| ==> Free(([tok] + rest)[i], d)
  {
    var r := [tok] + rest;
    assert r[1..] == rest;
    forall i, q: nat | 0 <= i < |r| - 1 && q < |r[i]| ensures !OccursAt(r[i] + d, d, q) {
      if i > 0 {
        assert r[i] == rest[i - 1];
      }
    }
    forall i | 0 <= i < |r| ensures Free(r[i], d) {
      if i > 0 {
        assert r[i] == rest[i - 1];
      }
    }
  }


  /** The split is the ONLY leftmost split: any token list that joins back to
      the line, is cut at first occurrences and ends in a delimiter-free token
      is exactly what `split` returns. */
  lemma LeftmostSplitUnique(toks: seq<string>, line: string, d: string, start: nat)
    requires |d| > 0
    requires start <= |line|
    requires IsLeftmostSplit(toks, line[start..], d)
    ensures toks == SplitFrom(line, d, start)
  {
    LeftmostCuts(toks, line, d, start);
    CutsAreSplit(toks, line, d, start);
  }

  /** Where the search resumes after cutting `tok` at `start`. */
  function Resume(start: nat, tok: string, d: string): nat {
    start + |tok| + |d|
  }

  /** `toks` is what the loop of `split` cuts from `line` once `pos_start`
      is `start`, one search at a time. */
  predicate Cuts(toks: seq<string>, line: string, d: string, start: nat)
    decreases |toks|
  {
    && start <= |line|
    && |toks| >= 1
    && if |toks| == 1 then
         Find(line, d, start) == None && toks[0] == line[start..]
       else
         && Resume(start, toks[0], d) <= |line|
         && Find(line, d, start) == Some(start + |toks[0]|)
         && line[start..start + |toks[0]|] == toks[0]
         && Cuts(toks[1..], line, d, Resume(start, toks[0], d))
  }

  lemma {:induction false} LeftmostCuts(toks: seq<string>, line: string, d: string, start: nat)
    requires |d| > 0
    requires start <= |line|
    requires IsLeftmostSplit(toks, line[start..], d)
    ensures Cuts(toks, line, d, start)
    decreases |toks|
  {
    if |toks| == 1 {
      SingleTokenSplit(toks, line, d, start);
    } else {
      LeftmostStep(toks, line, d, start);
      LeftmostCuts(toks[1..], line, d, Resume(start, toks[0], d));
    }
  }

  lemma {:induction false} CutsAreSplit(toks: seq<string>, line: string, d: string, start: nat)
    requires |d| > 0
    requires Cuts(toks, line, d, start)
    ensures toks == SplitFrom(line, d, start)
    decreases |toks|
  {
    if |toks| > 1 {
      CutsAreSplit(toks[1..], line, d, Resume(start, toks[0], d));
      ConsSplit(toks, line, d, start);
    }
  }

  /** A leftmost split of two or more tokens is its first token, the
      delimiter, and a leftmost split of the rest. */
  lemma LeftmostHead(toks: seq<string>, s: string, d: string)
    requires |toks| >= 2
    requires IsLeftmostSplit(toks, s, d)
    ensures s == toks[0] + d + Join(toks[1..], d)
    ensures forall q: nat :: q < |toks[0]| ==> !OccursAt(toks[0] + d, d, q)
    ensures IsLeftmostSplit(toks[1..], Join(toks[1..], d), d)
  {
    LeftmostTail(toks, d);
    assert toks[1..][|toks| - 2] == toks[|toks| - 1];
  }

  /** The search from `start` finds the delimiter right after the first
      token of a leftmost split, and the remaining tokens are a leftmost
      split of what follows it. */
  lemma LeftmostStep(toks: seq<string>, line: string, d: string, start: nat)
    requires |d| > 0
    requires start <= |line|
    requires |toks| >= 2
    requires IsLeftmostSplit(toks, line[start..], d)
    ensures Find(line, d, start) == Some(start + |toks[0]|)
    ensures line[start..start + |toks[0]|] == toks[0]
    ensures Resume(start, toks[0], d) <= |line|
    ensures IsLeftmostSplit(toks[1..], line[Resume(start, toks[0], d)..], d)
  {
    LeftmostHead(toks, line[start..], d);
    FirstCut(line, d, start, toks[0], Join(toks[1..], d));
  }

  lemma ConsSplit(toks: seq<string>, line: string, d: string, start: nat)
    requires |d| > 0
    requires start <= |line|
    requires |toks| >= 2
    requires Find(line, d, start) == Some(start + |toks[0]|)
    requires line[start..start + |toks[0]|] == toks[0]
    requires Resume(start, toks[0], d) <= |line|
    requires toks[1..] == SplitFrom(line, d, Resume(start, toks[0], d))
    ensures toks == SplitFrom(line, d, start)
  {
    SplitFromStep(line, d, start, start + |toks[0]|, Resume(start, toks[0], d));
    assert toks == [toks[0]] + toks[1..];
  }

  /** One round of the loop of `split`: a match at `p` yields the token
      before it, and the search resumes after the delimiter. */
  lemma SplitFromStep(line: string, d: string, start: nat, p: nat, next: nat)
    requires |d| > 0
    requires start <= |line|
    requires Find(line, d, start) == Some(p)
    requires next == p + |d|
    ensures next <= |line|
    ensures SplitFrom(line, d, start) == [line[start..p]] + SplitFrom(line, d, next)
  {
  }

  lemma SingleTokenSplit(toks: seq<string>, line: string, d: string, start: nat)
    requires |d| > 0
    requires start <= |line|
    requires |toks| == 1
    requires IsLeftmostSplit(toks, line[start..], d)
    ensures Find(line, d, start) == None && toks[0] == line[start..]
  {
    FreeSuffixNotFound(line, d, start);
  }

  lemma LeftmostTail(toks: seq<string>, d: string)
    requires |toks| >= 1
    requires Leftmost(toks, d)
    ensures Leftmost(toks[1..], d)
  {
    var tail := toks[1..];
    forall i, q: nat | 0 <= i < |tail| - 1 && q < |tail[i]| ensures !OccursAt(tail[i] + d, d, q) {
      assert tail[i] == toks[i + 1];
    }
  }

  /** An occurrence that lies within a slice is an occurrence in the slice. */
  lemma EmbedOccurrence(s: string, d: string, lo: nat, hi: nat, p: nat)
    requires lo <= p && p + |d| <= hi <= |s|
    ensures OccursAt(s, d, p) ==> OccursAt(s[lo..hi], d, p - lo)
  {
    if OccursAt(s, d, p) {
      var t := s[lo..hi];
      forall k | 0 <= k < |d| ensures t[p - lo + k] == d[k] {
        assert t[p - lo + k] == s[p + k];
      }
    }
  }

  lemma FreeSuffixNotFound(line: string, d: string, start: nat)
    requires |d| > 0
    requires start <= |line|
    requires Free(line[start..], d)
    ensures Find(line, d, start) == None
  {
    assert line[start..] == line[start..|line|];
    forall q: nat | start <= q ensures !OccursAt(line, d, q) {
      if q + |d| <= |line| {
        EmbedOccurrence(line, d, start, |line|, q);
      }
    }
  }

  /** When the line from `start` reads `t + d + rest` and `d` does not start
      inside `t`, the search from `start` stops right after `t`. */
  lemma FirstCut(line: string, d: string, start: nat, t: string, rest: string)
    requires |d| > 0
    requires start <= |line|
    requires line[start..] == t + d + rest
    requires forall q: nat :: q < |t| ==> !OccursAt(t + d, d, q)
    ensures Find(line, d, start) == Some(start + |t|)
    ensures line[start..start + |t|] == t
    ensures start + |t| + |d| <= |line| && line[start + |t| + |d|..] == rest
  {
    var p := start + |t|;
    forall k | 0 <= k < |d| ensures line[p + k] == d[k] {
      assert line[p + k] == line[start..][|t| + k] == (t + d + rest)[|t| + k];
    }
    assert line[start..p + |d|] == t + d;
    forall q: nat | start <= q < p ensures !OccursAt(line, d, q) {
      EmbedOccurrence(line, d, start, p + |d|, q);
    }
    FindIsFirst(line, d, start, p);
  }

  lemma {:induction false} FindIsFirst(s: string, d: string, from: nat, p: nat)
    requires from <= p
    requires OccursAt(s, d, p)
    requires forall q: nat :: from <= q < p ==> !OccursAt(s, d, q)
    ensures Find(s, d, from) == Some(p)
    decreases p - from
  {
    if from < p {
      assert !OccursAt(s, d, from);
      FindIsFirst(s, d, from + 1, p);
    }
  }

  /** A token list is the split of the line exactly when it is a leftmost
      split of it. */
  lemma SplitCharacterized(toks: seq<string>, line: string, d: string)
    requires |d| > 0
    ensures toks == Split(line, d) <==> IsLeftmostSplit(toks, line, d)
  {
    SplitProperties(line, d, 0);
    if IsLeftmostSplit(toks, line, d) {
      LeftmostSplitUnique(toks, line, d, 0);
    }
  }

  lemma {:induction false} OccurrencesNone(s: string, d: string, i: nat)
    requires |d| > 0
    requires forall q: nat :: i <= q ==> !OccursAt(s, d, q)
    ensures OccurrencesFrom(s, d, i) == 0
    decreases |s| - i
  {
    if i + |d| <= |s| {
      OccurrencesNone(s, d, i + 1);
    }
  }

  lemma {:induction false} OccurrencesFirst(s: string, d: string, i: nat, p: nat, next: nat)
    requires |d| > 0
    requires i <= p
    requires OccursAt(s, d, p)
    requires forall q: nat :: i <= q < p ==> !OccursAt(s, d, q)
    requires next == p + |d|
    ensures OccurrencesFrom(s, d, i) == 1 + OccurrencesFrom(s, d, next)
    decreases p - i
  {
    if i < p {
      assert !OccursAt(s, d, i);
      OccurrencesFirst(s, d, i + 1, p, next);
    }
  }

  lemma {:induction false} SplitFromCount(line: string, d: string, start: nat)
    requires |d| > 0
    requires start <= |line|
    ensures |SplitFrom(line, d, start)| == OccurrencesFrom(line, d, start) + 1
    decreases |line| - start
  {
    match Find(line, d, start)
    case None =>
      OccurrencesNone(line, d, start);
    case Some(p) =>
      var next := p + |d|;
      SplitFromStep(line, d, start, p, next);
      OccurrencesFirst(line, d, start, p, next);
      SplitFromCount(line, d, next);
  }

  /** The number of tokens is the number of non-overlapping delimiter
      occurrences plus one. */
  lemma SplitCount(line: string, d: string)
    requires |d| > 0
    ensures |Split(line, d)| == Occurrences(line, d) + 1
  {
    SplitFromCount(line, d, 0);
  }

  /** A line without the delimiter is a single token: the line itself. */
  lemma SplitWithoutDelimiter(line: string, d: string)
    requires |d| > 0
    requires Free(line, d)
    ensures Split(line, d) == [line]
  {
    assert line[0..] == line;
  }

  /** With a one-character delimiter, splitting tokens that do not contain
      it undoes joining them. */
  lemma SplitJoin(toks: seq<string>, d: string)
    requires |d| == 1
    requires |toks| >= 1
    requires forall i, j :: 0 <= i < |toks| && 0 <= j < |toks[i]| ==> toks[i][j] != d[0]
    ensures Split(Join(toks, d), d) == toks
  {
    forall i, q: nat | 0 <= i < |toks| - 1 && q < |toks[i]| ensures !OccursAt(toks[i] + d, d, q) {
      CharOccurrence(toks[i] + d, d, q);
      assert (toks[i] + d)[q] == toks[i][q];
    }
    var last := toks[|toks| - 1];
    forall q: nat | q <= |last| ensures !OccursAt(last, d, q) {
      CharOccurrence(last, d, q);
    }
    SplitCharacterized(toks, Join(toks, d), d);
  }

  /** Adjacent delimiters produce an empty token. */
  lemma AdjacentDelimiters()
    ensures Split("a  b", " ") == ["a", "", "b"]
  {
    var line := "a  b";
    assert line[0] == 'a' && line[1] == ' ' && line[2] == ' ' && line[3] == 'b';
    assert line[0..1][0] == 'a' && line[3..4][0] == 'b';
    assert line[1..2] == " " && line[2..3] == " ";
    assert line[2..2] == "" && line[0..1] == "a" && line[3..] == "b";
    assert Find(line, " ", 4) == None;
    assert Find(line, " ", 3) == None;
    assert SplitFrom(line, " ", 3) == ["b"];
    assert Find(line, " ", 2) == Some(2);
    assert SplitFrom(line, " ", 2) == [""] + ["b"];
    assert Find(line, " ", 1) == Some(1);
    assert Find(line, " ", 0) == Some(1);
    assert SplitFrom(line, " ", 0) == ["a"] + SplitFrom(line, " ", 2);
  }

  /** A blank line is one empty token. */
  lemma BlankLine()
    ensures Split("", " ") == [""]
  {
    SplitWithoutDelimiter("", " ");
  }

  /** With an empty delimiter `find` always matches where the search starts,
      so `pos_start` never advances and the loop of `split` does not end. */
  lemma EmptyDelimiterNeverAdvances(line: string, posStart: nat)
    requires posStart <= |line|
    ensures Find(line, "", posStart) == Some(posStart)
    ensures posStart + |""| == posStart
  {
  }

  /** The loop of `parser::split` as written: `args` is cleared first, so its
      previous contents never survive. */
  method SplitInto(args: seq<string>, line: string, d: string) returns (out: seq<string>)
    requires |d| > 0
    ensures out == Split(line, d)
    ensures IsLeftmostSplit(out, line, d)
  {
    out := [];
    var posStart: nat := 0;
    var found := Find(line, d, posStart);
    while found.Some?
      invariant posStart <= |line|
      invariant found == Find(line, d, posStart)
      invariant out + SplitFrom(line, d, posStart) == SplitFrom(line, d, 0)
      decreases |line| - posStart
    {
      var posEnd := found.value;
      var next := posEnd + |d|;
      var token := line[posStart..posEnd];
      SplitFromStep(line, d, posStart, posEnd, next);
      assert out + SplitFrom(line, d, posStart) == (out + [token]) + SplitFrom(line, d, next);
      out := out + [token];
      posStart := next;
      found := Find(line, d, posStart);
    }
    assert SplitFrom(line, d, posStart) == [line[posStart..]];
    out := out + [line[posStart..]];
    SplitProperties(line, d, 0);
  }
}
