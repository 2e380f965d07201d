/**
 * java.util.regex as the logging core sees it. The engine itself (compilation,
 * searching, full matching) is foreign and is a parameter; what is modelled exactly is
 * how a list of matches found left to right is spliced into the text
 * (`Matcher.appendReplacement` / `appendTail`).
 */
module Regex {
  import opened Wrappers
  import opened Sequences

  datatype Flags = Plain | CaseInsensitive

  /** A compiled `java.util.regex.Pattern`: its source text and flags. */
  datatype Pattern = Pattern(source: string, flags: Flags)

  /** Capturing group 1 of a match: absent when it took no part in the match. */
  datatype Group = Unmatched | Captured(start: nat, end: nat)

  /** One `Matcher.find()` result: the half-open span [start, end) and group 1. */
  datatype Match = Match(start: nat, end: nat, group1: Group)

  /** The foreign regex engine: whether a source compiles under the flags, the number
      of capturing groups of a pattern, the successive matches `find()` reports, and
      whether `matches()` accepts the whole input. */
  datatype Engine = Engine(
    compiles: (string, Flags) -> bool,
    groupCount: Pattern -> nat,
    find: (Pattern, string) -> seq<Match>,
    matches: (Pattern, string) -> bool)

  predicate InBounds(m: Match, n: nat) {
    && m.start <= m.end <= n
    && (m.group1.Captured? ==> m.group1.start <= m.group1.end <= n)
  }

  /** Spans inside a text of length n, left to right and not overlapping. */
  predicate Ordered(ms: seq<Match>, n: nat) {
    && (forall i :: 0 <= i < |ms| ==> InBounds(ms[i], n))
    && Increasing(ms)
  }

  /** Each span starts at or after the end of the one before it. */
  predicate Increasing(ms: seq<Match>)
    decreases |ms|
  {
    |ms| <= 1 || (Increasing(ms[..|ms| - 1]) && ms[|ms| - 2].end <= ms[|ms| - 1].start)
  }

  /** What the logging core assumes of the engine: `find()` reports ordered spans. */
  ghost predicate ValidEngine(e: Engine) {
    forall p, s :: Ordered(e.find(p, s), |s|)
  }

  /** `Pattern.compile(source, flags)`: None when it throws PatternSyntaxException. */
  function Compile(e: Engine, source: string, flags: Flags): (r: Option<Pattern>)
    ensures r.Some? <==> e.compiles(source, flags)
    ensures r.Some? ==> r.value.source == source && r.value.flags == flags
  {
    if e.compiles(source, flags) then Some(Pattern(source, flags)) else None
  }

  /** Where the text after the last match starts. */
  function End(ms: seq<Match>): nat {
    if ms == [] then 0 else ms[|ms| - 1].end
  }

  lemma {:induction false} IncreasingPrefix(ms: seq<Match>, k: nat)
    requires Increasing(ms) && k <= |ms|
    ensures Increasing(ms[..k])
    ensures 0 < k < |ms| ==> ms[k - 1].end <= ms[k].start
    decreases |ms|
  {
    if k < |ms| {
      var m := |ms| - 1;
      TakeTake(ms, k, m);
      if k < m {
        IncreasingPrefix(ms[..m], k);
      }
    } else {
      WholePrefix(ms);
    }
  }

  lemma OrderedPrefix(ms: seq<Match>, n: nat, k: nat)
    requires Ordered(ms, n) && k <= |ms|
    ensures Ordered(ms[..k], n)
    ensures End(ms[..k]) <= n
    ensures k < |ms| ==> End(ms[..k]) <= ms[k].start
  {
    IncreasingPrefix(ms, k);
  }

  /** The buffer after `appendReplacement` for every match: the text before each
      match, then that match's replacement. */
  function Emitted(s: string, ms: seq<Match>, reps: seq<string>): string
    requires Ordered(ms, |s|) && |reps| == |ms|
    decreases |ms|
  {
    if ms == [] then []
    else
      var k := |ms| - 1;
      OrderedPrefix(ms, |s|, k);
      Emitted(s, ms[..k], reps[..k]) + Slice(s, End(ms[..k]), ms[k].start) + reps[k]
  }

  /** Every match replaced by its replacement, taken literally; `appendTail` adds the
      text after the last match. */
  function Splice(s: string, ms: seq<Match>, reps: seq<string>): string
    requires Ordered(ms, |s|) && |reps| == |ms|
  {
    OrderedPrefix(ms, |s|, |ms|);
    Emitted(s, ms, reps) + Slice(s, End(ms), |s|)
  }

  /** The text before each match (from the end of the previous one). */
  function GapsBefore(s: string, ms: seq<Match>): (g: seq<string>)
    requires Ordered(ms, |s|)
    ensures |g| == |ms|
    decreases |ms|
  {
    if ms == [] then []
    else
      var k := |ms| - 1;
      OrderedPrefix(ms, |s|, k);
      GapsBefore(s, ms[..k]) + [Slice(s, End(ms[..k]), ms[k].start)]
  }

  /** The text outside the matches: one piece before each match and the tail. */
  function Gaps(s: string, ms: seq<Match>): (g: seq<string>)
    requires Ordered(ms, |s|)
    ensures |g| == |ms| + 1
  {
    OrderedPrefix(ms, |s|, |ms|);
    GapsBefore(s, ms) + [Slice(s, End(ms), |s|)]
  }

  /** The matched texts. */
  function Texts(s: string, ms: seq<Match>): (t: seq<string>)
    requires Ordered(ms, |s|)
    ensures |t| == |ms|
  {
    seq(|ms|, i requires 0 <= i < |ms| => Slice(s, ms[i].start, ms[i].end))
  }

  /** gaps[0] + fills[0] + gaps[1] + ... + fills[n-1] + gaps[n]. */
  function Interleave(gaps: seq<string>, fills: seq<string>): string
    requires |gaps| == |fills| + 1
    decreases |fills|
  {
    if fills == [] then gaps[0]
    else Interleave(gaps[..|gaps| - 1], fills[..|fills| - 1]) + fills[|fills| - 1] + gaps[|gaps| - 1]
  }

  lemma {:induction false} EmittedInterleave(s: string, ms: seq<Match>, reps: seq<string>, t: string)
    requires Ordered(ms, |s|) && |reps| == |ms|
    ensures Emitted(s, ms, reps) + t == Interleave(GapsBefore(s, ms) + [t], reps)
    decreases |ms|
  {
    if ms != [] {
      var k := |ms| - 1;
      OrderedPrefix(ms, |s|, k);
      var gap := Slice(s, End(ms[..k]), ms[k].start);
      var g := GapsBefore(s, ms) + [t];
      assert g == GapsBefore(s, ms[..k]) + [gap] + [t];
      assert g[..|g| - 1] == GapsBefore(s, ms[..k]) + [gap];
      EmittedInterleave(s, ms[..k], reps[..k], gap);
    }
  }

  lemma {:induction false} EmittedTexts(s: string, ms: seq<Match>)
    requires Ordered(ms, |s|)
    ensures End(ms) <= |s|
    ensures Emitted(s, ms, Texts(s, ms)) == s[..End(ms)]
    decreases |ms|
  {
    if ms != [] {
      var k := |ms| - 1;
      OrderedPrefix(ms, |s|, k);
      assert Texts(s, ms)[..k] == Texts(s, ms[..k]);
      EmittedTexts(s, ms[..k]);
      var a, b, c := End(ms[..k]), ms[k].start, ms[k].end;
      SliceIsSubsequence(s, a, b);
      SliceIsSubsequence(s, b, c);
      assert s[..a] + s[a..b] + s[b..c] == s[..c];
    }
  }

  /** Splicing keeps every character outside the matched spans in place: the output
      is the gaps of the input filled with the replacements. */
  lemma SpliceKeepsGaps(s: string, ms: seq<Match>, reps: seq<string>)
    requires Ordered(ms, |s|) && |reps| == |ms|
    ensures Splice(s, ms, reps) == Interleave(Gaps(s, ms), reps)
  {
    OrderedPrefix(ms, |s|, |ms|);
    EmittedInterleave(s, ms, reps, Slice(s, End(ms), |s|));
  }

  /** The input is its gaps filled with the matched texts. */
  lemma GapsAndTexts(s: string, ms: seq<Match>)
    requires Ordered(ms, |s|)
    ensures s == Interleave(Gaps(s, ms), Texts(s, ms))
  {
    SpliceKeepsGaps(s, ms, Texts(s, ms));
    SpliceIdentity(s, ms);
  }

  /** Replacing each match by its own text, or finding no match at all, returns the
      input unchanged. */
  lemma SpliceIdentity(s: string, ms: seq<Match>)
    requires Ordered(ms, |s|)
    ensures Splice(s, ms, Texts(s, ms)) == s
    ensures Splice(s, [], []) == s
  {
    EmittedTexts(s, ms);
    SliceIsSubsequence(s, End(ms), |s|);
    assert s[..End(ms)] + s[End(ms)..] == s;
  }
}
