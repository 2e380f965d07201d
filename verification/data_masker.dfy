/**
 * The stand-alone masking engine (`DataMasker`): an ordered list of masking rules
 * applied one after the other, each rule replacing every case-insensitive match by a
 * partial-reveal mask inserted literally, a rule whose pattern does not compile being
 * skipped with a warning, and compiled patterns memoised by their source text.
 */
module DataMasking {
  import opened Wrappers
  import opened Sequences
  import opened Text
  import opened LogLevels
  import opened Models
  import opened Regex
  import opened Runtime

  function Min(a: int, b: int): int {
    if a <= b then a else b
  }

  /** The mask for one matched text: eight mask characters when nothing is to stay
      visible; the match itself when it is no longer than the visible count; otherwise
      the visible prefix and at most eight mask characters. */
  function CreateMask(matched: string, rule: MaskingPattern): (r: string)
    ensures rule.visibleCharacters <= 0 ==> |r| == 8 * |rule.maskCharacter|
    ensures rule.visibleCharacters > 0 ==> StartsWith(r, matched[..Min(rule.visibleCharacters, |matched|)])
    ensures rule.visibleCharacters > 0 ==>
      |r| <= Min(rule.visibleCharacters, |matched|) + 8 * |rule.maskCharacter|
  {
    var visible := rule.visibleCharacters;
    if visible <= 0 then Repeat(rule.maskCharacter, 8)
    else if |matched| <= visible then matched
    else matched[..visible] + Repeat(rule.maskCharacter, Min(8, |matched| - visible))
  }

  /** With nothing visible the mask does not depend on the match: not even its length
      leaks. */
  lemma FullMaskHidesMatch(a: string, b: string, rule: MaskingPattern)
    requires rule.visibleCharacters <= 0
    ensures CreateMask(a, rule) == CreateMask(b, rule) == Repeat(rule.maskCharacter, 8)
  {
  }

  /** A match no longer than the visible count is kept as it is (equality included). */
  lemma ShortMatchUnchanged(matched: string, rule: MaskingPattern)
    requires 0 < rule.visibleCharacters && |matched| <= rule.visibleCharacters
    ensures CreateMask(matched, rule) == matched
  {
  }

  /** A longer match shows its first `visibleCharacters` characters followed by
      min(8, hidden length) mask characters, so two matches that agree on the visible
      prefix and on that bounded count get the same mask. */
  lemma PartialMaskRevealsOnlyPrefix(a: string, b: string, rule: MaskingPattern)
    requires 0 < rule.visibleCharacters < |a| && rule.visibleCharacters < |b|
    requires a[..rule.visibleCharacters] == b[..rule.visibleCharacters]
    requires Min(8, |a| - rule.visibleCharacters) == Min(8, |b| - rule.visibleCharacters)
    ensures CreateMask(a, rule) == CreateMask(b, rule)
    ensures CreateMask(a, rule) == a[..rule.visibleCharacters] + Repeat(rule.maskCharacter, Min(8, |a| - rule.visibleCharacters))
  {
  }

  lemma CreateMaskExamples()
    ensures CreateMask("abcdef", MaskingPattern("p", "*", 2)) == "ab****"
    ensures CreateMask("abcdef", MaskingPattern("p", "*", 10)) == "abcdef"
    ensures CreateMask("abcdef", MaskingPattern("p", "*", 0)) == "********"
    ensures CreateMask("a-very-long-secret", MaskingPattern("p", "#", 1)) == "a########"
  {
    assert Repeat("*", 4) == "****" by {
      assert Repeat("*", 2) == "**";
    }
    assert Repeat("*", 8) == "********" by {
      assert Repeat("*", 4) == "****" by {
        assert Repeat("*", 2) == "**";
      }
    }
    assert Repeat("#", 8) == "########" by {
      assert Repeat("#", 4) == "####" by {
        assert Repeat("#", 2) == "##";
      }
    }
  }

  /** The mask of each match, in order. */
  function Masks(s: string, ms: seq<Match>, rule: MaskingPattern): (r: seq<string>)
    requires Ordered(ms, |s|)
    ensures |r| == |ms|
  {
    seq(|ms|, i requires 0 <= i < |ms| => CreateMask(Texts(s, ms)[i], rule))
  }

  /** One rule applied to the text: None when its pattern does not compile (the
      exception that `maskSensitiveData` catches). */
  function ApplyRule(e: Engine, s: string, rule: MaskingPattern): Option<string>
    requires ValidEngine(e)
  {
    match Compile(e, rule.pattern, CaseInsensitive)
    case None => None
    case Some(p) =>
      var ms := e.find(p, s);
      Some(Splice(s, ms, Masks(s, ms, rule)))
  }

  /** One iteration of the rule loop: a failing rule leaves the running value as it
      was. */
  function Step(e: Engine, prev: string, rule: MaskingPattern): (r: string)
    requires ValidEngine(e)
    ensures !e.compiles(rule.pattern, CaseInsensitive) ==> r == prev
  {
    ApplyRule(e, prev, rule).GetOr(prev)
  }

  /** The rules applied in list order, each to the output of the previous one. */
  function FoldRules(e: Engine, s: string, rules: seq<MaskingPattern>): string
    requires ValidEngine(e)
    decreases |rules|
  {
    if rules == [] then s
    else Step(e, FoldRules(e, s, rules[..|rules| - 1]), rules[|rules| - 1])
  }

  /** Nothing to do: blank content, or a null or empty rule list. */
  predicate NothingToMask(content: string, patterns: Option<seq<MaskingPattern>>) {
    IsBlank(content) || patterns.None? || patterns.value == []
  }

  /** `maskSensitiveData(content, patterns)`. */
  function Mask(e: Engine, content: string, patterns: Option<seq<MaskingPattern>>): string
    requires ValidEngine(e)
  {
    if NothingToMask(content, patterns) then content else FoldRules(e, content, patterns.value)
  }

  /** The warning logged for each rule whose pattern does not compile, in order. */
  function Warnings(e: Engine, rules: seq<MaskingPattern>): seq<Event>
    decreases |rules|
  {
    if rules == [] then []
    else
      var last := rules[|rules| - 1];
      Warnings(e, rules[..|rules| - 1])
        + if e.compiles(last.pattern, CaseInsensitive) then []
          else [Log(MaskerLogger, WARN, "Error applying masking pattern: " + last.pattern)]
  }

  /** The sources of the rules whose pattern compiles. */
  function Compilable(e: Engine, rules: seq<MaskingPattern>): set<string> {
    set r | r in rules && e.compiles(r.pattern, CaseInsensitive) :: r.pattern
  }

  lemma CompilableSnoc(e: Engine, rules: seq<MaskingPattern>, i: nat)
    requires i < |rules|
    ensures Compilable(e, rules[..i + 1]) == Compilable(e, rules[..i])
      + if e.compiles(rules[i].pattern, CaseInsensitive) then {rules[i].pattern} else {}
  {
    CutAt(rules, i);
  }

  /** Blank content, or a null or empty rule list, comes back unchanged; in particular
      masking an already masked text with no rules gives it back. */
  lemma NoRulesIsIdentity(e: Engine, content: string, rules: Option<seq<MaskingPattern>>)
    requires ValidEngine(e)
    ensures IsBlank(content) ==> Mask(e, content, rules) == content
    ensures Mask(e, content, Some([])) == content
    ensures Mask(e, content, None) == content
    ensures Mask(e, Mask(e, content, rules), Some([])) == Mask(e, content, rules)
  {
  }

  /** Sequential composition: applying r1 ++ r2 is applying r2 to the result of r1. */
  lemma {:induction false} FoldAppend(e: Engine, s: string, r1: seq<MaskingPattern>, r2: seq<MaskingPattern>)
    requires ValidEngine(e)
    ensures FoldRules(e, s, r1 + r2) == FoldRules(e, FoldRules(e, s, r1), r2)
    decreases |r2|
  {
    if r2 == [] {
      AppendEmpty(r1);
    } else {
      var r, init, last := r1 + r2, r2[..|r2| - 1], r2[|r2| - 1];
      LastSplit(r1, r2);
      calc {
        FoldRules(e, s, r);
        Step(e, FoldRules(e, s, r1 + init), last);
        { FoldAppend(e, s, r1, init); }
        Step(e, FoldRules(e, FoldRules(e, s, r1), init), last);
        FoldRules(e, FoldRules(e, s, r1), r2);
      }
    }
  }

  /** A rule whose pattern does not compile is skipped: the result is the one the
      remaining rules give, the rules after it still run on the last successful
      value. */
  lemma FailingRuleIsSkipped(e: Engine, s: string, rules: seq<MaskingPattern>, k: nat)
    requires ValidEngine(e)
    requires k < |rules| && !e.compiles(rules[k].pattern, CaseInsensitive)
    ensures FoldRules(e, s, rules) == FoldRules(e, s, rules[..k] + rules[k + 1..])
  {
    var before, after := rules[..k], rules[k + 1..];
    assert rules == before + [rules[k]] + after;
    FoldAppend(e, s, before + [rules[k]], after);
    FoldAppend(e, s, before, [rules[k]]);
    assert ([rules[k]])[..0] == [];
    FoldAppend(e, s, before, after);
  }

  /** A rule with no match returns its input. */
  lemma RuleWithoutMatchIsIdentity(e: Engine, s: string, rule: MaskingPattern)
    requires ValidEngine(e)
    requires e.compiles(rule.pattern, CaseInsensitive)
    requires e.find(Pattern(rule.pattern, CaseInsensitive), s) == []
    ensures ApplyRule(e, s, rule) == Some(s)
  {
    assert Splice(s, [], []) == s;
  }

  /** One rule keeps every character outside its matches in place and puts each
      match's mask where the match was. */
  lemma RuleKeepsUnmatchedText(e: Engine, s: string, rule: MaskingPattern)
    requires ValidEngine(e)
    requires e.compiles(rule.pattern, CaseInsensitive)
    ensures var ms := e.find(Pattern(rule.pattern, CaseInsensitive), s);
      && s == Interleave(Gaps(s, ms), Texts(s, ms))
      && ApplyRule(e, s, rule) == Some(Interleave(Gaps(s, ms), Masks(s, ms, rule)))
  {
    var ms := e.find(Pattern(rule.pattern, CaseInsensitive), s);
    GapsAndTexts(s, ms);
    SpliceKeepsGaps(s, ms, Masks(s, ms, rule));
  }

  /** The `matcher.find()` / `appendReplacement` / `appendTail` loop of
      `applyMaskingPattern`, over the matches the engine reported. */
  method AppendReplacements(s: string, ms: seq<Match>, rule: MaskingPattern) returns (out: string)
    requires Ordered(ms, |s|)
    ensures out == Splice(s, ms, Masks(s, ms, rule))
  {
    var sb := "";
    var appendPosition := 0;
    var i := 0;
    while i < |ms|
      invariant 0 <= i <= |ms|
      invariant Ordered(ms[..i], |s|) && appendPosition == End(ms[..i])
      invariant sb == Emitted(s, ms[..i], Masks(s, ms, rule)[..i])
    {
      OrderedPrefix(ms, |s|, i);
      var m := ms[i];
      var masked := CreateMask(Slice(s, m.start, m.end), rule);
      assert masked == Masks(s, ms, rule)[i];
      sb := sb + Slice(s, appendPosition, m.start) + masked;
      appendPosition := m.end;
      PrefixOfPrefix(ms, i);
      PrefixOfPrefix(Masks(s, ms, rule), i);
      i := i + 1;
    }
    WholePrefix(ms);
    WholePrefix(Masks(s, ms, rule));
    out := sb + Slice(s, appendPosition, |s|);
  }

  class DataMasker {
    const engine: Engine
    const host: Host
    var patternCache: map<string, Pattern>

    /** Every cached entry is the case-insensitive compilation of its own key. */
    ghost predicate Valid()
      reads this
    {
      && ValidEngine(engine)
      && forall k :: k in patternCache ==>
           patternCache[k] == Pattern(k, CaseInsensitive) && engine.compiles(k, CaseInsensitive)
    }

    constructor(engine: Engine, host: Host)
      requires ValidEngine(engine)
      ensures Valid() && this.engine == engine && this.host == host
      ensures patternCache == map[]
    {
      this.engine := engine;
      this.host := host;
      patternCache := map[];
    }

    /** `patternCache.computeIfAbsent(source, k -> Pattern.compile(k, CASE_INSENSITIVE))`:
        a hit leaves the cache as it is, a miss that compiles adds the entry, a miss
        that throws adds nothing. */
    method CompileCached(source: string) returns (p: Option<Pattern>)
      requires Valid()
      modifies this`patternCache
      ensures Valid()
      ensures p == Compile(engine, source, CaseInsensitive)
      ensures source in old(patternCache) ==> patternCache == old(patternCache)
      ensures patternCache == if p.Some? then old(patternCache)[source := p.value] else old(patternCache)
    {
      if source in patternCache {
        p := Some(patternCache[source]);
        assert patternCache[source := p.value] == patternCache;
      } else if engine.compiles(source, CaseInsensitive) {
        p := Some(Pattern(source, CaseInsensitive));
        patternCache := patternCache[source := p.value];
      } else {
        p := None;
      }
    }

    /** `applyMaskingPattern`: None stands for the exception thrown when the pattern
        does not compile. */
    method ApplyMaskingPattern(content: string, rule: MaskingPattern) returns (r: Option<string>)
      requires Valid()
      modifies this`patternCache
      ensures Valid()
      ensures r == ApplyRule(engine, content, rule)
      ensures patternCache.Keys == old(patternCache.Keys)
        + if engine.compiles(rule.pattern, CaseInsensitive) then {rule.pattern} else {}
    {
      var p := CompileCached(rule.pattern);
      if p.None? {
        return None;
      }
      var ms := engine.find(p.value, content);
      var out := AppendReplacements(content, ms, rule);
      r := Some(out);
    }

    /** `maskSensitiveData(content, patterns)`: every rule in order, each failure
        caught and logged as a warning. */
    method MaskSensitiveData(content: string, patterns: Option<seq<MaskingPattern>>) returns (r: string)
      requires Valid()
      modifies this`patternCache, host`events
      ensures Valid()
      ensures r == Mask(engine, content, patterns)
      ensures NothingToMask(content, patterns) ==>
        patternCache == old(patternCache) && host.events == old(host.events)
      ensures !NothingToMask(content, patterns) ==>
        && patternCache.Keys == old(patternCache.Keys) + Compilable(engine, patterns.value)
        && host.events == old(host.events) + Warnings(engine, patterns.value)
    {
      if IsBlank(content) || patterns.None? || patterns.value == [] {
        return content;
      }
      var rules := patterns.value;
      var maskedContent := content;
      var i := 0;
      while i < |rules|
        invariant 0 <= i <= |rules|
        invariant Valid()
        invariant maskedContent == FoldRules(engine, content, rules[..i])
        invariant patternCache.Keys == old(patternCache.Keys) + Compilable(engine, rules[..i])
        invariant host.events == old(host.events) + Warnings(engine, rules[..i])
      {
        var rule := rules[i];
        PrefixOfPrefix(rules, i);
        CompilableSnoc(engine, rules, i);
        var applied := ApplyMaskingPattern(maskedContent, rule);
        match applied {
          case Some(t) =>
            maskedContent := t;
          case None =>
            host.events := host.events + [Log(MaskerLogger, WARN, "Error applying masking pattern: " + rule.pattern)];
        }
        i := i + 1;
      }
      WholePrefix(rules);
      r := maskedContent;
    }

    /** `clearPatternCache()`. */
    method ClearPatternCache()
      requires Valid()
      modifies this`patternCache
      ensures Valid() && patternCache == map[]
    {
      patternCache := map[];
    }
  }
}
