/**
  Cutting or padding a prompt to a target number of tokens. The tokenizer is an arbitrary function of the
  text: counts of longer prefixes need not be larger.
 */
module PadToTarget {

  /** `encode` is the chat template with tokenization, `decode` turns tokens back into text. */
  datatype Tokenizer = Tokenizer(encode: string -> seq<int>, decode: seq<int> -> string)
  {
    function Count(text: string): nat {
      |encode(text)|
    }

    /** A longer prefix never has fewer tokens. */
    ghost predicate MonotoneOn(text: string) {
      forall p, p' | 0 <= p <= p' <= |text| :: Count(text[..p]) <= Count(text[..p'])
    }

    /** One more character changes the count by at most one. */
    ghost predicate UnitStepsOn(text: string) {
      forall p | 0 <= p < |text| :: -1 <= Count(text[..p + 1]) - Count(text[..p]) <= 1
    }
  }

  // ----- Python sequences -----------------------------------------------------------------------------------

  /** The position that a slice bound denotes. */
  function Bound(length: nat, i: int): (p: nat)
    ensures p <= length
  {
    if i < 0 then (if length + i < 0 then 0 else length + i) else if i > length then length else i
  }

  /** `xs[i:j]` */
  function Slice<T>(xs: seq<T>, i: int, j: int): seq<T> {
    if Bound(|xs|, i) <= Bound(|xs|, j) then xs[Bound(|xs|, i)..Bound(|xs|, j)] else []
  }

  /** `" passage" * n` */
  function Passages(n: nat): (r: string)
    ensures |r| == 8 * n
  {
    if n == 0 then "" else " passage" + Passages(n - 1)
  }

  /** The filler repeats eight characters. */
  lemma {:induction false} FillerAt(n: nat, i: nat)
    requires i < 8 * n
    ensures |Passages(n)| == 8 * n && Passages(n)[i] == " passage"[i % 8]
  {
    if i >= 8 {
      FillerAt(n - 1, i - 8);
    }
  }

  /** The text that the search cuts. */
  function Padded(tok: Tokenizer, content: string, target: int): (padded: string)
    ensures content <= padded
    ensures tok.Count(content) >= target ==> padded == content
  {
    if tok.Count(content) < target then
      content + "\n\n[Additional context follows]\n" + Passages(target - tok.Count(content) + 500)
    else content
  }

  /**
    A prompt below the target is continued with the announcement and then with at least 500 passages more
    than it lacks tokens.
   */
  lemma ShortPrompt(tok: Tokenizer, content: string, target: int)
    requires tok.Count(content) < target
    ensures var padded, start := Padded(tok, content, target), |content| + 31;
            && |padded| == start + 8 * (target - tok.Count(content) + 500)
            && padded[..|content|] == content
            && padded[|content|..start] == "\n\n[Additional context follows]\n"
            && forall i | start <= i < |padded| :: padded[i] == " passage"[(i - start) % 8]
  {
    hide Padded, Passages;
    PaddedForm(tok, content, target);
    FillerOf(Passages(target - tok.Count(content) + 500), target - tok.Count(content) + 500);
    Continued(content, "\n\n[Additional context follows]\n", Passages(target - tok.Count(content) + 500));
  }

  lemma PaddedForm(tok: Tokenizer, content: string, target: int)
    requires tok.Count(content) < target
    ensures |"\n\n[Additional context follows]\n"| == 31
    ensures Padded(tok, content, target)
         == content + "\n\n[Additional context follows]\n" + Passages(target - tok.Count(content) + 500)
  {
  }

  lemma FillerOf(filler: string, n: nat)
    requires filler == Passages(n)
    ensures |filler| == 8 * n && forall i | 0 <= i < |filler| :: filler[i] == " passage"[i % 8]
  {
    forall i | 0 <= i < |filler| ensures filler[i] == " passage"[i % 8] {
      FillerAt(n, i);
    }
  }

  lemma Continued(x: string, y: string, filler: string)
    requires forall i | 0 <= i < |filler| :: filler[i] == " passage"[i % 8]
    ensures var padded, start := x + y + filler, |x| + |y|;
            && |padded| == start + |filler| && padded[..|x|] == x && padded[|x|..start] == y
            && forall i | start <= i < |padded| :: padded[i] == " passage"[(i - start) % 8]
  {
    forall i | |x| + |y| <= i < |x + y + filler| ensures (x + y + filler)[i] == filler[i - (|x| + |y|)] {
    }
  }

  /** Every passage that follows the announcement costs a token. */
  ghost predicate PassagesCount(tok: Tokenizer, content: string) {
    forall k: nat ::
      tok.Count(content + "\n\n[Additional context follows]\n" + Passages(k)) >= tok.Count(content) + k
  }

  /** Then the padding is more than enough: the searched text is not short of the target. */
  lemma PaddingReaches(tok: Tokenizer, content: string, target: int)
    requires PassagesCount(tok, content)
    ensures tok.Count(Padded(tok, content, target)) >= target
    ensures tok.Count(content) < target ==> tok.Count(Padded(tok, content, target)) >= target + 500
  {
  }

  ghost predicate IsPrefix(text: string, padded: string) {
    exists p :: 0 <= p <= |padded| && text == padded[..p]
  }

  // ----- The search -----------------------------------------------------------------------------------------

  /**
    Where the search ends: just before it the count is below the target, and at it the count has reached
    the target unless the text ends there. No order among the counts is needed.
   */
  ghost predicate Crossing(tok: Tokenizer, text: string, target: int, lo: int) {
    && 0 <= lo <= |text|
    && (lo > 0 ==> tok.Count(text[..lo - 1]) < target)
    && (lo < |text| ==> tok.Count(text[..lo]) >= target)
  }

  method Search(tok: Tokenizer, text: string, target: int) returns (lo: nat)
    ensures Crossing(tok, text, target, lo)
  {
    lo := 0;
    var hi := |text|;
    while lo < hi
      invariant 0 <= lo <= hi <= |text|
      invariant lo > 0 ==> tok.Count(text[..lo - 1]) < target
      invariant hi < |text| ==> tok.Count(text[..hi]) >= target
    {
      var mid := (lo + hi) / 2;
      var n := tok.Count(text[..mid]);
      if n < target {
        lo := mid + 1;
      } else {
        hi := mid;
      }
    }
  }

  /** Step `k` is the first of the steps `1..steps` whose text fits. */
  ghost predicate FirstFit(tok: Tokenizer, candidate: int -> string, steps: int, target: int, k: int) {
    && 1 <= k < steps && tok.Count(candidate(k)) <= target
    && forall j | 1 <= j < k :: tok.Count(candidate(j)) > target
  }

  ghost predicate NoneFits(tok: Tokenizer, candidate: int -> string, steps: int, target: int) {
    forall j | 1 <= j < steps :: tok.Count(candidate(j)) > target
  }

  /** The text `j` steps back from `lo`; a bound below zero counts from the end of the text. */
  function StepBack(text: string, lo: nat): (candidate: int -> string) {
    j => Slice(text, 0, lo - j)
  }

  /** The text cut `j` characters before `lo`, and nothing beyond its start. */
  function CutBefore(text: string, lo: nat): (candidate: int -> string) {
    j => text[..Bound(|text|, if lo - j < 0 then 0 else lo - j)]
  }

  /** Takes the first step back from `lo` that fits, and leaves the text as it is if none does. */
  method WalkBack(tok: Tokenizer, text: string, target: int, lo: nat) returns (final: string, n: nat)
    requires lo <= |text| && tok.Count(text[..lo]) > target
    ensures n == tok.Count(final) && IsPrefix(final, text)
    ensures n <= target ==>
              exists k :: FirstFit(tok, StepBack(text, lo), 100, target, k) && final == StepBack(text, lo)(k)
    ensures n > target ==> NoneFits(tok, StepBack(text, lo), 100, target) && final == text[..lo]
    ensures lo > 0 && tok.Count(text[..lo - 1]) <= target ==> final == text[..lo - 1]
    ensures text == "" ==> final == ""
  {
    final, n := text[..lo], tok.Count(text[..lo]);
    for offset := 1 to 100
      invariant final == text[..lo] && n == tok.Count(final)
      invariant NoneFits(tok, StepBack(text, lo), offset, target)
      invariant offset > 1 && lo > 0 ==> tok.Count(text[..lo - 1]) > target
    {
      var candidate := Slice(text, 0, lo - offset);
      var m := tok.Count(candidate);
      if m <= target {
        assert FirstFit(tok, StepBack(text, lo), 100, target, offset);
        return candidate, m;
      }
    }
  }

  /**
    Drops content tokens from the right and decodes. The slices amount to keeping as many content tokens
    as the target leaves beside the empty prompt's; with no room, or no empty prompt to measure, none.
   */
  method TokenFixup(tok: Tokenizer, text: string, target: int) returns (final: string, n: nat)
    requires tok.Count(text) > target
    ensures n == tok.Count(final)
    ensures var overhead := tok.Count("");
            final == tok.decode(if 1 <= overhead <= target then tok.encode(text)[overhead - 1..target - 1] else [])
    ensures text == "" && tok.decode([]) == "" ==> final == ""
  {
    var tokens := tok.encode(text);
    var overhead := tok.encode("");
    var prefixLen := |overhead| - 1;
    var contentTokens := Slice(tokens, prefixLen, -1);
    var trimAmount := |tokens| - target;
    if trimAmount > 0 {
      contentTokens := Slice(contentTokens, 0, -trimAmount);
    }
    assert contentTokens == if 1 <= |overhead| <= target then tokens[prefixLen..target - 1] else [];
    final := tok.decode(contentTokens);
    n := tok.Count(final);
  }

  /** Accepts the first shorter prefix that fits. */
  method LastResort(tok: Tokenizer, text: string, target: int, lo: nat, fallback: string)
      returns (final: string, n: nat)
    requires lo <= |text|
    ensures n == tok.Count(final)
    ensures final == fallback || (n <= target && IsPrefix(final, text))
    ensures (NoneFits(tok, CutBefore(text, lo), 200, target) && final == fallback)
         || exists k :: FirstFit(tok, CutBefore(text, lo), 200, target, k) && final == CutBefore(text, lo)(k)
  {
    for offset := 1 to 200
      invariant NoneFits(tok, CutBefore(text, lo), offset, target)
    {
      var candidate := Slice(text, 0, if lo - offset < 0 then 0 else lo - offset);
      var m := tok.Count(candidate);
      if m <= target {
        assert FirstFit(tok, CutBefore(text, lo), 200, target, offset);
        return candidate, m;
      }
    }
    return fallback, tok.Count(fallback);
  }

  /**
    What the text cut at a crossing becomes. If it fits it stays. Else the first of 99 steps back that fits is
    taken. If none fits, the empty prompt does not fit either, and the fixup is left with no room for content:
    it decodes no tokens. If even that does not fit, the first of 199 shorter prefixes that does is taken.
   */
  ghost predicate Settled(tok: Tokenizer, text: string, target: int, lo: nat, final: string)
    requires lo <= |text|
  {
    var nothing := tok.decode([]);
    if tok.Count(text[..lo]) <= target then final == text[..lo]
    else if !NoneFits(tok, StepBack(text, lo), 100, target) then
      exists k :: FirstFit(tok, StepBack(text, lo), 100, target, k) && final == StepBack(text, lo)(k)
    else if tok.Count(nothing) <= target || NoneFits(tok, CutBefore(text, lo), 200, target) then final == nothing
    else exists k :: FirstFit(tok, CutBefore(text, lo), 200, target, k) && final == CutBefore(text, lo)(k)
  }

  /**
    `pad_to_target`. Whether the result can exceed the target is settled by the cost of the empty prompt: if
    that fits, no text overshoots and neither the fixup nor the last resort is entered; if it does not, every
    text overshoots on which counts are monotone.
   */
  method PadToTarget(tok: Tokenizer, content: string, target: int) returns (final: string, n: nat, ghost repaired: bool)
    ensures n == tok.Count(final)
    ensures var padded := Padded(tok, content, target);
            exists lo: nat :: Crossing(tok, padded, target, lo) && Settled(tok, padded, target, lo, final)
    ensures tok.Count("") <= target ==> n <= target && !repaired && IsPrefix(final, Padded(tok, content, target))
    ensures n > target ==> repaired
    ensures tok.Count("") > target && content == "" && tok.decode([]) == "" ==> n > target
    ensures tok.decode([]) == "" && tok.MonotoneOn(Padded(tok, content, target)) ==>
              (n <= target <==> tok.Count("") <= target)
    ensures var padded := Padded(tok, content, target);
            tok.Count("") <= target && tok.UnitStepsOn(padded) && tok.Count(padded) >= target ==> n == target
    ensures tok.Count("") <= target && tok.UnitStepsOn(Padded(tok, content, target)) && PassagesCount(tok, content) ==>
              n == target
    ensures var padded := Padded(tok, content, target);
            tok.Count("") <= target && tok.MonotoneOn(padded) ==>
              (n == target <==> exists p :: 0 <= p <= |padded| && tok.Count(padded[..p]) == target)
  {
    if PassagesCount(tok, content) {
      PaddingReaches(tok, content, target);
    }
    hide Padded, PassagesCount;
    repaired := false;
    var text := Padded(tok, content, target);
    var lo := Search(tok, text, target);
    final, n := text[..lo], tok.Count(text[..lo]);
    assert text[..0] == "" && text[..|text|] == text;
    CrossingCases(tok, text, target, lo);
    if n == target {
      assert Settled(tok, text, target, lo, final);
      return;
    }
    if tok.MonotoneOn(text) {
      EmptyIsLeast(tok, text);
    }
    if n > target {
      final, n := WalkBack(tok, text, target, lo);
      if n > target {
        EmptyTooLong(tok, text, target, lo);
      } else {
        FitExcludesNone(tok, StepBack(text, lo), 100, target);
      }
    }
    hide NoneFits, FirstFit, StepBack, CutBefore;
    if n != target && n > target {
      repaired := true;
      final, n := TokenFixup(tok, final, target);
    }
    if n > target {
      final, n := LastResort(tok, text, target, lo, final);
      FitExcludesNone(tok, CutBefore(text, lo), 200, target);
    }
    assert Settled(tok, text, target, lo, final);
  }

  lemma FitExcludesNone(tok: Tokenizer, candidate: int -> string, steps: int, target: int)
    ensures (exists k :: FirstFit(tok, candidate, steps, target, k)) ==> !NoneFits(tok, candidate, steps, target)
  {
  }

  /** Where no step back from a crossing fits, the empty prompt does not. */
  lemma EmptyTooLong(tok: Tokenizer, text: string, target: int, lo: nat)
    requires Crossing(tok, text, target, lo) && tok.Count(text[..lo]) > target
    requires NoneFits(tok, StepBack(text, lo), 100, target)
    ensures tok.Count("") > target
  {
    assert text[..0] == "";
    if lo > 0 {
      OneStepBack(text, lo);
    }
  }

  lemma OneStepBack(text: string, lo: nat)
    requires 0 < lo <= |text|
    ensures StepBack(text, lo)(1) == text[..lo - 1]
  {
    assert StepBack(text, lo)(1) == Slice(text, 0, lo - 1) == text[0..lo - 1];
  }

  /** Where counts are monotone every prefix costs at least the empty prompt. */
  lemma EmptyIsLeast(tok: Tokenizer, text: string)
    requires tok.MonotoneOn(text)
    ensures forall prefix | IsPrefix(prefix, text) :: tok.Count("") <= tok.Count(prefix)
  {
    assert text[..0] == "";
  }

  /** What the crossing says about the count there. */
  lemma CrossingCases(tok: Tokenizer, text: string, target: int, lo: nat)
    requires Crossing(tok, text, target, lo)
    ensures tok.Count("") <= target && tok.Count(text[..lo]) > target ==> lo > 0
    ensures tok.Count("") <= target && tok.UnitStepsOn(text) && tok.Count(text) >= target ==>
              tok.Count(text[..lo]) == target
    ensures tok.MonotoneOn(text) && (exists p :: 0 <= p <= |text| && tok.Count(text[..p]) == target) ==>
              tok.Count(text[..lo]) == target
  {
    assert text[..0] == "" && text[..|text|] == text;
    if tok.UnitStepsOn(text) && lo > 0 {
      assert -1 <= tok.Count(text[..lo - 1 + 1]) - tok.Count(text[..lo - 1]) <= 1;
    }
  }

  /** Two tokens for every character. */
  function TwoPerCharacter(text: string): seq<int> {
    seq(2 * |text|, _ => 0)
  }

  /** The promise of an exact count fails for such a tokenizer: it is monotone, and no text meets an odd target. */
  lemma NeverExact(decode: seq<int> -> string, text: string, target: int)
    requires target % 2 == 1
    ensures var tok := Tokenizer(TwoPerCharacter, decode);
            tok.MonotoneOn(text) && forall p | 0 <= p <= |text| :: tok.Count(text[..p]) != target
  {
  }
}
