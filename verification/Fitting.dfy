/** Fitting a merged summary into its budget: shrink, compress the narrative, shrink
    again without it (the common part of `_write_summary` and `_rewrite_existing_summary`). */
module Fitting {
  import opened Schema
  import opened Subsequence
  import opened Shrink
  import opened Merge
  import RenderSize

  /** `_compress_narrative`; `answer` is what the model returned, empty when it failed. */
  function Compressed(narrative: string, answer: string, maxChars: int): string {
    if IsBlank(narrative) then "" else Clip(if answer != "" then answer else narrative, maxChars)
  }

  function CompressLimit(maxNarrative: int): int {
    if maxNarrative / 2 > 64 then maxNarrative / 2 else 64
  }

  function Shortened(s: Summary, budget: int, answer: string, maxNarrative: int): Summary {
    if Tokens(s) > budget && s.narrative != ""
    then s.(narrative := Compressed(s.narrative, answer, CompressLimit(maxNarrative)))
    else s
  }

  function Fitted(s: Summary, turn: int, budget: int, answer: string, maxNarrative: int): Summary {
    var short := Shortened(Shrunk(s, turn, budget, false), budget, answer, maxNarrative);
    if Tokens(short) > budget then Shrunk(short, turn, budget, true) else short
  }

  method FitSummary(s: Summary, turn: int, budget: int, answer: string, maxNarrative: int) returns (fitted: Summary)
    ensures fitted == Fitted(s, turn, budget, answer, maxNarrative)
  {
    fitted := ShrinkSummary(s, turn, budget, false);
    if Tokens(fitted) > budget && fitted.narrative != "" {
      fitted := fitted.(narrative := Compressed(fitted.narrative, answer, CompressLimit(maxNarrative)));
    }
    if Tokens(fitted) > budget {
      fitted := ShrinkSummary(fitted, turn, budget, true);
    }
  }

  lemma FirstShrink(s: Summary, turn: int, budget: int, answer: string, maxNarrative: int, f: Field)
    requires NoSharedIds(LiveSummary(s), turn)
    ensures var short := Shortened(Shrunk(s, turn, budget, false), budget, answer, maxNarrative);
      && Solid(LiveSummary(short).Get(f), f, turn) == Solid(LiveSummary(s).Get(f), f, turn)
      && forall i | i in short.Get(f) :: i in LiveSummary(s).Get(f)
  {
    var first := Shrunk(s, turn, budget, false);
    var short := Shortened(first, budget, answer, maxNarrative);
    FitKeepsCore(LiveSummary(s), turn, budget, false);
    EvictedWithin(LiveSummary(s), turn, budget);
    SubRefl(LiveSummary(s).Get(f));
    SubIn(first.Get(f), LiveSummary(s).Get(f));
    LiveGet(s, f);
    OnlyLiveIff(s.Get(f));
    LiveGet(short, f);
    AllLive(first.Get(f));
    assert short.Get(f) == first.Get(f);
  }

  lemma {:induction false} AllLive(items: seq<Item>)
    requires forall i | i in items :: Live(i)
    ensures OnlyLive(items) == items
  {
    if items != [] {
      AllLive(items[1..]);
      assert items == [items[0]] + items[1..];
    }
  }

  lemma StillUnshared(s: Summary, turn: int, budget: int, answer: string, maxNarrative: int)
    requires NoSharedIds(LiveSummary(s), turn)
    ensures NoSharedIds(LiveSummary(Shortened(Shrunk(s, turn, budget, false), budget, answer, maxNarrative)), turn)
  {
    var short := Shortened(Shrunk(s, turn, budget, false), budget, answer, maxNarrative);
    forall g: Field, i | i in LiveSummary(short).Get(g)
      ensures i in LiveSummary(s).Get(g)
    {
      FirstShrink(s, turn, budget, answer, maxNarrative, g);
      LiveGet(short, g);
      OnlyLiveIff(short.Get(g));
    }
  }

  /** The whole chain of shrinking never drops a live protected item, nor an open one. */
  lemma FittedKeepsProtected(s: Summary, turn: int, budget: int, answer: string, maxNarrative: int, f: Field, i: Item)
    requires NoSharedIds(LiveSummary(s), turn)
    requires i in s.Get(f) && Live(i) && (f.OpenItems? || Protected(i, f, turn))
    ensures i in Fitted(s, turn, budget, answer, maxNarrative).Get(f)
  {
    var first := Shrunk(s, turn, budget, false);
    var short := Shortened(first, budget, answer, maxNarrative);
    NeverDropsProtected(s, turn, budget, false, f, i);
    assert short.Get(f) == first.Get(f);
    StillUnshared(s, turn, budget, answer, maxNarrative);
    NeverDropsProtected(short, turn, budget, true, f, i);
  }

  /** It reaches the budget whenever the items that may never be evicted leave room, and
      otherwise only if the narrative was cut short enough. */
  lemma FittedFitsIff(s: Summary, turn: int, budget: int, answer: string, maxNarrative: int)
    requires NoSharedIds(LiveSummary(s), turn)
    ensures Tokens(Fitted(s, turn, budget, answer, maxNarrative)) <= budget <==>
            || Tokens(Core(LiveSummary(s), turn)) <= budget
            || Tokens(Shortened(Shrunk(s, turn, budget, false), budget, answer, maxNarrative)) <= budget
  {
    var short := Shortened(Shrunk(s, turn, budget, false), budget, answer, maxNarrative);
    StillUnshared(s, turn, budget, answer, maxNarrative);
    forall f
      ensures Core(LiveSummary(short), turn).Get(f) == Core(LiveSummary(s), turn).Get(f)
    {
      FirstShrink(s, turn, budget, answer, maxNarrative, f);
      CoreGet(LiveSummary(short), turn, f);
      CoreGet(LiveSummary(s), turn, f);
    }
    SameTokens(Core(LiveSummary(short), turn), Core(LiveSummary(s), turn));
    FitsIff(short, turn, budget);
  }

  lemma SameTokens(r: Summary, s: Summary)
    requires r.narrative == s.narrative == "" && forall f :: r.Get(f) == s.Get(f)
    ensures Tokens(r) == Tokens(s)
  {
    forall f
      ensures Sub(r.Get(f), s.Get(f)) && Sub(s.Get(f), r.Get(f))
    {
      SubRefl(r.Get(f));
    }
    RenderSize.FewerItemsFewerTokens(r, s);
    RenderSize.FewerItemsFewerTokens(s, r);
  }
}
