/** What one compaction step may append, and what every such step keeps. */
module Compaction {
  import opened Schema
  import opened Events
  import opened Surface
  import opened SurfaceFacts
  import opened Units
  import opened Split

  /** No user message, given or waiting in the inbox, that pretends to be a summary. */
  predicate Honest(b: Body) {
    b.UserMessage? || b.InboxSpliced? ==> !b.source.Compaction?
  }

  /** Logs as the runtime writes them: numbered from 1, sources named backwards, and
      no user message that pretends to be a summary. */
  ghost predicate LogOk(log: Log) {
    && Contiguous(log) && Backward(log)
    && forall i | 0 <= i < |log| :: Honest(log[i].body)
  }

  lemma LogOkSnoc(log: Log, e: Event)
    requires LogOk(log) && e.seqNo == |log| + 1 && forall q | q in e.sources :: q <= |log|
    requires Honest(e.body)
    ensures LogOk(log + [e])
  {
  }

  ghost predicate IsNewest(c: set<nat>, q: nat) {
    q in c && forall p | p in c :: p <= q
  }

  /** The surface holds exactly the newest committed summary, and no summary when
      none is committed. */
  ghost predicate OneSummary(log: Log) {
    && (forall m | m in Derive(log) && m.source.Compaction? :: IsNewest(Committed(log), m.seqNo))
    && (forall q | IsNewest(Committed(log), q) :: exists m :: m in Derive(log) && m.seqNo == q)
  }

  // ----------------------------------------------------------------- steps

  ghost predicate Appends(log: Log, next: Log, n: nat) {
    |next| == |log| + n && next[..|log|] == log
  }

  /** The tool results that no replacement names. */
  ghost function Untrimmed(log: Log): set<nat> {
    set k: nat | k < |log| && log[k].body.ToolResult? && log[k].op == Append && !Replaced(log, log[k].seqNo) :: k
  }

  ghost predicate Replaced(log: Log, q: nat) {
    exists e :: e in log && e.body.ToolResult? && e.op == Replace && q in e.sources
  }

  /** `_trim_longest_tool` wrote: one replacement for one tool result not replaced before. */
  ghost predicate TrimStep(log: Log, next: Log, turn: nat) {
    && Appends(log, next, 1)
    && var e := next[|log|];
    && e.body.ToolResult? && e.op == Replace && e.turn == Some(turn) && |e.sources| == 1
    && 1 <= e.sources[0] <= |log|
    && e.sources[0] - 1 in Untrimmed(log)
    && var t := log[e.sources[0] - 1].body;
    && e.body == t.(content := e.body.content, shown := e.body.shown, error := "", errorClass := "")
  }

  /** What `_append_summary_events` wrote. */
  ghost predicate SummaryStep(log: Log, next: Log, sources: set<nat>) {
    && Appends(log, next, 3)
    && next[|log|].body.CompactionStart?
    && next[|log| + 1].body.CompactionSummary? && Sources(next[|log| + 1]) == sources
    && next[|log| + 2].body.CompactionEnd?
  }

  /** The sources of `_write_summary`: the folded prefix and the newest summary. */
  ghost function FoldSources(log: Log, turn: nat, retain: nat): set<nat> {
    SeqSet(Prefix(Derive(log), turn, Turns(log), retain)) + set q | q in Committed(log) && IsNewest(Committed(log), q)
  }

  /** A crash cut a transaction short. */
  ghost predicate CrashStep(log: Log, next: Log) {
    || (Appends(log, next, 1) && next[|log|].body.CompactionStart?)
    || (Appends(log, next, 2) && next[|log|].body.CompactionStart? && next[|log| + 1].body.CompactionSummary?)
  }

  /** The budget violation that ends a compaction without success. */
  ghost predicate ViolationStep(log: Log, next: Log) {
    Appends(log, next, 1) && next[|log|].body.Violation?
  }

  /** Every event of a compaction carries the turn in which it runs. */
  ghost predicate StampedBy(log: Log, next: Log, turn: nat) {
    |log| <= |next| && forall k | |log| <= k < |next| :: next[k].turn == Some(turn)
  }

  ghost predicate CompactStep(log: Log, next: Log, turn: nat) {
    StampedBy(log, next, turn) && Rewrites(log, next, turn)
  }

  ghost predicate Rewrites(log: Log, next: Log, turn: nat) {
    || TrimStep(log, next, turn)
    || (exists retain: nat :: SummaryStep(log, next, FoldSources(log, turn, retain)))
    || (exists q :: IsNewest(Committed(log), q) && SummaryStep(log, next, {q}))
    || CrashStep(log, next)
    || ViolationStep(log, next)
  }

  // ------------------------------------------------- sources of a summary

  lemma HeadTools(s: seq<Msg>, k: nat)
    requires s != [] && 0 < k < Head(s)
    ensures s[k].role.ToolRole?
  {
    assert s[k] == s[1..][k - 1];
  }

  lemma {:induction false} UserAlone(s: seq<Msg>, i: nat, m: Msg)
    requires i < |UnitsOf(s)| && m in UnitsOf(s)[i] && m.role.UserRole?
    ensures UnitsOf(s)[i] == [m]
    decreases |s|
  {
    Unfold(s);
    if i > 0 {
      UserAlone(s[Head(s)..], i - 1, m);
    } else {
      var k :| 0 <= k < Head(s) && s[k] == m;
      if k > 0 { HeadTools(s, k); }
    }
  }

  /** What the sources of a summary must satisfy to keep the surface in shape. */
  ghost predicate SafeSources(log: Log, drop: set<nat>) {
    && Aligned(UnitsOf(Derive(log)), drop)
    && forall q | IsNewest(Committed(log), q) :: q in drop
  }

  lemma NewestIsSummary(log: Log, q: nat)
    requires Contiguous(log) && q in Committed(log)
    ensures 1 <= q <= |log| && log[q - 1].body.CompactionSummary?
  {
  }

  /** Adding committed summaries to the dropped messages keeps units whole. */
  lemma AddNewest(log: Log, drop: set<nat>, newest: set<nat>)
    requires Contiguous(log) && Aligned(UnitsOf(Derive(log)), drop)
    requires forall q | q in newest :: q in Committed(log)
    ensures Aligned(UnitsOf(Derive(log)), drop + newest)
  {
    var us := UnitsOf(Derive(log));
    forall i, m: Msg | 0 <= i < |us| && m in us[i] && m.seqNo in newest
      ensures us[i] == [m]
    {
      SummaryAlone(log, i, m);
    }
    AddSingles(us, drop, newest);
  }

  lemma AddSingles(us: seq<Unit>, drop: set<nat>, singles: set<nat>)
    requires Aligned(us, drop)
    requires forall i, m: Msg | 0 <= i < |us| && m in us[i] && m.seqNo in singles :: us[i] == [m]
    ensures Aligned(us, drop + singles)
  {
    forall i | 0 <= i < |us|
      ensures (forall m | m in us[i] :: m.seqNo in drop + singles) || (forall m | m in us[i] :: m.seqNo !in drop + singles)
    {
      if m: Msg :| m in us[i] && m.seqNo in singles {
        assert us[i] == [m];
      }
    }
  }

  lemma SummaryAlone(log: Log, i: nat, m: Msg)
    requires Contiguous(log) && i < |UnitsOf(Derive(log))| && m in UnitsOf(Derive(log))[i]
    requires m.seqNo in Committed(log)
    ensures UnitsOf(Derive(log))[i] == [m]
  {
    UnitMember(Derive(log), i, m);
    SummaryIsUser(log, m);
    UserAlone(Derive(log), i, m);
  }

  lemma UnitMember(s: seq<Msg>, i: nat, m: Msg)
    requires i < |UnitsOf(s)| && m in UnitsOf(s)[i]
    ensures m in s
  {
    FlatUnits(s);
    var p := InFlat(UnitsOf(s), i, m);
  }

  lemma SummaryIsUser(log: Log, m: Msg)
    requires Contiguous(log) && m in Derive(log) && m.seqNo in Committed(log)
    ensures m.role.UserRole?
  {
    DeriveFaithful(log);
    NewestIsSummary(log, m.seqNo);
  }

  lemma FoldIsSafe(log: Log, turn: nat, retain: nat)
    requires Contiguous(log)
    ensures SafeSources(log, FoldSources(log, turn, retain))
  {
    DeriveFaithful(log);
    PrefixAligned(Derive(log), turn, Turns(log), retain);
    AddNewest(log, SeqSet(Prefix(Derive(log), turn, Turns(log), retain)),
              set q | q in Committed(log) && IsNewest(Committed(log), q));
  }

  lemma RewriteIsSafe(log: Log, q: nat)
    requires Contiguous(log) && IsNewest(Committed(log), q)
    ensures SafeSources(log, {q})
  {
    AddNewest(log, {}, {q});
    assert {} + {q} == {q};
  }

  // ----------------------------------------------------- effect on surface

  lemma SplitTail(log: Log, next: Log)
    requires |next| >= |log| && next[..|log|] == log
    ensures |next| == |log| + 1 ==> next == log + [next[|log|]]
    ensures |next| == |log| + 2 ==> next == log + [next[|log|]] + [next[|log| + 1]]
    ensures |next| == |log| + 3 ==> next == log + [next[|log|]] + [next[|log| + 1]] + [next[|log| + 2]]
  {
  }

  /** The surface after a complete transaction. */
  lemma SummaryEffect(log: Log, next: Log, drop: set<nat>)
    requires Contiguous(next) && SummaryStep(log, next, drop)
    ensures Derive(next) == Splice(Derive(log), drop, FromEvent(next[|log| + 1]), true)
    ensures Committed(next) == Committed(log) + {|log| + 2}
  {
    SplitTail(log, next);
    TransactionIsAtomic(log, next[|log|], next[|log| + 1], next[|log| + 2]);
  }

  lemma CrashEffect(log: Log, next: Log)
    requires Contiguous(next) && (CrashStep(log, next) || ViolationStep(log, next))
    ensures Derive(next) == Derive(log) && Committed(next) == Committed(log)
  {
    SplitTail(log, next);
    DeriveSnoc(log, next[|log|]);
    if |next| == |log| + 2 {
      assert Contiguous(log + [next[|log|]]);
      DeriveSnoc(log + [next[|log|]], next[|log| + 1]);
    }
  }

  lemma TrimEffect(log: Log, next: Log, turn: nat)
    requires Contiguous(next) && TrimStep(log, next, turn)
    ensures var e := next[|log|];
      && Derive(next) == Splice(Derive(log), {e.sources[0]}, FromEvent(e), false)
      && Committed(next) == Committed(log)
      && forall m | m in Derive(log) && m.seqNo == e.sources[0] ::
           m.role.ToolRole? && m.calls == [] && m.callId == FromEvent(e).callId
  {
    SplitTail(log, next);
    DeriveSnoc(log, next[|log|]);
    assert Sources(next[|log|]) == {next[|log|].sources[0]};
    assert Contiguous(log) by { assert forall i | 0 <= i < |log| :: log[i] == next[i]; }
    DeriveFaithful(log);
  }

  /** No step of a compaction separates a call from its results: whatever the
      results behind every assistant message satisfied before, they satisfy after. */
  lemma StepKeepsPairs(log: Log, next: Log, turn: nat, ok: Answering)
    requires LogOk(next) && CompactStep(log, next, turn) && Paired(Derive(log), ok)
    ensures Paired(Derive(next), ok)
  {
    assert Contiguous(log) by { assert forall i | 0 <= i < |log| :: log[i] == next[i]; }
    DeriveFaithful(log);
    if TrimStep(log, next, turn) {
      TrimEffect(log, next, turn);
      TrimKeepsPairs(Derive(log), next[|log|].sources[0], FromEvent(next[|log|]), ok);
    } else if retain: nat :| SummaryStep(log, next, FoldSources(log, turn, retain)) {
      FoldIsSafe(log, turn, retain);
      SummaryEffect(log, next, FoldSources(log, turn, retain));
      SummaryKeepsPairs(Derive(log), FoldSources(log, turn, retain), FromEvent(next[|log| + 1]), ok);
    } else if q :| IsNewest(Committed(log), q) && SummaryStep(log, next, {q}) {
      RewriteIsSafe(log, q);
      SummaryEffect(log, next, {q});
      SummaryKeepsPairs(Derive(log), {q}, FromEvent(next[|log| + 1]), ok);
    } else {
      CrashEffect(log, next);
    }
  }

  /** A transaction that names the newest summary leaves exactly one on the surface. */
  lemma SummaryLeavesOne(log: Log, next: Log, drop: set<nat>)
    requires Contiguous(next) && OneSummary(log) && SummaryStep(log, next, drop)
    requires forall q | IsNewest(Committed(log), q) :: q in drop
    ensures OneSummary(next)
  {
    hide Derive, Committed;
    SummaryEffect(log, next, drop);
    assert Contiguous(log) by { assert forall i | 0 <= i < |log| :: log[i] == next[i]; }
    SpliceIff(Derive(log), drop, FromEvent(next[|log| + 1]), true);
    forall p | p in Committed(log)
      ensures p <= |log|
    {
      NewestIsSummary(log, p);
    }
    assert IsNewest(Committed(next), |log| + 2);
  }

  lemma TrimKeepsOne(log: Log, next: Log, turn: nat)
    requires Contiguous(next) && TrimStep(log, next, turn) && OneSummary(log)
    ensures OneSummary(next)
  {
    var e := next[|log|];
    TrimEffect(log, next, turn);
    assert Contiguous(log) by { assert forall i | 0 <= i < |log| :: log[i] == next[i]; }
    SpliceIff(Derive(log), {e.sources[0]}, FromEvent(e), false);
    forall q | IsNewest(Committed(next), q)
      ensures exists m :: m in Derive(next) && m.seqNo == q
    {
      var m :| m in Derive(log) && m.seqNo == q;
      SummaryIsUser(log, m);
      assert m in Derive(next);
    }
  }

  lemma StepKeepsOneSummary(log: Log, next: Log, turn: nat)
    requires LogOk(next) && CompactStep(log, next, turn) && OneSummary(log)
    ensures OneSummary(next)
  {
    if TrimStep(log, next, turn) {
      TrimKeepsOne(log, next, turn);
    } else if retain: nat :| SummaryStep(log, next, FoldSources(log, turn, retain)) {
      SummaryLeavesOne(log, next, FoldSources(log, turn, retain));
    } else if q :| IsNewest(Committed(log), q) && SummaryStep(log, next, {q}) {
      SummaryLeavesOne(log, next, {q});
    } else {
      CrashEffect(log, next);
    }
  }

  // ------------------------------------------------ the newest user message

  predicate Typed(m: Msg) {
    m.role.UserRole? && !m.source.Compaction?
  }

  /** User messages stand in the order in which they were logged. */
  ghost predicate UsersSorted(s: seq<Msg>) {
    forall i, j | 0 <= i < j < |s| && Typed(s[i]) && Typed(s[j]) :: s[i].seqNo < s[j].seqNo
  }

  lemma SortedCons(m: Msg, rest: seq<Msg>)
    ensures UsersSorted([m] + rest) <==>
            UsersSorted(rest) && (Typed(m) ==> forall x | x in rest && Typed(x) :: m.seqNo < x.seqNo)
  {
    var s := [m] + rest;
    assert forall i | 0 <= i < |rest| :: rest[i] == s[i + 1];
    assert forall i | 0 < i < |s| :: s[i] == rest[i - 1];
    if UsersSorted(s) && Typed(m) {
      forall x | x in rest && Typed(x)
        ensures m.seqNo < x.seqNo
      {
        var i :| 0 <= i < |rest| && rest[i] == x;
        assert s[0] == m && s[i + 1] == x;
      }
    }
  }

  lemma {:induction false} WithoutSorted(s: seq<Msg>, drop: set<nat>)
    requires UsersSorted(s)
    ensures UsersSorted(Without(s, drop))
  {
    if s != [] {
      assert s == [s[0]] + s[1..];
      SortedCons(s[0], s[1..]);
      WithoutSorted(s[1..], drop);
      WithoutIff(s[1..], drop);
      SortedCons(s[0], Without(s[1..], drop));
      assert [] + Without(s[1..], drop) == Without(s[1..], drop);
    }
  }

  lemma {:induction false} SpliceSorted(s: seq<Msg>, drop: set<nat>, m: Msg, atEnd: bool)
    requires UsersSorted(s) && !Typed(m)
    ensures UsersSorted(Splice(s, drop, m, atEnd))
  {
    if s != [] {
      assert s == [s[0]] + s[1..];
      SortedCons(s[0], s[1..]);
      if s[0].seqNo in drop {
        WithoutSorted(s[1..], drop);
        SortedCons(m, Without(s[1..], drop));
      } else {
        SpliceSorted(s[1..], drop, m, atEnd);
        SpliceIff(s[1..], drop, m, atEnd);
        SortedCons(s[0], Splice(s[1..], drop, m, atEnd));
      }
    }
  }

  lemma {:induction false} FoldSorted(log: Log, committed: set<nat>)
    requires Contiguous(log)
    ensures UsersSorted(Fold(log, committed))
  {
    if log != [] {
      var front, e := log[..|log| - 1], log[|log| - 1];
      FoldSorted(front, committed);
      FoldFaithful(front, committed);
      var s := Fold(front, committed);
      if e.body.CompactionSummary? || (e.body.ToolResult? && e.op == Replace) {
        SpliceSorted(s, Sources(e), FromEvent(e), true);
        SpliceSorted(s, Sources(e), FromEvent(e), false);
      } else if e.op == Append && OnSurface(e.body) {
        assert forall i | 0 <= i < |s| :: s[i] in s;
      }
    }
  }

  /** The newest real user message that may be of the turn. */
  ghost predicate NewestUser(s: seq<Msg>, turn: nat, turns: map<nat, nat>, m: Msg) {
    && m in s && RealUser(m, turn, turns)
    && forall x | x in s && RealUser(x, turn, turns) :: x.seqNo <= m.seqNo
  }

  lemma {:induction false} FlatOrder(us: seq<Unit>, i: nat, j: nat, a: Msg, b: Msg) returns (p: nat, q: nat)
    requires i < j < |us| && a in us[i] && b in us[j]
    ensures p < q < |Flat(us)| && Flat(us)[p] == a && Flat(us)[q] == b
  {
    if i == 0 {
      p := InFlat(us, i, a);
      q := InFlat(us, j, b);
    } else {
      p, q := FlatOrder(us[1..], i - 1, j - 1, a, b);
      p, q := p + |us[0]|, q + |us[0]|;
    }
  }

  lemma {:induction false} LastRealIs(us: seq<Unit>, n: nat, k: nat, turn: nat, turns: map<nat, nat>)
    requires k < n <= |us| && HasRealUser(us[k], turn, turns)
    ensures LastReal(us, n, turn, turns).Some?
    ensures var i := LastReal(us, n, turn, turns).value; k <= i < n && HasRealUser(us[i], turn, turns)
  {
    if k < n - 1 { LastRealIs(us, n - 1, k, turn, turns); }
  }

  lemma {:induction false} FindUnit(s: seq<Msg>, us: seq<Unit>, m: Msg) returns (k: nat)
    requires s == Flat(us) && m in s
    ensures k < |us| && m in us[k]
    decreases us
  {
    if m in us[0] {
      k := 0;
    } else {
      assert m in Flat(us[1..]);
      k := FindUnit(Flat(us[1..]), us[1..], m);
      k := k + 1;
    }
  }

  lemma LaterIsNewer(us: seq<Unit>, i: nat, j: nat, a: Msg, b: Msg)
    requires UsersSorted(Flat(us)) && i < j < |us| && a in us[i] && b in us[j] && Typed(a) && Typed(b)
    ensures a.seqNo < b.seqNo && b in Flat(us)
  {
    var p, q := FlatOrder(us, i, j, a, b);
  }

  lemma NoLaterUser(us: seq<Unit>, turn: nat, turns: map<nat, nat>, k: nat, i: nat, m: Msg)
    requires UsersSorted(Flat(us)) && NewestUser(Flat(us), turn, turns, m)
    requires k < i < |us| && m in us[k]
    ensures !HasRealUser(us[i], turn, turns)
  {
    if v :| 0 <= v < |us[i]| && RealUser(us[i][v], turn, turns) {
      LaterIsNewer(us, k, i, m, us[i][v]);
    }
  }

  lemma NewestUnit(s: seq<Msg>, turn: nat, turns: map<nat, nat>, us: seq<Unit>, m: Msg) returns (k: nat)
    requires s == Flat(us) && UsersSorted(s) && NewestUser(s, turn, turns, m)
    ensures k < |us| && m in us[k] && LastReal(us, |us|, turn, turns) == Some(k)
  {
    k := FindUnit(s, us, m);
    var w :| 0 <= w < |us[k]| && us[k][w] == m;
    assert HasRealUser(us[k], turn, turns);
    LastRealIs(us, |us|, k, turn, turns);
    var i := LastReal(us, |us|, turn, turns).value;
    if i > k { NoLaterUser(us, turn, turns, k, i, m); }
  }

  /** The newest real user message of the turn is never folded away. */
  lemma NewestUserKept(s: seq<Msg>, turn: nat, turns: map<nat, nat>, retain: nat, m: Msg)
    requires Distinct(s) && UsersSorted(s) && NewestUser(s, turn, turns, m)
    ensures m.seqNo !in SeqSet(Prefix(s, turn, turns, retain))
  {
    var us := UnitsOf(s);
    FlatUnits(s);
    var k := NewestUnit(s, turn, turns, us, m);
    forall x: Msg | x in Prefix(s, turn, turns, retain)
      ensures x.seqNo != m.seqNo
    {
      PickedIff(us, |us|, turn, turns, retain, false, x);
      var j :| 0 <= j < |us| && !IsKept(us, j, turn, turns, retain) && x in us[j];
      if x.seqNo == m.seqNo { OneUnit(us, j, k, x, m); }
    }
  }

  lemma TurnsExtend(log: Log, next: Log, q: nat)
    requires Contiguous(next) && |log| <= |next| && next[..|log|] == log && q <= |log|
    ensures q in Turns(next) <==> q in Turns(log)
    ensures q in Turns(log) ==> Turns(next)[q] == Turns(log)[q]
  {
    assert Contiguous(log) by { assert forall i | 0 <= i < |log| :: log[i] == next[i]; }
    TurnsAt(log, q);
    TurnsAt(next, q);
    if 1 <= q { assert log[q - 1] == next[q - 1]; }
  }

  /** Every step of a compaction in turn `turn` keeps the newest real user message
      of that turn on the surface, and it stays the newest. */
  lemma StepKeepsNewestUser(log: Log, next: Log, turn: nat, m: Msg)
    requires LogOk(next) && CompactStep(log, next, turn)
    requires NewestUser(Derive(log), turn, Turns(log), m)
    ensures NewestUser(Derive(next), turn, Turns(next), m)
  {
    assert Contiguous(log) by { assert forall i | 0 <= i < |log| :: log[i] == next[i]; }
    var s := Derive(log);
    DeriveFaithful(log);
    FoldSorted(log, Committed(log));
    forall x | x in s
      ensures RealUser(x, turn, Turns(next)) <==> RealUser(x, turn, Turns(log))
    {
      TurnsExtend(log, next, x.seqNo);
    }
    if TrimStep(log, next, turn) {
      TrimEffect(log, next, turn);
      SpliceIff(s, {next[|log|].sources[0]}, FromEvent(next[|log|]), false);
    } else if retain: nat :| SummaryStep(log, next, FoldSources(log, turn, retain)) {
      SummaryEffect(log, next, FoldSources(log, turn, retain));
      NewestUserKept(s, turn, Turns(log), retain, m);
      NotASummary(log, m);
      SpliceIff(s, FoldSources(log, turn, retain), FromEvent(next[|log| + 1]), true);
    } else if q :| IsNewest(Committed(log), q) && SummaryStep(log, next, {q}) {
      SummaryEffect(log, next, {q});
      NotASummary(log, m);
      SpliceIff(s, {q}, FromEvent(next[|log| + 1]), true);
    } else {
      CrashEffect(log, next);
    }
  }

  lemma NotASummary(log: Log, m: Msg)
    requires Contiguous(log) && m in Derive(log) && IsReal(m.source) && m.role.UserRole?
    ensures m.seqNo !in Committed(log)
  {
    DeriveFaithful(log);
    if m.seqNo in Committed(log) { NewestIsSummary(log, m.seqNo); }
  }
}
