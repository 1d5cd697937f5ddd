/** Theorems over every run of compactions, complete or cut short by crashes. */
module CompactRuns {
  import opened Schema
  import opened Events
  import opened Surface
  import opened SurfaceFacts
  import opened Units
  import opened Split
  import opened Compaction
  import opened Projections
  import Retry

  /** An append by anyone but the compactor. */
  ghost predicate OrdinaryStep(log: Log, next: Log) {
    && Appends(log, next, 1)
    && var e := next[|log|];
    && !IsBracket(e.body) && !e.body.CompactionSummary? && e.op != Replace
  }

  /** The logs that a sequence of steps goes through, each compaction step in the turn
      that `turnAt` gives. */
  ghost predicate CompactRun(run: seq<Log>, turnAt: nat -> nat) {
    && run != []
    && (forall i | 0 <= i < |run| :: LogOk(run[i]))
    && (forall i | 0 <= i < |run| - 1 :: CompactStep(run[i], run[i + 1], turnAt(i)))
  }

  ghost predicate MixedRun(run: seq<Log>, turnAt: nat -> nat) {
    && run != []
    && (forall i | 0 <= i < |run| :: LogOk(run[i]))
    && (forall i | 0 <= i < |run| - 1 :: CompactStep(run[i], run[i + 1], turnAt(i)) || OrdinaryStep(run[i], run[i + 1]))
  }

  function Always(turn: nat): nat -> nat {
    k => turn
  }

  lemma LongerRun(run: seq<Log>, turn: nat, next: Log)
    requires CompactRun(run, Always(turn)) && LogOk(next) && CompactStep(run[|run| - 1], next, turn)
    ensures CompactRun(run + [next], Always(turn))
  {
    var more := run + [next];
    assert forall i | 0 <= i < |run| :: more[i] == run[i];
  }

  /** What a compactor appends speaks to no other fold. */
  predicate Quiet(b: Body) {
    b.ToolResult? || b.CompactionStart? || b.CompactionSummary? || b.CompactionEnd? || b.Violation?
  }

  ghost predicate QuietExtension(log: Log, next: Log) {
    && |log| <= |next| && next[..|log|] == log
    && forall k | |log| <= k < |next| :: Quiet(next[k].body)
  }

  lemma StepIsQuiet(log: Log, next: Log, turn: nat)
    requires CompactStep(log, next, turn)
    ensures QuietExtension(log, next)
  {
  }

  /** Chat history, inbox, pending approvals and attempt counts are the same. */
  ghost predicate SameViews(log: Log, next: Log) {
    && Chat(next) == Chat(log)
    && Spliced(next) == Spliced(log) && Settled(next) == Settled(log)
    && Asked(next) == Asked(log) && Decided(next) == Decided(log)
    && forall turn, key :: Retry.Attempts(next, turn, key) == Retry.Attempts(log, turn, key)
  }

  lemma {:induction false} QuietKeepsViews(log: Log, next: Log)
    requires QuietExtension(log, next)
    ensures SameViews(log, next)
    decreases |next|
  {
    if |next| == |log| {
      assert next == log;
    } else {
      QuietKeepsViews(log, next[..|next| - 1]);
    }
  }

  lemma QuietTrans(a: Log, b: Log, c: Log)
    requires QuietExtension(a, b) && QuietExtension(b, c)
    ensures QuietExtension(a, c)
  {
    assert c[..|a|] == c[..|b|][..|a|];
    assert forall k | |a| <= k < |b| :: c[k] == b[k];
  }

  lemma {:induction false} RunIsQuiet(run: seq<Log>, turnAt: nat -> nat, i: nat)
    requires CompactRun(run, turnAt) && i < |run|
    ensures QuietExtension(run[0], run[i])
  {
    if i > 0 {
      RunIsQuiet(run, turnAt, i - 1);
      StepIsQuiet(run[i - 1], run[i], turnAt(i - 1));
      QuietTrans(run[0], run[i - 1], run[i]);
    }
  }

  /** Compaction only appends, and no other view of the log changes. */
  lemma RunKeepsViews(run: seq<Log>, turnAt: nat -> nat, i: nat)
    requires CompactRun(run, turnAt) && i < |run|
    ensures run[0] <= run[i]
    ensures Chat(run[i]) == Chat(run[0]) && Inbox(run[i]) == Inbox(run[0]) && Pending(run[i]) == Pending(run[0])
    ensures forall turn, key :: Retry.Attempts(run[i], turn, key) == Retry.Attempts(run[0], turn, key)
  {
    RunIsQuiet(run, turnAt, i);
    QuietKeepsViews(run[0], run[i]);
  }

  /** No run of compactions separates a tool call from its results. */
  lemma {:induction false} RunKeepsPairs(run: seq<Log>, turnAt: nat -> nat, i: nat, ok: Answering)
    requires CompactRun(run, turnAt) && i < |run| && Paired(Derive(run[0]), ok)
    ensures Paired(Derive(run[i]), ok)
  {
    if i > 0 {
      RunKeepsPairs(run, turnAt, i - 1, ok);
      StepKeepsPairs(run[i - 1], run[i], turnAt(i - 1), ok);
    }
  }

  /** ... in particular each assistant message keeps exactly its own results behind it. */
  lemma RunKeepsAnswers(run: seq<Log>, turnAt: nat -> nat, i: nat)
    requires CompactRun(run, turnAt) && i < |run|
    requires Paired(Derive(run[0]), (calls, ids) => AnsweredExactly(calls, ids))
    ensures Paired(Derive(run[i]), (calls, ids) => AnsweredExactly(calls, ids))
  {
    RunKeepsPairs(run, turnAt, i, (calls, ids) => AnsweredExactly(calls, ids));
  }

  /** The newest user message of the turn outlives every run of compactions in it. */
  lemma {:induction false} RunKeepsNewestUser(run: seq<Log>, turn: nat, i: nat, m: Msg)
    requires CompactRun(run, Always(turn)) && i < |run|
    requires NewestUser(Derive(run[0]), turn, Turns(run[0]), m)
    ensures NewestUser(Derive(run[i]), turn, Turns(run[i]), m)
  {
    if i > 0 {
      RunKeepsNewestUser(run, turn, i - 1, m);
      StepKeepsNewestUser(run[i - 1], run[i], turn, m);
    }
  }

  lemma OrdinaryKeepsOneSummary(log: Log, next: Log)
    requires LogOk(next) && OrdinaryStep(log, next) && OneSummary(log)
    ensures OneSummary(next)
  {
    var e := next[|log|];
    assert next == log + [e];
    DeriveSnoc(log, e);
    assert Derive(next) == Derive(log) || (OnSurface(e.body) && Derive(next) == Derive(log) + [FromEvent(e)]);
    assert next[|next| - 1] == e;
  }

  /** On every log that ordinary appends and compactions, crashes included, can produce, the
      surface shows exactly the newest committed summary and no other. */
  lemma {:induction false} OneSummaryAlways(run: seq<Log>, turnAt: nat -> nat, i: nat)
    requires MixedRun(run, turnAt) && run[0] == [] && i < |run|
    ensures OneSummary(run[i])
  {
    if i == 0 {
      assert Committed([]) == {};
    } else {
      OneSummaryAlways(run, turnAt, i - 1);
      if CompactStep(run[i - 1], run[i], turnAt(i - 1)) {
        StepKeepsOneSummary(run[i - 1], run[i], turnAt(i - 1));
      } else {
        OrdinaryKeepsOneSummary(run[i - 1], run[i]);
      }
    }
  }

  /** Hence, on such a log, there is exactly one summary message once any summary has
      been committed and none before. */
  lemma ExactlyOneSummary(log: Log)
    requires LogOk(log) && OneSummary(log)
    ensures Committed(log) == {} ==> forall m | m in Derive(log) :: !m.source.Compaction?
    ensures Committed(log) != {} ==>
              exists i :: 0 <= i < |Derive(log)| && Derive(log)[i].source.Compaction?
                          && forall j | 0 <= j < |Derive(log)| && Derive(log)[j].source.Compaction? :: j == i
  {
    DeriveFaithful(log);
    var s := Derive(log);
    if Committed(log) != {} {
      var q := Largest(Committed(log));
      var m :| m in s && m.seqNo == q;
      var i :| 0 <= i < |s| && s[i] == m;
      NewestIsSummary(log, q);
      assert s[i].source.Compaction?;
      forall j | 0 <= j < |s| && s[j].source.Compaction?
        ensures j == i
      {
        assert s[j] in s && IsNewest(Committed(log), s[j].seqNo);
        assert s[j].seqNo == s[i].seqNo;
      }
    }
  }

  lemma {:induction false} Largest(c: set<nat>) returns (q: nat)
    requires c != {}
    ensures IsNewest(c, q)
    decreases c
  {
    q :| q in c;
    if c != {q} {
      var p := Largest(c - {q});
      assert c == (c - {q}) + {q};
      if p > q { q := p; }
    }
  }
}
