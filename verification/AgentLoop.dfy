/** The agent of one session (`harness/agent/loop.py`, `harness/control/approval.py`). */
module AgentLoop {
  import opened Schema
  import opened Events
  import opened Surface
  import opened Compaction
  import opened CompactRuns
  import opened Projections
  import opened Protocol
  import opened Pairing
  import opened Runtime
  import opened Scheduler
  import opened History
  import opened Moves
  import opened Steps
  import opened StepFacts
  import Compact
  import Merge
  import ProtocolState
  import opened Repeats
  import Retry

  // ---------------------------------------------- compaction within a turn

  lemma StepIsNeutral(log: Log, next: Log, turn: nat)
    requires CompactStep(log, next, turn)
    ensures Extends(log, next) && forall k | |log| <= k < |next| :: Neutral(next[k]) && next[k].turn == Some(turn)
  {
  }

  lemma {:induction false} NeutralTail(log: Log, next: Log, turn: nat, step: nat, phase: Phase, answers: nat)
    requires In(log, turn, step, phase, answers) && !phase.Waiting? && !phase.Acting? && Extends(log, next)
    requires forall k | |log| <= k < |next| :: Neutral(next[k]) && next[k].turn == Some(turn)
    ensures In(next, turn, step, phase, answers) && Run(next) == Run(log)
    decreases |next|
  {
    hide Advance;
    if |next| == |log| {
      assert next == log;
    } else {
      var front := next[..|next| - 1];
      NeutralTail(log, front, turn, step, phase, answers);
      assert next == front + [next[|next| - 1]];
      StaysIn(front, next[|next| - 1], turn, step, phase, answers);
    }
  }

  lemma {:induction false} RunStaysIn(run: seq<Log>, i: nat, turn: nat, step: nat, phase: Phase, answers: nat)
    requires CompactRun(run, Always(turn)) && i < |run| && In(run[0], turn, step, phase, answers)
    requires !phase.Waiting? && !phase.Acting?
    ensures In(run[i], turn, step, phase, answers) && Run(run[i]) == Run(run[0]) && Extends(run[0], run[i])
  {
    hide Advance;
    if i > 0 {
      RunStaysIn(run, i - 1, turn, step, phase, answers);
      StepIsNeutral(run[i - 1], run[i], turn);
      NeutralTail(run[i - 1], run[i], turn, step, phase, answers);
      ExtendsTrans(run[0], run[i - 1], run[i]);
    }
  }

  lemma {:induction false} RunStaysIntact(run: seq<Log>, i: nat, turn: nat, step: nat, phase: Phase, answers: nat)
    requires CompactRun(run, Always(turn)) && i < |run| && In(run[0], turn, step, phase, answers) && Intact(run[0])
    requires !phase.Waiting? && !phase.Acting?
    ensures Intact(run[i])
  {
    hide Advance, Run, Intact;
    if i > 0 {
      RunStaysIntact(run, i - 1, turn, step, phase, answers);
      RunStaysIn(run, i - 1, turn, step, phase, answers);
      RunStaysIn(run, i, turn, step, phase, answers);
      StepStaysIntact(run[i - 1], run[i], turn);
    }
  }

  lemma CompactsHow(before: Log, after: Log, s: Settings, turn: nat, run: string, overflow: bool, outcome: Compact.Outcome,
                    way: Compact.Way)
    requires Extends(before, after)
    requires var job, limit := Compact.Job(turn, run, overflow, s.policy, true, true), s.policy.Limit(s.policy.triggerRatio);
      var meter := Compact.FullRequest(s.count); var target := Compact.Target(meter, limit, s.policy);
      && (Compact.Below(before, job, limit, meter) ==> after == before && outcome == Compact.Finished(false))
      && (!Compact.Below(before, job, limit, meter) ==>
            && Compact.Stages(before, way.trims, way.folded, way.reduced, job, meter, target, s.delta(before), s.shorter(before),
                              s.project, s.idOf)
            && Compact.Concluded(before, way.reduced, after, outcome, job, meter, target))
    ensures Compacts(before, after, s, turn, run, overflow, outcome.Finished?)
  {
    hide Compact.Stages, Compact.IsProtected, Derive;
    if !(s.count(Derive(before)) < s.policy.Limit(s.policy.triggerRatio) && !overflow) {
      assert CompactsBy(before, after, way, s, turn, run, overflow, outcome.Finished?);
    }
  }

  /** `maybe_compact` as the loop calls it; false when the budget cannot be met. */
  method CompactNow(store: SessionStore, w: World, s: Settings, turn: nat, run: string, overflow: bool,
                    ghost step: nat, ghost phase: Phase)
    returns (ok: bool)
    requires store.Valid() && Intact(store.events) && In(store.events, turn, step, phase, 0)
    requires !phase.Waiting? && !phase.Acting?
    modifies store
    ensures store.Valid() && Intact(store.events) && In(store.events, turn, step, phase, 0)
    ensures Extends(old(store.events), store.events) && Run(store.events) == Run(old(store.events))
    ensures Compacts(old(store.events), store.events, s, turn, run, overflow, ok)
  {
    hide Intact, Advance, Compact.Stages, Compact.Concluded, Compact.Below, Compact.Measure, Compacts, Compact.Target;
    ghost var before := store.events;
    IntactIsOk(store.events);
    var job := Compact.Job(turn, run, overflow, s.policy, true, true);
    var outcome;
    ghost var steps, way;
    outcome, steps, way := Compact.MaybeCompact(store, job, s.policy.Limit(s.policy.triggerRatio), Compact.FullRequest(s.count),
                                           s.delta(store.events), s.shorter(store.events), s.project, s.idOf, w.eventId);
    RunStaysIn(steps, |steps| - 1, turn, step, phase, 0);
    RunStaysIntact(steps, |steps| - 1, turn, step, phase, 0);
    CompactsHow(before, store.events, s, turn, run, overflow, outcome, way);
    ok := outcome.Finished?;
  }

  // ------------------------------------------------------------- assumptions

  /** What is assumed of the surroundings: new ids are new, an injected text is not blank. */
  ghost predicate Sound(w: World) {
    && FreshIds(w)
    && forall log: Log | w.decide(log).InjectText? && w.decide(log).text != "" :: !IsBlank(w.decide(log).text)
  }

  /** The runs so far are bounded, licensed and passed by the retry policy, on this log. */
  ghost predicate Orderly(ran: seq<Ran>, log: Log, w: World) {
    Bounded(ran, log) && Licensed(ran, log, w) && Fair(ran, log, w.infer)
  }

  lemma OrderlyExtends(ran: seq<Ran>, before: Log, after: Log, w: World)
    requires Orderly(ran, before, w) && Extends(before, after)
    ensures Orderly(ran, after, w)
  {
    BoundedExtends(ran, before, after);
    LicensedExtends(ran, before, after, w);
    FairExtends(ran, before, after, w.infer);
  }

  /** The place of a running agent. */
  ghost predicate Within(log: Log, ran: seq<Ran>, w: World, turn: nat, step: nat, phase: Phase, answers: nat) {
    In(log, turn, step, phase, answers) && Orderly(ran, log, w)
  }

  /** The place of an agent that awaits an approval: the run to come is counted already. */
  ghost predicate Paused(log: Log, ran: seq<Ran>, w: World, turn: nat, step: nat) {
    && Run(log).Some? && Run(log).value.phase.Waiting?
    && Run(log).value.turn == turn && Run(log).value.step == step
    && Bounded(ran + ToCome(log), log) && Licensed(ran, log, w) && Fair(ran, log, w.infer) && Waits(log, w.infer)
  }

  /** How a step, or a whole series of steps, leaves the log. */
  ghost predicate Leaves(log: Log, ran: seq<Ran>, w: World, turn: nat, step: nat, stop: Option<Reason>, published: Option<string>) {
    if stop.None? then Within(log, ran, w, turn, step, Between, 0) && published.None?
    else if stop.value.WaitingApproval? then Paused(log, ran, w, turn, step)
    else Within(log, ran, w, turn, step, Between, if stop.value.Completed? then 1 else 0)
  }

  predicate EndsWith(log: Log, asked: Ask) {
    log != [] && log[|log| - 1].body == ApprovalAsked(asked.approvalId, asked.call)
  }

  /** What the agent itself remembers of how a step ended: the answer exactly when the turn
      is completed, and the question that the log ends with exactly when it waits. */
  ghost predicate Told(stop: Option<Reason>, published: Option<string>, waiting: Option<Ask>, log: Log) {
    && (published.Some? <==> stop == Some(Completed))
    && (stop == Some(WaitingApproval) ==> waiting.Some? && EndsWith(log, waiting.value))
  }

  // ------------------------------------------------------------ carrying out

  lemma BatchDone(before: Log, after: Log, ran: seq<Ran>, w: World, b: Batch, counts: map<string, nat>,
                  called: set<string>, results: seq<ToolAnswer>, more: seq<Call>)
    requires Orderly(ran, before, w) && Accepted(before) && Extends(before, after)
    requires Vetted(b, w, before, counts) && DistinctCalls(b.calls)
    requires Run(before).value.called == called && IdsOf(b.calls) !! called
    requires InOrder(after, w, b, called, results, more) && forall c | c in more :: !NeedsApproval(w, c)
    ensures Orderly(ran + AsRuns(more, b.turn, |before|), after, w)
  {
    hide Advance;
    RanWereCalled(after, w, b, results, more);
    BatchBounded(ran, before, after, w, b, counts, more);
    BatchLicensed(ran, before, after, w, b.turn, |before|, more);
    BatchFair(ran, before, after, w, b, counts, more);
  }

  lemma EnterBatch(log: Log, turn: nat, step: nat, run: string, calls: seq<Call>)
    requires In(log, turn, step, Acting(calls), 0)
    ensures InBatch(log, Batch(calls, turn, step, run, {}, map[]), {}, Run(log).value.called)
  {
    hide Advance;
  }

  lemma LeaveBatch(log: Log, w: World, b: Batch, called: set<string>, results: seq<ToolAnswer>, more: seq<Call>)
    requires InOrder(log, w, b, called, results, more)
    ensures In(log, b.turn, b.step, Acting(b.calls), 0) && |results| <= |b.calls|
  {
    hide Advance;
  }

  lemma RanWereCalled(log: Log, w: World, b: Batch, results: seq<ToolAnswer>, more: seq<Call>)
    requires |results| <= |b.calls| && Kept(log, w, b, results, more) && DistinctCalls(b.calls)
    ensures DistinctIds(more)
    ensures forall c | c in more :: c in b.calls && Allowed(b, c) && WasCalled(log, b.turn, c)
  {
    forall c | c in more
      ensures WasCalled(log, b.turn, c)
    {
      var i := CallAt(b.calls, |results|, c);
      ServedFacts(log, w, b, b.calls[i], results[i], b.calls[i] in more);
    }
  }

  lemma CallAt(calls: seq<Call>, n: nat, c: Call) returns (i: nat)
    requires DistinctCalls(calls) && n <= |calls| && c in calls && c.id in IdsOf(calls[..n])
    ensures i < n && calls[i] == c
  {
    i :| 0 <= i < n && calls[..n][i].id == c.id;
    var j :| 0 <= j < |calls| && calls[j] == c;
    assert calls[..n][i] == calls[i];
    assert i == j;
  }

  /** Asking for an approval counts as a run already. */
  lemma AskDone(before: Log, after: Log, ran: seq<Ran>, w: World, b: Batch, counts: map<string, nat>, called: set<string>,
                approvalId: string, asked: nat)
    requires Orderly(ran, before, w) && Accepted(before) && Extends(before, after)
    requires Vetted(b, w, before, counts) && DistinctCalls(b.calls)
    requires before != [] && before[|before| - 1].body.AssistantMessage?
    requires Run(before).value.called == called && IdsOf(b.calls) !! called
    requires IsFirstToAsk(w, b, asked) && AllPutOff(after, w, b, |b.calls|, asked) && PutOffOnly(after, w, b, |before|, asked)
    requires Asks(after, b, called, approvalId, b.calls[asked])
    ensures Paused(after, ran, w, b.turn, b.step)
  {
    hide Advance, Run, Bounded, Licensed, Fair, Waits, Vetted, PutOffOnly, AllPutOff, LastAnswer;
    var c := b.calls[asked];
    AskedWasCalled(after, w, b, asked);
    AsksTurn(after, b, called, approvalId, c);
    AskedWaits(before, after, w, b, counts, asked);
    BatchBounded(ran, before, after, w, b, counts, [c]);
    LicensedExtends(ran, before, after, w);
    FairExtends(ran, before, after, w.infer);
    OneRun(c, b.turn, |before|);
  }

  lemma AsksTurn(log: Log, b: Batch, called: set<string>, approvalId: string, c: Call)
    requires Asks(log, b, called, approvalId, c)
    ensures Accepted(log) && log != [] && log[|log| - 1].body.ApprovalAsked? && log[|log| - 1].body.call == c
    ensures Here(Run(log).value, log[|log| - 1]) && Run(log).value.turn == b.turn && Run(log).value.step == b.step
    ensures ToCome(log) == [Ran(b.turn, c, None, LastAnswer(log))]
  {
    hide Advance, LastAnswer;
    assert log[..|log|] == log;
    WaitingIsFresh(log, |log|);
  }

  /** The batch was cut short: some of the calls were never called. */
  ghost predicate Cut(log: Log, calls: seq<Call>)
    requires Accepted(log)
  {
    !(IdsOf(calls) <= Run(log).value.called)
  }

  /** The batch was cut short if and only if its calls went one after the other and the run
      was cancelled right behind a result that was not the last. */
  ghost predicate CutIffSeen(log: Log, w: World, calls: seq<Call>, stop: Option<Reason>) {
    && Accepted(log)
    && (Cut(log, calls) <==> stop != Some(WaitingApproval) && !SideBySide(w, calls) && FlagSeen(log, w, calls))
  }

  /** What follows a batch without calling anything leaves the flags as they were seen. */
  lemma FlagStays(before: Log, after: Log, w: World, calls: seq<Call>)
    requires Accepted(before) && Accepted(after) && Extends(before, after) && Run(before).value.pending == {}
    requires Run(after).value.called == Run(before).value.called
    ensures FlagSeen(after, w, calls) <==> FlagSeen(before, w, calls)
    ensures Cut(after, calls) <==> Cut(before, calls)
  {
    hide Run, IdsOf;
    assert after[..|after|] == after && after[..|before|] == before;
    if k: nat, n: nat :| k + 1 < |calls| && AnsweredAt(before, n, calls[k]) && w.aborted(before[..n], "") {
      assert after[..n] == before[..n] && AnsweredAt(after, n, calls[k]);
    }
    if k: nat, n: nat :| k + 1 < |calls| && AnsweredAt(after, n, calls[k]) && w.aborted(after[..n], "") {
      NoLateAnswer(before, after, n, calls[k]);
      assert after[..n] == before[..n] && AnsweredAt(before, n, calls[k]);
    }
  }

  lemma NoLateAnswer(before: Log, after: Log, n: nat, c: Call)
    requires Accepted(before) && Accepted(after) && Extends(before, after) && Run(before).value.pending == {}
    requires Run(after).value.called == Run(before).value.called && AnsweredAt(after, n, c)
    ensures n <= |before|
  {
    hide Run;
    assert after[..|after|] == after && after[..|before|] == before;
    if n > |before| {
      AnsweredWasCalled(after, n, c);
      StaysClosed(after, |before|, n - 1, c.id);
      NextPending(after, n - 1, c.id);
    }
  }

  lemma NothingToCut(log: Log, w: World, stop: Option<Reason>)
    requires Accepted(log)
    ensures CutIffSeen(log, w, [], stop)
  {
  }

  lemma SameExtends(log: Log)
    ensures Extends(log, log)
  {
  }

  /** The question, as what became of the model's calls. */
  lemma AskCarriedOut(before: Log, after: Log, w: World, b: Batch, counts: map<string, nat>, asked: nat, approvalId: string)
    requires before != [] && Extends(before, after) && Vetted(b, w, before, counts)
    requires IsFirstToAsk(w, b, asked) && OthersTold(after, w, b, asked)
    requires after != [] && after[|after| - 1].body == ApprovalAsked(w.approvalId(after[..|after| - 1]), b.calls[asked])
    ensures CarriedOut(after, |before| - 1, w, b.turn, b.calls, Some(WaitingApproval))
  {
    hide Vetted, IsFirstToAsk, OthersTold;
    assert QuestionAsked(after, w, b, asked);
    assert CarriedOutBy(after, |before| - 1, w, b.turn, b.calls, b, counts, Some(WaitingApproval));
  }

  lemma BatchCarriedOut(before: Log, mid: Log, after: Log, w: World, b: Batch, counts: map<string, nat>, called: set<string>,
                        results: seq<ToolAnswer>, more: seq<Call>, shown: Option<string>, stop: Option<Reason>)
    requires before != [] && Extends(before, mid) && Extends(mid, after) && Vetted(b, w, before, counts)
    requires InOrder(mid, w, b, called, results, more) && Finishes(mid, after, w, b.calls, results, shown)
    requires stop == if shown.Some? then Some(Completed) else None
    ensures CarriedOut(after, |before| - 1, w, b.turn, b.calls, stop)
  {
    hide Vetted, Finishes, InBatch, AnsweredUpTo;
    ExtendsTrans(before, mid, after);
    assert after[..|mid|] == mid && BatchServed(after, |mid|, w, b, results, more, stop);
    assert CarriedOutBy(after, |before| - 1, w, b.turn, b.calls, b, counts, stop);
  }

  lemma StepIsDone(one: Log, two: Log, after: Log, i: nat, w: World, s: Settings, turn: nat, run: string, step: nat,
                   retries: nat, left: nat, stop: Option<Reason>, reply: Option<Reply>)
    requires Extends(two, after) && Readied(one, two, i, s, turn, run, step, reply.Some?)
    requires reply.None? ==> i == |two| && GivesUp(after, |two|, retries, left, stop)
    requires reply.Some? ==>
               && Requested(one, two, i, |two|, w, s) && reply.value == w.reply(two)
               && Replied(after, |two|, w, s, turn, run, retries, left, stop)
    ensures StepDone(one, after, w, s, turn, run, step, retries, left, stop)
  {
    hide Readied, Requested, Replied, GivesUp;
    ReadiedMore(one, two, after, i, s, turn, run, step, reply.Some?);
    if reply.Some? { RequestedMore(one, two, after, i, |two|, w, s); }
  }

  lemma AskedNotCut(log: Log, w: World, b: Batch, called: set<string>, approvalId: string, c: Call)
    requires Asks(log, b, called, approvalId, c)
    ensures CutIffSeen(log, w, b.calls, Some(WaitingApproval))
  {
  }

  lemma CutWhen(log: Log, w: World, b: Batch, called: set<string>, results: seq<ToolAnswer>, more: seq<Call>)
    requires InOrder(log, w, b, called, results, more) && DistinctCalls(b.calls) && IdsOf(b.calls) !! called
    ensures Accepted(log) && (Cut(log, b.calls) <==> |results| < |b.calls|)
  {
    hide Run, Kept;
    NotAmong(b.calls, |results|);
    if |results| == |b.calls| {
      assert b.calls[..|results|] == b.calls;
    } else {
      assert b.calls[|results|].id in IdsOf(b.calls) - Run(log).value.called;
    }
  }

  lemma AsksLast(log: Log, b: Batch, called: set<string>, approvalId: string, c: Call)
    requires Asks(log, b, called, approvalId, c)
    ensures EndsWith(log, Ask(approvalId, c))
  {
  }

  lemma AskedWasCalled(log: Log, w: World, b: Batch, asked: nat)
    requires IsFirstToAsk(w, b, asked) && AllPutOff(log, w, b, |b.calls|, asked)
    ensures WasCalled(log, b.turn, b.calls[asked]) && b.calls[asked] in b.calls && Allowed(b, b.calls[asked])
  {
    assert PutOff(log, w, b, asked, asked);
  }

  lemma OneRun(c: Call, turn: nat, vetted: nat)
    ensures AsRuns([c], turn, vetted) == [Ran(turn, c, None, vetted)]
  {
    assert AsRuns([c][..0], turn, vetted) == [];
  }

  // -------------------------------------------------------------- approvals

  lemma {:induction false} InTurnSame(a: seq<Ran>, b: seq<Ran>, turn: nat)
    requires |a| == |b| && forall i | 0 <= i < |a| :: a[i].turn == b[i].turn && a[i].call == b[i].call
    ensures InTurn(a, turn) == InTurn(b, turn)
  {
    if a != [] { InTurnSame(a[..|a| - 1], b[..|b| - 1], turn); }
  }

  /** How a run was licensed has no part in the bound. */
  lemma BoundedSame(ran: seq<Ran>, turn: nat, c: Call, approval: Option<string>, vetted: nat, log: Log)
    requires Bounded(ran + [Ran(turn, c, None, vetted)], log)
    ensures Bounded(ran + [Ran(turn, c, approval, vetted)], log)
  {
    var a, b := ran + [Ran(turn, c, None, vetted)], ran + [Ran(turn, c, approval, vetted)];
    assert forall i | 0 <= i < |a| :: a[i].turn == b[i].turn && a[i].call == b[i].call;
    forall t, key
      ensures Count(InTurn(b, t), key) <= Retry.MAX_ATTEMPTS
    {
      InTurnSame(a, b, t);
      assert Count(InTurn(a, t), key) <= Retry.MAX_ATTEMPTS;
    }
    forall r | r in b
      ensures WasCalled(log, r.turn, r.call)
    {
      var i :| 0 <= i < |b| && b[i] == r;
      assert a[i] in a;
    }
  }

  lemma BoundedFront(ran: seq<Ran>, r: Ran, log: Log)
    requires Bounded(ran + [r], log)
    ensures Bounded(ran, log)
  {
    var all := ran + [r];
    forall t, key
      ensures Count(InTurn(ran, t), key) <= Retry.MAX_ATTEMPTS
    {
      InTurnAppend(ran, [r], t);
      CountAppend(InTurn(ran, t), InTurn([r], t), key);
      assert Count(InTurn(all, t), key) <= Retry.MAX_ATTEMPTS;
    }
    assert forall i | 0 <= i < |ran| :: all[i] == ran[i];
    assert forall x | x in ran :: x in all;
  }

  /** An approval that is being asked was never allowed before. */
  lemma NotAllowedYet(log: Log, id: string)
    requires Accepted(log) && log != [] && log[|log| - 1].body.ApprovalAsked? && log[|log| - 1].body.approvalId == id
    ensures !WasAllowed(log, id)
  {
    if WasAllowed(log, id) {
      var e :| e in log && e.body == ApprovalDecided(id, "allow");
      var i :| 0 <= i < |log| && log[i] == e;
      DecidedRightAfterAsked(log, i);
      AskedOnce(log, i - 1, |log| - 1);
    }
  }

  /** The tool of an approval that is now allowed may run, once. */
  lemma AllowedRun(before: Log, e: Event, ran: seq<Ran>, w: World, turn: nat, step: nat, id: string, c: Call)
    requires Paused(before, ran, w, turn, step) && e.body == ApprovalDecided(id, "allow")
    requires before != [] && before[|before| - 1].body == ApprovalAsked(id, c)
    ensures Orderly(ran + [Ran(turn, c, Some(id), LastAnswer(before))], before + [e], w)
  {
    hide Advance, Run, Bounded, Licensed, Waits, Fair, LastAnswer;
    var r, after := Ran(turn, c, Some(id), LastAnswer(before)), before + [e];
    NowAllowed(before, e, id);
    PausedToCome(before, ran, w, turn, step);
    BoundedSame(ran, turn, c, Some(id), LastAnswer(before), before);
    BoundedExtends(ran + [r], before, after);
    NotAllowedYet(before, id);
    assert before[|before| - 1] in before;
    StillAskedFor(before, after, id, c);
    LicensedMore(ran, before, after, w, r);
    FairMore(ran, before, e, w, turn, id, c);
  }

  lemma PausedToCome(log: Log, ran: seq<Ran>, w: World, turn: nat, step: nat)
    requires Paused(log, ran, w, turn, step)
    ensures Accepted(log) && log != [] && log[|log| - 1].body.ApprovalAsked?
    ensures ToCome(log) == [Ran(turn, log[|log| - 1].body.call, None, LastAnswer(log))]
  {
    assert log[..|log|] == log;
    WaitingIsFresh(log, |log|);
  }

  lemma FairMore(ran: seq<Ran>, before: Log, e: Event, w: World, turn: nat, id: string, c: Call)
    requires Fair(ran, before, w.infer) && Waits(before, w.infer) && e.body == ApprovalDecided(id, "allow")
    requires ToCome(before) == [Ran(turn, c, None, LastAnswer(before))]
    ensures Fair(ran + [Ran(turn, c, Some(id), LastAnswer(before))], before + [e], w.infer)
  {
    hide RepeatsAt, Retry.Refused, ToCome, LastAnswer;
    var r, after := Ran(turn, c, Some(id), LastAnswer(before)), before + [e];
    var asked := Ran(turn, c, None, LastAnswer(before));
    assert asked in ToCome(before);
    FairExtends(ran, before, after, w.infer);
    VettableExtends(asked, before, after, w.infer);
    UnprovokedExtends(asked, before, after, |before|, w.infer);
    assert AllowedAt(r, after, |before|) && Unprovoked(r, after, |before|, w.infer);
  }

  lemma LicensedMore(ran: seq<Ran>, before: Log, after: Log, w: World, r: Ran)
    requires Licensed(ran, before, w) && Extends(before, after)
    requires r.approval.Some? && WasAllowed(after, r.approval.value) && !WasAllowed(before, r.approval.value)
    requires WasAskedFor(after, r.approval.value, r.call)
    ensures Licensed(ran + [r], after, w)
  {
    LicensedExtends(ran, before, after, w);
    forall i | 0 <= i < |ran|
      ensures ran[i].approval != r.approval
    {
      assert ran[i] in ran;
    }
  }

  lemma NotRun(before: Log, after: Log, ran: seq<Ran>, w: World, turn: nat, step: nat)
    requires Paused(before, ran, w, turn, step) && Extends(before, after)
    ensures Orderly(ran, after, w)
  {
    hide Advance, Run, Bounded, Licensed, Fair, Waits;
    PausedToCome(before, ran, w, turn, step);
    BoundedFront(ran, ToCome(before)[0], before);
    OrderlyExtends(ran, before, after, w);
  }

  /** The decision, then the result: the asked call is the one that is closed. */
  lemma DecidedIn(log: Log, e: Event, turn: nat, step: nat, id: string, c: Call, decision: string)
    requires Run(log).Some? && log != [] && log[|log| - 1].body == ApprovalAsked(id, c)
    requires Run(log).value.phase.Waiting? && Run(log).value.turn == turn && Run(log).value.step == step
    requires e.turn == Some(turn) && e.step == Some(step) && e.body == ApprovalDecided(id, decision)
    ensures InResume(log + [e], turn, step, c) && Extends(log, log + [e])
  {
    assert log[..|log|] == log;
    WaitingIsFresh(log, |log|);
    AlwaysSane(log, |log|);
    LongerLog(log, e);
  }

  lemma LongerLog(log: Log, e: Event)
    ensures Run(log + [e]) == if Run(log).None? then None else Advance(Run(log).value, e)
  {
    RunSnoc(log, e);
  }

  ghost predicate InResume(log: Log, turn: nat, step: nat, c: Call) {
    && Run(log).Some?
    && var a := Run(log).value;
    && a.turn == turn && a.step == step && a.phase == Acting([]) && a.answers == 0 && a.pending == {c.id}
  }

  // ------------------------------------------------------------------ at rest

  /** What is owed to a pending approval. */
  function Owed(log: Log): seq<Ran> {
    if Accepted(log) && Run(log).value.phase.Waiting? then ToCome(log) else []
  }

  /** The state between two calls of the agent. */
  ghost predicate Resting(log: Log, ran: seq<Ran>, w: World) {
    && Accepted(log) && AtRest(Run(log).value)
    && Licensed(ran, log, w) && Bounded(ran + Owed(log), log) && Fair(ran, log, w.infer)
    && (Run(log).value.phase.Waiting? ==> Waits(log, w.infer))
  }

  /** The last positive turn, step and the last run id of a log. */
  function LastTurn(log: Log): Option<nat> {
    if log == [] then None
    else if log[|log| - 1].turn.Some? && log[|log| - 1].turn.value > 0 then log[|log| - 1].turn
    else LastTurn(log[..|log| - 1])
  }

  function LastStep(log: Log): Option<nat> {
    if log == [] then None
    else if log[|log| - 1].step.Some? && log[|log| - 1].step.value > 0 then log[|log| - 1].step
    else LastStep(log[..|log| - 1])
  }

  function LastRun(log: Log): Option<string> {
    if log == [] then None
    else if log[|log| - 1].run.Some? && log[|log| - 1].run.value != "" then log[|log| - 1].run
    else LastRun(log[..|log| - 1])
  }

  /** The tool of an allowed approval runs once more, that of a denied one does not. */
  function AfterDecision(ran: seq<Ran>, w: World, log: Log, turn: nat, asked: Ask, decision: string): seq<Ran> {
    if decision == "allow" && w.resolve(asked.call.name).Some?
    then ran + [Ran(turn, asked.call, Some(asked.approvalId), LastAnswer(log))] else ran
  }

  /** First the decision, then the todo list if the tool wrote one, last the result. */
  predicate Concludes(before: Log, after: Log, asked: Ask, decision: string, r: ToolAnswer) {
    && |after| == |before| + (if r.todos.Some? then 3 else 2)
    && after[|before|].body == ApprovalDecided(asked.approvalId, decision)
    && (r.todos.Some? ==> after[|before| + 1].body == TodoWrite(r.todos.value))
    && IsResultOf(after[|after| - 1].body, asked.call, r)
  }

  /** What the asked call is answered: what the tool returns right behind the decision, or
      that the tool is unknown, or that it was denied. */
  ghost predicate AnswersDecision(w: World, decided: Log, asked: Ask, decision: string, r: ToolAnswer) {
    if decision == "allow" && w.resolve(asked.call.name).Some? then r == w.answer(decided, asked.call)
    else
      && !r.ok && r.todos.None? && r.contexts == [] && r.content == r.shown
      && if decision == "allow" then IsError(w, asked.call, r) && r.error == "unknown_tool"
         else r.error == "denied" && r.errorClass == "" && r.content == w.errorText("denied", "")
  }

  /** The turn goes on behind step `last`, and ends unless it pauses. */
  ghost predicate TurnGoesOn(before: Log, after: Log, w: World, s: Settings, turn: nat, run: string, last: nat, reason: Reason) {
    if reason.WaitingApproval? then Stepped(before, after, w, s, turn, run, last, reason)
    else
      && after != [] && after[|after| - 1].body == TurnEnd(reason)
      && Stepped(before, after[..|after| - 1], w, s, turn, run, last, reason)
  }

  /** A whole turn: its opening, the messages of the inbox, its steps. */
  ghost predicate Prompted(before: Log, after: Log, w: World, s: Settings, text: string, source: Source, reason: Reason) {
    exists n: nat :: PromptedAt(before, after, n, w, s, text, source, reason)
  }

  ghost predicate PromptedAt(before: Log, after: Log, n: nat, w: World, s: Settings, text: string, source: Source, reason: Reason) {
    var turn := MaxTurn(before) + 1;
    && Extends(before, after) && |before| + 2 <= n <= |after| && Opens(after, |before|, turn, text, source)
    && Adds(after[..|before| + 2], after[..n], Claims(Inbox(before)))
    && TurnGoesOn(after[..n], after, w, s, turn, w.newRun(before), 0, reason)
  }

  /** The rest of a paused turn: decision and result, the texts of an allowed skill, the end
      of the step, and the steps that follow. */
  ghost predicate Resumed(before: Log, after: Log, w: World, s: Settings, asked: Ask, decision: string, reason: Reason) {
    exists n: nat, m: nat, r :: ResumedAt(before, after, n, m, r, w, s, asked, decision, reason)
  }

  ghost predicate ResumedAt(before: Log, after: Log, n: nat, m: nat, r: ToolAnswer, w: World, s: Settings, asked: Ask,
                            decision: string, reason: Reason)
  {
    && Extends(before, after) && |before| < n <= m <= |after|
    && LastTurn(before).Some? && LastStep(before).Some?
    && Concludes(before, after[..n], asked, decision, r) && AnswersDecision(w, after[..|before| + 1], asked, decision, r)
    && Adds(after[..n], after[..m], Messages(AddedTexts(asked, decision, r), Skill) + [StepEnd("")])
    && TurnGoesOn(after[..m], after, w, s, LastTurn(before).value, RunOf(w, before), LastStep(before).value, reason)
  }

  function AddedTexts(asked: Ask, decision: string, r: ToolAnswer): seq<string> {
    if decision == "allow" && asked.call.name == "skill" && r.ok then r.contexts else []
  }

  /** The run that a resumption goes on with. */
  function RunOf(w: World, log: Log): string {
    if LastRun(log).Some? then LastRun(log).value else w.newRun(log)
  }

  predicate Decides(before: Log, after: Log, approvalId: string, decision: string) {
    |after| > |before| && after[|before|].body == ApprovalDecided(approvalId, decision)
  }

  /** A turn that does not pause ends, with its reason. */
  predicate Ends(log: Log, reason: Reason) {
    !reason.WaitingApproval? ==> log != [] && log[|log| - 1].body == TurnEnd(reason)
  }

  /** Whatever was called was offered. */
  lemma OfferedFirst(log: Log)
    requires Accepted(log)
    ensures Run(log).value.called <= Run(log).value.offered
  {
    assert log[..|log|] == log;
    AlwaysSane(log, |log|);
  }

  lemma IdleRests(log: Log, ran: seq<Ran>, w: World)
    requires Resting(log, ran, w)
    ensures Accepted(log)
  {
  }

  /** Between turns nothing is owed. */
  lemma RestIsOrderly(log: Log, after: Log, ran: seq<Ran>, w: World)
    requires Resting(log, ran, w) && Run(log).value.phase.Idle? && Extends(log, after)
    ensures Orderly(ran, after, w)
  {
    hide Advance, Run, Bounded, Licensed, Fair, Waits;
    assert ran + [] == ran;
    OrderlyExtends(ran, log, after, w);
  }

  lemma MessageRests(log: Log, e: Event, ran: seq<Ran>, w: World)
    requires Resting(log, ran, w) && Run(log).value.phase.Idle? && e.body.UserMessage?
    requires e.turn == Some(if Run(log).value.turn == 0 then 1 else Run(log).value.turn)
    ensures Resting(log + [e], ran, w) && Extends(log, log + [e])
  {
    hide Bounded, Licensed;
    assert log[..|log|] == log;
    AlwaysSane(log, |log|);
    LongerLog(log, e);
    RestIsOrderly(log, log + [e], ran, w);
    assert ran + [] == ran;
  }

  lemma OpensExtends(log: Log, mid: Log, after: Log, n: nat, turn: nat, text: string, source: Source)
    requires Opens(log, n, turn, text, source) && Extends(log, mid) && Extends(mid, after)
    ensures Opens(after, n, turn, text, source)
  {
    assert after[n] == log[n] && after[n + 1] == log[n + 1];
  }

  lemma DecidesExtends(before: Log, log: Log, after: Log, approvalId: string, decision: string)
    requires Decides(before, log, approvalId, decision) && Extends(log, after)
    ensures Decides(before, after, approvalId, decision)
  {
    assert after[|before|] == log[|before|];
  }

  // ----------------------------------------------------------------- the agent

  class Agent {
    const store: SessionStore
    const world: World
    const settings: Settings
    var published: Option<string>
    var waiting: Option<Ask>
    ghost var ran: seq<Ran>

    /** A handle on a session; `history` is what earlier handles ran. */
    constructor (store: SessionStore, world: World, settings: Settings, ghost history: seq<Ran>)
      requires store.Valid() && Intact(store.events) && Sound(world) && Resting(store.events, history, world)
      ensures this.store == store && this.world == world && this.settings == settings && ran == history
      ensures published == None && waiting == None && Valid()
    {
      hide Intact;
      this.store, this.world, this.settings := store, world, settings;
      published, waiting, ran := None, None, history;
    }

    /** The skills among the calls that succeeded add their texts. */
    method InjectSkills(calls: seq<Call>, results: seq<ToolAnswer>, turn: nat, run: string, ghost step: nat)
      requires store.Valid() && Intact(store.events) && Closing(store.events, turn, step, 0) && |results| <= |calls|
      modifies store
      ensures store.Valid() && Intact(store.events) && Closing(store.events, turn, step, 0)
      ensures Extends(old(store.events), store.events) && Run(store.events).value.called == Run(old(store.events)).value.called
      ensures Adds(old(store.events), store.events, SkillMessages(calls, results))
    {
      hide Intact, Advance, Adds, Messages, Run;
      AddsNothing(store.events);
      for i := 0 to |results|
        invariant store.Valid() && Intact(store.events) && Closing(store.events, turn, step, 0)
        invariant Extends(old(store.events), store.events)
        invariant Run(store.events).value.called == Run(old(store.events)).value.called
        invariant Adds(old(store.events), store.events, SkillMessages(calls, results[..i]))
      {
        ghost var before, more := store.events, NextSkill(calls, results, i);
        if calls[i].name == "skill" && results[i].ok {
          InjectTexts(store, world, Some(run), results[i].contexts, Skill, turn, step, 0);
          ExtendsTrans(old(store.events), before, store.events);
        } else {
          AddsNothing(before);
        }
        AddsMore(old(store.events), before, store.events, SkillMessages(calls, results[..i]), more);
      }
      assert results[..|results|] == results;
    }

    /** `_apply_tool_error_policy`. */
    method ApplyPolicy(turn: nat, run: string, ghost step: nat)
      requires store.Valid() && Intact(store.events) && Closing(store.events, turn, step, 0)
      requires Sound(world) && published.None?
      modifies store, `published
      ensures store.Valid() && Intact(store.events)
      ensures Closing(store.events, turn, step, if published.Some? then 1 else 0)
      ensures Extends(old(store.events), store.events) && Run(store.events).value.called == Run(old(store.events)).value.called
      ensures PolicyActed(old(store.events), store.events, world, published)
    {
      hide Intact, Advance, Messages;
      var decision := world.decide(store.events);
      match decision {
        case Continue =>
        case PublishText(text) =>
          var shown := PublishAnswer(store, world, turn, run, text, step, Run(store.events).value.phase);
          published := if shown == "" then None else Some(shown);
        case InjectText(text) =>
          var current := FindMaxTurn(store.events);
          MaxTurnIsTurn(store.events);
          InjectTexts(store, world, None, [text], Plugin, current, step, 0);
      }
    }

    /** The part of a step that carries out the calls of the answer. */
    method ActOn(turn: nat, step: nat, run: string, calls: seq<Call>) returns (stop: Option<Reason>)
      requires store.Valid() && Intact(store.events) && Sound(world) && published.None?
      requires Within(store.events, ran, world, turn, step, Acting(calls), 0)
      requires calls != [] && DistinctCalls(calls) && IdsOf(calls) !! Run(store.events).value.called
      requires store.events != [] && store.events[|store.events| - 1].body.AssistantMessage?
      modifies store, this
      ensures store.Valid() && Intact(store.events) && Leaves(store.events, ran, world, turn, step, stop, published)
      ensures stop.None? || stop.value.WaitingApproval? || stop.value.Completed?
      ensures CutIffSeen(store.events, world, calls, stop)
      ensures CarriedOut(store.events, |old(store.events)| - 1, world, turn, calls, stop)
      ensures old(ran) <= ran && Extends(old(store.events), store.events) && Told(stop, published, waiting, store.events)
    {
      hide Intact, Advance, Run, Bounded, Licensed, Fair, Waits, Vetted, InOrder, InBatch, Asks, RanFrom, WasCalled, PutOffOnly,
        IsFirstToAsk, AllPutOff, Cut, FlagSeen, SideBySide, OthersTold, Finishes, CarriedOut;
      ghost var before := store.events;
      ghost var called := Run(store.events).value.called;
      EnterBatch(store.events, turn, step, run, calls);
      var outcome;
      ghost var b, counts, more;
      outcome, b, counts, more := ExecuteToolCalls(store, world, calls, turn, step, run, called);
      if outcome.Awaiting? {
        ghost var asked: nat :| asked < |calls| && IsFirstToAsk(world, b, asked) && outcome.call == calls[asked]
                           && AllPutOff(store.events, world, b, |calls|, asked)
                           && PutOffOnly(store.events, world, b, |before|, asked) && OthersTold(store.events, world, b, asked);
        AskDone(before, store.events, ran, world, b, counts, called, outcome.approvalId, asked);
        AsksLast(store.events, b, called, outcome.approvalId, outcome.call);
        AskedNotCut(store.events, world, b, called, outcome.approvalId, outcome.call);
        AskCarriedOut(before, store.events, world, b, counts, asked, outcome.approvalId);
        waiting := Some(Ask(outcome.approvalId, outcome.call));
        return Some(WaitingApproval);
      }
      BatchDone(before, store.events, ran, world, b, counts, called, outcome.results, more);
      LeaveBatch(store.events, world, b, called, outcome.results, more);
      CutWhen(store.events, world, b, called, outcome.results, more);
      ran := ran + AsRuns(more, turn, |before|);
      ghost var mid := store.events;
      FinishStep(turn, step, run, calls, outcome.results);
      OrderlyExtends(ran, mid, store.events, world);
      FlagStays(mid, store.events, world, calls);
      ExtendsTrans(before, mid, store.events);
      stop := if published.Some? then Some(Completed) else None;
      BatchCarriedOut(before, mid, store.events, world, b, counts, called, outcome.results, more, published, stop);
    }

    /** Skills, error policy and the end of the step. */
    method FinishStep(turn: nat, step: nat, run: string, calls: seq<Call>, results: seq<ToolAnswer>)
      requires store.Valid() && Intact(store.events) && Sound(world) && published.None?
      requires In(store.events, turn, step, Acting(calls), 0) && |results| <= |calls|
      modifies store, `published
      ensures store.Valid() && Intact(store.events) && Extends(old(store.events), store.events)
      ensures In(store.events, turn, step, Between, if published.Some? then 1 else 0)
      ensures Run(store.events).value.called == Run(old(store.events)).value.called
      ensures Finishes(old(store.events), store.events, world, calls, results, published)
    {
      hide Intact, Advance, Adds, SkillMessages, PolicyActed;
      ghost var one := store.events;
      InjectSkills(calls, results, turn, run, step);
      ghost var two := store.events;
      ApplyPolicy(turn, run, step);
      ghost var three := store.events;
      EndStep(store, world, turn, step, run, "", Run(store.events).value.phase, if published.Some? then 1 else 0);
      ExtendsTrans(one, two, three);
      ExtendsTrans(one, three, store.events);
      AddsWritten(three, store.events, StepEnd(""));
      FinishedSo(one, two, three, store.events, world, calls, results, published);
    }

    /** A step that the model or the budget ended. */
    method FailStep(turn: nat, step: nat, run: string, code: string, retries: nat, ghost header: bool)
      returns (stop: Option<Reason>, retriesAfter: nat)
      requires store.Valid() && Intact(store.events) && published.None?
      requires Within(store.events, ran, world, turn, step, Asking(header), 0)
      modifies store
      ensures store.Valid() && Intact(store.events) && Leaves(store.events, ran, world, turn, step, stop, published)
      ensures Extends(old(store.events), store.events)
      ensures RequestFailed(store.events, |old(store.events)|, settings, turn, run, code, retries, retriesAfter, stop)
      ensures stop != Some(Completed) && stop != Some(WaitingApproval)
    {
      hide Intact, Advance, Compacts;
      ghost var before := store.events;
      retriesAfter := retries;
      EndStep(store, world, turn, step, run, code, Asking(header), 0);
      ghost var mid := store.events;
      if code == "cancelled" {
        stop := Some(Cancelled);
      } else if code == "timeout" {
        stop := Some(LlmTimeout);
      } else if code == "context_overflow" && retries < MAX_OVERFLOW_RETRIES {
        retriesAfter := retries + 1;
        var ok := CompactNow(store, world, settings, turn, run, true, step, Between);
        stop := if ok then None else Some(Reason.Error);
      } else {
        stop := Some(Reason.Error);
      }
      ExtendsTrans(before, mid, store.events);
      OrderlyExtends(ran, before, store.events, world);
      assert store.events[..|before| + 1] == mid;
    }

    /** An answer without calls ends the step and is published. */
    method AnswerStep(turn: nat, step: nat, run: string, content: string) returns (stop: Option<Reason>)
      requires store.Valid() && Intact(store.events) && published.None?
      requires Within(store.events, ran, world, turn, step, Acting([]), 0) && store.events != []
      modifies store, `published
      ensures store.Valid() && Intact(store.events) && Leaves(store.events, ran, world, turn, step, stop, published)
      ensures Extends(old(store.events), store.events) && Told(stop, published, waiting, store.events)
      ensures SaidAnswer(store.events, |old(store.events)| - 1, world, content, stop)
      ensures published.Some? ==> store.events[|store.events| - 1].body == AnswerPublished(published.value)
    {
      hide Intact, Advance, Run, Bounded, Licensed, Fair, Waits;
      ghost var before := store.events;
      EndStep(store, world, turn, step, run, "", Acting([]), 0);
      ghost var mid := store.events;
      assert mid == mid[..|before| + 1];
      var shown := PublishAnswer(store, world, turn, run, content, step, Between);
      assert store.events[..|before| + 1] == mid;
      ExtendsTrans(before, mid, store.events);
      OrderlyExtends(ran, before, store.events, world);
      published := if shown == "" then None else Some(shown);
      stop := if published.Some? then Some(Completed) else Some(Reason.Error);
    }

    /** The step up to the model's reply; none when the budget cannot be met. */
    method OpenStep(turn: nat, last: nat, step: nat, run: string) returns (reply: Option<Reply>, ghost i: nat)
      requires store.Valid() && Intact(store.events) && last < step <= MAX_STEPS
      requires Within(store.events, ran, world, turn, last, Between, 0)
      modifies store
      ensures store.Valid() && Intact(store.events) && Extends(old(store.events), store.events)
      ensures Readied(old(store.events), store.events, i, settings, turn, run, step, reply.Some?)
      ensures reply.None? ==> i == |store.events|
      ensures reply.Some? ==> Requested(old(store.events), store.events, i, |store.events|, world, settings)
      ensures Within(store.events, ran, world, turn, step, Asking(reply.Some?), 0)
      ensures reply.Some? ==> reply.value == world.reply(store.events)
    {
      hide Intact, Advance, Compacts, Run, Requested, Adds, Pieces, Orderly, Readied;
      ghost var one := store.events;
      BeginStep(store, world, turn, last, step, run);
      ghost var two := store.events;
      var system := settings.system(store.events);
      var ok := CompactNow(store, world, settings, turn, run, false, step, Asking(false));
      ghost var three := store.events;
      ExtendsTrans(one, two, three);
      i := |three|;
      ReadiedSo(one, two, three, settings, turn, run, step, ok);
      if ok {
        var said := AskModel(store, world, settings.persistChunks, turn, step, run, system, false);
        ExtendsTrans(one, three, store.events);
        ReadiedMore(one, three, store.events, i, settings, turn, run, step, true);
        RequestedSo(one, three, store.events, world, settings);
        reply := Some(said);
      } else {
        reply := None;
      }
      OrderlyExtends(ran, one, store.events, world);
    }

    /** One round of the step loop; `stop` none: go on with the next step. */
    method OneStep(turn: nat, last: nat, step: nat, run: string, retries: nat)
      returns (stop: Option<Reason>, retriesAfter: nat)
      requires store.Valid() && Intact(store.events) && Sound(world) && published.None? && last < step <= MAX_STEPS
      requires Within(store.events, ran, world, turn, last, Between, 0)
      modifies store, this
      ensures store.Valid() && Intact(store.events) && Leaves(store.events, ran, world, turn, step, stop, published)
      ensures old(ran) <= ran && Extends(old(store.events), store.events) && Told(stop, published, waiting, store.events)
      ensures StepDone(old(store.events), store.events, world, settings, turn, run, step, retries, retriesAfter, stop)
    {
      hide Intact, Advance, Run, Bounded, Licensed, Fair, Waits, CutIffSeen, Readied, Requested,
        RequestFailed, SaidAnswer, CarriedOut, StepDone;
      retriesAfter := retries;
      ghost var one := store.events;
      var reply;
      ghost var i;
      reply, i := OpenStep(turn, last, step, run);
      ghost var two := store.events;
      if reply.None? {
        EndStep(store, world, turn, step, run, "context_budget_exhausted", Asking(false), 0);
        OrderlyExtends(ran, two, store.events, world);
        stop := Some(Reason.Error);
      } else if reply.value.LlmFailed? {
        stop, retriesAfter := FailStep(turn, step, run, reply.value.code, retries, true);
      } else {
        stop := TakeReply(turn, step, run, reply.value);
      }
      ExtendsTrans(one, two, store.events);
      StepIsDone(one, two, store.events, i, world, settings, turn, run, step, retries, retriesAfter, stop, reply);
    }

    /** The rest of a step once the model has answered. */
    method TakeReply(turn: nat, step: nat, run: string, reply: Reply) returns (stop: Option<Reason>)
      requires store.Valid() && Intact(store.events) && Sound(world) && published.None?
      requires Within(store.events, ran, world, turn, step, Asking(true), 0)
      requires reply.Reply? && reply == world.reply(store.events)
      modifies store, this
      ensures store.Valid() && Intact(store.events) && Leaves(store.events, ran, world, turn, step, stop, published)
      ensures old(ran) <= ran && Extends(old(store.events), store.events) && Told(stop, published, waiting, store.events)
      ensures |store.events| > |old(store.events)|
      ensures store.events[|old(store.events)|].body == AssistantMessage(reply.content, reply.calls)
      ensures CutIffSeen(store.events, world, reply.calls, stop)
      ensures if reply.calls == [] then SaidAnswer(store.events, |old(store.events)|, world, reply.content, stop)
              else CarriedOut(store.events, |old(store.events)|, world, turn, reply.calls, stop)
    {
      hide Intact, Advance, Bounded, Licensed, Fair, Waits, CutIffSeen;
      ghost var one := store.events;
      assert DistinctCalls(reply.calls) && IdsOf(reply.calls) !! Run(store.events).value.offered;
      OfferedFirst(store.events);
      WriteAnswer(store, world, turn, step, run, reply.content, reply.calls);
      ghost var two := store.events;
      OrderlyExtends(ran, one, two, world);
      if reply.calls == [] {
        stop := AnswerStep(turn, step, run, reply.content);
        NothingToCut(store.events, world, stop);
      } else {
        stop := ActOn(turn, step, run, reply.calls);
      }
      ExtendsTrans(one, two, store.events);
    }

    /** `_steps`: at most 30 steps a turn, pauses included. */
    method Steps(turn: nat, run: string, last: nat) returns (reason: Reason)
      requires store.Valid() && Intact(store.events) && Sound(world) && published.None?
      requires Within(store.events, ran, world, turn, last, Between, 0)
      modifies store, this
      ensures store.Valid() && Intact(store.events) && Extends(old(store.events), store.events)
      ensures exists step :: Leaves(store.events, ran, world, turn, step, Some(reason), published)
      ensures old(ran) <= ran && Told(Some(reason), published, waiting, store.events)
      ensures Stepped(old(store.events), store.events, world, settings, turn, run, last, reason)
    {
      hide Intact, Advance, StepDone, Run, Orderly, Extends;
      var retries := 0;
      var at := last;
      ghost var marks := [Mark(store.events, 0)];
      SameExtends(store.events);
      while at < MAX_STEPS
        invariant at == last + |marks| - 1 && marks != [] && marks[|marks| - 1] == Mark(store.events, retries)
        invariant GoneOn(marks, old(store.events), world, settings, turn, run, last)
        invariant store.Valid() && Intact(store.events) && Extends(old(store.events), store.events) && published.None?
        invariant old(ran) <= ran && Within(store.events, ran, world, turn, at, Between, 0)
        decreases MAX_STEPS - at
      {
        if world.aborted(store.events, "") {
          assert Leaves(store.events, ran, world, turn, at, Some(Cancelled), published);
          assert Series(marks, old(store.events), store.events, world, settings, turn, run, last, Cancelled);
          return Cancelled;
        }
        if published.Some? {
          return Completed;
        }
        ghost var before := store.events;
        var stop;
        stop, retries := OneStep(turn, at, at + 1, run, retries);
        ExtendsTrans(old(store.events), before, store.events);
        if stop.Some? {
          assert EndsAt(marks[|marks| - 1], store.events, world, settings, turn, run, at, retries, stop.value);
          assert Series(marks, old(store.events), store.events, world, settings, turn, run, last, stop.value);
          return stop.value;
        }
        GoneOnMore(marks, Mark(store.events, retries), old(store.events), world, settings, turn, run, last);
        marks := marks + [Mark(store.events, retries)];
        at := at + 1;
      }
      assert Leaves(store.events, ran, world, turn, at, Some(Reason.Error), published);
      assert Series(marks, old(store.events), store.events, world, settings, turn, run, last, Reason.Error);
      return Reason.Error;
    }

    ghost predicate Valid()
      reads this, store
    {
      store.Valid() && Intact(store.events) && Sound(world) && Resting(store.events, ran, world)
    }

    /** Closes the turn unless it only pauses. */
    method Settle(turn: nat, run: string, reason: Reason, ghost step: nat)
      requires store.Valid() && Intact(store.events) && Sound(world)
      requires Leaves(store.events, ran, world, turn, step, Some(reason), published)
      modifies store
      ensures Valid() && Extends(old(store.events), store.events) && Ends(store.events, reason)
      ensures reason.WaitingApproval? ==> store.events == old(store.events)
      ensures !reason.WaitingApproval? ==> Adds(old(store.events), store.events, [TurnEnd(reason)])
      ensures reason.WaitingApproval? <==> Run(store.events).value.phase.Waiting?
    {
      hide Intact, Advance, Run, Bounded, Licensed, Fair, Waits;
      ghost var before := store.events;
      if reason != WaitingApproval {
        CloseTurn(store, world, turn, run, reason, step, if reason.Completed? then 1 else 0);
        OrderlyExtends(ran, before, store.events, world);
        assert ran + [] == ran;
      }
    }

    /** `prompt`, the lease aside: a new turn. */
    method Prompt(text: string, source: Source) returns (reason: Reason)
      requires Valid() && Run(store.events).value.phase.Idle?
      requires !IsBlank(text) && !source.Compaction?
      modifies store, this
      ensures Valid() && Extends(old(store.events), store.events)
      ensures Opens(store.events, |old(store.events)|, MaxTurn(old(store.events)) + 1, text, source)
      ensures old(ran) <= ran && Told(Some(reason), published, waiting, store.events) && Ends(store.events, reason)
      ensures reason.WaitingApproval? <==> Run(store.events).value.phase.Waiting?
      ensures Prompted(old(store.events), store.events, world, settings, text, source, reason)
    {
      hide Intact, Advance, Run, Resting, Orderly, Told, Opens, Ends, IsBlank, Sound, Adds, TurnGoesOn, Claims, Inbox, MaxTurn;
      ghost var one := store.events;
      IdleRests(one, ran, world);
      published, waiting := None, None;
      var run := world.newRun(store.events);
      var turn := BeginTurn(store, world, run, text, source);
      ghost var two := store.events;
      ClaimInbox(store, world, turn, run);
      ghost var three := store.events;
      ExtendsTrans(one, two, three);
      RestIsOrderly(one, three, ran, world);
      reason := Continue(turn, run, 0);
      ExtendsTrans(one, three, store.events);
      OpensExtends(two, three, store.events, |one|, turn, text, source);
      assert store.events[..|two|] == two && store.events[..|three|] == three;
      assert PromptedAt(one, store.events, |three|, world, settings, text, source, reason);
    }

    // ----------------------------------------------------------- resume

    /** `ApprovalCoordinator.apply`: decide, then run or deny, then record the result. */
    method Apply(asked: Ask, decision: string, turn: nat, step: nat, run: string) returns (result: ToolAnswer)
      requires store.Valid() && Intact(store.events) && Paused(store.events, ran, world, turn, step)
      requires store.events != [] && store.events[|store.events| - 1].body == ApprovalAsked(asked.approvalId, asked.call)
      requires asked.call.id != ""
      modifies store, `ran
      ensures store.Valid() && Intact(store.events) && Extends(old(store.events), store.events)
      ensures Within(store.events, ran, world, turn, step, Acting([]), 0)
      ensures ran == AfterDecision(old(ran), world, old(store.events), turn, asked, decision)
      ensures Concludes(old(store.events), store.events, asked, decision, result)
      ensures AnswersDecision(world, store.events[..|old(store.events)| + 1], asked, decision, result)
    {
      hide Intact, Advance, Run, Paused, Orderly, InResume, AnswersDecision, AfterDecision;
      ghost var before := store.events;
      result := Decide(asked, decision, turn, step, run);
      ghost var late := store.events;
      var r := Emit(store, world, Some(run), Some(turn), Some(step), ResultBody(asked.call, result));
      ResultIn(late, r, turn, step, asked.call, result);
      ExtendsTrans(before, late, store.events);
      OrderlyExtends(ran, late, store.events, world);
      assert store.events[..|before| + 1] == late[..|before| + 1];
    }

    method Decide(asked: Ask, decision: string, turn: nat, step: nat, run: string) returns (result: ToolAnswer)
      requires store.Valid() && Intact(store.events) && Paused(store.events, ran, world, turn, step)
      requires store.events != [] && store.events[|store.events| - 1].body == ApprovalAsked(asked.approvalId, asked.call)
      modifies store, `ran
      ensures store.Valid() && Intact(store.events) && Extends(old(store.events), store.events)
      ensures InResume(store.events, turn, step, asked.call) && Orderly(ran, store.events, world)
      ensures ran == AfterDecision(old(ran), world, old(store.events), turn, asked, decision)
      ensures |store.events| == |old(store.events)| + if result.todos.Some? then 2 else 1
      ensures store.events[|old(store.events)|].body == ApprovalDecided(asked.approvalId, decision)
      ensures result.todos.Some? ==> store.events[|old(store.events)| + 1].body == TodoWrite(result.todos.value)
      ensures AnswersDecision(world, store.events[..|old(store.events)| + 1], asked, decision, result)
    {
      hide Intact, Advance, Run, Orderly, InResume, Bounded, Licensed, Fair, Waits, LastAnswer;
      ghost var before := store.events;
      var e := Emit(store, world, Some(run), Some(turn), Some(step), ApprovalDecided(asked.approvalId, decision));
      DecidedIn(before, e, turn, step, asked.approvalId, asked.call, decision);
      ghost var mid := store.events;
      if decision == "allow" && world.resolve(asked.call.name).Some? {
        AllowedRun(before, e, ran, world, turn, step, asked.approvalId, asked.call);
        ran := ran + [Ran(turn, asked.call, Some(asked.approvalId), LastAnswer(before))];
        result := world.answer(store.events, asked.call);
        WriteTodos(result.todos, turn, step, run, asked.call);
        ExtendsTrans(before, mid, store.events);
        OrderlyExtends(ran, mid, store.events, world);
        assert store.events[..|before| + 1] == mid;
        assert store.events[|before|] == mid[|before|] == e;
      } else {
        assert store.events[..|before| + 1] == mid && mid[|before|] == e;
        NotRun(before, mid, ran, world, turn, step);
        result := if decision == "allow" then ErrorAnswer(world, "unknown_tool", asked.call.name) else Denied(world);
      }
    }

    static function Denied(w: World): ToolAnswer {
      ToolAnswer(false, w.errorText("denied", ""), w.errorText("denied", ""), "denied", "", None, [])
    }

    method WriteTodos(todos: Option<seq<Todo>>, turn: nat, step: nat, run: string, ghost c: Call)
      requires store.Valid() && Intact(store.events) && InResume(store.events, turn, step, c)
      modifies store
      ensures store.Valid() && Intact(store.events) && InResume(store.events, turn, step, c)
      ensures Extends(old(store.events), store.events)
      ensures if todos.None? then store.events == old(store.events)
              else |store.events| == |old(store.events)| + 1 && store.events[|old(store.events)|].body == TodoWrite(todos.value)
    {
      hide Intact;
      if todos.Some? {
        var e := Emit(store, world, Some(run), Some(turn), None, TodoWrite(todos.value));
      }
    }

    /** `inject` between turns. */
    method Inject(text: string, source: Source)
      requires Valid() && Run(store.events).value.phase.Idle?
      requires !IsBlank(text) && !source.Compaction?
      modifies store
      ensures Valid() && Extends(old(store.events), store.events)
      ensures Wrote(old(store.events), store.events, None, UserMessage(text, source))
      ensures var m := MaxTurn(old(store.events)); store.events[|old(store.events)|].turn == Some(if m == 0 then 1 else m)
    {
      hide Advance, Run, Resting, IsBlank;
      ghost var before := store.events;
      var turn := FindMaxTurn(store.events);
      IdleRests(before, ran, world);
      MaxTurnIsTurn(store.events);
      var e := Emit(store, world, None, Some(if turn == 0 then 1 else turn), None, UserMessage(text, source));
      MessageRests(before, e, ran, world);
    }

    /** `resume_approval`, the lease aside; none when the approval is not pending. */
    method Resume(approvalId: string, decision: string) returns (reason: Option<Reason>)
      requires Valid()
      modifies store, this
      ensures Valid() && Extends(old(store.events), store.events)
      ensures reason.None? <==> approvalId !in Pending(old(store.events))
      ensures reason.None? ==> store.events == old(store.events) && ran == old(ran)
      ensures reason.Some? ==> Decides(old(store.events), store.events, approvalId, decision)
      ensures reason.Some? ==>
        && LastTurn(old(store.events)).Some?
        && AfterDecision(old(ran), world, old(store.events), LastTurn(old(store.events)).value,
                         Pending(old(store.events))[approvalId], decision) <= ran
      ensures reason.Some? ==> Told(reason, published, waiting, store.events) && Ends(store.events, reason.value)
      ensures reason.Some? ==> Resumed(old(store.events), store.events, world, settings, Pending(old(store.events))[approvalId],
                                       decision, reason.value)
    {
      hide Advance, Resting, Run, Within, Paused, Told, Fair, Waits, Pending, Projections.Asked, Projections.Decided, Adds,
        TurnGoesOn, AnswersDecision, Concludes, AfterDecision, Messages, LastTurn, LastStep, LastRun;
      ghost var one := store.events;
      published, waiting := None, None;
      var pending := PendingApprovals(store.events);
      if approvalId !in pending {
        return None;
      }
      PendingMeansPaused(store.events, ran, world, approvalId);
      var asked := pending[approvalId];
      var turn, step := LastTurn(store.events).value, LastStep(store.events).value;
      var run := RunOf(world, store.events);
      var result := Apply(asked, decision, turn, step, run);
      ghost var two := store.events;
      CloseAsked(turn, step, run, AddedTexts(asked, decision, result));
      ghost var three := store.events;
      var outcome := Continue(turn, run, step);
      ExtendsTrans(two, three, store.events);
      ExtendsTrans(one, two, store.events);
      ConcludesDecides(one, two, asked, decision, result);
      DecidesExtends(one, two, store.events, approvalId, decision);
      ResumedSo(one, two, three, store.events, result, world, settings, asked, decision, outcome);
      reason := Some(outcome);
    }

    /** The texts of an allowed skill, and the end of the step that had paused. */
    method CloseAsked(turn: nat, step: nat, run: string, contexts: seq<string>)
      requires store.Valid() && Intact(store.events) && Within(store.events, ran, world, turn, step, Acting([]), 0)
      modifies store
      ensures store.Valid() && Intact(store.events) && Extends(old(store.events), store.events)
      ensures Within(store.events, ran, world, turn, step, Between, 0)
      ensures Adds(old(store.events), store.events, Messages(contexts, Skill) + [StepEnd("")])
    {
      hide Intact, Advance, Run, Bounded, Licensed, Fair, Waits, Messages, Adds;
      ghost var one := store.events;
      InjectTexts(store, world, Some(run), contexts, Skill, turn, step, 0);
      ghost var two := store.events;
      EndStep(store, world, turn, step, run, "", Run(store.events).value.phase, 0);
      AddsWritten(two, store.events, StepEnd(""));
      AddsMore(one, two, store.events, Messages(contexts, Skill), [StepEnd("")]);
      ExtendsTrans(one, two, store.events);
      OrderlyExtends(ran, one, store.events, world);
    }

    /** The steps that follow, and the end of the turn. */
    method Continue(turn: nat, run: string, step: nat) returns (reason: Reason)
      requires store.Valid() && Intact(store.events) && Sound(world) && published.None?
      requires Within(store.events, ran, world, turn, step, Between, 0)
      modifies store, this
      ensures Valid() && Extends(old(store.events), store.events)
      ensures old(ran) <= ran && Told(Some(reason), published, waiting, store.events) && Ends(store.events, reason)
      ensures reason.WaitingApproval? <==> Run(store.events).value.phase.Waiting?
      ensures TurnGoesOn(old(store.events), store.events, world, settings, turn, run, step, reason)
    {
      hide Intact, Advance, Run, Resting, Leaves, Within, Stepped;
      ghost var one := store.events;
      reason := Steps(turn, run, step);
      ghost var two := store.events;
      ghost var at :| Leaves(store.events, ran, world, turn, at, Some(reason), published);
      Settle(turn, run, reason, at);
      ExtendsTrans(one, two, store.events);
      assert !reason.WaitingApproval? ==> store.events[..|store.events| - 1] == two;
    }
  }

  lemma ConcludesDecides(before: Log, after: Log, asked: Ask, decision: string, r: ToolAnswer)
    requires Concludes(before, after, asked, decision, r)
    ensures Decides(before, after, asked.approvalId, decision)
  {
  }

  lemma ResumedSo(one: Log, two: Log, three: Log, after: Log, r: ToolAnswer, w: World, s: Settings, asked: Ask, decision: string,
                  reason: Reason)
    requires Extends(one, two) && Extends(two, three) && Extends(three, after) && |one| < |two|
    requires LastTurn(one).Some? && LastStep(one).Some?
    requires Concludes(one, two, asked, decision, r) && AnswersDecision(w, two[..|one| + 1], asked, decision, r)
    requires Adds(two, three, Messages(AddedTexts(asked, decision, r), Skill) + [StepEnd("")])
    requires TurnGoesOn(three, after, w, s, LastTurn(one).value, RunOf(w, one), LastStep(one).value, reason)
    ensures Resumed(one, after, w, s, asked, decision, reason)
  {
    hide Concludes, AnswersDecision, Messages, AddedTexts, TurnGoesOn, Adds, LastTurn, LastStep, RunOf;
    ExtendsTrans(two, three, after);
    ExtendsTrans(one, two, after);
    assert after[..|two|] == two && after[..|three|] == three && after[..|one| + 1] == two[..|one| + 1];
    assert ResumedAt(one, after, |two|, |three|, r, w, s, asked, decision, reason);
  }

  lemma NowAllowed(log: Log, e: Event, id: string)
    requires e.body == ApprovalDecided(id, "allow")
    ensures WasAllowed(log + [e], id)
  {
    assert e in log + [e];
  }

  lemma ResultIn(log: Log, e: Event, turn: nat, step: nat, c: Call, r: ToolAnswer)
    requires InResume(log, turn, step, c)
    requires e.turn == Some(turn) && e.step == Some(step) && e.body == ResultBody(c, r) && e.op == Append
    ensures In(log + [e], turn, step, Acting([]), 0) && Extends(log, log + [e])
  {
    LongerLog(log, e);
    assert {c.id} - {c.id} == {};
  }

  /** An approval that may be decided is the one the log ends with, and the agent reads
      its turn and its step off the log. */
  lemma PendingMeansPaused(log: Log, ran: seq<Ran>, w: World, id: string)
    requires LogOk(log) && Resting(log, ran, w) && id in Pending(log)
    requires forall i | 0 <= i < |log| :: Stored(log[i])
    ensures LastTurn(log).Some? && LastStep(log).Some? && Paused(log, ran, w, LastTurn(log).value, LastStep(log).value)
    ensures log != [] && log[|log| - 1].body == ApprovalAsked(id, Pending(log)[id].call) && Pending(log)[id].approvalId == id
    ensures Pending(log)[id].call.id != ""
  {
    assert log[..|log|] == log;
    AlwaysSane(log, |log|);
    ProtocolState.PendingIsWaiting(log);
    WaitingIsFresh(log, |log|);
    AskedCalled(log);
  }

  /** The asked call was called, so it has an id. */
  lemma AskedCalled(log: Log)
    requires Accepted(log) && Run(log).value.phase.Waiting? && forall i | 0 <= i < |log| :: Stored(log[i])
    ensures Run(log).value.phase.callId != ""
  {
    assert log[..|log|] == log;
    AlwaysSane(log, |log|);
    CalledNotEmpty(log, |log|);
  }

  lemma {:induction false} CalledNotEmpty(log: Log, k: nat)
    requires Accepted(log) && k <= |log| && forall i | 0 <= i < |log| :: Stored(log[i])
    ensures "" !in At(log, k).called
  {
    if k > 0 {
      CalledNotEmpty(log, k - 1);
      AtNext(log, k - 1);
      AdvanceCalled(At(log, k - 1), log[k - 1]);
    }
  }

  lemma AdvanceCalled(a: Auto, e: Event)
    requires Advance(a, e).Some? && Stored(e) && "" !in a.called
    ensures "" !in Advance(a, e).value.called
  {
  }

  // ----------------------------------------------------------------- theorems

  /** A session without events is at rest, intact, and with nothing run. */
  lemma NewSession(w: World)
    ensures Resting([], [], w) && Intact([])
  {
    hide Intact;
    IntactEmpty();
  }

  /** A prompt that fits, that nobody cancels and that the model answers with a text to show
      is answered with that text. */
  lemma PromptIsAnswered(before: Log, after: Log, w: World, s: Settings, text: string, source: Source, reason: Reason,
                         content: string, shown: string)
    requires Prompted(before, after, w, s, text, source, reason)
    requires AnswersWith(before, w, s, content, shown) && forall log: Log | Extends(before, log) :: !w.aborted(log, "")
    ensures reason == Completed && |after| > |before| + 1
    ensures after[|after| - 1].body == TurnEnd(Completed) && after[|after| - 2].body == AnswerPublished(shown)
  {
    hide Stepped, AnswersWith, Claims, Opens, Adds;
    var n: nat :| PromptedAt(before, after, n, w, s, text, source, reason);
    PrefixExtends(before, after, n);
    StillAnswers(before, after[..n], w, s, content, shown);
    var end := if reason.WaitingApproval? then after else after[..|after| - 1];
    AnswerCompletes(after[..n], end, w, s, MaxTurn(before) + 1, w.newRun(before), 0, reason, content, shown);
  }

  lemma StillAnswers(before: Log, log: Log, w: World, s: Settings, content: string, shown: string)
    requires AnswersWith(before, w, s, content, shown) && Extends(before, log)
    ensures AnswersWith(log, w, s, content, shown)
  {
    hide AnswersWith;
    AnswersNow(before, log, w, s, content, shown);
    forall next: Log | Extends(log, next)
      ensures s.count(Derive(next)) < s.policy.Limit(s.policy.triggerRatio)
      ensures w.reply(next) == Reply(content, []) && w.finalText(next, content) == shown
    {
      ExtendsTrans(before, log, next);
      AnswersNow(before, next, w, s, content, shown);
    }
    assert AnswersWith(log, w, s, content, shown) by { AnswersAre(log, w, s, content, shown); }
  }

  lemma AnswersAre(log: Log, w: World, s: Settings, content: string, shown: string)
    requires shown != "" && forall next: Log | Extends(log, next) ::
               && s.count(Derive(next)) < s.policy.Limit(s.policy.triggerRatio)
               && w.reply(next) == Reply(content, []) && w.finalText(next, content) == shown
    ensures AnswersWith(log, w, s, content, shown)
  {
  }

  /** In one turn, over all its steps, batches and pauses, at most two calls with the same
      attempt key of a limited tool reach the pipeline; the call that awaits its approval
      is counted already. */
  lemma AtMostTwoRuns(log: Log, ran: seq<Ran>, turn: nat, key: string)
    requires Bounded(ran + Owed(log), log)
    ensures Count(InTurn(ran, turn), key) + Count(InTurn(Owed(log), turn), key) <= 2
  {
    InTurnAppend(ran, Owed(log), turn);
    CountAppend(InTurn(ran, turn), InTurn(Owed(log), turn), key);
  }

  /** Of all runs of a session, one repeats the latest invalid or empty failure of its key
      only when that failure came after the vetting of its batch, or when a trim had masked
      it by then. */
  lemma RepeatsOnlyUnseen(log: Log, ran: seq<Ran>, w: World, i: nat, n: nat, f: nat)
    requires Accepted(log) && Fair(ran, log, w.infer) && i < |ran| && ran[i].vetted <= n <= |log|
    requires var r := ran[i];
      LatestFailure(log, n, r.turn, Retry.KeyOf(r.call), f) && RepeatsAt(log, f, r.turn, r.call, w.infer)
    ensures f >= ran[i].vetted || Masked(log, ran[i].vetted, ran[i].turn, Retry.KeyOf(ran[i].call), f)
  {
    hide Run, LatestFailure, RepeatsAt, Retry.Refused;
    assert ran[i] in ran && Vettable(ran[i], log, w.infer);
    RepeatIsNewOrMasked(log, ran[i].vetted, n, ran[i].turn, ran[i].call, f, w.infer);
  }

  /** An approved run, up to its decision at `j`, repeats a masked failure or none. */
  lemma ApprovedRepeatsOnlyMasked(log: Log, ran: seq<Ran>, w: World, i: nat, j: nat, n: nat, f: nat)
    requires Accepted(log) && Fair(ran, log, w.infer) && i < |ran| && AllowedAt(ran[i], log, j) && ran[i].vetted <= n <= j
    requires var r := ran[i];
      LatestFailure(log, n, r.turn, Retry.KeyOf(r.call), f) && RepeatsAt(log, f, r.turn, r.call, w.infer)
    ensures f < ran[i].vetted && Masked(log, ran[i].vetted, ran[i].turn, Retry.KeyOf(ran[i].call), f)
  {
    hide Run, RepeatsAt, Retry.Refused;
    RepeatsOnlyUnseen(log, ran, w, i, n, f);
    assert ran[i] in ran;
    var l: nat :| AllowedAt(ran[i], log, l) && ran[i].vetted <= l && Unprovoked(ran[i], log, l, w.infer);
    if l < j { DecidedOnce(log, l, j); } else if j < l { DecidedOnce(log, j, l); }
  }

  /** A denied approval never runs its tool. */
  lemma DeniedNeverRuns(log: Log, ran: seq<Ran>, w: World, j: nat, r: Ran)
    requires Resting(log, ran, w) && j < |log| && log[j].body.ApprovalDecided? && log[j].body.decision != "allow"
    requires r in ran
    ensures r.approval != Some(log[j].body.approvalId)
  {
    hide Advance, Bounded;
    if r.approval == Some(log[j].body.approvalId) {
      var e :| e in log && e.body == ApprovalDecided(r.approval.value, "allow");
      var i :| 0 <= i < |log| && log[i] == e;
      if i < j { DecidedOnce(log, i, j); } else { DecidedOnce(log, j, i); }
    }
  }

  /** A tool that needs an approval runs only for an approval that was asked for and then
      allowed, and for no other run. */
  lemma RunsOnceAllowed(log: Log, ran: seq<Ran>, w: World, i: nat) returns (j: nat)
    requires Resting(log, ran, w) && i < |ran| && NeedsApproval(w, ran[i].call)
    ensures ran[i].approval.Some? && 0 < j < |log| && log[j].body == ApprovalDecided(ran[i].approval.value, "allow")
    ensures log[j - 1].body == ApprovalAsked(ran[i].approval.value, ran[i].call)
    ensures forall k | 0 <= k < |ran| && k != i :: ran[k].approval != ran[i].approval
  {
    hide Advance, Bounded;
    assert ran[i] in ran;
    var e :| e in log && e.body == ApprovalDecided(ran[i].approval.value, "allow");
    j :| 0 <= j < |log| && log[j] == e;
    DecidedRightAfterAsked(log, j);
    var x :| x in log && x.body == ApprovalAsked(ran[i].approval.value, ran[i].call);
    var l :| 0 <= l < |log| && log[l] == x;
    if l < j - 1 { AskedOnce(log, l, j - 1); } else if l > j - 1 { AskedOnce(log, j - 1, l); }
    forall k | 0 <= k < |ran| && k != i
      ensures ran[k].approval != ran[i].approval
    {
      if k < i && ran[k].approval.None? { assert ran[i].approval.Some?; }
    }
  }
}
