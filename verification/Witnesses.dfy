/** Concrete logs: a failed call that is repeated unchanged, a batch that is cut short, and
    a success that a trim brings into a turn. */
module Witnesses {
  import opened Schema
  import opened Events
  import opened Surface
  import opened Units
  import opened Compaction
  import opened Protocol
  import opened Pairing
  import opened Retry
  import opened Repeats
  import opened Runtime
  import opened Scheduler
  import AgentLoop
  import Compact
  import Trim

  const NO_FIELDS := Arguments("{}", "{}", map[])
  const FIRST := Call("c1", "w", NO_FIELDS)
  const AGAIN := Call("c2", "w", NO_FIELDS)

  function Ev(seqNo: nat, step: Option<nat>, op: SurfaceOp, body: Body): Event {
    EvIn(1, seqNo, step, op, body)
  }

  function EvIn(turn: nat, seqNo: nat, step: Option<nat>, op: SurfaceOp, body: Body): Event {
    Event(seqNo, "e", None, Some(turn), step, op, [], body)
  }

  /** A turn up to the model's answer. */
  function Opening(calls: seq<Call>): Log {
    [Ev(1, None, NoOp, TurnStart)] + [Ev(2, None, Append, UserMessage("q", User))] + [Ev(3, Some(1), NoOp, StepStart)]
    + [Ev(4, Some(1), NoOp, RequestHeader(""))] + [Ev(5, Some(1), Append, AssistantMessage("", calls))]
  }

  lemma StepOpens(log: Log)
    requires log == [Ev(1, None, NoOp, TurnStart)] + [Ev(2, None, Append, UserMessage("q", User))] + [Ev(3, Some(1), NoOp, StepStart)]
    ensures Run(log) == Some(Auto(1, 1, Asking(false), 0, {}, {}, {}, {}))
  {
    var one := [Ev(1, None, NoOp, TurnStart)];
    assert [] + one == one && Run([]) == Some(START);
    hide Run;
    RunSnoc([], one[0]);
    RunSnoc(one, Ev(2, None, Append, UserMessage("q", User)));
    RunSnoc(one + [Ev(2, None, Append, UserMessage("q", User))], Ev(3, Some(1), NoOp, StepStart));
  }

  lemma OpeningRuns(calls: seq<Call>)
    requires DistinctIds(calls)
    ensures Run(Opening(calls)) == Some(Auto(1, 1, Acting(calls), 0, {}, {}, {}, IdsOf(calls)))
  {
    hide Run;
    var three := [Ev(1, None, NoOp, TurnStart)] + [Ev(2, None, Append, UserMessage("q", User))] + [Ev(3, Some(1), NoOp, StepStart)];
    StepOpens(three);
    RunSnoc(three, Ev(4, Some(1), NoOp, RequestHeader("")));
    RunSnoc(three + [Ev(4, Some(1), NoOp, RequestHeader(""))], Ev(5, Some(1), Append, AssistantMessage("", calls)));
    assert {} + IdsOf(calls) == IdsOf(calls);
  }

  lemma QuietEvent(log: Log, e: Event)
    requires !e.body.ToolCall? && !e.body.ToolResult?
    ensures SeenIn(log + [e], 1) == SeenIn(log, 1)
    ensures forall key :: Attempts(log + [e], 1, key) == Attempts(log, 1, key)
  {
    hide AttemptKey;
    assert (log + [e])[..|log|] == log;
  }

  lemma OpeningSeen(calls: seq<Call>)
    ensures SeenIn(Opening(calls), 1) == Seen(map[], map[])
    ensures forall key :: Attempts(Opening(calls), 1, key) == 0
  {
    var one := [Ev(1, None, NoOp, TurnStart)];
    var two := one + [Ev(2, None, Append, UserMessage("q", User))];
    var three := two + [Ev(3, Some(1), NoOp, StepStart)];
    var four := three + [Ev(4, Some(1), NoOp, RequestHeader(""))];
    assert [] + one == one;
    assert SeenIn([], 1) == Seen(map[], map[]) && forall key :: Attempts([], 1, key) == 0;
    hide SeenIn, Attempts;
    QuietEvent([], one[0]);
    QuietEvent(one, two[1]);
    QuietEvent(two, three[2]);
    QuietEvent(three, four[3]);
    QuietEvent(four, Ev(5, Some(1), Append, AssistantMessage("", calls)));
  }

  lemma WIsItsKey(c: Call)
    requires c.name == "w"
    ensures Strip(c.name) == "w" && KeyOf(c) == "w" && IsLimited(c.name)
  {
    assert 'w' > ' ';
    StripOne('w');
    assert "w" == ['w'];
  }

  function Failed(content: string): Body {
    ToolResult("c1", "w", false, content, content, "malformed_arguments", "invalid_input")
  }

  /** The first call and its result. */
  function Once(calls: seq<Call>, body: Body): Log {
    Opening(calls) + [Ev(6, Some(1), NoOp, ToolCall(FIRST))] + [Ev(7, Some(1), Append, body)]
  }

  lemma OnceRuns(calls: seq<Call>, body: Body)
    requires DistinctIds(calls) && FIRST in calls && body.ToolResult? && body.callId == "c1"
    ensures Run(Once(calls, body)) == Some(Auto(1, 1, Acting(calls), 0, {}, {"c1"}, {}, IdsOf(calls)))
  {
    OpeningRuns(calls);
    var log := Opening(calls) + [Ev(6, Some(1), NoOp, ToolCall(FIRST))];
    RunSnoc(Opening(calls), Ev(6, Some(1), NoOp, ToolCall(FIRST)));
    RunSnoc(log, Ev(7, Some(1), Append, body));
    assert {} + {"c1"} == {"c1"} && {"c1"} - {"c1"} == {};
  }

  /** The result is an invalid input. */
  function Tried(calls: seq<Call>, content: string): Log {
    Once(calls, Failed(content))
  }

  lemma TriedRuns(calls: seq<Call>, content: string)
    requires DistinctIds(calls) && FIRST in calls
    ensures Run(Tried(calls, content)) == Some(Auto(1, 1, Acting(calls), 0, {}, {"c1"}, {}, IdsOf(calls)))
  {
    OnceRuns(calls, Failed(content));
  }

  lemma TriedSeen(calls: seq<Call>, content: string)
    ensures SeenIn(Tried(calls, content), 1) ==
            Seen(map["c1" := FIRST], map["w" := Failure("c1", "malformed_arguments", "invalid_input")])
    ensures SeenIn(Tried(calls, content)[..6], 1) == Seen(map["c1" := FIRST], map[])
  {
    hide AttemptKey, Strip;
    OpeningSeen(calls);
    var log := Opening(calls) + [Ev(6, Some(1), NoOp, ToolCall(FIRST))];
    SeenSnoc(Opening(calls), Ev(6, Some(1), NoOp, ToolCall(FIRST)), 1);
    assert SeenIn(log, 1).calls == map["c1" := FIRST];
    WIsItsKey(FIRST);
    SeenSnoc(log, Ev(7, Some(1), Append, Failed(content)), 1);
    assert Tried(calls, content)[..6] == log;
    var failures := SeenIn(Tried(calls, content), 1).failures;
    assert failures == map["w" := Failure("c1", "malformed_arguments", "invalid_input")];
  }

  /** The failure is the key's latest as long as no other result follows. */
  lemma TriedRepeats(calls: seq<Call>, content: string, rest: Log, infer: ClassOf)
    requires forall k | 0 <= k < |rest| :: !rest[k].body.ToolResult?
    ensures var log := Tried(calls, content) + rest;
      LatestFailure(log, |log|, 1, KeyOf(AGAIN), 6) && RepeatsAt(log, 6, 1, AGAIN, infer)
  {
    hide SeenIn, AttemptKey, Strip;
    var log := Tried(calls, content) + rest;
    TriedSeen(calls, content);
    WIsItsKey(FIRST);
    WIsItsKey(AGAIN);
    assert log[..6] == Tried(calls, content)[..6] && log[6].body == Failed(content);
    forall k | 6 < k < |log|
      ensures !Fails(log, k, 1, KeyOf(AGAIN))
    {
      assert log[k] == rest[k - 7];
    }
  }

  lemma OpeningIsPrefix(calls: seq<Call>, content: string, rest: Log)
    ensures |Opening(calls)| == 5 && Extends(Opening(calls), Tried(calls, content) + rest)
  {
  }

  /** Two equal calls in one batch: both pass the vetting, the first fails as invalid, and
      the second runs all the same. */
  lemma TwoAlikeBothRun(w: World) returns (b: Batch, vet: Log, log: Log)
    requires w.resolve("w").Some?
    ensures Accepted(log) && Extends(vet, log) && b.calls == [FIRST, AGAIN] && Vetted(b, w, vet, map[])
    ensures LatestFailure(log, |log|, 1, KeyOf(AGAIN), 6) && RepeatsAt(log, 6, 1, AGAIN, w.infer) && 6 >= |vet|
    ensures !w.aborted(log, "c2") ==> Runs(w, b, log, AGAIN)
  {
    hide SeenIn, Attempts, Run, KeyOf, IsLimited, LatestFailure, RepeatsAt, Exhausted, Used, Refusals, Opening;
    var calls := [FIRST, AGAIN];
    b := Batch(calls, 1, 1, "r", {}, map[]);
    vet := Opening(calls);
    var rest := [Ev(8, Some(1), NoOp, ToolCall(AGAIN))];
    log := Tried(calls, "x") + rest;
    TriedRuns(calls, "x");
    RunSnoc(Tried(calls, "x"), rest[0]);
    TriedRepeats(calls, "x", rest, w.infer);
    OpeningIsPrefix(calls, "x", rest);
    OpeningSeen(calls);
    WIsItsKey(FIRST);
    WIsItsKey(AGAIN);
    NoneExhausted(calls);
    NoneRefused(calls, w.infer);
  }

  lemma NoneExhausted(calls: seq<Call>)
    requires calls == [FIRST, AGAIN] && KeyOf(FIRST) == "w" && KeyOf(AGAIN) == "w"
    ensures ExhaustedIds(calls, map[], 2) == {}
  {
    assert Used(calls, 0, 0, "w") == 0 && Used(calls, 0, 1, "w") <= 1;
    assert !Exhausted(calls, map[], 0) && !Exhausted(calls, map[], 1);
  }

  lemma {:induction false} NoneRefused(calls: seq<Call>, infer: ClassOf)
    ensures Refusals(calls, Seen(map[], map[]), infer) == map[]
  {
    hide AttemptKey;
    if calls != [] { NoneRefused(calls[..|calls| - 1], infer); }
  }

  // ---------------------------------------------------------------- the trim

  function Filler(n: nat): string {
    seq(n, i => 'x')
  }

  lemma FillerLong(n: nat)
    ensures |Filler(n)| == n
  {
  }

  lemma FillerIsCut(seqNo: nat, p: Compact.Policy, project: (string, nat) -> Option<string>)
    requires forall t, n :: project(t, n).None?
    ensures Compact.CutDown(Filler(p.pruneChars + 1), seqNo, p, project) != Filler(p.pruneChars + 1)
  {
    var text := Filler(p.pruneChars + 1);
    var front := Front(text, p.headChars);
    var back := if p.tailChars > 0 then Trim.Back(text, p.tailChars) else "";
    var cut := Compact.CutDown(text, seqNo, p, project);
    assert cut == Trim.Shown(front, back, Trim.LogRef(text, p.headChars, p.tailChars, seqNo));
    assert cut[|front|] == '\n';
  }

  /** The next step has begun, and the compactor is about to trim. */
  function Later(content: string): Log {
    Tried([FIRST], content) + [Ev(8, Some(1), NoOp, StepEnd(""))] + [Ev(9, Some(2), NoOp, StepStart)]
  }

  lemma LaterIs(content: string)
    ensures Later(content) == Tried([FIRST], content) + ([Ev(8, Some(1), NoOp, StepEnd(""))] + [Ev(9, Some(2), NoOp, StepStart)])
  {
  }

  lemma LaterRuns(content: string)
    ensures Run(Later(content)) == Some(Auto(1, 2, Asking(false), 0, {}, {"c1"}, {}, {"c1"}))
  {
    hide Run, Tried;
    var ended := Tried([FIRST], content) + [Ev(8, Some(1), NoOp, StepEnd(""))];
    TriedRuns([FIRST], content);
    RunSnoc(Tried([FIRST], content), Ev(8, Some(1), NoOp, StepEnd("")));
    RunSnoc(ended, Ev(9, Some(2), NoOp, StepStart));
    assert IdsOf([FIRST]) == {"c1"};
  }

  lemma LaterIsOk(content: string)
    ensures LogOk(Later(content))
  {
  }

  /** The trim that the compactor then writes, whatever its policy: the longest result is
      the failed one.  Before it the same call is refused, after it admitted. */
  lemma TrimReadmitsInvalidCall(p: Compact.Policy, project: (string, nat) -> Option<string>, job: Compact.Job, infer: ClassOf)
    returns (log: Log, trim: Event)
    requires (forall t, n :: project(t, n).None?) && job.policy == p && job.turn == 1
    ensures LogOk(log) && Accepted(log) && Accepted(log + [trim])
    ensures Compact.TrimsLongest(log, log + [trim], job, project)
    ensures LatestFailure(log, |log|, 1, KeyOf(AGAIN), 6) && RepeatsAt(log, 6, 1, AGAIN, infer)
    ensures Refused(SeenIn(log, 1), AGAIN, infer) && !Refused(SeenIn(log + [trim], 1), AGAIN, infer)
  {
    hide SeenIn, Refused, Run, Later, Tried, LogOk, LatestFailure, RepeatsAt, Compact.TrimsLongest, Compact.CutDown, KeyOf, Filler;
    var text := Filler(p.pruneChars + 1);
    var cut := Compact.CutDown(text, 7, p, project);
    log := Later(text);
    trim := Event(10, "e", None, Some(1), None, Replace, [7], ToolResult("c1", "w", false, cut, cut, "", ""));
    assert |text| == p.pruneChars + 1 by { FillerLong(p.pruneChars + 1); }
    LaterRuns(text);
    LaterIsOk(text);
    RunSnoc(log, trim);
    FillerIsCut(7, p, project);
    LaterTrims(log, trim, text, p, project, job);
    var rest := [Ev(8, Some(1), NoOp, StepEnd(""))] + [Ev(9, Some(2), NoOp, StepStart)];
    LaterIs(text);
    TriedRepeats([FIRST], text, rest, infer);
    RefusedIffUnmasked(log, 1, AGAIN, 6, infer);
    LaterMasks(log, trim, text);
    TrimMasksFailure(log, trim, 1, AGAIN, infer);
  }

  lemma LaterMasks(log: Log, trim: Event, text: string)
    requires log == Later(text) && trim.turn == Some(1)
    requires trim.body.ToolResult? && !trim.body.ok && trim.body.name == "w" && trim.body.callId == "c1"
    ensures Masks(SeenIn(log, 1), trim, KeyOf(AGAIN)) && !Masked(log, |log|, 1, KeyOf(AGAIN), 6)
  {
    hide AttemptKey, Strip;
    TriedSeen([FIRST], text);
    var ended := Tried([FIRST], text) + [Ev(8, Some(1), NoOp, StepEnd(""))];
    SeenSnoc(Tried([FIRST], text), Ev(8, Some(1), NoOp, StepEnd("")), 1);
    SeenSnoc(ended, Ev(9, Some(2), NoOp, StepStart), 1);
    WIsItsKey(FIRST);
    WIsItsKey(AGAIN);
  }

  lemma LaterTrims(log: Log, trim: Event, text: string, p: Compact.Policy, project: (string, nat) -> Option<string>, job: Compact.Job)
    requires log == Later(text) && |text| > p.pruneChars && job.policy == p && job.turn == 1
    requires var cut := Compact.CutDown(text, 7, p, project);
      cut != text && trim == Event(10, "e", None, Some(1), None, Replace, [7], ToolResult("c1", "w", false, cut, cut, "", ""))
    ensures Compact.TrimsLongest(log, log + [trim], job, project)
  {
    hide Compact.CutDown, Later;
    OnlyResult(log, text);
    var next := log + [trim];
    assert next[..|log|] == log && next[|log|] == trim;
    assert Compact.IsLongest(log, 6);
  }

  lemma OnlyResult(log: Log, text: string)
    requires log == Later(text)
    ensures |log| == 9 && log[6].body == Failed(text) && Untrimmed(log) == {6}
  {
    assert forall k | 0 <= k < |log| && k != 6 :: !log[k].body.ToolResult?;
    assert log[6].op == Append;
    assert !Replaced(log, log[6].seqNo);
  }

  // ------------------------------------------------------------ the next turn

  /** After its first result the turn ends, and the next one begins a step. */
  function NextTurn(calls: seq<Call>, body: Body, reason: Reason): Log {
    Once(calls, body) + Ended(reason) + Resumed()
  }

  function Ended(reason: Reason): Log {
    [Ev(8, Some(1), NoOp, StepEnd(""))] + [Ev(9, None, NoOp, TurnEnd(reason))]
  }

  function Resumed(): Log {
    [EvIn(2, 10, None, NoOp, TurnStart)] + [EvIn(2, 11, None, Append, UserMessage("r", User))]
    + [EvIn(2, 12, Some(1), NoOp, StepStart)]
  }

  lemma TurnCloses(log: Log, calls: seq<Call>, called: set<string>, offered: set<string>, reason: Reason)
    requires Run(log) == Some(Auto(1, 1, Acting(calls), 0, {}, called, {}, offered)) && !reason.Completed?
    ensures Run(log + Ended(reason)) == Some(Auto(1, 1, Idle, 0, {}, called, {}, offered))
  {
    hide Run;
    var end := Ev(8, Some(1), NoOp, StepEnd(""));
    RunSnoc(log, end);
    RunSnoc(log + [end], Ev(9, None, NoOp, TurnEnd(reason)));
    assert log + Ended(reason) == log + [end] + [Ev(9, None, NoOp, TurnEnd(reason))];
  }

  lemma TurnOpens(log: Log, called: set<string>, offered: set<string>)
    requires Run(log) == Some(Auto(1, 1, Idle, 0, {}, called, {}, offered))
    ensures Run(log + Resumed()) == Some(Auto(2, 1, Asking(false), 0, {}, called, {}, offered))
  {
    hide Run;
    var start, user := EvIn(2, 10, None, NoOp, TurnStart), EvIn(2, 11, None, Append, UserMessage("r", User));
    RunSnoc(log, start);
    RunSnoc(log + [start], user);
    RunSnoc(log + [start] + [user], EvIn(2, 12, Some(1), NoOp, StepStart));
    assert log + Resumed() == log + [start] + [user] + [EvIn(2, 12, Some(1), NoOp, StepStart)];
  }

  lemma NextTurnRuns(calls: seq<Call>, body: Body, reason: Reason)
    requires DistinctIds(calls) && FIRST in calls && body.ToolResult? && body.callId == "c1" && !reason.Completed?
    ensures Run(NextTurn(calls, body, reason)) == Some(Auto(2, 1, Asking(false), 0, {}, {"c1"}, {}, IdsOf(calls)))
  {
    hide Run, Once, Ended, Resumed;
    OnceRuns(calls, body);
    TurnCloses(Once(calls, body), calls, {"c1"}, IdsOf(calls), reason);
    TurnOpens(Once(calls, body) + Ended(reason), {"c1"}, IdsOf(calls));
  }

  lemma NextTurnIs(calls: seq<Call>, body: Body, reason: Reason)
    ensures NextTurn(calls, body, reason) ==
            [Ev(1, None, NoOp, TurnStart), Ev(2, None, Append, UserMessage("q", User)), Ev(3, Some(1), NoOp, StepStart),
             Ev(4, Some(1), NoOp, RequestHeader("")), Ev(5, Some(1), Append, AssistantMessage("", calls)),
             Ev(6, Some(1), NoOp, ToolCall(FIRST)), Ev(7, Some(1), Append, body), Ev(8, Some(1), NoOp, StepEnd("")),
             Ev(9, None, NoOp, TurnEnd(reason)), EvIn(2, 10, None, NoOp, TurnStart),
             EvIn(2, 11, None, Append, UserMessage("r", User)), EvIn(2, 12, Some(1), NoOp, StepStart)]
  {
  }

  lemma NextTurnPlain(calls: seq<Call>, body: Body, reason: Reason)
    requires body.ToolResult?
    ensures |NextTurn(calls, body, reason)| == 12 && LogOk(NextTurn(calls, body, reason))
    ensures NextTurn(calls, body, reason)[4].body == AssistantMessage("", calls) && NextTurn(calls, body, reason)[6].body == body
    ensures forall k | 0 <= k < 12 :: Pairing.Plain(NextTurn(calls, body, reason)[k])
  {
    hide NextTurn;
    NextTurnIs(calls, body, reason);
  }

  // -------------------------------------------------------------- a cut batch

  /** A batch of two calls, cut after the first because the run was cancelled: the next turn
      sends the model a call without a result. */
  lemma CutBatchIsSent(w: World) returns (log: Log)
    ensures |log| == 12 && Accepted(log) && Intact(log) && Run(log).value.phase.Asking?
    ensures log[4].body == AssistantMessage("", [FIRST, AGAIN]) && log[6].body.ToolResult? && log[6].body.callId == FIRST.id
    ensures AgentLoop.Cut(log, [FIRST, AGAIN]) && (FlagSeen(log, w, [FIRST, AGAIN]) <==> w.aborted(log[..7], ""))
    ensures !NoneCutShort(log) && !Paired(Derive(log), Exactly())
  {
    hide Run, Derive, Intact, Pairing.Plain, LogOk, Paired, NextTurn;
    var calls, body := [FIRST, AGAIN], Failed("x");
    log := NextTurn(calls, body, Cancelled);
    NextTurnRuns(calls, body, Cancelled);
    NextTurnPlain(calls, body, Cancelled);
    PlainIsIntact(log);
    SentExactlyIff(log);
    SeenAtSeven(w, calls, body, Cancelled);
    assert calls[1].id in IdsOf(calls);
    assert CutShort(FromEvent(log[4]), Run(log).value.called);
  }

  lemma SeenAtSeven(w: World, calls: seq<Call>, body: Body, reason: Reason)
    requires calls == [FIRST, AGAIN] && body.ToolResult? && body.callId == "c1"
    ensures var log := NextTurn(calls, body, reason); |log| == 12 && (FlagSeen(log, w, calls) <==> w.aborted(log[..7], ""))
  {
    hide NextTurn;
    var log := NextTurn(calls, body, reason);
    NextTurnIs(calls, body, reason);
    assert AnsweredAt(log, 7, calls[0]);
    assert forall k | 0 <= k < 12 && k != 6 :: !log[k].body.ToolResult?;
  }

  // ------------------------------------------------- a success from a turn before

  function Good(content: string): Body {
    ToolResult("c1", "w", true, content, content, "", "")
  }

  /** A turn has no success of its own; the compactor, whatever its policy, trims the long
      result of the turn before, and the turn has one. */
  lemma TrimBringsSuccess(p: Compact.Policy, project: (string, nat) -> Option<string>, job: Compact.Job)
    returns (log: Log, trim: Event)
    requires (forall t, n :: project(t, n).None?) && job.policy == p && job.turn == 2
    ensures Accepted(log) && Intact(log) && Accepted(log + [trim]) && Compact.TrimsLongest(log, log + [trim], job, project)
    ensures !Succeeded(log, 2) && Succeeded(log + [trim], 2)
  {
    hide Run, Intact, Pairing.Plain, LogOk, NextTurn, Succeeded, Compact.TrimsLongest, Compact.CutDown, Filler;
    var text := Filler(p.pruneChars + 1);
    var cut := Compact.CutDown(text, 7, p, project);
    log := NextTurn([FIRST], Good(text), Reason.Error);
    trim := Event(13, "e", None, Some(2), None, Replace, [7], Good(cut));
    assert |text| == p.pruneChars + 1 by { FillerLong(p.pruneChars + 1); }
    NextTurnRuns([FIRST], Good(text), Reason.Error);
    NextTurnPlain([FIRST], Good(text), Reason.Error);
    PlainIsIntact(log);
    RunSnoc(log, trim);
    FillerIsCut(7, p, project);
    NextTurnTrims(log, trim, text, p, project, job);
    NoSuccessYet(text);
    WIsItsKey(FIRST);
    TrimCountsAsSuccess(log, trim, 2);
  }

  lemma NoSuccessYet(text: string)
    ensures !Succeeded(NextTurn([FIRST], Good(text), Reason.Error), 2)
  {
    hide NextTurn;
    var log := NextTurn([FIRST], Good(text), Reason.Error);
    NextTurnIs([FIRST], Good(text), Reason.Error);
    NoneSucceeded(log, 2);
  }

  lemma {:induction false} NoneSucceeded(log: Log, turn: nat)
    requires forall k | 0 <= k < |log| :: !IsSuccess(log[k], turn)
    ensures !Succeeded(log, turn)
  {
    if log != [] { NoneSucceeded(log[..|log| - 1], turn); }
  }

  lemma NextTurnTrims(log: Log, trim: Event, text: string, p: Compact.Policy, project: (string, nat) -> Option<string>,
                      job: Compact.Job)
    requires log == NextTurn([FIRST], Good(text), Reason.Error) && |text| > p.pruneChars && job.policy == p && job.turn == 2
    requires var cut := Compact.CutDown(text, 7, p, project);
      cut != text && trim == Event(13, "e", None, Some(2), None, Replace, [7], Good(cut))
    ensures Compact.TrimsLongest(log, log + [trim], job, project)
  {
    hide Compact.CutDown, NextTurn;
    OnlyGoodResult(log, text);
    var next := log + [trim];
    assert next[..|log|] == log && next[|log|] == trim;
    assert Compact.IsLongest(log, 6);
  }

  lemma OnlyGoodResult(log: Log, text: string)
    requires log == NextTurn([FIRST], Good(text), Reason.Error)
    ensures |log| == 12 && log[6].body == Good(text) && Untrimmed(log) == {6}
  {
    hide NextTurn;
    NextTurnIs([FIRST], Good(text), Reason.Error);
    assert forall k | 0 <= k < |log| && k != 6 :: !log[k].body.ToolResult?;
    assert log[6].op == Append;
    assert !Replaced(log, log[6].seqNo);
  }
}
