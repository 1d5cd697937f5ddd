/** The protocol that every crash-free log follows, as an automaton over its events,
    and what follows for each accepted log.  (The agent that writes such logs is in
    module AgentLoop.) */
module Protocol {
  import opened Schema
  import opened Events

  const MAX_STEPS: nat := 30

  /** Where a turn stands: not begun or over; between two steps; in a step before the
      model has answered; carrying out the answer's calls; waiting for an approval. */
  datatype Phase =
    | Idle
    | Between
    | Asking(header: bool)
    | Acting(calls: seq<Call>)
    | Waiting(approvalId: string, callId: string)

  datatype Auto = Auto(
    turn: nat, step: nat, phase: Phase, answers: nat,
    pending: set<string>, called: set<string>, asked: set<string>, offered: set<string>)

  const START := Auto(0, 0, Idle, 0, {}, {}, {}, {})

  predicate DistinctIds(calls: seq<Call>) {
    forall i, j | 0 <= i < j < |calls| :: calls[i].id != calls[j].id
  }

  function IdsOf(calls: seq<Call>): set<string> {
    set i | 0 <= i < |calls| :: calls[i].id
  }

  predicate Here(a: Auto, e: Event) {
    e.turn == Some(a.turn) && e.step == Some(a.step)
  }

  /** Events without a part in the protocol: they may stand anywhere but in a pause, those
      of the compactor only while no calls are carried out. */
  predicate Neutral(e: Event) {
    match e.body
    case UserMessage(_, _) => true
    case AssistantChunk(_) => true
    case RequestContext => true
    case TodoWrite(_) => true
    case InboxSpliced(_, _) => true
    case InboxClaimed(_) => true
    case InboxDiscarded(_) => true
    case CompactionStart => true
    case CompactionSummary(_, _) => true
    case CompactionEnd => true
    case SeedEnd => true
    case Violation(_) => true
    case Ignorable(_) => true
    case ToolResult(_, _, _, _, _, error, errorClass) => e.op == Replace && error == "" && errorClass == ""
    case _ => false
  }

  /** Written by the compactor. */
  predicate Compacting(b: Body) {
    b.ToolResult? || b.CompactionStart? || b.CompactionSummary? || b.CompactionEnd?
  }

  /** A user message behind the calls of an answer ends them. */
  function AfterNeutral(a: Auto, e: Event): Option<Auto> {
    if a.phase.Waiting? || (a.phase.Acting? && Compacting(e.body)) || (e.body.UserMessage? && a.pending != {}) then None
    else
      SameTurn(if a.phase.Acting? && e.body.UserMessage? then a.(phase := Acting([])) else a, e)
  }

  function SameTurn(a: Auto, e: Event): Option<Auto> {
    if e.turn.None? || e.turn.value == a.turn then Some(a)
    else if a.turn == 0 && e.turn.value == 1 then Some(a.(turn := 1))
    else None
  }

  function Advance(a: Auto, e: Event): Option<Auto> {
    if Neutral(e) then AfterNeutral(a, e)
    else match e.body
      case TurnStart =>
        if a.phase.Idle? && e.turn.Some? && e.turn.value > a.turn
        then Some(a.(turn := e.turn.value, step := 0, phase := Between, answers := 0)) else None
      case TurnEnd(reason) =>
        if a.phase.Between? && e.turn == Some(a.turn) && (reason.Completed? <==> a.answers == 1)
        then Some(a.(phase := Idle)) else None
      case StepStart =>
        if a.phase.Between? && e.turn == Some(a.turn) && a.answers == 0
           && e.step.Some? && a.step < e.step.value <= MAX_STEPS
        then Some(a.(step := e.step.value, phase := Asking(false))) else None
      case StepEnd(_) =>
        if (a.phase.Asking? || a.phase.Acting?) && a.pending == {} && Here(a, e) then Some(a.(phase := Between)) else None
      case RequestHeader(_) =>
        if a.phase.Asking? && Here(a, e) then Some(a.(phase := Asking(true))) else None
      case AssistantMessage(_, calls) =>
        if a.phase.Asking? && a.phase.header && Here(a, e) && DistinctIds(calls) && IdsOf(calls) !! a.offered
        then Some(a.(phase := Acting(calls), offered := a.offered + IdsOf(calls))) else None
      case ToolCall(call) =>
        if a.phase.Acting? && call in a.phase.calls && call.id !in a.called && a.answers == 0 && Here(a, e)
        then Some(a.(pending := a.pending + {call.id}, called := a.called + {call.id})) else None
      case ToolResult(id, _, _, _, _, _, _) =>
        if a.phase.Acting? && id in a.pending && e.op != Replace && Here(a, e) then Some(a.(pending := a.pending - {id})) else None
      case ApprovalAsked(id, call) =>
        if a.phase.Acting? && a.pending == {call.id} && id !in a.asked && id != "" && Here(a, e)
        then Some(a.(phase := Waiting(id, call.id), asked := a.asked + {id})) else None
      case ApprovalDecided(id, _) =>
        if a.phase.Waiting? && id == a.phase.approvalId && Here(a, e) then Some(a.(phase := Acting([]))) else None
      case AnswerPublished(_) =>
        if (a.phase.Between? || a.phase.Acting?) && a.pending == {} && a.answers == 0 && e.turn == Some(a.turn)
        then Some(a.(answers := 1)) else None
      case _ => None
  }

  function Run(log: Log): Option<Auto> {
    if log == [] then Some(START)
    else
      var a := Run(log[..|log| - 1]);
      if a.None? then None else Advance(a.value, log[|log| - 1])
  }

  /** The log follows the protocol. */
  predicate Accepted(log: Log) {
    Run(log).Some?
  }

  lemma RunSnoc(log: Log, e: Event)
    ensures Run(log + [e]) == if Run(log).None? then None else Advance(Run(log).value, e)
  {
    assert (log + [e])[..|log|] == log;
  }

  /** The automaton before position `k`. */
  function At(log: Log, k: nat): (a: Auto)
    requires Accepted(log) && k <= |log|
    ensures Run(log[..k]) == Some(a)
    decreases |log| - k
  {
    PrefixAccepted(log, k);
    Run(log[..k]).value
  }

  lemma {:induction false} PrefixAccepted(log: Log, k: nat)
    requires Accepted(log) && k <= |log|
    ensures Accepted(log[..k])
    decreases |log| - k
  {
    if k < |log| {
      PrefixAccepted(log, k + 1);
      assert log[..k + 1][..k] == log[..k];
    } else {
      assert log[..k] == log;
    }
  }

  lemma AtNext(log: Log, k: nat)
    requires Accepted(log) && k < |log|
    ensures Advance(At(log, k), log[k]) == Some(At(log, k + 1))
  {
    assert log[..k + 1] == log[..k] + [log[k]];
    RunSnoc(log[..k], log[k]);
  }

  // --------------------------------------------------------- invariants

  /** What holds of the automaton at every point. */
  predicate Sane(a: Auto) {
    && a.pending <= a.called <= a.offered && a.step <= MAX_STEPS && a.answers <= 1
    && (a.phase.Acting? ==> IdsOf(a.phase.calls) <= a.offered)
    && (a.phase.Idle? || a.phase.Between? || a.phase.Asking? ==> a.pending == {})
    && (a.phase.Waiting? ==> a.pending == {a.phase.callId} && a.phase.approvalId in a.asked && a.phase.approvalId != "")
    && (a.phase.Asking? || a.phase.Waiting? ==> a.answers == 0)
    && (!a.phase.Idle? || a.answers > 0 ==> a.turn > 0)
    && (a.phase.Asking? || a.phase.Acting? || a.phase.Waiting? ==> a.step > 0)
    && (a.phase.Acting? && a.pending != {} ==> a.answers == 0)
  }

  lemma AdvanceSane(a: Auto, e: Event)
    requires Sane(a) && Advance(a, e).Some?
    ensures Sane(Advance(a, e).value)
  {
  }

  /** Counters only grow, and only a new turn starts them again. */
  predicate Grows(a: Auto, b: Auto) {
    && a.turn <= b.turn && (a.turn == b.turn ==> a.step <= b.step && a.answers <= b.answers)
    && (a.turn == b.turn > 0 && a.phase.Idle? ==> b.phase.Idle?)
    && a.called <= b.called && a.asked <= b.asked && a.offered <= b.offered
  }

  lemma AdvanceGrows(a: Auto, e: Event)
    requires Sane(a) && Advance(a, e).Some?
    ensures Grows(a, Advance(a, e).value)
  {
  }

  lemma {:induction false} AlwaysSane(log: Log, k: nat)
    requires Accepted(log) && k <= |log|
    ensures Sane(At(log, k))
  {
    if k > 0 {
      AlwaysSane(log, k - 1);
      AtNext(log, k - 1);
      AdvanceSane(At(log, k - 1), log[k - 1]);
    }
  }

  // ------------------------------------------------------------ turns, steps

  lemma NextGrows(log: Log, k: nat)
    requires Accepted(log) && k < |log|
    ensures Grows(At(log, k), At(log, k + 1))
  {
    AtNext(log, k);
    AlwaysSane(log, k);
    AdvanceGrows(At(log, k), log[k]);
  }

  lemma {:induction false} Monotone(log: Log, i: nat, j: nat)
    requires Accepted(log) && i <= j <= |log|
    ensures Grows(At(log, i), At(log, j))
    decreases j
  {
    hide Advance, Run;
    if i < j {
      Monotone(log, i, j - 1);
      NextGrows(log, j - 1);
    }
  }

  /** Turn numbers strictly increase. */
  lemma TurnsIncrease(log: Log, i: nat, j: nat)
    requires Accepted(log) && i < j < |log| && log[i].body.TurnStart? && log[j].body.TurnStart?
    ensures log[i].turn.Some? && log[j].turn.Some? && log[i].turn.value < log[j].turn.value
  {
    AtNext(log, i);
    AtNext(log, j);
    Monotone(log, i + 1, j);
  }

  /** A turn ends at most once. */
  lemma TurnEndsOnce(log: Log, i: nat, j: nat)
    requires Accepted(log) && i < j < |log| && log[i].body.TurnEnd? && log[j].body.TurnEnd?
    ensures log[i].turn != log[j].turn
  {
    AtNext(log, i);
    AtNext(log, j);
    AlwaysSane(log, i);
    Monotone(log, i + 1, j);
  }

  /** Within a turn, pauses included, step numbers strictly increase, and none is
      greater than 30. */
  lemma StepsIncrease(log: Log, i: nat, j: nat)
    requires Accepted(log) && i < j < |log| && log[i].body.StepStart? && log[j].body.StepStart?
    requires log[i].turn == log[j].turn
    ensures log[i].step.Some? && log[j].step.Some? && 0 < log[i].step.value < log[j].step.value <= MAX_STEPS
  {
    AtNext(log, i);
    AtNext(log, j);
    Monotone(log, i + 1, j);
  }

  predicate StepOpen(a: Auto) {
    a.phase.Asking? || a.phase.Acting? || a.phase.Waiting?
  }

  /** A step bracket of the log. */
  predicate Bracket(b: Body) {
    b.StepStart? || b.StepEnd?
  }

  /** The step started at `i` is still open at `j`. */
  ghost predicate OpenSince(log: Log, i: nat, j: nat) {
    i < j <= |log| && log[i].body.StepStart? && forall k | i < k < j :: !Bracket(log[k].body)
  }

  ghost predicate StillOpen(log: Log, j: nat) {
    exists i: nat :: OpenSince(log, i, j)
  }

  /** A step is open exactly when the last step bracket is a start, and then turn and
      step are those of the start. */
  lemma {:induction false} OpenIff(log: Log, j: nat)
    requires Accepted(log) && j <= |log|
    ensures StepOpen(At(log, j)) <==> StillOpen(log, j)
    ensures forall i: nat | OpenSince(log, i, j) :: log[i].turn == Some(At(log, j).turn) && log[i].step == Some(At(log, j).step)
  {
    hide Advance;
    if j > 0 {
      OpenIff(log, j - 1);
      AtNext(log, j - 1);
      AlwaysSane(log, j - 1);
      AdvanceOpens(At(log, j - 1), log[j - 1]);
      OpenNext(log, j - 1);
    }
  }

  /** Only brackets open and close a step, and an open step keeps its number. */
  lemma AdvanceOpens(a: Auto, e: Event)
    requires Sane(a) && Advance(a, e).Some?
    ensures var b := Advance(a, e).value;
      && (e.body.StepStart? ==> StepOpen(b) && e.turn == Some(b.turn) && e.step == Some(b.step))
      && (e.body.StepEnd? ==> !StepOpen(b))
      && (!Bracket(e.body) ==> (StepOpen(a) <==> StepOpen(b)) && (StepOpen(a) ==> a.turn == b.turn && a.step == b.step))
  {
  }

  lemma OpenNext(log: Log, j: nat)
    requires j < |log|
    ensures StillOpen(log, j + 1) <==> log[j].body.StepStart? || (!Bracket(log[j].body) && StillOpen(log, j))
    ensures forall i: nat | OpenSince(log, i, j + 1) :: i == j || (OpenSince(log, i, j) && !Bracket(log[j].body))
  {
    if log[j].body.StepStart? { assert OpenSince(log, j, j + 1); }
    if !Bracket(log[j].body) && StillOpen(log, j) {
      var i: nat :| OpenSince(log, i, j);
      assert OpenSince(log, i, j + 1);
    }
    if StillOpen(log, j + 1) {
      var i: nat :| OpenSince(log, i, j + 1);
      assert i == j || OpenSince(log, i, j);
    }
  }

  /** Step brackets alternate: an end follows its own start, with no bracket between. */
  lemma EndMatchesStart(log: Log, j: nat) returns (i: nat)
    requires Accepted(log) && j < |log| && log[j].body.StepEnd?
    ensures OpenSince(log, i, j) && log[i].turn == log[j].turn && log[i].step == log[j].step
  {
    OpenIff(log, j);
    AtNext(log, j);
    i :| OpenSince(log, i, j);
  }

  lemma StartAfterEnd(log: Log, j: nat)
    requires Accepted(log) && j < |log| && log[j].body.StepStart?
    ensures !StillOpen(log, j)
  {
    OpenIff(log, j);
    AtNext(log, j);
  }

  /** Between calls of the agent a step is open only while an approval is awaited. */
  predicate AtRest(a: Auto) {
    a.phase.Idle? || a.phase.Waiting?
  }

  lemma OpenOnlyWhileWaiting(log: Log)
    requires Accepted(log) && AtRest(At(log, |log|))
    ensures StillOpen(log, |log|) <==> At(log, |log|).phase.Waiting?
  {
    OpenIff(log, |log|);
  }

  // ---------------------------------------------------------- model requests

  /** Every assistant message is preceded by the request header of its turn and step. */
  lemma HeaderPrecedes(log: Log, j: nat) returns (i: nat)
    requires Accepted(log) && j < |log| && log[j].body.AssistantMessage?
    ensures i < j && log[i].body.RequestHeader? && log[i].turn == log[j].turn && log[i].step == log[j].step
  {
    AtNext(log, j);
    i := HeaderOf(log, j);
  }

  lemma AdvanceHeader(a: Auto, e: Event)
    requires Sane(a) && Advance(a, e).Some? && Advance(a, e).value.phase == Asking(true)
    ensures var b := Advance(a, e).value;
      if e.body.RequestHeader? then Here(b, e) else a.phase == Asking(true) && a.turn == b.turn && a.step == b.step
  {
  }

  lemma {:induction false} HeaderOf(log: Log, j: nat) returns (i: nat)
    requires Accepted(log) && j <= |log| && At(log, j).phase == Asking(true)
    ensures i < j && log[i].body.RequestHeader? && Here(At(log, j), log[i])
  {
    assert j > 0 by { NotAtStart(log, j); }
    AtNext(log, j - 1);
    AlwaysSane(log, j - 1);
    hide Advance, Run;
    AdvanceHeader(At(log, j - 1), log[j - 1]);
    if log[j - 1].body.RequestHeader? {
      i := j - 1;
    } else {
      i := HeaderOf(log, j - 1);
    }
  }

  lemma NotAtStart(log: Log, j: nat)
    requires Accepted(log) && j <= |log| && At(log, j).phase == Asking(true)
    ensures j > 0
  {
  }

  // ------------------------------------------------------- published answers

  /** The answers published in a turn. */
  function Answers(log: Log, turn: nat): nat {
    if log == [] then 0
    else Answers(log[..|log| - 1], turn)
         + if log[|log| - 1].body.AnswerPublished? && log[|log| - 1].turn == Some(turn) then 1 else 0
  }

  lemma AdvanceAnswers(a: Auto, e: Event)
    requires Sane(a) && Advance(a, e).Some?
    ensures var b := Advance(a, e).value;
      if e.body.AnswerPublished? then b.turn == a.turn && e.turn == Some(a.turn) && b.answers == a.answers + 1
      else a.turn <= b.turn && b.answers == if b.turn == a.turn then a.answers else 0
  {
  }

  lemma {:induction false} AnswersCounted(log: Log, k: nat)
    requires Accepted(log) && k <= |log|
    ensures Answers(log[..k], At(log, k).turn) == At(log, k).answers
    ensures forall t | t > At(log, k).turn :: Answers(log[..k], t) == 0
  {
    hide Advance;
    if k > 0 {
      AnswersCounted(log, k - 1);
      AtNext(log, k - 1);
      AlwaysSane(log, k - 1);
      AdvanceAnswers(At(log, k - 1), log[k - 1]);
      assert log[..k][..k - 1] == log[..k - 1];
    }
  }

  lemma NotAnAnswer(log: Log, k: nat, turn: nat)
    requires Accepted(log) && k < |log|
    requires At(log, k).turn > turn || (At(log, k).turn == turn && At(log, k).phase.Idle?)
    ensures !(log[k].body.AnswerPublished? && log[k].turn == Some(turn))
  {
    AtNext(log, k);
  }

  lemma {:induction false} NoLaterAnswers(log: Log, j: nat, k: nat, turn: nat)
    requires Accepted(log) && j <= k <= |log| && turn > 0
    requires At(log, j).turn == turn && At(log, j).phase.Idle?
    ensures Answers(log[..k], turn) == Answers(log[..j], turn)
    decreases k
  {
    hide Advance, Run, Answers;
    if j < k {
      NoLaterAnswers(log, j, k - 1, turn);
      Monotone(log, j, k - 1);
      NotAnAnswer(log, k - 1, turn);
      AnswersNext(log, k - 1, turn);
    }
  }

  lemma AnswersNext(log: Log, k: nat, turn: nat)
    requires k < |log|
    ensures Answers(log[..k + 1], turn) ==
            Answers(log[..k], turn) + if log[k].body.AnswerPublished? && log[k].turn == Some(turn) then 1 else 0
  {
    assert log[..k + 1][..k] == log[..k];
  }

  /** A turn ends as completed exactly when it has published exactly one answer; no turn
      publishes two. */
  lemma CompletedIffAnswered(log: Log, j: nat, reason: Reason)
    requires Accepted(log) && j < |log| && log[j].body == TurnEnd(reason)
    ensures log[j].turn.Some? && Answers(log, log[j].turn.value) <= 1
    ensures reason.Completed? <==> Answers(log, log[j].turn.value) == 1
  {
    AtNext(log, j);
    AlwaysSane(log, j);
    AnswersCounted(log, j + 1);
    NoLaterAnswers(log, j + 1, |log|, log[j].turn.value);
    assert log[..|log|] == log;
  }

  // ------------------------------------------------------ calls, approvals

  /** A call id is called once in a log, whatever the turn. */
  lemma CalledOnce(log: Log, i: nat, j: nat)
    requires Accepted(log) && i < j < |log| && log[i].body.ToolCall? && log[j].body.ToolCall?
    ensures log[i].body.call.id != log[j].body.call.id
  {
    AtNext(log, i);
    AtNext(log, j);
    Monotone(log, i + 1, j);
  }

  /** An approval is asked at most once and decided at most once, right after it was asked. */
  lemma AskedOnce(log: Log, i: nat, j: nat)
    requires Accepted(log) && i < j < |log| && log[i].body.ApprovalAsked? && log[j].body.ApprovalAsked?
    ensures log[i].body.approvalId != log[j].body.approvalId
  {
    AtNext(log, i);
    AtNext(log, j);
    Monotone(log, i + 1, j);
  }

  lemma DecidedRightAfterAsked(log: Log, j: nat)
    requires Accepted(log) && j < |log| && log[j].body.ApprovalDecided?
    ensures j > 0 && log[j - 1].body.ApprovalAsked? && log[j - 1].body.approvalId == log[j].body.approvalId
  {
    AtNext(log, j);
    WaitingIsFresh(log, j);
  }

  /** While an approval is awaited, the asking event is the last of the log. */
  lemma WaitingIsFresh(log: Log, k: nat)
    requires Accepted(log) && k <= |log| && At(log, k).phase.Waiting?
    ensures k > 0 && log[k - 1].body.ApprovalAsked? && Here(At(log, k), log[k - 1])
    ensures At(log, k).phase == Waiting(log[k - 1].body.approvalId, log[k - 1].body.call.id)
  {
    AtNext(log, k - 1);
  }

  lemma DecidedOnce(log: Log, i: nat, j: nat)
    requires Accepted(log) && i < j < |log| && log[i].body.ApprovalDecided? && log[j].body.ApprovalDecided?
    ensures log[i].body.approvalId != log[j].body.approvalId
  {
    DecidedRightAfterAsked(log, i);
    DecidedRightAfterAsked(log, j);
    if i < j - 1 { AskedOnce(log, i - 1, j - 1); }
  }

  /** The result of a call, not a trimmed one. */
  predicate Results(e: Event, id: string) {
    e.body.ToolResult? && e.op != Replace && e.body.callId == id
  }

  /** Only its call opens an id, only its result closes it. */
  lemma AdvancePending(a: Auto, e: Event, id: string)
    requires Sane(a) && Advance(a, e).Some?
    ensures var b := Advance(a, e).value;
      && (id in a.pending && id !in b.pending ==> Results(e, id))
      && (Results(e, id) ==> id in a.pending && id !in b.pending)
      && (id in a.called && id !in a.pending ==> id in b.called && id !in b.pending)
      && (e.body.ToolCall? && e.body.call.id == id ==> id !in a.called && id in b.called && id in b.pending)
  {
  }

  lemma NextPending(log: Log, k: nat, id: string)
    requires Accepted(log) && k < |log|
    ensures var a, b := At(log, k), At(log, k + 1);
      && (id in a.pending && id !in b.pending ==> Results(log[k], id))
      && (Results(log[k], id) ==> id in a.pending && id in a.called && id !in b.pending && id in b.called)
      && (id in a.called && id !in a.pending ==> id in b.called && id !in b.pending)
      && (log[k].body.ToolCall? && log[k].body.call.id == id ==> id !in a.called && id in b.called && id in b.pending)
  {
    AtNext(log, k);
    AlwaysSane(log, k);
    NextGrows(log, k);
    AdvancePending(At(log, k), log[k], id);
  }

  lemma {:induction false} StaysClosed(log: Log, i: nat, j: nat, id: string)
    requires Accepted(log) && i <= j <= |log| && id in At(log, i).called && id !in At(log, i).pending
    ensures id in At(log, j).called && id !in At(log, j).pending
    decreases j
  {
    hide Advance, Run;
    if i < j {
      StaysClosed(log, i, j - 1, id);
      NextPending(log, j - 1, id);
    }
  }

  lemma {:induction false} ClosedByResult(log: Log, i: nat, j: nat, id: string) returns (k: nat)
    requires Accepted(log) && i <= j <= |log| && id in At(log, i).pending && id !in At(log, j).pending
    ensures i <= k < j && Results(log[k], id)
    decreases j
  {
    hide Advance, Run;
    if id in At(log, j - 1).pending {
      NextPending(log, j - 1, id);
      k := j - 1;
    } else {
      k := ClosedByResult(log, i, j - 1, id);
    }
  }

  /** A call that is no longer pending has a result, later than the call ... */
  lemma CallIsAnswered(log: Log, i: nat) returns (k: nat)
    requires Accepted(log) && i < |log| && log[i].body.ToolCall? && log[i].body.call.id !in At(log, |log|).pending
    ensures i < k < |log| && Results(log[k], log[i].body.call.id)
  {
    NextPending(log, i, log[i].body.call.id);
    k := ClosedByResult(log, i + 1, |log|, log[i].body.call.id);
  }

  /** ... and only one. */
  lemma AnsweredOnce(log: Log, i: nat, j: nat, id: string)
    requires Accepted(log) && i < j < |log| && Results(log[i], id)
    ensures !Results(log[j], id)
  {
    NextPending(log, i, id);
    StaysClosed(log, i + 1, j, id);
    NextPending(log, j, id);
  }

  /** At rest every call of the log is answered, but for the one that awaits its approval. */
  lemma OnlyTheAskedIsOpen(log: Log)
    requires Accepted(log) && AtRest(At(log, |log|))
    ensures At(log, |log|).phase.Idle? ==> At(log, |log|).pending == {}
    ensures At(log, |log|).phase.Waiting? ==>
              log != [] && log[|log| - 1].body.ApprovalAsked? && At(log, |log|).pending == {log[|log| - 1].body.call.id}
  {
    AlwaysSane(log, |log|);
    if At(log, |log|).phase.Waiting? { WaitingIsFresh(log, |log|); }
  }
}
