/** The session state as a fold over the log (`harness/session/reducer.py`). */
module Reducer {
  import opened Schema
  import opened Events

  datatype SessionState = SessionState(
    run: Option<string>, turn: nat, step: nat, status: string,
    pendingApproval: Option<string>, pendingCalls: seq<string>,
    published: Option<string>, compaction: Option<string>, todos: seq<Todo>, lastSeq: nat)

  const INITIAL := SessionState(None, 0, 0, "idle", None, [], None, None, [], 0)

  function ReasonText(r: Reason): string {
    match r
    case Completed => "completed" case Cancelled => "cancelled" case Error => "error"
    case LlmTimeout => "llm_timeout" case MaxTokens => "max_tokens" case WaitingApproval => "waiting_approval"
    case PersistFailed => "persist_failed" case Rejected => "rejected"
  }

  /** Python's `value or default` for an optional text and for an optional number. */
  function OrText(value: Option<string>, default: Option<string>): Option<string> {
    if value.Some? && value.value != "" then value else default
  }

  function OrNumber(value: Option<nat>, default: nat): nat {
    if value.Some? && value.value != 0 then value.value else default
  }

  function Remove(ids: seq<string>, id: string): seq<string> {
    if ids == [] then [] else (if ids[0] == id then [] else [ids[0]]) + Remove(ids[1..], id)
  }

  function Pending(pending: seq<string>, b: Body): seq<string> {
    match b
    case ToolCall(call) => if call.id != "" && call.id !in pending then pending + [call.id] else pending
    case ToolResult(id, _, _, _, _, _, _) => Remove(pending, id)
    case _ => pending
  }

  /** One event, whatever its number. */
  function Update(s: SessionState, e: Event): SessionState {
    var t := s.(lastSeq := e.seqNo, run := OrText(e.run, s.run), turn := OrNumber(e.turn, s.turn),
                step := OrNumber(e.step, s.step), pendingCalls := Pending(s.pendingCalls, e.body));
    match e.body
    case TurnStart => t.(status := "running")
    case TurnEnd(reason) => t.(status := ReasonText(reason))
    case ApprovalAsked(id, _) => t.(status := "waiting_approval", pendingApproval := OrText(Some(id), None))
    case ApprovalDecided(_, _) => t.(status := "running", pendingApproval := None)
    case AnswerPublished(_) => t.(published := Some(e.id))
    case CompactionSummary(_, _) => t.(compaction := Some(e.id))
    case TodoWrite(todos) => t.(todos := todos)
    case _ => t
  }

  /** Events at or below the last number seen are skipped. */
  function Step(s: SessionState, e: Event): SessionState {
    if e.seqNo <= s.lastSeq then s else Update(s, e)
  }

  function FoldState(s: SessionState, events: Log): SessionState {
    if events == [] then s else Step(FoldState(s, events[..|events| - 1]), events[|events| - 1])
  }

  // ----------------------------------------------------- what a state shows

  datatype Aspect = Todos | Published | Summarized | Status | RunId | TurnNumber | StepNumber

  /** The event speaks of this part of the state. */
  ghost predicate Speaks(e: Event, aspect: Aspect) {
    match aspect
    case Todos => e.body.TodoWrite?
    case Published => e.body.AnswerPublished?
    case Summarized => e.body.CompactionSummary?
    case Status => e.body.TurnStart? || e.body.TurnEnd? || e.body.ApprovalAsked? || e.body.ApprovalDecided?
    case RunId => e.run.Some? && e.run.value != ""
    case TurnNumber => e.turn.Some? && e.turn.value > 0
    case StepNumber => e.step.Some? && e.step.value > 0
  }

  /** What the status is after such an event. */
  ghost predicate TellsStatus(b: Body, status: string) {
    match b
    case TurnEnd(Completed) => status == "completed"
    case TurnEnd(Cancelled) => status == "cancelled"
    case TurnEnd(Error) => status == "error"
    case TurnEnd(LlmTimeout) => status == "llm_timeout"
    case TurnEnd(MaxTokens) => status == "max_tokens"
    case TurnEnd(WaitingApproval) => status == "waiting_approval"
    case TurnEnd(PersistFailed) => status == "persist_failed"
    case TurnEnd(Rejected) => status == "rejected"
    case ApprovalAsked(_, _) => status == "waiting_approval"
    case _ => status == "running"
  }

  /** The part of the state is what the event says of it. */
  ghost predicate Shows(s: SessionState, e: Event, aspect: Aspect) {
    match aspect
    case Todos => e.body.TodoWrite? && s.todos == e.body.todos
    case Published => s.published == Some(e.id)
    case Summarized => s.compaction == Some(e.id)
    case Status => TellsStatus(e.body, s.status)
    case RunId => s.run == e.run
    case TurnNumber => Some(s.turn) == e.turn
    case StepNumber => Some(s.step) == e.step
  }

  ghost predicate Same(s: SessionState, t: SessionState, aspect: Aspect) {
    match aspect
    case Todos => s.todos == t.todos
    case Published => s.published == t.published
    case Summarized => s.compaction == t.compaction
    case Status => s.status == t.status
    case RunId => s.run == t.run
    case TurnNumber => s.turn == t.turn
    case StepNumber => s.step == t.step
  }

  /** The newest event that speaks of the part stands at `k`. */
  ghost predicate Newest(log: Log, k: nat, aspect: Aspect) {
    k < |log| && Speaks(log[k], aspect) && forall j | k < j < |log| :: !Speaks(log[j], aspect)
  }

  lemma UpdateShows(s: SessionState, e: Event, aspect: Aspect)
    ensures if Speaks(e, aspect) then Shows(Update(s, e), e, aspect) else Same(Update(s, e), s, aspect)
  {
    hide Pending;
  }

  lemma FoldNext(log: Log)
    requires log != [] && Contiguous(log) && FoldState(INITIAL, log[..|log| - 1]).lastSeq == |log| - 1
    ensures FoldState(INITIAL, log) == Update(FoldState(INITIAL, log[..|log| - 1]), log[|log| - 1])
    ensures FoldState(INITIAL, log).lastSeq == |log|
  {
    UpdateLast(FoldState(INITIAL, log[..|log| - 1]), log[|log| - 1]);
    hide Update;
    assert log[|log| - 1].seqNo == |log|;
  }

  lemma UpdateLast(s: SessionState, e: Event)
    ensures Update(s, e).lastSeq == e.seqNo
  {
    hide Pending;
  }

  lemma {:induction false} FoldLast(log: Log)
    requires Contiguous(log)
    ensures FoldState(INITIAL, log).lastSeq == |log|
  {
    if log != [] {
      FoldLast(log[..|log| - 1]);
      FoldNext(log);
    }
  }

  /** Each part of a state is what the newest event says that speaks of it ... */
  lemma {:induction false} StateShowsNewest(log: Log, k: nat, aspect: Aspect)
    requires Contiguous(log) && Newest(log, k, aspect)
    ensures Shows(FoldState(INITIAL, log), log[k], aspect)
  {
    hide FoldState, Shows, Same, Speaks;
    var front, e := log[..|log| - 1], log[|log| - 1];
    FoldLast(front);
    FoldNext(log);
    UpdateShows(FoldState(INITIAL, front), e, aspect);
    if k < |front| {
      StateShowsNewest(front, k, aspect);
      SameShows(FoldState(INITIAL, log), FoldState(INITIAL, front), log[k], aspect);
    }
  }

  lemma SameShows(s: SessionState, t: SessionState, e: Event, aspect: Aspect)
    requires Same(s, t, aspect) && Shows(t, e, aspect)
    ensures Shows(s, e, aspect)
  {
  }

  /** ... and what it was at first when no event does. */
  lemma {:induction false} StateShowsNothing(log: Log, aspect: Aspect)
    requires Contiguous(log) && forall j | 0 <= j < |log| :: !Speaks(log[j], aspect)
    ensures Same(FoldState(INITIAL, log), SessionState(None, 0, 0, "idle", None, [], None, None, [], 0), aspect)
  {
    if log != [] {
      hide FoldState, Speaks;
      var front, e := log[..|log| - 1], log[|log| - 1];
      FoldLast(front);
      FoldNext(log);
      UpdateShows(FoldState(INITIAL, front), e, aspect);
      StateShowsNothing(front, aspect);
    }
  }

  // ------------------------------------------------------------- sorting

  function Insert(e: Event, sorted: Log): Log {
    if sorted == [] then [e]
    else if e.seqNo < sorted[|sorted| - 1].seqNo then Insert(e, sorted[..|sorted| - 1]) + [sorted[|sorted| - 1]]
    else sorted + [e]
  }

  /** The stable sort by sequence number. */
  function SortBySeq(events: Log): Log {
    if events == [] then [] else Insert(events[|events| - 1], SortBySeq(events[..|events| - 1]))
  }

  ghost predicate Ordered(s: Log) {
    forall i, j | 0 <= i < j < |s| :: s[i].seqNo <= s[j].seqNo
  }

  lemma {:induction false} InsertOrders(e: Event, s: Log)
    requires Ordered(s)
    ensures Ordered(Insert(e, s)) && multiset(Insert(e, s)) == multiset(s) + multiset{e}
  {
    if s != [] {
      var front, last := s[..|s| - 1], s[|s| - 1];
      assert s == front + [last];
      if e.seqNo < last.seqNo {
        InsertOrders(e, front);
        InsertWithin(e, front, last.seqNo);
        OrderedSnoc(Insert(e, front), last);
      } else {
        OrderedSnoc(s, e);
      }
    }
  }

  lemma OrderedSnoc(s: Log, e: Event)
    requires Ordered(s) && forall i | 0 <= i < |s| :: s[i].seqNo <= e.seqNo
    ensures Ordered(s + [e]) && multiset(s + [e]) == multiset(s) + multiset{e}
  {
  }

  lemma {:induction false} InsertWithin(e: Event, s: Log, bound: nat)
    requires e.seqNo <= bound && forall i | 0 <= i < |s| :: s[i].seqNo <= bound
    ensures forall i | 0 <= i < |Insert(e, s)| :: Insert(e, s)[i].seqNo <= bound
  {
    if s != [] && e.seqNo < s[|s| - 1].seqNo { InsertWithin(e, s[..|s| - 1], bound); }
  }

  lemma {:induction false} SortSorts(events: Log)
    ensures Ordered(SortBySeq(events)) && multiset(SortBySeq(events)) == multiset(events)
  {
    if events != [] {
      var front, last := events[..|events| - 1], events[|events| - 1];
      assert events == front + [last];
      SortSorts(front);
      InsertOrders(last, SortBySeq(front));
    }
  }

  lemma {:induction false} SortedAlready(events: Log)
    requires Ordered(events)
    ensures SortBySeq(events) == events
  {
    if events != [] {
      SortedAlready(events[..|events| - 1]);
      assert events == events[..|events| - 1] + [events[|events| - 1]];
      var s := events[..|events| - 1];
      assert s != [] ==> s[|s| - 1] == events[|events| - 2];
    }
  }

  /** `reduce_session`. */
  method ReduceSession(snapshot: Option<SessionState>, events: Log) returns (state: SessionState)
    ensures state == Reduce(snapshot, events)
  {
    state := if snapshot.Some? then snapshot.value else INITIAL;
    ghost var start := state;
    var sorted := SortBySeq(events);
    for i := 0 to |sorted|
      invariant state == FoldState(start, sorted[..i])
    {
      assert sorted[..i + 1][..i] == sorted[..i];
      if sorted[i].seqNo <= state.lastSeq {
        continue;
      }
      state := Update(state, sorted[i]);
    }
    assert sorted[..|sorted|] == sorted;
  }

  function Reduce(snapshot: Option<SessionState>, events: Log): SessionState {
    FoldState(if snapshot.Some? then snapshot.value else INITIAL, SortBySeq(events))
  }

  // --------------------------------------------------------------- theorems

  lemma {:induction false} FoldAppend(s: SessionState, a: Log, b: Log)
    ensures FoldState(s, a + b) == FoldState(FoldState(s, a), b)
  {
    if b == [] {
      assert a + b == a;
    } else {
      assert (a + b)[..|a + b| - 1] == a + b[..|b| - 1];
      FoldAppend(s, a, b[..|b| - 1]);
    }
  }

  /** After a fold no event of it is new any more. */
  lemma {:induction false} FoldCovers(s: SessionState, events: Log)
    ensures s.lastSeq <= FoldState(s, events).lastSeq
    ensures forall i | 0 <= i < |events| :: events[i].seqNo <= FoldState(s, events).lastSeq
  {
    if events != [] { FoldCovers(s, events[..|events| - 1]); }
  }

  lemma {:induction false} FoldSkips(s: SessionState, events: Log)
    requires forall i | 0 <= i < |events| :: events[i].seqNo <= s.lastSeq
    ensures FoldState(s, events) == s
  {
    if events != [] { FoldSkips(s, events[..|events| - 1]); }
  }

  lemma FoldOverlap(s: SessionState, front: Log, shared: Log, rest: Log)
    requires forall k | 0 <= k < |shared| :: shared[k] in front
    ensures FoldState(FoldState(s, front), shared + rest) == FoldState(s, front + rest)
  {
    FoldCovers(s, front);
    FoldSkips(FoldState(s, front), shared);
    FoldAppend(FoldState(s, front), shared, rest);
    FoldAppend(s, front, rest);
  }

  lemma CutsOrdered(log: Log, i: nat, j: nat)
    requires Increasing(log) && j <= i <= |log|
    ensures SortBySeq(log) == log && SortBySeq(log[..i]) == log[..i] && SortBySeq(log[j..]) == log[j..]
  {
    SortedAlready(log);
    SortedAlready(log[..i]);
    SortedAlready(log[j..]);
  }

  /** A snapshot of a prefix and any suffix that overlaps it reduce to the state of the
      whole log. */
  lemma OverlapReplay(snapshot: Option<SessionState>, log: Log, i: nat, j: nat)
    requires Increasing(log) && j <= i <= |log|
    ensures Reduce(Some(Reduce(snapshot, log[..i])), log[j..]) == Reduce(snapshot, log)
  {
    hide FoldState, SortBySeq;
    CutsOrdered(log, i, j);
    var front, shared, rest := log[..i], log[j..i], log[i..];
    assert log[j..] == shared + rest && log == front + rest;
    assert forall k | 0 <= k < |shared| :: shared[k] == front[j + k];
    FoldOverlap(if snapshot.Some? then snapshot.value else INITIAL, front, shared, rest);
  }

  ghost predicate SeqsDistinct(events: Log) {
    forall i, j | 0 <= i < |events| && 0 <= j < |events| && events[i].seqNo == events[j].seqNo :: events[i] == events[j]
  }

  lemma SameLast(a: Log, b: Log)
    requires Ordered(a) && Ordered(b) && multiset(a) == multiset(b) && SeqsDistinct(a) && a != [] && b != []
    ensures a[|a| - 1] == b[|b| - 1]
  {
    var x, y := a[|a| - 1], b[|b| - 1];
    assert x in multiset(b) && y in multiset(a);
    var i :| 0 <= i < |b| && b[i] == x;
    var j :| 0 <= j < |a| && a[j] == y;
    assert x.seqNo <= y.seqNo <= x.seqNo;
  }

  lemma SameFront(a: Log, b: Log)
    requires multiset(a) == multiset(b) && a != [] && b != [] && a[|a| - 1] == b[|b| - 1]
    ensures multiset(a[..|a| - 1]) == multiset(b[..|b| - 1])
  {
    assert a == a[..|a| - 1] + [a[|a| - 1]] && b == b[..|b| - 1] + [b[|b| - 1]];
    assert multiset(a[..|a| - 1]) == multiset(a) - multiset{a[|a| - 1]};
    assert multiset(b[..|b| - 1]) == multiset(b) - multiset{b[|b| - 1]};
  }

  /** Two ordered lists of the same events, one event to a number, are the same list. */
  lemma {:induction false} OneOrder(a: Log, b: Log)
    requires Ordered(a) && Ordered(b) && multiset(a) == multiset(b) && SeqsDistinct(a)
    ensures a == b
  {
    assert |multiset(a)| == |a| && |multiset(b)| == |b|;
    if a != [] {
      SameLast(a, b);
      SameFront(a, b);
      OneOrder(a[..|a| - 1], b[..|b| - 1]);
      assert a == a[..|a| - 1] + [a[|a| - 1]] && b == b[..|b| - 1] + [b[|b| - 1]];
    }
  }

  /** The order in which the events arrive is of no account. */
  lemma PermutationInvariant(snapshot: Option<SessionState>, a: Log, b: Log)
    requires multiset(a) == multiset(b) && SeqsDistinct(a)
    ensures Reduce(snapshot, a) == Reduce(snapshot, b)
  {
    SortSorts(a);
    SortSorts(b);
    forall i, j | 0 <= i < |SortBySeq(a)| && 0 <= j < |SortBySeq(a)| && SortBySeq(a)[i].seqNo == SortBySeq(a)[j].seqNo
      ensures SortBySeq(a)[i] == SortBySeq(a)[j]
    {
      assert SortBySeq(a)[i] in multiset(a) && SortBySeq(a)[j] in multiset(a);
    }
    OneOrder(SortBySeq(a), SortBySeq(b));
  }

  // ------------------------------------------------------------- round trip

  datatype Json = Null | Number(n: int) | Text(s: string) | Texts(items: seq<string>) | Rows(rows: seq<Todo>)

  type Dict = map<string, Json>

  function OfText(t: Option<string>): Json {
    if t.Some? then Text(t.value) else Null
  }

  /** `state_to_dict`. */
  function ToDict(s: SessionState): Dict {
    map["current_run_id" := OfText(s.run), "current_turn" := Number(s.turn), "current_step" := Number(s.step),
        "status" := Text(s.status), "pending_approval_id" := OfText(s.pendingApproval),
        "pending_tool_calls" := Texts(s.pendingCalls), "published_event_id" := OfText(s.published),
        "latest_compaction_id" := OfText(s.compaction), "latest_todos" := Rows(s.todos),
        "last_event_seq" := Number(s.lastSeq)]
  }

  function Get(d: Dict, key: string): Json {
    if key in d then d[key] else Null
  }

  function TextOr(j: Json, default: string): string {
    if j.Text? && j.s != "" then j.s else default
  }

  function TextOf(j: Json): Option<string> {
    if j.Text? then Some(j.s) else None
  }

  function CountOf(j: Json): nat {
    if j.Number? && j.n > 0 then j.n else 0
  }

  /** `state_from_dict`; a missing dictionary or key gives the default. */
  function FromDict(d: Dict): SessionState {
    SessionState(
      TextOf(Get(d, "current_run_id")), CountOf(Get(d, "current_turn")), CountOf(Get(d, "current_step")),
      TextOr(Get(d, "status"), "idle"), TextOf(Get(d, "pending_approval_id")),
      (var j := Get(d, "pending_tool_calls"); if j.Texts? then j.items else []),
      TextOf(Get(d, "published_event_id")), TextOf(Get(d, "latest_compaction_id")),
      (var j := Get(d, "latest_todos"); if j.Rows? then j.rows else []), CountOf(Get(d, "last_event_seq")))
  }

  /** Writing a state out and reading it back gives the state exactly when its status is
      set, and every reduction sets it. */
  lemma RoundTripIff(s: SessionState)
    ensures FromDict(ToDict(s)) == s <==> s.status != ""
  {
    assert ToDict(s)["status"] == Text(s.status);
  }

  lemma {:induction false} StatusIsSet(s: SessionState, events: Log)
    requires s.status != ""
    ensures FoldState(s, events).status != ""
  {
    if events != [] { StatusIsSet(s, events[..|events| - 1]); }
  }

  lemma ReachableRoundTrips(events: Log)
    ensures FromDict(ToDict(Reduce(None, events))) == Reduce(None, events)
  {
    StatusIsSet(INITIAL, SortBySeq(events));
    RoundTripIff(Reduce(None, events));
  }
}
