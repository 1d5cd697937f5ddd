/** The Postgres store (`harness/session/postgres.py`), one session.  Its log is spread
    over several tables; read back, it is the plain log of the in-memory store. */
module PostgresStore {
  import opened Schema
  import opened Events
  import opened Reducer
  import opened Tables
  import opened TableViews

  /** `agent_sessions`. */
  datatype IndexRow = IndexRow(
    nextSeq: nat, lastSeq: nat, run: Option<string>, turn: nat, step: nat, status: string,
    pendingApproval: Option<string>, compaction: Option<string>, lastCompactedSeq: nat)

  datatype Snapshot = Snapshot(seqNo: nat, state: Dict)

  const SNAPSHOT_INTERVAL: nat := 50

  predicate Snapshots(b: Body) {
    b.ApprovalAsked? || b.ApprovalDecided? || b.AnswerPublished? || b.CompactionSummary? || b.TurnEnd?
  }

  function Max(sources: seq<nat>): nat {
    if sources == [] then 0
    else
      var m := Max(sources[1..]);
      if sources[0] > m then sources[0] else m
  }

  function Min(sources: seq<nat>): nat {
    if sources == [] then 0
    else if |sources| == 1 then sources[0]
    else
      var m := Min(sources[1..]);
      if sources[0] < m then sources[0] else m
  }

  /** The reducer's view and the index row agree. */
  predicate Agrees(row: IndexRow, s: SessionState) {
    && row.lastSeq == s.lastSeq && row.run == s.run && row.turn == s.turn && row.step == s.step
    && row.status == s.status && row.pendingApproval == s.pendingApproval && row.compaction == s.compaction
  }

  /** `append` counting up and `_update_session_index`. */
  function UpdateIndex(row: IndexRow, d: Draft, id: string): IndexRow {
    var r := row.(
      nextSeq := row.nextSeq + 1, lastSeq := row.nextSeq,
      turn := if d.turn.Some? then d.turn.value else row.turn,
      step := if d.step.Some? then d.step.value else row.step,
      run := if d.run.Some? && d.run.value != "" then d.run else row.run);
    match d.body
    case TurnStart => r.(status := "running")
    case TurnEnd(reason) => r.(status := ReasonText(reason))
    case ApprovalAsked(approvalId, _) =>
      r.(status := "waiting_approval", pendingApproval := if approvalId != "" then Some(approvalId) else None)
    case ApprovalDecided(_, _) => r.(status := "running", pendingApproval := None)
    case CompactionSummary(_, _) => r.(compaction := Some(id), lastCompactedSeq := Max(d.sources))
    case _ => r
  }

  /** One update keeps index and reducer in agreement exactly when the event does not
      carry turn or step 0 after a positive one: the reducer takes 0 for missing. */
  lemma AgreesIff(row: IndexRow, s: SessionState, d: Draft, id: string)
    requires Agrees(row, s) && row.nextSeq > s.lastSeq
    ensures Agrees(UpdateIndex(row, d, id), Step(s, Stamp(row.nextSeq, id, d))) <==>
            (d.turn == Some(0) ==> s.turn == 0) && (d.step == Some(0) ==> s.step == 0)
  {
    SameFields(row, s, d, id);
    SameNumbers(row, s, d, id);
  }

  lemma SameNumbers(row: IndexRow, s: SessionState, d: Draft, id: string)
    ensures var r, t := UpdateIndex(row, d, id), Update(s, Stamp(row.nextSeq, id, d));
      && r.lastSeq == t.lastSeq == row.nextSeq
      && r.run == (if d.run.Some? && d.run.value != "" then d.run else row.run) && t.run == OrText(d.run, s.run)
      && r.turn == (if d.turn.Some? then d.turn.value else row.turn) && t.turn == OrNumber(d.turn, s.turn)
      && r.step == (if d.step.Some? then d.step.value else row.step) && t.step == OrNumber(d.step, s.step)
  {
    match d.body case _ =>
  }

  lemma SameFields(row: IndexRow, s: SessionState, d: Draft, id: string)
    requires row.status == s.status && row.pendingApproval == s.pendingApproval && row.compaction == s.compaction
    ensures var r, t := UpdateIndex(row, d, id), Update(s, Stamp(row.nextSeq, id, d));
      r.status == t.status && r.pendingApproval == t.pendingApproval && r.compaction == t.compaction
  {
    match d.body
    case ApprovalAsked(approvalId, _) => assert OrText(Some(approvalId), None) == if approvalId != "" then Some(approvalId) else None;
    case _ =>
  }

  /** Turns and steps are counted from 1. */
  ghost predicate Positive(log: Log) {
    forall i | 0 <= i < |log| :: log[i].turn != Some(0) && log[i].step != Some(0)
  }

  lemma ReduceIsFold(log: Log)
    requires Contiguous(log)
    ensures Reduce(None, log) == FoldState(INITIAL, log)
  {
    SortedAlready(log);
  }

  /** The rows read back as the log. */
  ghost predicate ReadsBack(rows: seq<LogRow>, log: Log, t: Tables) {
    && |rows| == |log|
    && forall i | 0 <= i < |rows| :: EventFromLog(rows[i], t) == Some(log[i]) && rows[i].seqNo == i + 1
  }

  lemma ReadsBackNext(rows: seq<LogRow>, log: Log, before: Tables, after: Tables, row: LogRow, e: Event)
    requires ReadsBack(rows, log, before) && Keeps(before, after)
    requires EventFromLog(row, after) == Some(e) && row.seqNo == |log| + 1
    ensures ReadsBack(rows + [row], log + [e], after)
  {
    forall i | 0 <= i < |rows|
      ensures EventFromLog(rows[i], after) == Some(log[i])
    {
      KeptReads(rows[i], before, after);
    }
  }

  /** The index row counts on and shows what the reducer would. */
  ghost predicate IndexRight(index: IndexRow, log: Log) {
    && index.nextSeq == |log| + 1 && index.lastSeq == |log|
    && (Positive(log) ==> Agrees(index, FoldState(INITIAL, log)))
  }

  lemma IndexNext(index: IndexRow, log: Log, d: Draft, id: string)
    requires IndexRight(index, log) && Contiguous(log)
    ensures IndexRight(UpdateIndex(index, d, id), log + [Stamp(|log| + 1, id, d)])
  {
    var e := Stamp(|log| + 1, id, d);
    var more := log + [e];
    SameNumbers(index, INITIAL, d, id);
    NextSeqGrows(index, d, id);
    if Positive(more) {
      assert more[|log|] == e && more[..|log|] == log;
      assert Positive(log) by { assert forall i | 0 <= i < |log| :: log[i] == more[i]; }
      FoldLast(log);
      AgreesIff(index, FoldState(INITIAL, log), d, id);
    }
  }

  lemma NextSeqGrows(index: IndexRow, d: Draft, id: string)
    ensures UpdateIndex(index, d, id).nextSeq == index.nextSeq + 1
  {
    match d.body case _ =>
  }

  lemma FoldLast(log: Log)
    requires Contiguous(log)
    ensures FoldState(INITIAL, log).lastSeq == |log|
  {
    FoldCovers(INITIAL, log);
    if log != [] { FoldCoversNoMore(log); }
  }

  lemma {:induction false} FoldCoversNoMore(log: Log)
    requires Contiguous(log)
    ensures FoldState(INITIAL, log).lastSeq <= |log|
  {
    if log != [] { FoldCoversNoMore(log[..|log| - 1]); UpdateSeq(FoldState(INITIAL, log[..|log| - 1]), log[|log| - 1]); }
  }

  lemma UpdateSeq(s: SessionState, e: Event)
    ensures Update(s, e).lastSeq == e.seqNo
  {
    match e.body case _ =>
  }

  /** Each snapshot holds the state of the log up to it. */
  ghost predicate SnapshotsRight(snapshots: seq<Snapshot>, log: Log) {
    forall k | 0 <= k < |snapshots| ::
      snapshots[k].seqNo <= |log| && snapshots[k].state == ToDict(FoldState(INITIAL, log[..snapshots[k].seqNo]))
  }

  lemma SnapshotsNext(snapshots: seq<Snapshot>, log: Log, e: Event)
    requires SnapshotsRight(snapshots, log)
    ensures SnapshotsRight(snapshots, log + [e])
  {
    forall k | 0 <= k < |snapshots|
      ensures (log + [e])[..snapshots[k].seqNo] == log[..snapshots[k].seqNo]
    {
    }
  }

  /** A snapshot, the rows after it and, if the new row was flushed already, the new
      event a second time: the state is that of the whole log. */
  lemma SnapshotIsExact(log: Log, at: nat, tail: Log)
    requires Contiguous(log) && at <= |log| && log != []
    requires tail == log[at..] || (at < |log| && tail == log[at..] + [log[|log| - 1]])
    ensures Reduce(Some(FoldState(INITIAL, log[..at])), tail) == FoldState(INITIAL, log)
  {
    TailSorted(log, at, tail);
    TailFolds(log, at);
    if tail != log[at..] {
      FoldAppend(FoldState(INITIAL, log[..at]), log[at..], [log[|log| - 1]]);
      FoldCovers(INITIAL, log);
      FoldSkips(FoldState(INITIAL, log), [log[|log| - 1]]);
    }
  }

  lemma PriorTail(log: Log, at: nat, prior: Log, flushed: bool)
    requires at < |log| && prior == log[at..if flushed then |log| else |log| - 1]
    ensures prior + [log[|log| - 1]] == if flushed then log[at..] + [log[|log| - 1]] else log[at..]
    ensures log[..|log| - 1][..at] == log[..at]
  {
    if flushed {
      assert log[at..|log|] == log[at..];
    } else {
      assert log[at..|log| - 1] + [log[|log| - 1]] == log[at..];
    }
  }

  lemma PriorIsExact(log: Log, at: nat, prior: Log, flushed: bool)
    requires Contiguous(log) && at < |log| && prior == log[at..if flushed then |log| else |log| - 1]
    ensures Reduce(Some(FoldState(INITIAL, log[..|log| - 1][..at])), prior + [log[|log| - 1]]) == FoldState(INITIAL, log)
    ensures Reduce(None, log) == FoldState(INITIAL, log)
  {
    PriorTail(log, at, prior, flushed);
    SnapshotIsExact(log, at, prior + [log[|log| - 1]]);
    ReduceIsFold(log);
  }

  lemma OneMoreRight(snapshots: seq<Snapshot>, log: Log, state: Dict)
    requires SnapshotsRight(snapshots, log) && state == ToDict(FoldState(INITIAL, log))
    ensures SnapshotsRight(snapshots + [Snapshot(|log|, state)], log)
  {
    hide ToDict, FoldState;
    assert log[..|log|] == log;
    var more := snapshots + [Snapshot(|log|, state)];
    assert forall k | 0 <= k < |snapshots| :: more[k] == snapshots[k];
  }

  lemma TailSorted(log: Log, at: nat, tail: Log)
    requires Contiguous(log) && at <= |log| && log != []
    requires tail == log[at..] || (at < |log| && tail == log[at..] + [log[|log| - 1]])
    ensures SortBySeq(tail) == tail
  {
    assert forall i | 0 <= i < |log| - at :: tail[i] == log[at + i];
    assert Ordered(tail);
    SortedAlready(tail);
  }

  lemma TailFolds(log: Log, at: nat)
    requires at <= |log|
    ensures FoldState(FoldState(INITIAL, log[..at]), log[at..]) == FoldState(INITIAL, log)
  {
    assert log == log[..at] + log[at..];
    FoldAppend(INITIAL, log[..at], log[at..]);
  }

  /** Each kind of event has its own table; only the others are kept in the log row. */
  predicate InItsTable(p: Payload, b: Body) {
    match b
    case UserMessage(_, _) => p.Message?
    case AssistantMessage(_, _) => p.Message?
    case AnswerPublished(_) => p.Message?
    case RequestHeader(_) => p.ModelCall?
    case ToolCall(_) => p.ToolCallOf?
    case ToolResult(_, _, _, _, _, _, _) => p.Attempt?
    case ApprovalAsked(_, _) => p.Asking?
    case ApprovalDecided(_, _) => p.Deciding?
    case CompactionSummary(_, _) => p.CompactionOf?
    case TodoWrite(_) => p.TodoOf?
    case _ => p.Inline?
  }

  lemma KeepsTrans(a: Tables, b: Tables, c: Tables)
    requires Keeps(a, b) && Keeps(b, c)
    ensures Keeps(a, c)
  {
  }

  lemma KeptInline(t: Tables, b: Body)
    ensures Keeps(t, t) && DataOf(Inline(b), t) == Some(b)
  {
  }

  lemma CallsStay(keys: seq<string>, calls: Calls, id: string, b: Body)
    requires !b.ToolCall? && !b.ToolResult?
    ensures CallsMove(keys, calls, keys, calls, id, b)
  {
  }

  lemma ApprovalsStay(approvals: map<string, ApprovalRow>, id: string, b: Body)
    requires !b.ApprovalAsked? && !b.ApprovalDecided?
    ensures ApprovalsMove(approvals, approvals, id, b)
  {
  }

  lemma ShowAdded(keys: seq<string>, calls: Calls, id: string, row: ToolCallRow)
    requires id !in calls && forall k | k in keys :: k in calls
    ensures forall provider :: ShownCall(keys + [id], calls[id := row], provider) ==
              if row.provider == provider then Some(row.status) else ShownCall(keys, calls, provider)
    ensures NewestCall(keys + [id], calls[id := row], row.provider) == Some(id)
  {
    forall provider { RowAdded(keys, calls, id, row, provider); }
  }

  lemma ResultMoves(keys: seq<string>, calls: Calls, nextKeys: seq<string>, mid: Calls, key: string, row: ToolCallRow,
                    id: string, b: Body)
    requires b.ToolResult? && forall k | k in nextKeys :: k in mid
    requires forall provider :: provider != b.callId ==>
      ShownCall(nextKeys, mid, provider) == ShownCall(keys, calls, provider)
    requires NewestCall(nextKeys, mid, b.callId) == Some(key) && row.provider == b.callId
    requires row.status == if b.ok then Succeeded else Failed
    ensures CallsMove(keys, calls, nextKeys, mid[key := row], id, b)
  {
    hide ShownCall, NewestCall;
    forall provider
      ensures ShownCall(nextKeys, mid[key := row], provider) == CallAfter(ShownCall(keys, calls, provider), id, b, provider)
    {
      RowChanged(nextKeys, mid, key, row, provider);
    }
  }

  class PostgresSessionStore {
    var messages: map<string, MessageRow>
    var modelCalls: map<string, ModelCallRow>
    var modelCallKeys: seq<string>                  // in order of creation
    var toolCalls: map<string, ToolCallRow>
    var toolCallKeys: seq<string>                   // in order of creation
    var attempts: map<string, AttemptRow>
    var approvals: map<string, ApprovalRow>
    var compactions: map<string, CompactionRow>
    var todos: map<string, TodoRow>
    var rows: seq<LogRow>
    var index: IndexRow
    var snapshots: seq<Snapshot>
    ghost var log: Log

    function Stored(): Tables
      reads this
    {
      Tables(messages, modelCalls, toolCalls, attempts, approvals, compactions, todos)
    }

    ghost predicate KeysKnown()
      reads this
    {
      && (forall k | k in modelCallKeys :: k in modelCalls)
      && (forall k | k in toolCallKeys :: k in toolCalls)
    }

    ghost predicate Valid()
      reads this
    {
      && Contiguous(log) && KeysKnown() && Numbered(toolCalls, attempts)
      && ReadsBack(rows, log, Stored()) && IndexRight(index, log) && SnapshotsRight(snapshots, log)
      && ApprovalsRight(approvals, log) && CallsRight(toolCallKeys, toolCalls, log)
    }

    constructor ()
      ensures Valid() && log == []
    {
      messages, modelCalls, toolCalls, attempts := map[], map[], map[], map[];
      approvals, compactions, todos := map[], map[], map[];
      modelCallKeys, toolCallKeys, rows, snapshots, log := [], [], [], [], [];
      index := IndexRow(1, 0, None, 0, 0, "idle", None, None, 0);
    }

    // ------------------------------------------------ _write_domain_record

    /** The newest running model call of the step. */
    static ghost predicate NewestRunning(keys: seq<string>, calls: map<string, ModelCallRow>, run: string, step: nat, i: nat) {
      && i < |keys| && IsRunning(calls, keys[i], run, step)
      && forall j | i < j < |keys| :: !IsRunning(calls, keys[j], run, step)
    }

    static ghost predicate IsRunning(calls: map<string, ModelCallRow>, key: string, run: string, step: nat) {
      key in calls && calls[key].running && calls[key].run == run && calls[key].step == step
    }

    method RunningCall(run: string, step: nat) returns (key: Option<string>)
      requires KeysKnown()
      ensures key.None? ==> forall i: nat :: !NewestRunning(modelCallKeys, modelCalls, run, step, i)
      ensures key.Some? ==> exists i: nat :: NewestRunning(modelCallKeys, modelCalls, run, step, i) && key.value == modelCallKeys[i]
    {
      var i := |modelCallKeys|;
      while i > 0
        invariant 0 <= i <= |modelCallKeys|
        invariant forall j | i <= j < |modelCallKeys| :: !IsRunning(modelCalls, modelCallKeys[j], run, step)
      {
        i := i - 1;
        var call := modelCalls[modelCallKeys[i]];
        if call.run == run && call.step == step && call.running {
          assert NewestRunning(modelCallKeys, modelCalls, run, step, i);
          return Some(modelCallKeys[i]);
        }
      }
      return None;
    }

    /** The draft is the model's answer in a step of a run. */
    static predicate Answers(d: Draft) {
      d.body.AssistantMessage? && d.run.Some? && d.run.value != "" && d.step.Some? && d.step.value > 0
    }

    method WriteMessage(seqNo: nat, id: string, d: Draft) returns (p: Payload)
      requires KeysKnown() && FreshId(id, Stored())
      requires d.body.UserMessage? || d.body.AssistantMessage? || d.body.AnswerPublished?
      modifies `messages, `modelCalls
      ensures KeysKnown() && Keeps(old(Stored()), Stored()) && DataOf(p, Stored()) == Some(d.body) && p == Message(id)
      ensures messages == old(messages)[id := MessageRow(seqNo, d.run, d.turn, d.step, d.body.UserMessage?, d.body.content,
                                                         d.body.AnswerPublished?, d.body)]
      ensures modelCalls.Keys == old(modelCalls).Keys
      ensures Answers(d) ==> forall i: nat | NewestRunning(modelCallKeys, old(modelCalls), d.run.value, d.step.value, i) ::
                var k := modelCallKeys[i]; modelCalls == old(modelCalls)[k := old(modelCalls)[k].(running := false, response := Some(id))]
      ensures !Answers(d) || (forall i: nat :: !NewestRunning(modelCallKeys, old(modelCalls), d.run.value, d.step.value, i)) ==>
                modelCalls == old(modelCalls)
    {
      messages := messages[id := MessageRow(seqNo, d.run, d.turn, d.step, d.body.UserMessage?, d.body.content,
                                            d.body.AnswerPublished?, d.body)];
      if d.body.AssistantMessage? && d.run.Some? && d.run.value != "" && OrNumber(d.step, 0) != 0 {
        var key := RunningCall(d.run.value, d.step.value);
        if key.Some? {
          modelCalls := modelCalls[key.value := modelCalls[key.value].(running := false, response := Some(id))];
        }
      }
      p := Message(id);
    }

    method WriteModelCall(seqNo: nat, id: string, d: Draft) returns (p: Payload)
      requires KeysKnown() && FreshId(id, Stored()) && d.body.RequestHeader? && seqNo > 0
      modifies `modelCalls, `modelCallKeys
      ensures KeysKnown() && Keeps(old(Stored()), Stored()) && DataOf(p, Stored()) == Some(d.body) && p == ModelCall(id)
      ensures modelCalls == old(modelCalls)[id := ModelCallRow(RunText(d), OrNumber(d.turn, 0), OrNumber(d.step, 0),
                                                               true, None, seqNo - 1, d.body)]
      ensures modelCallKeys == old(modelCallKeys) + [id]
    {
      modelCalls := modelCalls[id := ModelCallRow(RunText(d), OrNumber(d.turn, 0), OrNumber(d.step, 0),
                                                  true, None, seqNo - 1, d.body)];
      modelCallKeys := modelCallKeys + [id];
      p := ModelCall(id);
    }

    static function RunText(d: Draft): string {
      if d.run.Some? then d.run.value else ""
    }

    method WriteToolCall(id: string, d: Draft) returns (p: Payload)
      requires KeysKnown() && FreshId(id, Stored()) && d.body.ToolCall? && Numbered(toolCalls, attempts)
      modifies `toolCalls, `toolCallKeys
      ensures KeysKnown() && Keeps(old(Stored()), Stored()) && DataOf(p, Stored()) == Some(d.body)
      ensures p == ToolCallOf(id) && Numbered(toolCalls, attempts)
      ensures toolCalls.Keys == old(toolCalls).Keys + {id} && forall k | k in old(toolCalls) :: toolCalls[k] == old(toolCalls)[k]
      ensures CallsMove(old(toolCallKeys), old(toolCalls), toolCallKeys, toolCalls, id, d.body)
      ensures var row := toolCalls[id];
        && row.status == NotRun && row.attempts == 0 && row.run == RunText(d)
        && row.turn == OrNumber(d.turn, 0) && row.step == OrNumber(d.step, 0)
        && row.provider == (if d.body.call.id != "" then d.body.call.id else id)
        && row.name == (if d.body.call.name != "" then d.body.call.name else "unknown")
    {
      var call := d.body.call;
      AddCall(id, ToolCallRow(if call.id != "" then call.id else id, RunText(d), OrNumber(d.turn, 0), OrNumber(d.step, 0),
                              if call.name != "" then call.name else "unknown", NotRun, 0, "", "", "", Some(d.body)));
      ShowAdded(old(toolCallKeys), old(toolCalls), id, toolCalls[id]);
      p := ToolCallOf(id);
    }

    method AddCall(id: string, row: ToolCallRow)
      requires KeysKnown() && id !in toolCalls && Numbered(toolCalls, attempts) && row.attempts == 0
      modifies `toolCalls, `toolCallKeys
      ensures KeysKnown() && Keeps(old(Stored()), Stored()) && Numbered(toolCalls, attempts)
      ensures toolCalls == old(toolCalls)[id := row] && toolCallKeys == old(toolCallKeys) + [id]
    {
      NewCall(toolCalls, attempts, id, row);
      toolCalls := toolCalls[id := row];
      toolCallKeys := toolCallKeys + [id];
    }

    /** The newest call with the provider's id. */
    method LatestCall(provider: string) returns (key: Option<string>)
      requires KeysKnown()
      ensures key == NewestCall(toolCallKeys, toolCalls, provider)
    {
      var i := |toolCallKeys|;
      assert toolCallKeys[..i] == toolCallKeys;
      while i > 0
        invariant 0 <= i <= |toolCallKeys| && KeysKnown()
        invariant NewestCall(toolCallKeys[..i], toolCalls, provider) == NewestCall(toolCallKeys, toolCalls, provider)
      {
        assert toolCallKeys[..i][..i - 1] == toolCallKeys[..i - 1];
        i := i - 1;
        if toolCalls[toolCallKeys[i]].provider == provider {
          return Some(toolCallKeys[i]);
        }
      }
      return None;
    }

    /** The newest call of a result; a result without a call gets one. */
    method CallOf(spare: string, d: Draft) returns (key: string)
      requires KeysKnown() && spare !in toolCalls && Numbered(toolCalls, attempts) && d.body.ToolResult?
      modifies `toolCalls, `toolCallKeys
      ensures KeysKnown() && Keeps(old(Stored()), Stored()) && Numbered(toolCalls, attempts)
      ensures NewestCall(toolCallKeys, toolCalls, d.body.callId) == Some(key)
      ensures forall provider :: provider != d.body.callId ==>
        ShownCall(toolCallKeys, toolCalls, provider) == ShownCall(old(toolCallKeys), old(toolCalls), provider)
    {
      hide ShownCall, NewestCall, Numbered;
      var found := LatestCall(d.body.callId);
      if found.Some? {
        return found.value;
      }
      AddCall(spare, ToolCallRow(d.body.callId, RunText(d), OrNumber(d.turn, 0), OrNumber(d.step, 0),
                                 if d.body.name != "" then d.body.name else "unknown", NotRun, 0, "", "", "", None));
      ShowAdded(old(toolCallKeys), old(toolCalls), spare, toolCalls[spare]);
      key := spare;
    }

    /** A result finishes an attempt of its call. */
    method WriteToolResult(id: string, spare: string, d: Draft) returns (p: Payload)
      requires KeysKnown() && FreshId(id, Stored()) && spare !in toolCalls && Numbered(toolCalls, attempts) && d.body.ToolResult?
      modifies `toolCalls, `toolCallKeys, `attempts
      ensures KeysKnown() && Keeps(old(Stored()), Stored()) && DataOf(p, Stored()) == Some(d.body) && Numbered(toolCalls, attempts)
      ensures CallsMove(old(toolCallKeys), old(toolCalls), toolCallKeys, toolCalls, id, d.body)
      ensures p == Attempt(id)
    {
      hide ShownCall, NewestCall, Numbered, Keeps;
      ghost var one := Stored();
      var key := CallOf(spare, d);
      ghost var two, keys, calls := Stored(), toolCallKeys, toolCalls;
      FinishAttempt(id, key, d.body);
      KeepsTrans(one, two, Stored());
      ResultMoves(old(toolCallKeys), old(toolCalls), keys, calls, key, toolCalls[key], id, d.body);
      p := Attempt(id);
    }

    method FinishAttempt(id: string, key: string, b: Body)
      requires KeysKnown() && key in toolCalls && id !in attempts && Numbered(toolCalls, attempts) && b.ToolResult?
      modifies `toolCalls, `attempts
      ensures KeysKnown() && Keeps(old(Stored()), Stored()) && Numbered(toolCalls, attempts) && toolCallKeys == old(toolCallKeys)
      ensures attempts == old(attempts)[id := AttemptRow(key, old(toolCalls)[key].attempts + 1,
                                                         if b.ok then Succeeded else Failed, b.content, b)]
      ensures toolCalls == old(toolCalls)[key := old(toolCalls)[key].(
                attempts := old(toolCalls)[key].attempts + 1, status := if b.ok then Succeeded else Failed,
                content := b.content, errorCode := b.error, errorClass := b.errorClass)]
    {
      var call := toolCalls[key].(attempts := toolCalls[key].attempts + 1, status := if b.ok then Succeeded else Failed,
                                  content := b.content, errorCode := b.error, errorClass := b.errorClass);
      var attempt := AttemptRow(key, call.attempts, call.status, b.content, b);
      NextAttempt(toolCalls, attempts, key, call, id, attempt);
      toolCalls := toolCalls[key := call];
      attempts := attempts[id := attempt];
    }

    method WriteAsked(id: string, d: Draft) returns (p: Payload)
      requires d.body.ApprovalAsked? && ApprovalKey(d.body, id) !in approvals
      modifies `approvals
      ensures Keeps(old(Stored()), Stored()) && DataOf(p, Stored()) == Some(d.body) && p == Asking(ApprovalKey(d.body, id))
      ensures approvals == old(approvals)[ApprovalKey(d.body, id) := ApprovalRow(RunText(d), Undecided, "", d.body)]
      ensures ApprovalsMove(old(approvals), approvals, id, d.body)
    {
      approvals := approvals[ApprovalKey(d.body, id) := ApprovalRow(RunText(d), Undecided, "", d.body)];
      p := Asking(ApprovalKey(d.body, id));
    }

    method WriteDecided(d: Draft, ghost id: string) returns (p: Payload)
      requires d.body.ApprovalDecided?
      modifies `approvals
      ensures Keeps(old(Stored()), Stored()) && DataOf(p, Stored()) == Some(d.body) && p.Deciding?
      ensures var key := d.body.approvalId;
        approvals == if key != "" && key in old(approvals)
                     then old(approvals)[key := old(approvals)[key].(
                            status := if d.body.decision == "allow" then Allowed else Denied, decision := d.body.decision)]
                     else old(approvals)
      ensures ApprovalsMove(old(approvals), approvals, id, d.body)
    {
      var key := d.body.approvalId;
      if key != "" && key in approvals {
        approvals := approvals[key := approvals[key].(
          status := if d.body.decision == "allow" then Allowed else Denied, decision := d.body.decision)];
      }
      p := Deciding(if key != "" then Some(key) else None, d.body);
    }

    static function Versions(todos: map<string, TodoRow>, turn: nat): nat {
      |set k | k in todos && todos[k].turn == turn|
    }

    method WriteRest(seqNo: nat, id: string, d: Draft) returns (p: Payload)
      requires FreshId(id, Stored()) && (d.body.CompactionSummary? || d.body.TodoWrite?)
      modifies `compactions, `todos
      ensures Keeps(old(Stored()), Stored()) && DataOf(p, Stored()) == Some(d.body)
      ensures p == (if d.body.TodoWrite? then TodoOf(id) else CompactionOf(id))
      ensures compactions == if d.body.TodoWrite? then old(compactions) else old(compactions)[id :=
                CompactionRow(RunText(d), OrNumber(d.turn, 0), Min(d.sources), Max(d.sources), d.sources, d.body)]
      ensures todos == if d.body.CompactionSummary? then old(todos) else old(todos)[id :=
                TodoRow(seqNo, OrNumber(d.turn, 0), Versions(old(todos), OrNumber(d.turn, 0)) + 1, d.body)]
    {
      var turn := OrNumber(d.turn, 0);
      if d.body.CompactionSummary? {
        compactions := compactions[id := CompactionRow(RunText(d), turn, Min(d.sources), Max(d.sources), d.sources, d.body)];
        p := CompactionOf(id);
      } else {
        var version := Versions(todos, turn) + 1;
        todos := todos[id := TodoRow(seqNo, turn, version, d.body)];
        p := TodoOf(id);
      }
    }

    method WriteApproval(id: string, d: Draft) returns (p: Payload)
      requires d.body.ApprovalAsked? || d.body.ApprovalDecided?
      requires d.body.ApprovalAsked? ==> ApprovalKey(d.body, id) !in approvals
      modifies `approvals
      ensures Keeps(old(Stored()), Stored()) && DataOf(p, Stored()) == Some(d.body) && InItsTable(p, d.body)
      ensures ApprovalsMove(old(approvals), approvals, id, d.body)
    {
      hide ApprovalsMove, Keeps, DataOf;
      if d.body.ApprovalAsked? {
        p := WriteAsked(id, d);
      } else {
        p := WriteDecided(d, id);
      }
    }

    method WriteCallOrResult(id: string, spare: string, d: Draft) returns (p: Payload)
      requires KeysKnown() && FreshId(id, Stored()) && spare !in toolCalls && Numbered(toolCalls, attempts)
      requires d.body.ToolCall? || d.body.ToolResult?
      modifies `toolCalls, `toolCallKeys, `attempts
      ensures KeysKnown() && Numbered(toolCalls, attempts) && Keeps(old(Stored()), Stored())
      ensures DataOf(p, Stored()) == Some(d.body) && InItsTable(p, d.body)
      ensures CallsMove(old(toolCallKeys), old(toolCalls), toolCallKeys, toolCalls, id, d.body)
    {
      hide CallsMove, Keeps, DataOf, Numbered, FreshId;
      if d.body.ToolCall? {
        p := WriteToolCall(id, d);
      } else {
        p := WriteToolResult(id, spare, d);
      }
    }

    /** What is assumed of the ids: fresh event and row ids, each approval asked once. */
    predicate IdsFresh(id: string, spare: string, b: Body)
      reads this
    {
      FreshId(id, Stored()) && spare !in toolCalls
      && (b.ApprovalAsked? ==> ApprovalKey(b, id) !in approvals)
    }

    /** `_write_domain_record`: whatever the kind, the payload reads back as what was
        written and every older row still reads back as before. */
    method WriteDomainRecord(seqNo: nat, id: string, spare: string, d: Draft) returns (p: Payload)
      requires KeysKnown() && Numbered(toolCalls, attempts) && IdsFresh(id, spare, d.body) && seqNo > 0
      modifies `messages, `modelCalls, `modelCallKeys, `toolCalls, `toolCallKeys, `attempts, `approvals, `compactions, `todos
      ensures KeysKnown() && Numbered(toolCalls, attempts) && Keeps(old(Stored()), Stored())
      ensures DataOf(p, Stored()) == Some(d.body) && InItsTable(p, d.body)
      ensures ApprovalsMove(old(approvals), approvals, id, d.body)
      ensures CallsMove(old(toolCallKeys), old(toolCalls), toolCallKeys, toolCalls, id, d.body)
    {
      hide CallsMove, ApprovalsMove, Keeps, DataOf, Numbered, ApprovalKey, FreshId, RunText, Versions;
      if !d.body.ToolCall? && !d.body.ToolResult? { CallsStay(toolCallKeys, toolCalls, id, d.body); }
      if !d.body.ApprovalAsked? && !d.body.ApprovalDecided? { ApprovalsStay(approvals, id, d.body); }
      KeptInline(Stored(), d.body);
      match d.body {
        case UserMessage(_, _) => p := WriteMessage(seqNo, id, d);
        case AssistantMessage(_, _) => p := WriteMessage(seqNo, id, d);
        case AnswerPublished(_) => p := WriteMessage(seqNo, id, d);
        case RequestHeader(_) => p := WriteModelCall(seqNo, id, d);
        case ToolCall(_) => p := WriteCallOrResult(id, spare, d);
        case ToolResult(_, _, _, _, _, _, _) => p := WriteCallOrResult(id, spare, d);
        case ApprovalAsked(_, _) => p := WriteApproval(id, d);
        case ApprovalDecided(_, _) => p := WriteApproval(id, d);
        case CompactionSummary(_, _) => p := WriteRest(seqNo, id, d);
        case TodoWrite(_) => p := WriteRest(seqNo, id, d);
        case _ => p := Inline(d.body);
      }
    }

    // ------------------------------------------------------------- reading

    /** The events of the first `upTo` rows numbered above `afterSeq`. */
    method ReadRows(afterSeq: nat, upTo: nat) returns (events: Log)
      requires ReadsBack(rows, log, Stored()) && upTo <= |rows|
      ensures events == if afterSeq <= upTo then log[afterSeq..upTo] else []
    {
      events := [];
      for i := 0 to upTo
        invariant events == if afterSeq <= i then log[afterSeq..i] else []
      {
        if rows[i].seqNo > afterSeq {
          var e := EventFromLog(rows[i], Stored());
          events := events + [e.value];
        }
      }
    }

    /** `load_events`. */
    method LoadEvents(afterSeq: nat) returns (tail: Log)
      requires Valid()
      ensures tail == if afterSeq <= |log| then log[afterSeq..] else []
    {
      tail := ReadRows(afterSeq, |rows|);
    }

    /** The state of the newest snapshot, read back from its dictionary. */
    method LatestState(ghost covered: Log) returns (state: SessionState)
      requires SnapshotsRight(snapshots, covered) && Contiguous(covered)
      ensures state.lastSeq <= |covered| && state == FoldState(INITIAL, covered[..state.lastSeq])
      ensures forall k | 0 <= k < |snapshots| :: snapshots[k].seqNo <= state.lastSeq
      ensures if snapshots == [] then state == INITIAL else exists k :: 0 <= k < |snapshots| && snapshots[k].seqNo == state.lastSeq
    {
      assert covered[..0] == [] && FoldState(INITIAL, covered[..0]) == INITIAL;
      hide FoldState, ToDict, FromDict;
      state := INITIAL;
      var newest := 0;
      for k := 0 to |snapshots|
        invariant state.lastSeq <= |covered| && state == FoldState(INITIAL, covered[..state.lastSeq])
        invariant newest == state.lastSeq && forall j | 0 <= j < k :: snapshots[j].seqNo <= newest
        invariant if k == 0 then state == INITIAL else exists j :: 0 <= j < k && snapshots[j].seqNo == newest
      {
        if snapshots[k].seqNo >= newest {
          newest := snapshots[k].seqNo;
          state := FromDict(snapshots[k].state);
          StateAt(covered, snapshots[k].seqNo);
        }
      }
    }

    /** `load_state`: the newest snapshot and the rows after it. */
    method LoadState() returns (state: SessionState)
      requires Valid()
      ensures state == Reduce(None, log)
    {
      var base := LatestState(log);
      var tail := ReadRows(base.lastSeq, |rows|);
      state := ReduceSession(Some(base), tail);
      ReduceIsFold(log);
      if log != [] { SnapshotIsExact(log, base.lastSeq, tail); }
    }

    // ------------------------------------------------------------- writing

    /** `_maybe_write_state_snapshot`; the query may or may not see the new row. */
    method MaybeWriteSnapshot(event: Event, flushed: bool)
      requires Contiguous(log) && ReadsBack(rows, log, Stored()) && log != [] && event == log[|log| - 1]
      requires SnapshotsRight(snapshots, log[..|log| - 1])
      modifies `snapshots
      ensures SnapshotsRight(snapshots, log)
      ensures snapshots == old(snapshots) || snapshots == old(snapshots) + [Snapshot(|log|, ToDict(Reduce(None, log)))]
      ensures snapshots != old(snapshots) <==> Snapshots(event.body) || event.seqNo % SNAPSHOT_INTERVAL == 0
    {
      hide FoldState, Reduce, ToDict, EventFromLog;
      SnapshotsNext(snapshots, log[..|log| - 1], event);
      assert log[..|log| - 1] + [event] == log;
      if !Snapshots(event.body) && event.seqNo % SNAPSHOT_INTERVAL != 0 {
        return;
      }
      var base := LatestState(log[..|log| - 1]);
      var prior := ReadRows(base.lastSeq, if flushed then |rows| else |rows| - 1);
      var state := ReduceSession(Some(base), prior + [event]);
      PriorIsExact(log, base.lastSeq, prior, flushed);
      snapshots := snapshots + [Snapshot(event.seqNo, ToDict(state))];
      OneMoreRight(old(snapshots), log, ToDict(state));
    }

    /** `append`: the same contract as the in-memory store. */
    method Append(d: Draft, id: string, spare: string, flushed: bool) returns (r: Option<Event>)
      requires Valid() && IdsFresh(id, spare, d.body)
      modifies this
      ensures Valid()
      ensures r.None? <==> Normalize(d).None?
      ensures r.None? ==> log == old(log)
      ensures r.Some? ==> r.value == Stamp(|old(log)| + 1, id, Normalize(d).value)
      ensures r.Some? ==> log == old(log) + [r.value]
      ensures Keeps(old(Stored()), Stored())
      ensures r.Some? ==> index == UpdateIndex(old(index), Normalize(d).value, id)
      ensures r.Some? ==> |rows| == |old(rows)| + 1 && InItsTable(rows[|old(rows)|].payload, d.body)
    {
      hide UpdateIndex, EventFromLog, Normalize, IndexRight, SnapshotsRight, InItsTable, ApprovalKey,
        ReadsBack, ApprovalsRight, CallsRight, ApprovalsMove, CallsMove, Numbered, Keeps, DataOf, FreshId;
      KeptInline(Stored(), d.body);
      var n := Normalize(d);
      if n.None? {
        return None;
      }
      NormalizedBody(d);
      ghost var before := Stored();
      var seqNo := index.nextSeq;
      NextIsNext(index, log);
      var p := WriteDomainRecord(seqNo, id, spare, n.value);
      var row := RowOf(seqNo, id, n.value, p);
      var event := Stamp(seqNo, id, n.value);
      RowReads(seqNo, id, n.value, p, Stored());
      ReadsBackNext(rows, log, before, Stored(), row, event);
      IndexNext(index, log, n.value, id);
      ViewsNext(old(approvals), approvals, old(toolCallKeys), old(toolCalls), toolCallKeys, toolCalls, log, event);
      assert (log + [event])[..|log|] == log;
      rows := rows + [row];
      log := log + [event];
      index := UpdateIndex(index, n.value, id);
      MaybeWriteSnapshot(event, flushed);
      r := EventFromLog(row, Stored());
    }
  }

  lemma NextIsNext(index: IndexRow, log: Log)
    requires IndexRight(index, log)
    ensures index.nextSeq == |log| + 1
  {
  }

  lemma NormalizedBody(d: Draft)
    requires Normalize(d).Some?
    ensures Normalize(d).value.body == d.body
  {
  }

  /** The row of an event reads back as the event. */
  lemma RowReads(seqNo: nat, id: string, d: Draft, p: Payload, t: Tables)
    requires DataOf(p, t) == Some(d.body)
    ensures EventFromLog(RowOf(seqNo, id, d, p), t) == Some(Stamp(seqNo, id, d))
  {
  }

  lemma StateAt(log: Log, at: nat)
    requires Contiguous(log) && at <= |log|
    ensures FromDict(ToDict(FoldState(INITIAL, log[..at]))) == FoldState(INITIAL, log[..at])
    ensures FoldState(INITIAL, log[..at]).lastSeq == at
  {
    StatusIsSet(INITIAL, log[..at]);
    RoundTripIff(FoldState(INITIAL, log[..at]));
    FoldLast(log[..at]);
  }
}
