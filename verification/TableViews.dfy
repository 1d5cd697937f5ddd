/** What the approval and tool-call tables show of the log, and that on every log of the
    agent the rows left open are the calls and the approvals still pending. */
module TableViews {
  import opened Schema
  import opened Events
  import opened Tables
  import opened Projections
  import opened Protocol
  import ProtocolState

  // ------------------------------------------------------------- approvals

  /** The key of an approval row: an approval asked without an id goes by its event. */
  function ApprovalKey(b: Body, id: string): string
    requires b.ApprovalAsked?
  {
    if b.approvalId != "" then b.approvalId else id
  }

  function ShownApproval(approvals: map<string, ApprovalRow>, key: string): Option<ApprovalStatus> {
    if key in approvals then Some(approvals[key].status) else None
  }

  /** What an event does to the status of one approval. */
  function ApprovalAfter(was: Option<ApprovalStatus>, id: string, b: Body, key: string): Option<ApprovalStatus> {
    match b
    case ApprovalAsked(_, _) => if ApprovalKey(b, id) == key then Some(Undecided) else was
    case ApprovalDecided(approvalId, decision) =>
      if approvalId == key && key != "" && was.Some? then Some(if decision == "allow" then Allowed else Denied) else was
    case _ => was
  }

  function LoggedApproval(log: Log, key: string): Option<ApprovalStatus> {
    if log == [] then None
    else ApprovalAfter(LoggedApproval(log[..|log| - 1], key), log[|log| - 1].id, log[|log| - 1].body, key)
  }

  /** The table shows the approvals as the log has them. */
  ghost predicate ApprovalsRight(approvals: map<string, ApprovalRow>, log: Log) {
    forall key :: ShownApproval(approvals, key) == LoggedApproval(log, key)
  }

  ghost predicate ApprovalsMove(before: map<string, ApprovalRow>, after: map<string, ApprovalRow>, id: string, b: Body) {
    forall key :: ShownApproval(after, key) == ApprovalAfter(ShownApproval(before, key), id, b, key)
  }

  // ------------------------------------------------------------ tool calls

  /** The newest row of a provider's call id; `keys` are in order of creation. */
  function NewestCall(keys: seq<string>, calls: Calls, provider: string): (r: Option<string>)
    ensures r.Some? ==> r.value in keys && r.value in calls && calls[r.value].provider == provider
  {
    if keys == [] then None
    else
      var last := keys[|keys| - 1];
      if last in calls && calls[last].provider == provider then Some(last) else NewestCall(keys[..|keys| - 1], calls, provider)
  }

  function ShownCall(keys: seq<string>, calls: Calls, provider: string): Option<CallStatus> {
    var key := NewestCall(keys, calls, provider);
    if key.Some? then Some(calls[key.value].status) else None
  }

  /** What an event does to the status of one call. */
  function CallAfter(was: Option<CallStatus>, id: string, b: Body, provider: string): Option<CallStatus> {
    match b
    case ToolCall(call) => if (if call.id != "" then call.id else id) == provider then Some(NotRun) else was
    case ToolResult(callId, _, ok, _, _, _, _) =>
      if callId == provider then Some(if ok then Succeeded else Failed) else was
    case _ => was
  }

  function LoggedCall(log: Log, provider: string): Option<CallStatus> {
    if log == [] then None
    else CallAfter(LoggedCall(log[..|log| - 1], provider), log[|log| - 1].id, log[|log| - 1].body, provider)
  }

  ghost predicate CallsRight(keys: seq<string>, calls: Calls, log: Log) {
    forall provider :: ShownCall(keys, calls, provider) == LoggedCall(log, provider)
  }

  ghost predicate CallsMove(keys: seq<string>, calls: Calls, nextKeys: seq<string>, next: Calls, id: string, b: Body) {
    forall provider :: ShownCall(nextKeys, next, provider) == CallAfter(ShownCall(keys, calls, provider), id, b, provider)
  }

  lemma ViewsNext(approvals: map<string, ApprovalRow>, approvalsNext: map<string, ApprovalRow>,
                  keys: seq<string>, calls: Calls, keysNext: seq<string>, callsNext: Calls, log: Log, e: Event)
    requires ApprovalsRight(approvals, log) && ApprovalsMove(approvals, approvalsNext, e.id, e.body)
    requires CallsRight(keys, calls, log) && CallsMove(keys, calls, keysNext, callsNext, e.id, e.body)
    ensures ApprovalsRight(approvalsNext, log + [e]) && CallsRight(keysNext, callsNext, log + [e])
  {
    hide ApprovalAfter, CallAfter, ShownApproval, ShownCall;
    assert (log + [e])[..|log|] == log;
  }

  /** Rows that are not of this provider may change. */
  lemma {:induction false} SameNewest(keys: seq<string>, a: Calls, b: Calls, provider: string)
    requires forall k | k in keys :: k in a && k in b && (a[k].provider == provider <==> b[k].provider == provider)
    ensures NewestCall(keys, a, provider) == NewestCall(keys, b, provider)
  {
    if keys != [] { SameNewest(keys[..|keys| - 1], a, b, provider); }
  }

  /** A new row is the newest of its provider. */
  lemma RowAdded(keys: seq<string>, calls: Calls, id: string, row: ToolCallRow, provider: string)
    requires id !in calls && forall k | k in keys :: k in calls
    ensures ShownCall(keys + [id], calls[id := row], provider) ==
            if row.provider == provider then Some(row.status) else ShownCall(keys, calls, provider)
  {
    assert (keys + [id])[..|keys|] == keys;
    SameNewest(keys, calls, calls[id := row], provider);
  }

  /** A new status in the newest row of a provider is what is shown of that provider. */
  lemma RowChanged(keys: seq<string>, calls: Calls, key: string, row: ToolCallRow, provider: string)
    requires forall k | k in keys :: k in calls
    requires key in calls && row.provider == calls[key].provider && NewestCall(keys, calls, row.provider) == Some(key)
    ensures ShownCall(keys, calls[key := row], provider) ==
            if row.provider == provider then Some(row.status) else ShownCall(keys, calls, provider)
  {
    SameNewest(keys, calls, calls[key := row], provider);
  }

  // -------------------------------------------------------------- theorems

  lemma OneCallOpen(a: Auto, e: Event, was: Option<CallStatus>, provider: string)
    requires Sane(a) && Advance(a, e).Some? && Stored(e)
    requires was == Some(NotRun) <==> provider in a.pending
    ensures CallAfter(was, e.id, e.body, provider) == Some(NotRun) <==> provider in Advance(a, e).value.pending
  {
  }

  /** On a log of the agent a call's row is not run exactly while the call is pending. */
  lemma {:induction false} NotRunIffPending(log: Log, provider: string)
    requires Accepted(log) && forall i | 0 <= i < |log| :: Stored(log[i])
    ensures LoggedCall(log, provider) == Some(NotRun) <==> provider in At(log, |log|).pending
  {
    hide Advance, Run, CallAfter;
    assert log[..|log|] == log;
    if log == [] {
      assert At(log, 0) == START by { RunEmpty(); }
    } else {
      var front := log[..|log| - 1];
      PrefixAccepted(log, |log| - 1);
      assert forall i | 0 <= i < |front| :: front[i] == log[i];
      NotRunIffPending(front, provider);
      assert front[..|front|] == front;
      AtNext(log, |front|);
      AlwaysSane(log, |front|);
      OneCallOpen(At(log, |front|), log[|front|], LoggedCall(front, provider), provider);
    }
  }

  lemma RunEmpty()
    ensures Run([]) == Some(START)
  {
  }

  predicate Awaits(a: Auto, key: string) {
    a.phase.Waiting? && a.phase.approvalId == key
  }

  lemma OneApprovalOpen(a: Auto, e: Event, was: Option<ApprovalStatus>, key: string)
    requires Sane(a) && Advance(a, e).Some?
    requires was == Some(Undecided) <==> Awaits(a, key)
    ensures ApprovalAfter(was, e.id, e.body, key) == Some(Undecided) <==> Awaits(Advance(a, e).value, key)
  {
  }

  lemma {:induction false} UndecidedIffAwaited(log: Log, key: string)
    requires Accepted(log)
    ensures LoggedApproval(log, key) == Some(Undecided) <==> Awaits(At(log, |log|), key)
  {
    hide Advance, Run, ApprovalAfter;
    assert log[..|log|] == log;
    if log == [] {
      assert At(log, 0) == START by { RunEmpty(); }
    } else {
      var front := log[..|log| - 1];
      PrefixAccepted(log, |log| - 1);
      UndecidedIffAwaited(front, key);
      assert front[..|front|] == front;
      AtNext(log, |front|);
      AlwaysSane(log, |front|);
      OneApprovalOpen(At(log, |front|), log[|front|], LoggedApproval(front, key), key);
    }
  }

  /** The rows still undecided are exactly the approvals that `pending_approvals` finds. */
  lemma UndecidedIffPending(log: Log, key: string)
    requires Accepted(log)
    ensures LoggedApproval(log, key) == Some(Undecided) <==> key in Pending(log)
  {
    UndecidedIffAwaited(log, key);
    ProtocolState.PendingIsWaiting(log);
  }
}
