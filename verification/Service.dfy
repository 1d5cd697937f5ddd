/** The entries of the agent under a lease (`_prompt_impl`, `_resume_approval_impl`). */
module Service {
  import opened Schema
  import opened Events
  import opened Compaction
  import opened Protocol
  import opened Projections
  import opened Runtime
  import opened Scheduler
  import opened AgentLoop
  import opened Moves
  import opened History
  import opened Pairing
  import Leases
  import ProtocolState
  import Retry

  datatype Response = Busy | NotPending | Closed(reason: Reason)

  /** The session is free when it has no lease or one that has run out. */
  predicate Free(leases: map<string, Leases.Lease>, session: string, now: nat) {
    session in leases ==> leases[session].expiresAt <= now
  }

  /** A turn under a lease: busy sessions are left alone, and the lease is given back. */
  method PromptUnderLease(agent: Agent, leases: Leases.InMemoryLeaseStore, session: string, now: nat, ttl: nat,
                          token: string, text: string, source: Source) returns (reply: Response)
    requires agent.Valid() && leases.Valid() && agent.store as object != leases
    requires leases.Ready(now, token)
    requires Run(agent.store.events).value.phase.Idle? && !IsBlank(text) && !source.Compaction?
    modifies agent, agent.store, leases
    ensures agent.Valid() && leases.Valid() && Extends(old(agent.store.events), agent.store.events)
    ensures reply.Busy? <==> !Free(old(leases.leases), session, now)
    ensures reply.Busy? ==> agent.store.events == old(agent.store.events) && leases.leases == old(leases.leases)
    ensures !reply.Busy? ==>
      && reply.Closed? && leases.leases == old(leases.leases) - {session} && Ends(agent.store.events, reply.reason)
      && Opens(agent.store.events, |old(agent.store.events)|, MaxTurn(old(agent.store.events)) + 1, text, source)
      && Prompted(old(agent.store.events), agent.store.events, agent.world, agent.settings, text, source, reply.reason)
  {
    hide Leases.InMemoryLeaseStore.Valid, Leases.InMemoryLeaseStore.Ready, Advance, Run, Intact, Resting, Orderly, Sound,
      Told, Opens, Ends, MaxTurn, IsBlank, Prompted;
    var lease := leases.Acquire(session, "local", now, ttl, token);
    if lease.None? {
      return Busy;
    }
    var reason := agent.Prompt(text, source);
    leases.Release(session, token);
    reply := Closed(reason);
  }

  /** A decision under a lease: it counts exactly when the approval was pending. */
  method ResumeUnderLease(agent: Agent, leases: Leases.InMemoryLeaseStore, session: string, now: nat, ttl: nat,
                          token: string, approvalId: string, decision: string) returns (reply: Response)
    requires agent.Valid() && leases.Valid() && agent.store as object != leases
    requires leases.Ready(now, token)
    modifies agent, agent.store, leases
    ensures agent.Valid() && leases.Valid() && Extends(old(agent.store.events), agent.store.events)
    ensures reply.Busy? <==> !Free(old(leases.leases), session, now)
    ensures reply.Busy? || reply.NotPending? ==> agent.store.events == old(agent.store.events)
    ensures reply.Closed? ==>
      && approvalId in Pending(old(agent.store.events))
      && Decides(old(agent.store.events), agent.store.events, approvalId, decision) && Ends(agent.store.events, reply.reason)
      && Resumed(old(agent.store.events), agent.store.events, agent.world, agent.settings,
                 Pending(old(agent.store.events))[approvalId], decision, reply.reason)
    ensures reply.NotPending? ==> approvalId !in Pending(old(agent.store.events))
    ensures !reply.Busy? ==> leases.leases == old(leases.leases) - {session}
  {
    hide Leases.InMemoryLeaseStore.Valid, Leases.InMemoryLeaseStore.Ready, Advance, Run, Intact, Resting, Orderly, Sound,
      Told, Ends, Decides, AfterDecision, Pending, LastTurn, Resumed;
    var lease := leases.Acquire(session, "local", now, ttl, token);
    if lease.None? {
      return Busy;
    }
    var reason := agent.Resume(approvalId, decision);
    leases.Release(session, token);
    reply := if reason.None? then NotPending else Closed(reason.value);
  }

  // -------------------------------------------------------- without the lease

  /** The rest of a resumption that found the approval pending before: `apply`, with
      nothing looked at again. */
  method ApplyLate(store: SessionStore, w: World, asked: Ask, decision: string, turn: nat, step: nat, run: string)
    returns (result: ToolAnswer)
    requires store.Valid() && Intact(store.events) && asked.call.id != ""
    modifies store
    ensures store.Valid() && Intact(store.events) && Extends(old(store.events), store.events)
    ensures Concludes(old(store.events), store.events, asked, decision, result)
    ensures Accepted(old(store.events)) && !Awaits(Run(old(store.events)).value, asked.approvalId) ==> !Accepted(store.events)
    ensures AnswersDecision(w, store.events[..|old(store.events)| + 1], asked, decision, result)
  {
    hide Intact, Run, Advance, AnswersDecision;
    ghost var before := store.events;
    result := DecideLate(store, w, asked, decision, turn, step, run);
    ghost var late := store.events;
    var r := Emit(store, w, Some(run), Some(turn), Some(step), ResultBody(asked.call, result));
    assert store.events[..|before| + 1] == late[..|before| + 1];
  }

  method DecideLate(store: SessionStore, w: World, asked: Ask, decision: string, turn: nat, step: nat, run: string)
    returns (result: ToolAnswer)
    requires store.Valid() && Intact(store.events)
    modifies store
    ensures store.Valid() && Intact(store.events) && Extends(old(store.events), store.events)
    ensures |store.events| == |old(store.events)| + if result.todos.Some? then 2 else 1
    ensures store.events[|old(store.events)|].body == ApprovalDecided(asked.approvalId, decision)
    ensures result.todos.Some? ==> store.events[|old(store.events)| + 1].body == TodoWrite(result.todos.value)
    ensures Accepted(old(store.events)) && !Awaits(Run(old(store.events)).value, asked.approvalId) ==> !Accepted(store.events)
    ensures AnswersDecision(w, store.events[..|old(store.events)| + 1], asked, decision, result)
  {
    hide Intact, Run, Advance, Retry.Classify;
    ghost var before := store.events;
    var e := Emit(store, w, Some(run), Some(turn), Some(step), ApprovalDecided(asked.approvalId, decision));
    ghost var mid := store.events;
    if Accepted(before) && !Awaits(Run(before).value, asked.approvalId) { TooLate(Run(before).value, e); }
    if decision == "allow" && w.resolve(asked.call.name).Some? {
      result := w.answer(store.events, asked.call);
      NoteTodos(store, w, result.todos, turn, run);
    } else {
      result := if decision == "allow" then ErrorAnswer(w, "unknown_tool", asked.call.name) else Agent.Denied(w);
    }
    assert store.events[..|before| + 1] == mid;
  }

  method NoteTodos(store: SessionStore, w: World, todos: Option<seq<Todo>>, turn: nat, run: string)
    requires store.Valid() && Intact(store.events)
    modifies store
    ensures store.Valid() && Intact(store.events) && Extends(old(store.events), store.events)
    ensures !Accepted(old(store.events)) ==> !Accepted(store.events)
    ensures if todos.None? then store.events == old(store.events)
            else |store.events| == |old(store.events)| + 1 && store.events[|old(store.events)|].body == TodoWrite(todos.value)
  {
    hide Intact, Run, Advance;
    if todos.Some? {
      var e := Emit(store, w, Some(run), Some(turn), None, TodoWrite(todos.value));
    }
  }

  /** A decision on an approval that is not awaited is refused. */
  lemma TooLate(a: Auto, e: Event)
    requires e.body.ApprovalDecided? && !Awaits(a, e.body.approvalId)
    ensures Advance(a, e).None?
  {
  }

  predicate Awaits(a: Auto, id: string) {
    a.phase.Waiting? && a.phase.approvalId == id
  }

  /** After a resumption the same approval is awaited no more. */
  lemma ResumedAwaitsNoMore(before: Log, after: Log, id: string, decision: string)
    requires Accepted(before) && Accepted(after) && id in Pending(before) && Extends(before, after)
    requires Decides(before, after, id, decision)
    ensures !Awaits(Run(after).value, id)
  {
    hide Run, Advance;
    assert before[..|before|] == before && after[..|after|] == after;
    ProtocolState.PendingIsWaiting(before);
    WaitingIsFresh(before, |before|);
    if Awaits(Run(after).value, id) {
      WaitingIsFresh(after, |after|);
      assert after[|before| - 1] == before[|before| - 1];
      AskedOnce(after, |before| - 1, |after| - 1);
    }
  }

  /** Going on with what was read before another resumption of the same approval. */
  method GoOnLate(store: SessionStore, w: World, asked: Ask, first: string, turn: nat, step: nat, run: string,
                  ghost before: Log, ghost second: string) returns (late: ToolAnswer, ghost n: nat)
    requires store.Valid() && Intact(store.events) && asked.call.id != "" && Accepted(before) && Accepted(store.events)
    requires Extends(before, store.events) && asked.approvalId in Pending(before)
    requires Decides(before, store.events, asked.approvalId, second)
    modifies store
    ensures Extends(before, store.events) && Decides(before, store.events, asked.approvalId, second)
    ensures |before| < n < |store.events| && store.events[n].body == ApprovalDecided(asked.approvalId, first)
    ensures !Accepted(store.events)
    ensures AnswersDecision(w, store.events[..n + 1], asked, first, late)
  {
    hide Run, Advance, Intact, Decides, Extends, Pending, Concludes, Awaits, AnswersDecision;
    ghost var mid := store.events;
    ResumedAwaitsNoMore(before, mid, asked.approvalId, second);
    n := |mid|;
    late := ApplyLate(store, w, asked, first, turn, step, run);
    LateConcludes(before, mid, store.events, asked, first, late, asked.approvalId, second);
  }

  /** Two resumptions of one approval on one store: the first finds it pending, the second
      comes before the first goes on.  While the first one's lease lasts, the second is
      turned away and the first decides.  When it has run out, the second decides, runs and
      releases, and the first goes on all the same: the log then holds two decisions and two
      answers, and no crash-free run writes such a log. */
  method OverlappingResumes(one: Agent, two: Agent, leases: Leases.InMemoryLeaseStore, session: string, now: nat, later: nat,
                            ttl: nat, tokens: (string, string), approvalId: string, first: string, second: string)
    returns (theirs: Response, late: Option<ToolAnswer>, ghost n: nat)
    requires one.store == two.store && one.Valid() && two.Valid() && leases.Valid() && one != two
    requires leases as object != one.store
    requires leases.Ready(now, tokens.0) && Free(leases.leases, session, now) && now <= later
    requires leases.Ready(now, tokens.1) && tokens.0 != tokens.1
    requires approvalId in Pending(one.store.events)
    modifies one, two, one.store, leases
    ensures Extends(old(one.store.events), one.store.events)
    ensures Accepted(one.store.events) <==> later < now + ttl
    ensures theirs.Busy? <==> later < now + ttl
    ensures theirs.Busy? ==> one.Valid() && Decides(old(one.store.events), one.store.events, approvalId, first)
    ensures !theirs.Busy? ==>
      && Decides(old(one.store.events), one.store.events, approvalId, second)
      && |old(one.store.events)| < n < |one.store.events| && one.store.events[n].body == ApprovalDecided(approvalId, first)
    ensures !theirs.Busy? ==>
      && late.Some?
      && AnswersDecision(one.world, one.store.events[..n + 1], Pending(old(one.store.events))[approvalId], first, late.value)
  {
    hide Run, Advance, Intact, Sound, Ends, Resting, Leases.InMemoryLeaseStore.Valid, Leases.InMemoryLeaseStore.Held,
      Leases.InMemoryLeaseStore.Keeps, Decides, Extends, Pending, LastTurn, LastStep, LastRun, LogOk, Told, AfterDecision, AnswersDecision, Resumed;
    ghost var before := one.store.events;
    n, late := 0, None;
    var mine := leases.Acquire(session, "one", now, ttl, tokens.0);
    var pending := PendingApprovals(one.store.events);
    PendingFacts(before, one.ran, one.world, approvalId);
    var asked := pending[approvalId];
    var turn, step := LastTurn(one.store.events).value, LastStep(one.store.events).value;
    var last := LastRun(one.store.events);
    var run := if last.Some? then last.value else one.world.newRun(one.store.events);
    theirs := ResumeUnderLease(two, leases, session, later, ttl, tokens.1, approvalId, second);
    if theirs.Busy? {
      var reason := one.Resume(approvalId, first);   // the log is still the one it has read
      IdleRests(one.store.events, one.ran, one.world);
    } else {
      IdleRests(one.store.events, two.ran, two.world);
      var answer;
      answer, n := GoOnLate(one.store, one.world, asked, first, turn, step, run, before, second);
      late := Some(answer);
    }
    leases.Release(session, tokens.0);
  }

  lemma LateConcludes(before: Log, mid: Log, after: Log, asked: Ask, first: string, late: ToolAnswer, id: string, second: string)
    requires Extends(before, mid) && Extends(mid, after) && Decides(before, mid, id, second)
    requires Concludes(mid, after, asked, first, late) && asked.approvalId == id
    ensures Extends(before, after) && Decides(before, after, id, second)
    ensures |before| < |mid| < |after| && after[|mid|].body == ApprovalDecided(id, first)
  {
    ExtendsTrans(before, mid, after);
    DecidesExtends(before, mid, after, id, second);
  }

  lemma PendingFacts(log: Log, ran: seq<Ran>, w: World, id: string)
    requires Intact(log) && Resting(log, ran, w) && id in Pending(log)
    requires forall i | 0 <= i < |log| :: Stored(log[i])
    ensures Accepted(log) && LastTurn(log).Some? && LastStep(log).Some?
    ensures Pending(log)[id].call.id != "" && Pending(log)[id].approvalId == id
  {
    hide Run, Advance, WellPaired, Bounded, Licensed, Fair, Waits;
    PendingMeansPaused(log, ran, w, id);
  }

  /** What the lease is for: of two callers that both found the approval pending, the
      second would decide it again, and no crash-free log allows that. */
  lemma OverlapDecidesTwice(log: Log, id: string, one: Event, two: Event)
    requires Accepted(log) && Run(log).value.phase.Waiting? && Run(log).value.phase.approvalId == id
    requires one.body.ApprovalDecided? && one.body.approvalId == id && Here(Run(log).value, one)
    requires two.body.ApprovalDecided? && two.body.approvalId == id && Here(Run(log).value, two)
    ensures id in Pending(log)
    ensures Accepted(log + [one]) && id !in Pending(log + [one])
    ensures !Accepted(log + [one] + [two])
  {
    assert log[..|log|] == log;
    AlwaysSane(log, |log|);
    ProtocolState.PendingIsWaiting(log);
    RunSnoc(log, one);
    RunSnoc(log + [one], two);
    assert (log + [one])[..|log|] == log;
  }
}
