/** The reducer and the approval scan agree with the protocol on every accepted log. */
module ProtocolState {
  import opened Schema
  import opened Events
  import opened Protocol
  import opened Projections
  import Reducer

  function State(log: Log): Reducer.SessionState {
    Reducer.FoldState(Reducer.INITIAL, log)
  }

  ghost predicate NoRepeats(ids: seq<string>) {
    forall i, j | 0 <= i < j < |ids| :: ids[i] != ids[j]
  }

  lemma NoRepeatsCons(x: string, rest: seq<string>)
    ensures NoRepeats([x] + rest) <==> NoRepeats(rest) && x !in rest
  {
    var all := [x] + rest;
    assert forall i | 0 <= i < |rest| :: rest[i] == all[i + 1];
    if NoRepeats(all) {
      forall i | 0 <= i < |rest|
        ensures rest[i] != x
      {
        assert all[0] != all[i + 1];
      }
    }
  }

  lemma Within(ids: seq<string>)
    ensures |ids| > 0 ==> ids[0] in ids
    ensures |ids| > 1 ==> ids[1] in ids
  {
  }

  lemma OneId(ids: seq<string>, id: string)
    requires NoRepeats(ids) && forall x :: x in ids <==> x == id
    ensures ids == [id]
  {
    assert id in ids;
    Within(ids);
  }

  lemma NoId(ids: seq<string>)
    requires forall x :: x !in ids
    ensures ids == []
  {
    Within(ids);
  }

  lemma {:induction false} RemoveIff(ids: seq<string>, id: string)
    ensures forall x :: x in Reducer.Remove(ids, id) <==> x in ids && x != id
    ensures NoRepeats(ids) ==> NoRepeats(Reducer.Remove(ids, id))
  {
    if ids != [] {
      RemoveIff(ids[1..], id);
      assert ids == [ids[0]] + ids[1..];
      NoRepeatsCons(ids[0], ids[1..]);
      NoRepeatsCons(ids[0], Reducer.Remove(ids[1..], id));
    }
  }

  /** What the reducer's state must show for the automaton's. */
  ghost predicate Matches(s: Reducer.SessionState, a: Auto) {
    && NoRepeats(s.pendingCalls) && (forall id :: id in s.pendingCalls <==> id in a.pending)
    && s.pendingApproval == (if a.phase.Waiting? then Some(a.phase.approvalId) else None)
    && s.turn == a.turn
    && (a.phase.Waiting? ==> s.status == "waiting_approval")
    && (!a.phase.Idle? && !a.phase.Waiting? ==> s.status == "running")
  }

  lemma PendingMatches(s: Reducer.SessionState, a: Auto, e: Event)
    requires Matches(s, a) && Sane(a) && Advance(a, e).Some? && (e.body.ToolCall? ==> e.body.call.id != "")
    ensures var ids, b := Reducer.Pending(s.pendingCalls, e.body), Advance(a, e).value;
      NoRepeats(ids) && forall id :: id in ids <==> id in b.pending
  {
    if e.body.ToolResult? { RemoveIff(s.pendingCalls, e.body.callId); }
  }

  lemma RestMatches(s: Reducer.SessionState, a: Auto, e: Event)
    requires Matches(s, a) && Sane(a) && Advance(a, e).Some?
    requires e.turn != Some(0)
    ensures var t, b := Reducer.Update(s, e), Advance(a, e).value;
      && t.pendingApproval == (if b.phase.Waiting? then Some(b.phase.approvalId) else None)
      && t.turn == b.turn
      && (b.phase.Waiting? ==> t.status == "waiting_approval")
      && (!b.phase.Idle? && !b.phase.Waiting? ==> t.status == "running")
  {
  }

  /** What the log must satisfy besides: numbers from 1, turns from 1, named calls. */
  ghost predicate Proper(log: Log) {
    && Contiguous(log)
    && forall i | 0 <= i < |log| :: log[i].turn != Some(0) && (log[i].body.ToolCall? ==> log[i].body.call.id != "")
  }

  lemma {:induction false} StateMatches(log: Log)
    requires Accepted(log) && Proper(log)
    ensures Matches(State(log), At(log, |log|))
  {
    hide Advance;
    assert log[..|log|] == log;
    if log != [] {
      var front, e := log[..|log| - 1], log[|log| - 1];
      PrefixAccepted(log, |log| - 1);
      assert Proper(front) by { assert forall i | 0 <= i < |front| :: front[i] == log[i]; }
      StateMatches(front);
      assert front[..|front|] == front;
      AtNext(log, |front|);
      AlwaysSane(log, |front|);
      PendingMatches(State(front), At(log, |front|), e);
      RestMatches(State(front), At(log, |front|), e);
      SeqBelow(front);
    }
  }

  lemma {:induction false} SeqBelow(log: Log)
    requires Contiguous(log)
    ensures State(log).lastSeq <= |log|
  {
    if log != [] { SeqBelow(log[..|log| - 1]); }
  }

  /** At the end of each turn the reducer has no pending call, and while an approval is
      awaited it has exactly the asked call. */
  lemma PendingCallsAtRest(log: Log)
    requires Accepted(log) && Proper(log) && AtRest(At(log, |log|))
    ensures At(log, |log|).phase.Idle? ==> State(log).pendingCalls == []
    ensures At(log, |log|).phase.Waiting? ==>
              log != [] && log[|log| - 1].body.ApprovalAsked? && State(log).pendingCalls == [log[|log| - 1].body.call.id]
  {
    StateMatches(log);
    OnlyTheAskedIsOpen(log);
    var ids := State(log).pendingCalls;
    if At(log, |log|).phase.Waiting? {
      OneId(ids, log[|log| - 1].body.call.id);
    } else {
      NoId(ids);
    }
  }

  /** The pending approval of the reducer is pending in the log's own account, and at rest
      there is no other: `validate_decision` lets exactly that one through. */
  lemma PendingApprovalAgrees(log: Log)
    requires Accepted(log) && Proper(log)
    ensures State(log).pendingApproval.Some? ==> State(log).pendingApproval.value in Pending(log)
    ensures forall id | id in Pending(log) :: State(log).pendingApproval == Some(id)
  {
    StateMatches(log);
    AlwaysSane(log, |log|);
    PendingIsWaiting(log);
  }

  lemma {:induction false} PendingIsWaiting(log: Log)
    requires Accepted(log)
    ensures forall id :: id in Asked(log) <==> id in At(log, |log|).asked
    ensures forall id | id != "" && id in At(log, |log|).asked ::
              id in Decided(log) <==> !(At(log, |log|).phase.Waiting? && At(log, |log|).phase.approvalId == id)
    ensures Decided(log) <= At(log, |log|).asked
  {
    assert log[..|log|] == log;
    if log != [] {
      var front, e := log[..|log| - 1], log[|log| - 1];
      PrefixAccepted(log, |log| - 1);
      PendingIsWaiting(front);
      assert front[..|front|] == front;
      AtNext(log, |front|);
      AlwaysSane(log, |front|);
      AdvanceApprovals(At(log, |front|), e);
    }
  }

  lemma AdvanceApprovals(a: Auto, e: Event)
    requires Sane(a) && Advance(a, e).Some?
    ensures var b := Advance(a, e).value;
      match e.body
      case ApprovalAsked(id, _) => id !in a.asked && b.asked == a.asked + {id} && !a.phase.Waiting?
                                   && b.phase.Waiting? && b.phase.approvalId == id
      case ApprovalDecided(id, _) => b.asked == a.asked && a.phase.Waiting? && a.phase.approvalId == id && !b.phase.Waiting?
      case _ => b.asked == a.asked && !a.phase.Waiting? && !b.phase.Waiting?
  {
  }
}
