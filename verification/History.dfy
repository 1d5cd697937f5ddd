/** What has run: the tools that reached the pipeline, over all turns, and what the log
    says about them.  This is where retries are bounded and approvals count once. */
module History {
  import opened Schema
  import opened Events
  import opened Protocol
  import opened Retry
  import opened Repeats
  import opened Runtime
  import opened Scheduler

  /** A run of a tool, in answer to an approval or not; its batch was vetted on the first
      `vetted` events of the log. */
  datatype Ran = Ran(turn: nat, call: Call, approval: Option<string>, vetted: nat)

  /** The answer that a batch carries out is the last one before it. */
  function LastAnswer(log: Log): (n: nat)
    ensures n <= |log|
  {
    if log == [] then 0
    else if log[|log| - 1].body.AssistantMessage? then |log| else LastAnswer(log[..|log| - 1])
  }

  predicate Matches(c: Call, key: string) {
    IsLimited(c.name) && KeyOf(c) == key
  }

  function Count(calls: seq<Call>, key: string): nat {
    if calls == [] then 0
    else Count(calls[..|calls| - 1], key) + if Matches(calls[|calls| - 1], key) then 1 else 0
  }

  lemma {:induction false} CountSplit(calls: seq<Call>, i: nat, key: string)
    requires i < |calls|
    ensures Count(calls, key) == Count(calls[..i] + calls[i + 1..], key) + if Matches(calls[i], key) then 1 else 0
  {
    hide Matches;
    var rest := calls[..i] + calls[i + 1..];
    if i < |calls| - 1 {
      var front := calls[..|calls| - 1];
      CountSplit(front, i, key);
      assert rest[..|rest| - 1] == front[..i] + front[i + 1..];
    } else {
      assert rest == calls[..|calls| - 1];
    }
  }

  lemma Without(calls: seq<Call>, i: nat) returns (rest: seq<Call>)
    requires DistinctIds(calls) && i < |calls|
    ensures rest == calls[..i] + calls[i + 1..] && DistinctIds(rest)
    ensures forall c | c in rest :: c in calls && c.id != calls[i].id
  {
    rest := calls[..i] + calls[i + 1..];
    assert forall k | 0 <= k < i :: rest[k] == calls[k];
    assert forall k | i <= k < |rest| :: rest[k] == calls[k + 1];
  }

  /** The call is one of the first `n` and the allocation admits it. */
  ghost predicate Admissible(calls: seq<Call>, counts: map<string, nat>, n: nat, c: Call)
    requires n <= |calls|
  {
    exists i :: 0 <= i < n && calls[i] == c && !Exhausted(calls, counts, i)
  }

  lemma EarlierAdmissible(calls: seq<Call>, counts: map<string, nat>, n: nat, c: Call)
    requires 0 < n <= |calls| && Admissible(calls, counts, n, c) && c.id != calls[n - 1].id
    ensures Admissible(calls, counts, n - 1, c)
  {
  }

  lemma LastAdmissible(calls: seq<Call>, counts: map<string, nat>, n: nat)
    requires 0 < n <= |calls| && DistinctCalls(calls) && Admissible(calls, counts, n, calls[n - 1])
    ensures !Exhausted(calls, counts, n - 1)
  {
  }

  /** Among the calls of a batch, no more match a key than the allocation admits. */
  lemma {:induction false} CountAdmitted(calls: seq<Call>, counts: map<string, nat>, n: nat, ran: seq<Call>, key: string)
    requires n <= |calls| && DistinctCalls(calls) && DistinctIds(ran)
    requires forall c | c in ran :: Admissible(calls, counts, n, c)
    ensures Count(ran, key) <= Admitted(calls, Get(counts, key), n, key)
  {
    hide Admissible, Matches;
    if n == 0 {
      NoneAdmissible(calls, counts, ran);
    } else if i :| 0 <= i < |ran| && ran[i].id == calls[n - 1].id {
      TakeLast(calls, counts, n, ran, i, key);
      CountAdmitted(calls, counts, n - 1, ran[..i] + ran[i + 1..], key);
      AdmittedNext(calls, counts, n, key);
    } else {
      NotLast(calls, counts, n, ran);
      CountAdmitted(calls, counts, n - 1, ran, key);
    }
  }

  lemma InIt(ran: seq<Call>)
    ensures ran != [] ==> ran[0] in ran
  {
  }

  lemma NoneAdmissible(calls: seq<Call>, counts: map<string, nat>, ran: seq<Call>)
    requires forall c | c in ran :: Admissible(calls, counts, 0, c)
    ensures ran == []
  {
    InIt(ran);
    assert forall c :: !Admissible(calls, counts, 0, c);
  }

  lemma NotLast(calls: seq<Call>, counts: map<string, nat>, n: nat, ran: seq<Call>)
    requires 0 < n <= |calls| && forall i | 0 <= i < |ran| :: ran[i].id != calls[n - 1].id
    requires forall c | c in ran :: Admissible(calls, counts, n, c)
    ensures forall c | c in ran :: Admissible(calls, counts, n - 1, c)
  {
    forall c | c in ran
      ensures Admissible(calls, counts, n - 1, c)
    {
      EarlierAdmissible(calls, counts, n, c);
    }
  }

  lemma AdmittedNext(calls: seq<Call>, counts: map<string, nat>, n: nat, key: string)
    requires 0 < n <= |calls| && !Exhausted(calls, counts, n - 1)
    ensures Admitted(calls, Get(counts, key), n, key) ==
            Admitted(calls, Get(counts, key), n - 1, key) + if Matches(calls[n - 1], key) then 1 else 0
  {
  }

  lemma TakeLast(calls: seq<Call>, counts: map<string, nat>, n: nat, ran: seq<Call>, i: nat, key: string)
    requires 0 < n <= |calls| && DistinctCalls(calls) && DistinctIds(ran) && i < |ran| && ran[i].id == calls[n - 1].id
    requires forall c | c in ran :: Admissible(calls, counts, n, c)
    ensures var rest := ran[..i] + ran[i + 1..];
      && (forall c | c in rest :: Admissible(calls, counts, n - 1, c))
      && DistinctIds(rest)
      && Count(ran, key) == Count(rest, key) + if Matches(calls[n - 1], key) then 1 else 0
    ensures !Exhausted(calls, counts, n - 1)
  {
    hide Matches;
    var rest := Without(ran, i);
    assert ran[i] in ran && Admissible(calls, counts, n, ran[i]);
    assert ran[i] == calls[n - 1];
    LastAdmissible(calls, counts, n);
    CountSplit(ran, i, key);
    forall c | c in rest
      ensures Admissible(calls, counts, n - 1, c)
    {
      EarlierAdmissible(calls, counts, n, c);
    }
  }

  // ------------------------------------------------- runs and recorded calls

  lemma {:induction false} CountWithinAttempts(log: Log, turn: nat, ran: seq<Call>, key: string)
    requires DistinctIds(ran) && forall c | c in ran :: WasCalled(log, turn, c)
    ensures Count(ran, key) <= Attempts(log, turn, key)
  {
    hide IsLimited, Retry.KeyOf;
    if log == [] {
      InIt(ran);
      assert forall c :: !WasCalled(log, turn, c);
    } else {
      var e := log[|log| - 1];
      var front := log[..|log| - 1];
      if e.turn == Some(turn) && e.body.ToolCall? && e.body.call in ran {
        var i :| 0 <= i < |ran| && ran[i] == e.body.call;
        var rest := Without(ran, i);
        CountSplit(ran, i, key);
        CalledBefore(log, turn, rest);
        CountWithinAttempts(front, turn, rest, key);
      } else {
        CalledBefore(log, turn, ran);
        CountWithinAttempts(front, turn, ran, key);
      }
    }
  }

  lemma CalledBefore(log: Log, turn: nat, ran: seq<Call>)
    requires log != [] && forall c | c in ran :: WasCalled(log, turn, c)
    requires var e := log[|log| - 1]; e.turn == Some(turn) && e.body.ToolCall? ==> e.body.call !in ran
    ensures forall c | c in ran :: WasCalled(log[..|log| - 1], turn, c)
  {
    forall c | c in ran
      ensures WasCalled(log[..|log| - 1], turn, c)
    {
      var e :| e in log && e.turn == Some(turn) && e.body == ToolCall(c);
      assert log == log[..|log| - 1] + [log[|log| - 1]];
    }
  }

  /** A recorded call is known to the automaton. */
  lemma {:induction false} CalledIsKnown(log: Log, turn: nat, c: Call)
    requires Accepted(log) && WasCalled(log, turn, c)
    ensures c.id in Run(log).value.called
  {
    hide Run;
    var e :| e in log && e.turn == Some(turn) && e.body == ToolCall(c);
    var i :| 0 <= i < |log| && log[i] == e;
    AtNext(log, i);
    Monotone(log, i + 1, |log|);
    assert log[..|log|] == log;
  }

  // ------------------------------------------------------------ the invariant

  function InTurn(ran: seq<Ran>, turn: nat): seq<Call> {
    if ran == [] then []
    else InTurn(ran[..|ran| - 1], turn) + if ran[|ran| - 1].turn == turn then [ran[|ran| - 1].call] else []
  }

  /** The call that awaits its approval, if any, as a run to come. */
  function ToCome(log: Log): seq<Ran> {
    if log != [] && log[|log| - 1].body.ApprovalAsked? && log[|log| - 1].turn.Some?
    then [Ran(log[|log| - 1].turn.value, log[|log| - 1].body.call, None, LastAnswer(log))] else []
  }

  /** The runs, counting the one that awaits its approval: of recorded calls, each at most
      once, at most two for a key and a turn. */
  ghost predicate Bounded(ran: seq<Ran>, log: Log) {
    && (forall r | r in ran :: WasCalled(log, r.turn, r.call))
    && (forall i, j | 0 <= i < j < |ran| :: ran[i].call.id != ran[j].call.id)
    && (forall turn, key :: Count(InTurn(ran, turn), key) <= MAX_ATTEMPTS)
  }

  /** A tool that needs an approval runs only for one, an approval lets its tool run at
      most once, and only after a decision to allow it. */
  ghost predicate Licensed(ran: seq<Ran>, log: Log, w: World) {
    && (forall r | r in ran && NeedsApproval(w, r.call) :: r.approval.Some?)
    && (forall r | r in ran && r.approval.Some? ::
          WasAllowed(log, r.approval.value) && WasAskedFor(log, r.approval.value, r.call))
    && (forall i, j | 0 <= i < j < |ran| && ran[i].approval.Some? :: ran[i].approval != ran[j].approval)
  }

  ghost predicate WasAllowed(log: Log, id: string) {
    exists e :: e in log && e.body == ApprovalDecided(id, "allow")
  }

  ghost predicate WasAskedFor(log: Log, id: string, c: Call) {
    exists e :: e in log && e.body == ApprovalAsked(id, c)
  }

  lemma StillAskedFor(before: Log, after: Log, id: string, c: Call)
    requires Extends(before, after) && WasAskedFor(before, id, c)
    ensures WasAskedFor(after, id, c)
  {
    var e :| e in before && e.body == ApprovalAsked(id, c);
    assert e in after[..|before|];
  }

  lemma StillAllowed(before: Log, after: Log, id: string)
    requires Extends(before, after) && WasAllowed(before, id)
    ensures WasAllowed(after, id)
  {
    var e :| e in before && e.body == ApprovalDecided(id, "allow");
    assert e in after[..|before|];
  }

  lemma StillCalled(before: Log, after: Log, turn: nat, c: Call)
    requires Extends(before, after) && WasCalled(before, turn, c)
    ensures WasCalled(after, turn, c)
  {
    var e :| e in before && e.turn == Some(turn) && e.body == ToolCall(c);
    assert e in after[..|before|];
  }

  lemma BoundedExtends(ran: seq<Ran>, before: Log, after: Log)
    requires Bounded(ran, before) && Extends(before, after)
    ensures Bounded(ran, after)
  {
    forall r | r in ran
      ensures WasCalled(after, r.turn, r.call)
    {
      StillCalled(before, after, r.turn, r.call);
    }
  }

  lemma LicensedExtends(ran: seq<Ran>, before: Log, after: Log, w: World)
    requires Licensed(ran, before, w) && Extends(before, after)
    ensures Licensed(ran, after, w)
  {
    forall r | r in ran && r.approval.Some?
      ensures WasAllowed(after, r.approval.value) && WasAskedFor(after, r.approval.value, r.call)
    {
      StillAllowed(before, after, r.approval.value);
      StillAskedFor(before, after, r.approval.value, r.call);
    }
  }

  // ------------------------------------------------------------- one batch

  function AsRuns(calls: seq<Call>, turn: nat, vetted: nat): seq<Ran> {
    if calls == [] then [] else AsRuns(calls[..|calls| - 1], turn, vetted) + [Ran(turn, calls[|calls| - 1], None, vetted)]
  }

  lemma {:induction false} AsRunsAt(calls: seq<Call>, turn: nat, vetted: nat)
    ensures |AsRuns(calls, turn, vetted)| == |calls|
    ensures forall i | 0 <= i < |calls| :: AsRuns(calls, turn, vetted)[i] == Ran(turn, calls[i], None, vetted)
  {
    if calls != [] { AsRunsAt(calls[..|calls| - 1], turn, vetted); }
  }

  lemma {:induction false} InTurnAppend(a: seq<Ran>, b: seq<Ran>, turn: nat)
    ensures InTurn(a + b, turn) == InTurn(a, turn) + InTurn(b, turn)
  {
    if b == [] {
      assert a + b == a;
    } else {
      assert (a + b)[..|a + b| - 1] == a + b[..|b| - 1];
      InTurnAppend(a, b[..|b| - 1], turn);
    }
  }

  lemma {:induction false} InTurnOfRuns(calls: seq<Call>, turn: nat, vetted: nat, t: nat)
    ensures InTurn(AsRuns(calls, turn, vetted), t) == if t == turn then calls else []
  {
    if calls != [] {
      var runs := AsRuns(calls, turn, vetted);
      assert runs[..|runs| - 1] == AsRuns(calls[..|calls| - 1], turn, vetted);
      InTurnOfRuns(calls[..|calls| - 1], turn, vetted, t);
      assert calls == calls[..|calls| - 1] + [calls[|calls| - 1]];
    }
  }

  lemma {:induction false} CountAppend(a: seq<Call>, b: seq<Call>, key: string)
    ensures Count(a + b, key) == Count(a, key) + Count(b, key)
  {
    hide Matches;
    if b == [] {
      assert a + b == a;
    } else {
      assert (a + b)[..|a + b| - 1] == a + b[..|b| - 1];
      CountAppend(a, b[..|b| - 1], key);
    }
  }

  lemma {:induction false} InTurnFacts(ran: seq<Ran>, turn: nat)
    requires forall i, j | 0 <= i < j < |ran| :: ran[i].call.id != ran[j].call.id
    ensures DistinctIds(InTurn(ran, turn))
    ensures forall c | c in InTurn(ran, turn) :: exists r :: r in ran && r.turn == turn && r.call == c
  {
    if ran != [] {
      var front, r := ran[..|ran| - 1], ran[|ran| - 1];
      InTurnFacts(front, turn);
      assert ran == front + [r];
      forall c | c in InTurn(front, turn)
        ensures c.id != r.call.id
      {
        var x :| x in front && x.turn == turn && x.call == c;
        var i :| 0 <= i < |front| && front[i] == x;
        assert ran[i] == x;
      }
    }
  }

  lemma RanSoFar(ran: seq<Ran>, log: Log, turn: nat, key: string)
    requires Bounded(ran, log)
    ensures Count(InTurn(ran, turn), key) <= Attempts(log, turn, key)
  {
    InTurnFacts(ran, turn);
    CountWithinAttempts(log, turn, InTurn(ran, turn), key);
  }

  /** What the policy lets through is admissible for the allocation. */
  lemma AllowedIsAdmissible(b: Batch, w: World, log: Log, counts: map<string, nat>, c: Call)
    requires Vetted(b, w, log, counts) && c in b.calls && Allowed(b, c)
    ensures Admissible(b.calls, counts, |b.calls|, c)
  {
    var i :| 0 <= i < |b.calls| && b.calls[i] == c;
    if Exhausted(b.calls, counts, i) { ExhaustedIsIn(b.calls, counts, i); }
  }

  lemma ExhaustedIsIn(calls: seq<Call>, counts: map<string, nat>, i: nat)
    requires i < |calls| && Exhausted(calls, counts, i)
    ensures calls[i].id in ExhaustedIds(calls, counts, |calls|)
  {
  }

  lemma BatchCount(ran: seq<Ran>, log: Log, w: World, b: Batch, counts: map<string, nat>, more: seq<Call>, key: string)
    requires Bounded(ran, log) && Vetted(b, w, log, counts) && DistinctCalls(b.calls) && DistinctIds(more)
    requires forall c | c in more :: c in b.calls && Allowed(b, c)
    ensures Count(InTurn(ran, b.turn), key) + Count(more, key) <= MAX_ATTEMPTS
  {
    hide Matches;
    RanSoFar(ran, log, b.turn, key);
    forall c | c in more
      ensures Admissible(b.calls, counts, |b.calls|, c)
    {
      AllowedIsAdmissible(b, w, log, counts, c);
    }
    CountAdmitted(b.calls, counts, |b.calls|, more, key);
    AdmittedIsUsed(b.calls, Get(counts, key), |b.calls|, key);
  }

  lemma NewIds(ran: seq<Ran>, log: Log, b: Batch, more: seq<Call>)
    requires Bounded(ran, log) && Accepted(log) && IdsOf(b.calls) !! Run(log).value.called
    requires forall c | c in more :: c in b.calls
    ensures forall r, c | r in ran && c in more :: r.call.id != c.id
  {
    forall r, c | r in ran && c in more
      ensures r.call.id != c.id
    {
      CalledIsKnown(log, r.turn, r.call);
      assert c.id in IdsOf(b.calls);
    }
  }

  /** A batch keeps the bound: what ran before, and what the policy now lets through,
      make at most two runs for each key. */
  lemma BatchBounded(ran: seq<Ran>, before: Log, after: Log, w: World, b: Batch, counts: map<string, nat>, more: seq<Call>)
    requires Bounded(ran, before) && Accepted(before) && Extends(before, after)
    requires Vetted(b, w, before, counts) && DistinctCalls(b.calls) && IdsOf(b.calls) !! Run(before).value.called
    requires DistinctIds(more) && forall c | c in more :: c in b.calls && Allowed(b, c) && WasCalled(after, b.turn, c)
    ensures Bounded(ran + AsRuns(more, b.turn, |before|), after)
  {
    var all := ran + AsRuns(more, b.turn, |before|);
    BoundedExtends(ran, before, after);
    AsRunsAt(more, b.turn, |before|);
    NewIds(ran, before, b, more);
    forall turn, key
      ensures Count(InTurn(all, turn), key) <= MAX_ATTEMPTS
    {
      InTurnAppend(ran, AsRuns(more, b.turn, |before|), turn);
      InTurnOfRuns(more, b.turn, |before|, turn);
      CountAppend(InTurn(ran, turn), InTurn(AsRuns(more, b.turn, |before|), turn), key);
      BatchCount(ran, before, w, b, counts, more, key);
    }
    RunsCalled(ran, more, b.turn, |before|, after);
    RunsDistinct(ran, more, b.turn, |before|);
  }

  lemma RunsCalled(ran: seq<Ran>, more: seq<Call>, turn: nat, vetted: nat, log: Log)
    requires (forall r | r in ran :: WasCalled(log, r.turn, r.call)) && forall c | c in more :: WasCalled(log, turn, c)
    ensures forall r | r in ran + AsRuns(more, turn, vetted) :: WasCalled(log, r.turn, r.call)
  {
    AsRunsAt(more, turn, vetted);
  }

  lemma RunsDistinct(ran: seq<Ran>, more: seq<Call>, turn: nat, vetted: nat)
    requires forall i, j | 0 <= i < j < |ran| :: ran[i].call.id != ran[j].call.id
    requires DistinctIds(more) && forall r, c | r in ran && c in more :: r.call.id != c.id
    ensures var all := ran + AsRuns(more, turn, vetted); forall i, j | 0 <= i < j < |all| :: all[i].call.id != all[j].call.id
  {
    AsRunsAt(more, turn, vetted);
    var all := ran + AsRuns(more, turn, vetted);
    assert forall i | 0 <= i < |ran| :: all[i] in ran;
    assert forall i | |ran| <= i < |all| :: all[i].call == more[i - |ran|] && more[i - |ran|] in more;
  }

  lemma BatchLicensed(ran: seq<Ran>, before: Log, after: Log, w: World, turn: nat, vetted: nat, more: seq<Call>)
    requires Licensed(ran, before, w) && Extends(before, after) && forall c | c in more :: !NeedsApproval(w, c)
    ensures Licensed(ran + AsRuns(more, turn, vetted), after, w)
  {
    LicensedExtends(ran, before, after, w);
    AsRunsAt(more, turn, vetted);
  }

  // -------------------------------------------------------- repeated failures

  /** The retry policy had nothing against the call when its batch was vetted. */
  ghost predicate Vettable(r: Ran, log: Log, infer: ClassOf) {
    r.vetted <= |log| && !Refused(SeenIn(log[..r.vetted], r.turn), r.call, infer)
  }

  /** Since the vetting, and up to `n`, no call has failed that the run repeats. */
  ghost predicate Unprovoked(r: Ran, log: Log, n: nat, infer: ClassOf) {
    n <= |log| && forall f | r.vetted <= f < n :: !RepeatsAt(log, f, r.turn, r.call, infer)
  }

  ghost predicate AllowedAt(r: Ran, log: Log, j: nat) {
    r.approval.Some? && j < |log| && log[j].body == ApprovalDecided(r.approval.value, "allow")
  }

  /** Every run passed the retry policy, and nothing spoke against an approved one between
      that and the decision. */
  ghost predicate Fair(ran: seq<Ran>, log: Log, infer: ClassOf) {
    && (forall r | r in ran :: Vettable(r, log, infer))
    && (forall r | r in ran && r.approval.Some? ::
          exists j: nat :: AllowedAt(r, log, j) && r.vetted <= j && Unprovoked(r, log, j, infer))
  }

  /** The same of the run that awaits its approval. */
  ghost predicate Waits(log: Log, infer: ClassOf) {
    forall r | r in ToCome(log) :: Vettable(r, log, infer) && Unprovoked(r, log, |log|, infer)
  }

  lemma UnprovokedExtends(r: Ran, before: Log, after: Log, n: nat, infer: ClassOf)
    requires Unprovoked(r, before, n, infer) && Extends(before, after)
    ensures Unprovoked(r, after, n, infer)
  {
    hide RepeatsAt;
    forall f | r.vetted <= f < n
      ensures !RepeatsAt(after, f, r.turn, r.call, infer)
    {
      CutSame(after, |before|, f, r.turn, r.call, infer);
      assert !RepeatsAt(before, f, r.turn, r.call, infer);
    }
  }

  lemma VettableExtends(r: Ran, before: Log, after: Log, infer: ClassOf)
    requires Vettable(r, before, infer) && Extends(before, after)
    ensures Vettable(r, after, infer)
  {
    assert after[..r.vetted] == before[..r.vetted];
  }

  lemma FairExtends(ran: seq<Ran>, before: Log, after: Log, infer: ClassOf)
    requires Fair(ran, before, infer) && Extends(before, after)
    ensures Fair(ran, after, infer)
  {
    hide Unprovoked, Vettable;
    forall r | r in ran
      ensures Vettable(r, after, infer)
    {
      VettableExtends(r, before, after, infer);
    }
    forall r | r in ran && r.approval.Some?
      ensures exists j: nat :: AllowedAt(r, after, j) && r.vetted <= j && Unprovoked(r, after, j, infer)
    {
      var j: nat :| AllowedAt(r, before, j) && r.vetted <= j && Unprovoked(r, before, j, infer);
      UnprovokedExtends(r, before, after, j, infer);
      assert AllowedAt(r, after, j);
    }
  }

  lemma NotRefused(b: Batch, w: World, log: Log, counts: map<string, nat>, c: Call)
    requires Vetted(b, w, log, counts) && c in b.calls && Allowed(b, c)
    ensures !Refused(SeenIn(log, b.turn), c, w.infer)
  {
    hide Refused;
    RefusalsIff(b.calls, SeenIn(log, b.turn), w.infer, c.id);
  }

  /** What a batch runs passed the policy. */
  lemma BatchFair(ran: seq<Ran>, before: Log, after: Log, w: World, b: Batch, counts: map<string, nat>, more: seq<Call>)
    requires Fair(ran, before, w.infer) && Extends(before, after) && Vetted(b, w, before, counts)
    requires forall c | c in more :: c in b.calls && Allowed(b, c)
    ensures Fair(ran + AsRuns(more, b.turn, |before|), after, w.infer)
  {
    hide Vetted, Allowed, Unprovoked;
    FairExtends(ran, before, after, w.infer);
    AsRunsAt(more, b.turn, |before|);
    assert after[..|before|] == before;
    var all := AsRuns(more, b.turn, |before|);
    forall r | r in all
      ensures Vettable(r, after, w.infer) && r.approval.None?
    {
      var i :| 0 <= i < |all| && all[i] == r;
      assert more[i] in more;
      NotRefused(b, w, before, counts, more[i]);
    }
  }

  // --------------------------------------------------- while one call is asked

  lemma SameRefusal(seen: Seen, c: Call, d: Call, infer: ClassOf)
    requires KeyOf(c) == KeyOf(d) && c.args.canonical == d.args.canonical
    ensures Refused(seen, c, infer) <==> Refused(seen, d, infer)
  {
    hide KeyOf;
  }

  /** The call that a result answers is the one with its id. */
  lemma CanonicalIs(log: Log, k: nat, turn: nat, c: Call)
    requires Accepted(log) && k < |log| && log[k].body.ToolResult? && log[k].body.callId == c.id && WasCalled(log, turn, c)
    requires CanonicalAt(log, k, turn).Some?
    ensures SeenIn(log[..k], turn).calls[c.id] == c
  {
    hide SeenIn, Run;
    SeenWasCalled(log, k, turn, c.id);
    var seen := SeenIn(log[..k], turn).calls[c.id];
    var i :| 0 <= i < k && log[i].turn == Some(turn) && log[i].body == ToolCall(seen);
    var e :| e in log && e.turn == Some(turn) && e.body == ToolCall(c);
    var l :| 0 <= l < |log| && log[l] == e;
    if i < l { CalledOnce(log, i, l); } else if l < i { CalledOnce(log, l, i); }
  }

  /** The answers to calls that are put off give the asked call nothing to repeat. */
  lemma PutOffIsNoFailure(before: Log, after: Log, w: World, b: Batch, counts: map<string, nat>, asked: nat, k: nat)
    requires Accepted(after) && Vetted(b, w, before, counts) && DistinctCalls(b.calls)
    requires IsFirstToAsk(w, b, asked) && AllPutOff(after, w, b, |b.calls|, asked)
    requires k < |after| && IsPutOff(after[k], w, b, asked)
    ensures !RepeatsAt(after, k, b.turn, b.calls[asked], w.infer)
  {
    hide SeenIn, Run, KeyOf, Refused, Vetted;
    var i :| 0 <= i < |b.calls| && i != asked && IsResultOf(after[k].body, b.calls[i], Deferred(w, b, b.calls[i]));
    var c, d := b.calls[i], b.calls[asked];
    assert PutOff(after, w, b, i, asked);
    if RepeatsAt(after, k, b.turn, d, w.infer) {
      CanonicalIs(after, k, b.turn, c);
      assert KeyOf(c) == KeyOf(d) by { KeyIs(after, k, b.turn, c); }
      PutOffClass(w, b, c);
      assert c.id in b.refused;
      RefusedInBatch(b, w, before, counts, i);
      SameRefusal(SeenIn(before, b.turn), c, d, w.infer);
      NotRefused(b, w, before, counts, d);
    }
  }

  lemma KeyIs(log: Log, k: nat, turn: nat, c: Call)
    requires k < |log| && FailKey(log, k, turn).Some? && log[k].body.name == c.name && log[k].body.callId == c.id
    requires c.id in SeenIn(log[..k], turn).calls && SeenIn(log[..k], turn).calls[c.id] == c
    ensures FailKey(log, k, turn) == Some(KeyOf(c))
  {
  }

  /** Only a refusal reads as an invalid input. */
  lemma PutOffClass(w: World, b: Batch, c: Call)
    ensures c.id !in b.refused ==> Deferred(w, b, c).errorClass == "policy" || Deferred(w, b, c).errorClass == "control"
  {
  }

  lemma RefusedInBatch(b: Batch, w: World, log: Log, counts: map<string, nat>, i: nat)
    requires Vetted(b, w, log, counts) && DistinctCalls(b.calls) && i < |b.calls| && b.calls[i].id in b.refused
    ensures Refused(SeenIn(log, b.turn), b.calls[i], w.infer)
  {
    hide Refused;
    RefusalsIff(b.calls, SeenIn(log, b.turn), w.infer, b.calls[i].id);
  }

  lemma {:induction false} LastAnswerIs(before: Log, after: Log)
    requires before != [] && before[|before| - 1].body.AssistantMessage? && Extends(before, after)
    requires forall k | |before| <= k < |after| :: !after[k].body.AssistantMessage?
    ensures LastAnswer(after) == |before|
    decreases |after|
  {
    if |after| == |before| {
      assert after == before;
    } else {
      LastAnswerIs(before, after[..|after| - 1]);
    }
  }

  /** So the asked call waits with nothing against it. */
  lemma AskedWaits(before: Log, after: Log, w: World, b: Batch, counts: map<string, nat>, asked: nat)
    requires Accepted(after) && Extends(before, after) && Vetted(b, w, before, counts) && DistinctCalls(b.calls)
    requires before != [] && before[|before| - 1].body.AssistantMessage?
    requires IsFirstToAsk(w, b, asked) && AllPutOff(after, w, b, |b.calls|, asked) && PutOffOnly(after, w, b, |before|, asked)
    requires forall r | r in ToCome(after) :: r.turn == b.turn && r.call == b.calls[asked]
    ensures LastAnswer(after) == |before| && Waits(after, w.infer)
  {
    hide Vetted, Run, SeenIn, AllPutOff;
    forall k | |before| <= k < |after|
      ensures !after[k].body.AssistantMessage? && !RepeatsAt(after, k, b.turn, b.calls[asked], w.infer)
    {
      if IsPutOff(after[k], w, b, asked) { PutOffIsNoFailure(before, after, w, b, counts, asked, k); }
    }
    LastAnswerIs(before, after);
    NotRefused(b, w, before, counts, b.calls[asked]);
    assert after[..|before|] == before;
  }

  // ------------------------------------------------------------ the condition

  /** A call of a batch that repeats its key's latest invalid or empty failure, and that
      nothing else speaks against, runs: if the failure was logged before the vetting, if
      and only if it was masked by a trim; if after, if and only if nothing logged before
      the vetting refuses it. */
  lemma RepeatRunsIff(vet: Log, log: Log, w: World, b: Batch, counts: map<string, nat>, c: Call, f: nat)
    requires Accepted(log) && Extends(vet, log) && Vetted(b, w, vet, counts) && DistinctCalls(b.calls) && c in b.calls
    requires LatestFailure(log, |log|, b.turn, KeyOf(c), f) && RepeatsAt(log, f, b.turn, c, w.infer)
    requires !w.aborted(log, c.id) && w.resolve(c.name).Some? && c.id !in b.exhausted
    ensures f < |vet| ==> (Runs(w, b, log, c) <==> Masked(vet, |vet|, b.turn, KeyOf(c), f))
    ensures f >= |vet| ==> (Runs(w, b, log, c) <==> !Refused(SeenIn(vet, b.turn), c, w.infer))
  {
    hide SeenIn, Run, KeyOf, Refused, Vetted, FailKey, InvalidOrEmpty;
    var i :| 0 <= i < |b.calls| && b.calls[i] == c;
    if c.id in b.refused { RefusedInBatch(b, w, vet, counts, i); } else { NotRefused(b, w, vet, counts, c); }
    if f < |vet| {
      assert log[..|vet|] == vet;
      forall k | 0 <= k < |vet|
        ensures Fails(vet, k, b.turn, KeyOf(c)) == Fails(log, k, b.turn, KeyOf(c))
      {
        CutSame(log, |vet|, k, b.turn, c, w.infer);
      }
      CutSame(log, |vet|, f, b.turn, c, w.infer);
      PrefixAccepted(log, |vet|);
      RefusedIffUnmasked(vet, b.turn, c, f, w.infer);
    }
  }
}
