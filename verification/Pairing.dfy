/** Calls and results on the surface of every log of the agent: what the model is sent. */
module Pairing {
  import opened Schema
  import opened Events
  import opened Surface
  import opened SurfaceFacts
  import opened Units
  import opened Compaction
  import opened CompactRuns
  import opened Protocol

  ghost predicate NoRepeats(ids: seq<string>) {
    forall i, j | 0 <= i < j < |ids| :: ids[i] != ids[j]
  }

  /** One result for each of the calls that are done, and no other result. */
  ghost predicate AnswersDone(calls: seq<Call>, ids: seq<string>, done: set<string>) {
    NoRepeats(ids) && forall id :: id in ids <==> id in IdsOf(calls) && id in done
  }

  ghost function DoneOnly(done: set<string>): Answering {
    (calls, ids) => AnswersDone(calls, ids, done)
  }

  /** The calls that were called and answered. */
  function Done(a: Auto): set<string> {
    a.called - a.pending
  }

  /** The assistant messages offer ids of their own. */
  ghost predicate OwnIds(s: seq<Msg>, offered: set<string>) {
    && (forall m | m in s :: DistinctIds(m.calls) && IdsOf(m.calls) <= offered)
    && (forall m, n | m in s && n in s && m.seqNo != n.seqNo :: IdsOf(m.calls) !! IdsOf(n.calls))
  }

  /** Calls still to be answered are those of the last unit. */
  ghost predicate LastOpen(us: seq<Unit>, a: Auto) {
    a.pending != {} || (a.phase.Acting? && a.phase.calls != []) ==>
      && us != [] && us[|us| - 1] != [] && Opens(us[|us| - 1][0])
      && var calls := us[|us| - 1][0].calls;
      && a.pending <= IdsOf(calls)
      && (a.phase.Acting? && a.phase.calls != [] ==> calls == a.phase.calls)
  }

  ghost predicate WellPaired(s: seq<Msg>, a: Auto) {
    Paired(s, DoneOnly(Done(a))) && OwnIds(s, a.offered) && LastOpen(UnitsOf(s), a)
  }

  /** What holds of every log that the agent writes: one summary at most is shown, and no
      call is separated from its results. */
  ghost predicate Intact(log: Log) {
    && LogOk(log) && OneSummary(log)
    && (Accepted(log) ==> WellPaired(Derive(log), Run(log).value))
  }

  lemma IntactIsOk(log: Log)
    requires Intact(log)
    ensures LogOk(log)
  {
  }

  lemma IntactEmpty()
    ensures Intact([])
  {
    assert Committed([]) == {} && Derive([]) == [] && UnitsOf([]) == [];
  }

  // -------------------------------------------------------------- one message

  lemma {:induction false} FlatAppend(a: seq<Unit>, b: seq<Unit>)
    ensures Flat(a + b) == Flat(a) + Flat(b)
  {
    if a == [] {
      assert a + b == b;
    } else {
      assert (a + b)[1..] == a[1..] + b;
      FlatAppend(a[1..], b);
    }
  }

  lemma FlatOne(u: Unit)
    ensures Flat([u]) == u
  {
    assert [u][1..] == [];
  }

  ghost predicate AllTidy(us: seq<Unit>) {
    forall i | 0 <= i < |us| :: Tidy(us[i])
  }

  /** A message that is no result begins a unit. */
  lemma BeginsUnit(s: seq<Msg>, m: Msg)
    requires AllTidy(UnitsOf(s)) && !m.role.ToolRole?
    ensures UnitsOf(s + [m]) == UnitsOf(s) + [[m]]
  {
    var us := UnitsOf(s) + [[m]];
    FlatUnits(s);
    FlatAppend(UnitsOf(s), [[m]]);
    FlatOne([m]);
    assert AllTidy(us);
    UnitsFlat(us);
  }

  lemma LastGrows(us: seq<Unit>, m: Msg)
    requires AllTidy(us) && us != [] && m.role.ToolRole? && Opens(us[|us| - 1][0])
    ensures var more := us[..|us| - 1] + [us[|us| - 1] + [m]];
      AllTidy(more) && Flat(more) == Flat(us) + [m]
  {
    hide Opens, Flat;
    var front, last := us[..|us| - 1], us[|us| - 1];
    assert us == front + [last];
    FlatAppend(front, [last]);
    FlatOne(last);
    FlatAppend(front, [last + [m]]);
    FlatOne(last + [m]);
    assert Tidy(last) && Tidy(last + [m]);
    assert Flat(front) + last + [m] == Flat(front) + (last + [m]);
    var more := front + [last + [m]];
    assert forall i | 0 <= i < |front| :: more[i] == us[i];
  }

  /** A result joins the last unit when that is one of calls. */
  lemma JoinsUnit(s: seq<Msg>, m: Msg)
    requires AllTidy(UnitsOf(s)) && UnitsOf(s) != [] && m.role.ToolRole?
    requires Opens(UnitsOf(s)[|UnitsOf(s)| - 1][0])
    ensures var us := UnitsOf(s); UnitsOf(s + [m]) == us[..|us| - 1] + [us[|us| - 1] + [m]]
  {
    hide UnitsOf, Flat, Tidy;
    FlatUnits(s);
    LastGrows(UnitsOf(s), m);
    UnitsFlat(UnitsOf(s)[..|UnitsOf(s)| - 1] + [UnitsOf(s)[|UnitsOf(s)| - 1] + [m]]);
  }

  lemma PairedIsTidy(s: seq<Msg>, ok: Answering)
    requires Paired(s, ok)
    ensures AllTidy(UnitsOf(s))
  {
    forall i | 0 <= i < |UnitsOf(s)|
      ensures Tidy(UnitsOf(s)[i])
    {
      assert UnitOk(UnitsOf(s)[i], ok);
    }
  }

  lemma {:induction false} IdsAppend(tools: seq<Msg>, m: Msg)
    ensures Ids(tools + [m]) == Ids(tools) + [m.callId]
  {
    if tools == [] {
      assert [m][1..] == [];
    } else {
      assert (tools + [m])[1..] == tools[1..] + [m];
      IdsAppend(tools[1..], m);
    }
  }

  /** A message that is no result, and offers nothing done yet, keeps the pairs. */
  lemma PairedBegins(s: seq<Msg>, m: Msg, done: set<string>)
    requires Paired(s, DoneOnly(done)) && !m.role.ToolRole? && IdsOf(m.calls) !! done
    ensures Paired(s + [m], DoneOnly(done)) && UnitsOf(s + [m]) == UnitsOf(s) + [[m]]
  {
    PairedIsTidy(s, DoneOnly(done));
    BeginsUnit(s, m);
    var us := UnitsOf(s + [m]);
    assert [m][1..] == [] && Ids([]) == [];
    forall i | 0 <= i < |us|
      ensures UnitOk(us[i], DoneOnly(done))
    {
      if i < |us| - 1 { assert us[i] == UnitsOf(s)[i]; }
    }
  }

  /** A result of a call of the last unit keeps them, when no other unit has the call. */
  lemma PairedJoins(s: seq<Msg>, m: Msg, done: set<string>)
    requires Paired(s, DoneOnly(done)) && m.role.ToolRole? && m.callId !in done
    requires var us := UnitsOf(s);
      && us != [] && us[|us| - 1] != [] && Opens(us[|us| - 1][0]) && m.callId in IdsOf(us[|us| - 1][0].calls)
      && forall i | 0 <= i < |us| - 1 && us[i] != [] && Opens(us[i][0]) :: m.callId !in IdsOf(us[i][0].calls)
    ensures Paired(s + [m], DoneOnly(done + {m.callId}))
    ensures var us := UnitsOf(s); UnitsOf(s + [m]) == us[..|us| - 1] + [us[|us| - 1] + [m]]
  {
    PairedIsTidy(s, DoneOnly(done));
    JoinsUnit(s, m);
    var us, all := UnitsOf(s), UnitsOf(s + [m]);
    forall i | 0 <= i < |all|
      ensures UnitOk(all[i], DoneOnly(done + {m.callId}))
    {
      assert UnitOk(us[i], DoneOnly(done));
      if i < |us| - 1 {
        assert all[i] == us[i];
      } else {
        var last := us[i];
        assert all[i] == last + [m] && all[i][1..] == last[1..] + [m];
        IdsAppend(last[1..], m);
        assert AnswersDone(last[0].calls, Ids(last[1..]), done);
        OneMoreDone(last[0].calls, Ids(last[1..]), m.callId, done);
      }
    }
  }

  lemma OneMoreDone(calls: seq<Call>, ids: seq<string>, id: string, done: set<string>)
    requires AnswersDone(calls, ids, done) && id in IdsOf(calls) && id !in done
    ensures AnswersDone(calls, ids + [id], done + {id})
  {
    var more := ids + [id];
    assert forall x :: x in more <==> x in ids || x == id;
  }

  /** The last unit's calls belong to no other unit. */
  lemma OthersDiffer(s: seq<Msg>, offered: set<string>, i: nat)
    requires Distinct(s) && OwnIds(s, offered) && AllTidy(UnitsOf(s)) && i < |UnitsOf(s)| - 1
    ensures var us := UnitsOf(s); IdsOf(us[i][0].calls) !! IdsOf(us[|us| - 1][0].calls)
  {
    var us := UnitsOf(s);
    UnitMember(s, i, us[i][0]);
    UnitMember(s, |us| - 1, us[|us| - 1][0]);
    HeadsDiffer(s, i, |us| - 1);
  }

  lemma {:induction false} HeadsDiffer(s: seq<Msg>, i: nat, j: nat)
    requires Distinct(s) && AllTidy(UnitsOf(s)) && i < j < |UnitsOf(s)|
    ensures UnitsOf(s)[i][0].seqNo != UnitsOf(s)[j][0].seqNo
    decreases |s|
  {
    Unfold(s);
    hide UnitsOf, Head, Tidy;
    var rest := s[Head(s)..];
    assert AllTidy(UnitsOf(rest)) by {
      assert forall k | 0 <= k < |UnitsOf(rest)| :: UnitsOf(rest)[k] == UnitsOf(s)[k + 1];
    }
    assert UnitsOf(s)[j] == UnitsOf(rest)[j - 1];
    if i > 0 {
      HeadsDiffer(rest, i - 1, j - 1);
    } else {
      FirstDiffers(s, rest, Head(s), j - 1);
    }
  }

  lemma FirstDiffers(s: seq<Msg>, rest: seq<Msg>, n: nat, j: nat)
    requires Distinct(s) && 0 < n <= |s| && rest == s[n..] && j < |UnitsOf(rest)| && UnitsOf(rest)[j] != []
    ensures UnitsOf(rest)[j][0].seqNo != s[0].seqNo
  {
    hide UnitsOf;
    var x := UnitsOf(rest)[j][0];
    UnitMember(rest, j, x);
    var k :| 0 <= k < |rest| && rest[k] == x;
    assert s[n + k] == x;
  }

  // --------------------------------------------------------------- one event

  /** An event that the agent itself writes. */
  predicate Plain(e: Event) {
    e.op == DefaultOp(e.body) && !IsBracket(e.body) && !e.body.CompactionSummary?
  }

  lemma PlainSurface(log: Log, e: Event)
    requires LogOk(log + [e]) && Plain(e)
    ensures OrdinaryStep(log, log + [e])
    ensures Derive(log + [e]) == if OnSurface(e.body) then Derive(log) + [FromEvent(e)] else Derive(log)
  {
    DeriveSnoc(log, e);
  }

  lemma OwnIdsMore(s: seq<Msg>, m: Msg, offered: set<string>)
    requires OwnIds(s, offered) && DistinctIds(m.calls) && IdsOf(m.calls) !! offered
    ensures OwnIds(s + [m], offered + IdsOf(m.calls))
  {
    forall x, y | x in s + [m] && y in s + [m] && x.seqNo != y.seqNo
      ensures IdsOf(x.calls) !! IdsOf(y.calls)
    {
      if x !in s && y in s { assert IdsOf(y.calls) <= offered; }
      if y !in s && x in s { assert IdsOf(x.calls) <= offered; }
    }
  }

  /** A user message stands alone. */
  lemma UserKeeps(s: seq<Msg>, m: Msg, a: Auto, b: Auto)
    requires WellPaired(s, a) && m.role.UserRole? && m.calls == []
    requires Done(b) == Done(a) && b.offered == a.offered && b.pending == {} && (b.phase.Acting? ==> b.phase.calls == [])
    ensures WellPaired(s + [m], b)
  {
    PairedBegins(s, m, Done(a));
    OwnIdsMore(s, m, a.offered);
    assert a.offered + IdsOf(m.calls) == a.offered;
  }

  /** An answer of the model begins a unit of its own. */
  lemma AnswerKeeps(s: seq<Msg>, m: Msg, a: Auto, b: Auto)
    requires WellPaired(s, a) && Sane(a) && a.pending == {} && m.role.AssistantRole?
    requires DistinctIds(m.calls) && IdsOf(m.calls) !! a.offered
    requires b == a.(phase := Acting(m.calls), offered := a.offered + IdsOf(m.calls))
    ensures WellPaired(s + [m], b)
  {
    PairedBegins(s, m, Done(a));
    OwnIdsMore(s, m, a.offered);
  }

  /** A result goes to the unit of its call. */
  lemma ResultKeeps(s: seq<Msg>, m: Msg, a: Auto, b: Auto)
    requires WellPaired(s, a) && Sane(a) && Distinct(s) && m.role.ToolRole? && m.calls == [] && m.callId in a.pending
    requires b == a.(pending := a.pending - {m.callId})
    ensures WellPaired(s + [m], b)
  {
    hide UnitsOf, Paired;
    var us: seq<Unit> := UnitsOf(s);
    PairedIsTidy(s, DoneOnly(Done(a)));
    forall i: nat | i < |us| - 1 && us[i] != [] && Opens(us[i][0])
      ensures m.callId !in IdsOf(us[i][0].calls)
    {
      OthersDiffer(s, a.offered, i);
    }
    PairedJoins(s, m, Done(a));
    assert Done(a) + {m.callId} == Done(b);
    OwnIdsMore(s, m, a.offered);
    assert a.offered + IdsOf(m.calls) == a.offered;
  }

  /** Any other event leaves the surface alone. */
  lemma OthersKeep(s: seq<Msg>, a: Auto, e: Event)
    requires WellPaired(s, a) && Sane(a) && Advance(a, e).Some? && Plain(e) && !OnSurface(e.body)
    ensures WellPaired(s, Advance(a, e).value)
  {
    hide UnitsOf, Paired, OwnIds;
    var b := Advance(a, e).value;
    assert Done(a) == Done(b);
  }

  lemma EventKeeps(s: seq<Msg>, a: Auto, e: Event)
    requires WellPaired(s, a) && Sane(a) && Distinct(s) && Advance(a, e).Some? && Plain(e)
    ensures WellPaired(if OnSurface(e.body) then s + [FromEvent(e)] else s, Advance(a, e).value)
  {
    hide WellPaired;
    var b := Advance(a, e).value;
    match e.body
    case UserMessage(_, _) => UserKeeps(s, FromEvent(e), a, b);
    case AssistantMessage(_, _) => AnswerKeeps(s, FromEvent(e), a, b);
    case ToolResult(_, _, _, _, _, _, _) => ResultKeeps(s, FromEvent(e), a, b);
    case _ => OthersKeep(s, a, e);
  }

  /** Whatever the agent itself writes keeps the log intact. */
  lemma StaysIntact(log: Log, e: Event)
    requires Intact(log) && LogOk(log + [e]) && Plain(e)
    ensures Intact(log + [e])
  {
    hide Advance, Run, WellPaired, OneSummary;
    PlainSurface(log, e);
    OrdinaryKeepsOneSummary(log, log + [e]);
    RunSnoc(log, e);
    if Accepted(log + [e]) {
      assert log[..|log|] == log;
      AlwaysSane(log, |log|);
      DeriveFaithful(log);
      EventKeeps(Derive(log), Run(log).value, e);
    }
  }

  /** A log that holds nothing else shows each of its messages. */
  lemma {:induction false} PlainIsIntact(log: Log)
    requires LogOk(log) && forall i | 0 <= i < |log| :: Plain(log[i])
    ensures Intact(log)
    ensures forall i | 0 <= i < |log| && OnSurface(log[i].body) :: FromEvent(log[i]) in Derive(log)
  {
    hide Intact, Plain, Derive;
    if log == [] {
      IntactEmpty();
    } else {
      var front, e := log[..|log| - 1], log[|log| - 1];
      assert log == front + [e];
      PlainIsIntact(front);
      StaysIntact(front, e);
      PlainSurface(front, e);
    }
  }

  // ------------------------------------------------------------ compactions

  lemma SpliceMessages(s: seq<Msg>, drop: set<nat>, m: Msg, atEnd: bool)
    requires m.calls == []
    ensures forall x | x in Splice(s, drop, m, atEnd) :: x in s || x.calls == []
  {
    SpliceIff(s, drop, m, atEnd);
  }

  /** A compaction shows no message with calls that was not shown before. */
  lemma StepMessages(log: Log, next: Log, turn: nat)
    requires LogOk(next) && CompactStep(log, next, turn)
    ensures forall m | m in Derive(next) :: m in Derive(log) || m.calls == []
  {
    hide Derive, Committed, FoldSources;
    if TrimStep(log, next, turn) {
      TrimEffect(log, next, turn);
      SpliceMessages(Derive(log), {next[|log|].sources[0]}, FromEvent(next[|log|]), false);
    } else if retain: nat :| SummaryStep(log, next, FoldSources(log, turn, retain)) {
      SummaryEffect(log, next, FoldSources(log, turn, retain));
      SpliceMessages(Derive(log), FoldSources(log, turn, retain), FromEvent(next[|log| + 1]), true);
    } else if q :| IsNewest(Committed(log), q) && SummaryStep(log, next, {q}) {
      SummaryEffect(log, next, {q});
      SpliceMessages(Derive(log), {q}, FromEvent(next[|log| + 1]), true);
    } else {
      CrashEffect(log, next);
    }
  }

  lemma StepStaysIntact(log: Log, next: Log, turn: nat)
    requires Intact(log) && LogOk(next) && CompactStep(log, next, turn)
    requires Accepted(log) && Run(next) == Run(log) && Run(log).value.pending == {} && !Run(log).value.phase.Acting?
    ensures Intact(next)
  {
    hide Derive, Committed, Paired, CompactStep, Run, OneSummary;
    StepKeepsOneSummary(log, next, turn);
    StepKeepsPairs(log, next, turn, DoneOnly(Done(Run(log).value)));
    StepMessages(log, next, turn);
    var a := Run(log).value;
    forall m | m in Derive(next)
      ensures DistinctIds(m.calls) && IdsOf(m.calls) <= a.offered
    {
    }
    forall m, n | m in Derive(next) && n in Derive(next) && m.seqNo != n.seqNo
      ensures IdsOf(m.calls) !! IdsOf(n.calls)
    {
    }
  }

  // ------------------------------------------------------- what the model sees

  ghost function Exactly(): Answering {
    (calls, ids) => AnsweredExactly(calls, ids)
  }

  /** Some of the message's calls were never called: a batch that was cut short. */
  ghost predicate CutShort(m: Msg, called: set<string>) {
    !(IdsOf(m.calls) <= called)
  }

  lemma {:induction false} CallIdsAre(calls: seq<Call>)
    ensures |CallIds(calls)| == |calls| && forall i | 0 <= i < |calls| :: CallIds(calls)[i] == calls[i].id
  {
    if calls != [] {
      CallIdsAre(calls[1..]);
      assert forall i | 0 < i < |calls| :: calls[i] == calls[1..][i - 1] && CallIds(calls)[i] == CallIds(calls[1..])[i - 1];
    }
  }

  lemma {:induction false} SameBag(a: seq<string>, b: seq<string>)
    requires NoRepeats(a) && NoRepeats(b)
    ensures multiset(a) == multiset(b) <==> forall x :: x in a <==> x in b
  {
    OneEach(a);
    OneEach(b);
    if multiset(a) == multiset(b) {
      forall x
        ensures x in a <==> x in b
      {
        assert x in multiset(a) <==> x in multiset(b);
      }
    }
  }

  lemma {:induction false} OneEach(a: seq<string>)
    requires NoRepeats(a)
    ensures forall x :: multiset(a)[x] == if x in a then 1 else 0
  {
    if a != [] {
      var front, last := a[..|a| - 1], a[|a| - 1];
      assert a == front + [last];
      OneEach(front);
      assert forall i | 0 <= i < |front| :: a[i] != last;
    }
  }

  lemma ExactlyIffDone(calls: seq<Call>, ids: seq<string>, done: set<string>)
    requires AnswersDone(calls, ids, done) && DistinctIds(calls)
    ensures AnsweredExactly(calls, ids) <==> IdsOf(calls) <= done
  {
    CallIdsAre(calls);
    var all := CallIds(calls);
    assert NoRepeats(all);
    assert forall x :: x in all <==> x in IdsOf(calls) by {
      forall x | x in IdsOf(calls)
        ensures x in all
      {
        var i :| 0 <= i < |calls| && calls[i].id == x;
        assert all[i] == x;
      }
    }
    SameBag(ids, all);
  }

  /** A message with calls heads a unit. */
  lemma HeadsItsUnit(s: seq<Msg>, m: Msg) returns (i: nat)
    requires AllTidy(UnitsOf(s)) && m in s && !m.role.ToolRole?
    ensures i < |UnitsOf(s)| && UnitsOf(s)[i][0] == m
  {
    hide UnitsOf, Flat;
    FlatUnits(s);
    i := UnitOf(UnitsOf(s), m);
    var u := UnitsOf(s)[i];
    var k :| 0 <= k < |u| && u[k] == m;
    assert Tidy(u);
  }

  lemma {:induction false} UnitOf(us: seq<Unit>, m: Msg) returns (i: nat)
    requires m in Flat(us)
    ensures i < |us| && m in us[i]
  {
    if m in us[0] {
      i := 0;
    } else {
      i := UnitOf(us[1..], m);
      i := i + 1;
    }
  }

  ghost predicate NoneCutShort(log: Log)
    requires Accepted(log)
  {
    forall m | m in Derive(log) :: !CutShort(m, Run(log).value.called)
  }

  /** What the model is sent: every answer stands with exactly its results if and only if
      no batch that is still shown was cut short. */
  lemma SentExactlyIff(log: Log)
    requires Intact(log) && Accepted(log) && Run(log).value.pending == {}
    ensures Paired(Derive(log), Exactly()) <==> NoneCutShort(log)
  {
    hide Run, Derive, UnitsOf;
    var s, a := Derive(log), Run(log).value;
    var us := UnitsOf(s);
    DeriveFaithful(log);
    PairedIsTidy(s, DoneOnly(Done(a)));
    assert Done(a) == a.called;
    forall i | 0 <= i < |us|
      ensures us[i][0] in s && (UnitOk(us[i], Exactly()) <==> !CutShort(us[i][0], a.called))
    {
      UnitExact(s, a, i);
    }
    if Paired(s, Exactly()) {
      forall m | m in s
        ensures !CutShort(m, a.called)
      {
        if m.calls != [] {
          var i := HeadsItsUnit(s, m);
          assert UnitOk(us[i], Exactly());
        }
      }
    }
  }

  lemma UnitExact(s: seq<Msg>, a: Auto, i: nat)
    requires WellPaired(s, a) && a.pending == {} && i < |UnitsOf(s)| && UnitsOf(s)[i] != []
    requires forall m | m in s && m.calls != [] :: m.role.AssistantRole?
    ensures var u := UnitsOf(s)[i]; u[0] in s && (UnitOk(u, Exactly()) <==> !CutShort(u[0], a.called))
  {
    hide UnitsOf;
    var u := UnitsOf(s)[i];
    assert UnitOk(u, DoneOnly(Done(a)));
    UnitMember(s, i, u[0]);
    if Opens(u[0]) {
      ExactlyIffDone(u[0].calls, Ids(u[1..]), Done(a));
      assert Done(a) == a.called;
    } else {
      assert u[0].calls == [] && IdsOf(u[0].calls) == {};
    }
  }
}
