/** Carrying out the calls of one model answer (`harness/tools/scheduler.py`). */
module Scheduler {
  import opened Schema
  import opened Events
  import opened Compaction
  import opened Protocol
  import opened Pairing
  import opened Runtime
  import opened Retry

  /** The calls of one step and what the retry policy says of them. */
  datatype Batch = Batch(
    calls: seq<Call>, turn: nat, step: nat, run: string, exhausted: set<string>, refused: map<string, string>)

  ghost predicate DistinctCalls(calls: seq<Call>) {
    && (forall i | 0 <= i < |calls| :: calls[i].id != "" && calls[i].name != "")
    && DistinctIds(calls)
  }

  /** The log stands within the batch, with these calls open and these ids ever called. */
  ghost predicate InBatch(log: Log, b: Batch, pending: set<string>, called: set<string>) {
    && Run(log).Some?
    && var a := Run(log).value;
    && a.phase == Acting(b.calls) && a.turn == b.turn && a.step == b.step && a.answers == 0
    && a.pending == pending && a.called == called
  }

  /** The retry policy has nothing against the call. */
  predicate Allowed(b: Batch, c: Call) {
    c.id !in b.exhausted && c.id !in b.refused
  }

  /** The call goes to the pipeline: only then does a tool run. */
  predicate Runs(w: World, b: Batch, log: Log, c: Call) {
    !w.aborted(log, c.id) && w.resolve(c.name).Some? && Allowed(b, c)
  }

  function AnswerFor(w: World, b: Batch, log: Log, c: Call): ToolAnswer {
    if w.aborted(log, c.id) then ErrorAnswer(w, "cancelled", c.name)
    else if w.resolve(c.name).None? then ErrorAnswer(w, "unknown_tool", c.name)
    else if c.id in b.refused then ErrorAnswer(w, b.refused[c.id], c.name)
    else if c.id in b.exhausted then ErrorAnswer(w, "retry_exhausted", c.name)
    else w.answer(log, c)
  }

  // ------------------------------------------------------- one call, by steps

  ghost predicate Grew(before: Log, after: Log, body: Body) {
    |after| == |before| + 1 && after[..|before|] == before && after[|before|].body == body
  }

  method AppendCall(store: SessionStore, w: World, b: Batch, c: Call, ghost pending: set<string>, ghost called: set<string>)
    requires store.Valid() && Intact(store.events) && InBatch(store.events, b, pending, called)
    requires c in b.calls && c.id !in called && c.id != "" && c.name != ""
    modifies store
    ensures store.Valid() && Intact(store.events) && InBatch(store.events, b, pending + {c.id}, called + {c.id})
    ensures Extends(old(store.events), store.events) && WasCalled(store.events, b.turn, c)
    ensures Grew(old(store.events), store.events, ToolCall(c))
  {
    hide Intact;
    var e := Emit(store, w, Some(b.run), Some(b.turn), Some(b.step), ToolCall(c));
    assert e in store.events;
  }

  /** Looks at the flags and, unless the call is turned down, runs the tool. */
  method Perform(store: SessionStore, w: World, b: Batch, c: Call, ghost pending: set<string>, ghost called: set<string>)
    returns (r: ToolAnswer, ghost ran: bool)
    requires store.Valid() && Intact(store.events) && InBatch(store.events, b, pending, called)
    requires WasCalled(store.events, b.turn, c)
    modifies store
    ensures store.Valid() && Intact(store.events) && InBatch(store.events, b, pending, called)
    ensures Extends(old(store.events), store.events)
    ensures Genuine(store.events, w, b, c, r, ran)
    ensures ran ==> Allowed(b, c) && w.resolve(c.name).Some?
  {
    hide Intact, Due, Advance, WasCalled;
    ghost var before := store.events;
    AnswerIsDue(w, b, store.events, c);
    r := AnswerFor(w, b, store.events, c);
    ran := Runs(w, b, store.events, c);
    if r.todos.Some? {
      var e := Emit(store, w, Some(b.run), Some(b.turn), None, TodoWrite(r.todos.value));
      TodosIn(before, e, b, pending, called);
    }
    assert store.events[..|before|] == before;
    assert GenuineAt(store.events, |before|, w, b, c, r, ran);
  }

  lemma TodosIn(log: Log, e: Event, b: Batch, pending: set<string>, called: set<string>)
    requires InBatch(log, b, pending, called) && e.turn == Some(b.turn) && e.body.TodoWrite?
    ensures InBatch(log + [e], b, pending, called) && Extends(log, log + [e])
  {
    RunSnoc(log, e);
  }

  method AppendResult(store: SessionStore, w: World, b: Batch, c: Call, r: ToolAnswer,
                      ghost pending: set<string>, ghost called: set<string>)
    requires store.Valid() && Intact(store.events) && InBatch(store.events, b, pending, called)
    requires c.id in pending && c.id != ""
    modifies store
    ensures store.Valid() && Intact(store.events) && InBatch(store.events, b, pending - {c.id}, called)
    ensures Extends(old(store.events), store.events) && WasAnswered(store.events, b, c, r)
    ensures Grew(old(store.events), store.events, ResultBody(c, r)) && EndsAnswering(store.events, c)
    ensures var e := store.events[|old(store.events)|]; e.turn == Some(b.turn) && e.op == Append
  {
    hide Intact;
    ghost var log := store.events;
    var e := Emit(store, w, Some(b.run), Some(b.turn), Some(b.step), ResultBody(c, r));
    ResultCloses(log, e, b, c, r, pending, called);
  }

  lemma ResultCloses(log: Log, e: Event, b: Batch, c: Call, r: ToolAnswer, pending: set<string>, called: set<string>)
    requires InBatch(log, b, pending, called) && c.id in pending
    requires e.turn == Some(b.turn) && e.step == Some(b.step) && e.body == ResultBody(c, r) && e.op == Append
    ensures InBatch(log + [e], b, pending - {c.id}, called)
    ensures Extends(log, log + [e]) && WasAnswered(log + [e], b, c, r)
  {
    RunSnoc(log, e);
    assert e in log + [e];
  }

  /** What speaks against running the call, the first of these. */
  ghost predicate TurnedDown(w: World, b: Batch, log: Log, c: Call, code: string) {
    if w.aborted(log, c.id) then code == "cancelled"
    else if w.resolve(c.name).None? then code == "unknown_tool"
    else if c.id in b.refused then code == b.refused[c.id]
    else c.id in b.exhausted && code == "retry_exhausted"
  }

  ghost predicate IsError(w: World, c: Call, r: ToolAnswer) {
    && !r.ok && r.content == r.shown == w.errorText(r.error, c.name) && r.errorClass == Classify(r.error, w.infer)
    && r.todos.None? && r.contexts == []
  }

  /** What the call is due now: the tool's answer when nothing speaks against it (`did`),
      otherwise an error with the code of what does. */
  ghost predicate Due(w: World, b: Batch, log: Log, c: Call, r: ToolAnswer, did: bool) {
    if did then !w.aborted(log, c.id) && w.resolve(c.name).Some? && c.id !in b.refused && c.id !in b.exhausted && r == w.answer(log, c)
    else IsError(w, c, r) && TurnedDown(w, b, log, c, r.error)
  }

  lemma AnswerIsDue(w: World, b: Batch, log: Log, c: Call)
    ensures Due(w, b, log, c, AnswerFor(w, b, log, c), Runs(w, b, log, c))
  {
  }

  /** At some moment after the call the answer was what the call was due, and the todo list
      that the tool returned is logged there. */
  ghost predicate Genuine(log: Log, w: World, b: Batch, c: Call, r: ToolAnswer, did: bool) {
    exists n: nat :: GenuineAt(log, n, w, b, c, r, did)
  }

  ghost predicate GenuineAt(log: Log, n: nat, w: World, b: Batch, c: Call, r: ToolAnswer, did: bool) {
    && n <= |log| && WasCalled(log[..n], b.turn, c) && Due(w, b, log[..n], c, r, did)
    && (r.todos.Some? ==> n < |log| && log[n].turn == Some(b.turn) && log[n].body == TodoWrite(r.todos.value))
  }

  lemma GenuineStill(before: Log, after: Log, w: World, b: Batch, c: Call, r: ToolAnswer, did: bool)
    requires Extends(before, after) && Genuine(before, w, b, c, r, did)
    ensures Genuine(after, w, b, c, r, did)
  {
    hide Due;
    var n: nat :| GenuineAt(before, n, w, b, c, r, did);
    assert after[..n] == before[..n];
    assert GenuineAt(after, n, w, b, c, r, did);
  }

  ghost predicate Extends(before: Log, after: Log) {
    |before| <= |after| && after[..|before|] == before
  }

  lemma ExtendsTrans(a: Log, b: Log, c: Log)
    requires Extends(a, b) && Extends(b, c)
    ensures Extends(a, c)
  {
    assert c[..|a|] == c[..|b|][..|a|];
  }

  ghost predicate WasCalled(log: Log, turn: nat, c: Call) {
    exists e :: e in log && e.turn == Some(turn) && e.body == ToolCall(c)
  }

  ghost predicate WasAnswered(log: Log, b: Batch, c: Call, r: ToolAnswer) {
    exists e :: e in log && e.turn == Some(b.turn) && e.op == Append && IsResultOf(e.body, c, r)
  }

  lemma StillThere(before: Log, after: Log, b: Batch, c: Call, r: ToolAnswer)
    requires Extends(before, after)
    ensures WasCalled(before, b.turn, c) ==> WasCalled(after, b.turn, c)
    ensures WasAnswered(before, b, c, r) ==> WasAnswered(after, b, c, r)
  {
    if WasCalled(before, b.turn, c) {
      var e :| e in before && e.turn == Some(b.turn) && e.body == ToolCall(c);
      assert e in after[..|before|];
    }
    if WasAnswered(before, b, c, r) {
      var e :| e in before && e.turn == Some(b.turn) && e.op == Append && IsResultOf(e.body, c, r);
      assert e in after[..|before|];
    }
  }

  // ------------------------------------------------------------ what ran

  /** The calls that reached the pipeline: each at most once, none turned down. */
  ghost predicate RanFrom(w: World, b: Batch, ran: seq<Call>) {
    && (forall c | c in ran :: c in b.calls && Allowed(b, c) && w.resolve(c.name).Some?)
    && (forall i, j | 0 <= i < j < |ran| :: ran[i].id != ran[j].id)
  }

  // ---------------------------------------------------------- in sequence

  /** The call was called, then it was looked at, and then its result was logged: what it
      was due at that look. */
  ghost predicate Served(log: Log, w: World, b: Batch, c: Call, r: ToolAnswer, did: bool) {
    exists k: nat :: ServedAt(log, k, w, b, c, r, did)
  }

  ghost predicate ServedAt(log: Log, k: nat, w: World, b: Batch, c: Call, r: ToolAnswer, did: bool) {
    && k < |log| && log[k].turn == Some(b.turn) && log[k].op == Append && IsResultOf(log[k].body, c, r)
    && Genuine(log[..k], w, b, c, r, did)
  }

  lemma ServedFacts(log: Log, w: World, b: Batch, c: Call, r: ToolAnswer, did: bool)
    requires Served(log, w, b, c, r, did)
    ensures WasCalled(log, b.turn, c) && WasAnswered(log, b, c, r)
    ensures did ==> Allowed(b, c) && w.resolve(c.name).Some?
  {
    hide IsResultOf;
    var k: nat :| ServedAt(log, k, w, b, c, r, did);
    var n: nat :| GenuineAt(log[..k], n, w, b, c, r, did);
    assert log[..k][..n] == log[..n] && log[k] in log;
    StillThere(log[..n], log, b, c, r);
  }

  /** A genuine answer, now logged. */
  lemma ServedNow(before: Log, after: Log, w: World, b: Batch, c: Call, r: ToolAnswer, did: bool)
    requires Extends(before, after) && |after| == |before| + 1 && Genuine(before, w, b, c, r, did)
    requires var e := after[|before|]; e.turn == Some(b.turn) && e.op == Append && e.body == ResultBody(c, r)
    ensures Served(after, w, b, c, r, did)
  {
    hide Genuine;
    assert ServedAt(after, |before|, w, b, c, r, did);
  }

  lemma ServedStill(before: Log, after: Log, w: World, b: Batch, c: Call, r: ToolAnswer, did: bool)
    requires Extends(before, after) && Served(before, w, b, c, r, did)
    ensures Served(after, w, b, c, r, did)
  {
    hide Genuine;
    var k: nat :| ServedAt(before, k, w, b, c, r, did);
    assert after[..k] == before[..k];
    assert ServedAt(after, k, w, b, c, r, did);
  }

  /** The first calls, in order, were served; those in `ran`, and no others, ran. */
  ghost predicate AnsweredUpTo(log: Log, w: World, b: Batch, results: seq<ToolAnswer>, ran: seq<Call>) {
    && |results| <= |b.calls|
    && forall i | 0 <= i < |results| :: Served(log, w, b, b.calls[i], results[i], b.calls[i] in ran)
  }

  lemma AnsweredStill(before: Log, after: Log, w: World, b: Batch, results: seq<ToolAnswer>, ran: seq<Call>)
    requires Extends(before, after) && AnsweredUpTo(before, w, b, results, ran)
    ensures AnsweredUpTo(after, w, b, results, ran)
  {
    forall i | 0 <= i < |results|
      ensures Served(after, w, b, b.calls[i], results[i], b.calls[i] in ran)
    {
      ServedStill(before, after, w, b, b.calls[i], results[i], b.calls[i] in ran);
    }
  }

  method RunOne(store: SessionStore, w: World, b: Batch, c: Call, ghost called: set<string>)
    returns (r: ToolAnswer, ghost ran: bool)
    requires store.Valid() && Intact(store.events) && InBatch(store.events, b, {}, called)
    requires c in b.calls && c.id !in called && c.id != "" && c.name != ""
    modifies store
    ensures store.Valid() && Intact(store.events) && InBatch(store.events, b, {}, called + {c.id})
    ensures Extends(old(store.events), store.events) && |store.events| > |old(store.events)|
    ensures Served(store.events, w, b, c, r, ran) && EndsAnswering(store.events, c)
    ensures ran ==> Allowed(b, c) && w.resolve(c.name).Some?
  {
    hide Intact, Advance;
    ghost var before := store.events;
    AppendCall(store, w, b, c, {}, called);
    ghost var one := store.events;
    r, ran := Perform(store, w, b, c, {} + {c.id}, called + {c.id});
    ghost var two := store.events;
    AppendResult(store, w, b, c, r, {} + {c.id}, called + {c.id});
    ExtendsTrans(one, two, store.events);
    ExtendsTrans(before, one, store.events);
    ServedNow(two, store.events, w, b, c, r, ran);
    assert {} + {c.id} - {c.id} == {};
  }

  /** After the calls that `results` answers, one after the other. */
  ghost predicate InOrder(log: Log, w: World, b: Batch, called: set<string>, results: seq<ToolAnswer>, ran: seq<Call>) {
    && |results| <= |b.calls| && InBatch(log, b, {}, called + IdsOf(b.calls[..|results|]))
    && Kept(log, w, b, results, ran)
  }

  ghost predicate Kept(log: Log, w: World, b: Batch, results: seq<ToolAnswer>, ran: seq<Call>) {
    && AnsweredUpTo(log, w, b, results, ran) && RanAmong(w, b, ran, IdsOf(b.calls[..|results|]))
  }

  ghost predicate RanAmong(w: World, b: Batch, ran: seq<Call>, ids: set<string>) {
    RanFrom(w, b, ran) && forall c | c in ran :: c.id in ids
  }

  lemma RanAmongMore(w: World, b: Batch, ran: seq<Call>, ids: set<string>, c: Call, did: bool)
    requires RanAmong(w, b, ran, ids) && c.id !in ids && c in b.calls
    requires did ==> Allowed(b, c) && w.resolve(c.name).Some?
    ensures RanAmong(w, b, if did then ran + [c] else ran, ids + {c.id})
  {
  }

  /** One round of the sequential branch. */
  method NextInOrder(store: SessionStore, w: World, b: Batch, ghost called: set<string>, results: seq<ToolAnswer>,
                     ghost ran: seq<Call>)
    returns (more: seq<ToolAnswer>, ghost ranMore: seq<Call>)
    requires store.Valid() && Intact(store.events) && InOrder(store.events, w, b, called, results, ran)
    requires DistinctCalls(b.calls) && IdsOf(b.calls) !! called && |results| < |b.calls|
    modifies store
    ensures store.Valid() && Intact(store.events) && InOrder(store.events, w, b, called, more, ranMore)
    ensures Extends(old(store.events), store.events) && |more| == |results| + 1
    ensures EndsAnswering(store.events, b.calls[|results|]) && |store.events| > |old(store.events)|
  {
    hide Intact, Advance, InBatch, RanAmong, AnsweredUpTo, Served;
    var c := b.calls[|results|];
    ghost var before := store.events;
    IdsNext(b.calls, |results|);
    ghost var did;
    var r;
    r, did := RunOne(store, w, b, c, called + IdsOf(b.calls[..|results|]));
    KeptNext(before, store.events, w, b, results, ran, r, did);
    assert called + IdsOf(b.calls[..|results|]) + {c.id} == called + IdsOf(b.calls[..|results| + 1]);
    ranMore := if did then ran + [c] else ran;
    more := results + [r];
  }

  lemma KeptNext(before: Log, after: Log, w: World, b: Batch, results: seq<ToolAnswer>, ran: seq<Call>, r: ToolAnswer, did: bool)
    requires |results| < |b.calls| && Kept(before, w, b, results, ran) && Extends(before, after) && DistinctCalls(b.calls)
    requires var c := b.calls[|results|];
      && Served(after, w, b, c, r, did) && (did ==> Allowed(b, c) && w.resolve(c.name).Some?)
    ensures Kept(after, w, b, results + [r], if did then ran + [b.calls[|results|]] else ran)
  {
    hide RanFrom, Served;
    IdsNext(b.calls, |results|);
    AnsweredStill(before, after, w, b, results, ran);
    AnsweredMore(after, w, b, results, ran, r, did);
    RanAmongMore(w, b, ran, IdsOf(b.calls[..|results|]), b.calls[|results|], did);
  }

  lemma AnsweredMore(log: Log, w: World, b: Batch, results: seq<ToolAnswer>, ran: seq<Call>, r: ToolAnswer, did: bool)
    requires |results| < |b.calls| && AnsweredUpTo(log, w, b, results, ran) && DistinctCalls(b.calls)
    requires Served(log, w, b, b.calls[|results|], r, did) && b.calls[|results|] !in ran
    ensures AnsweredUpTo(log, w, b, results + [r], if did then ran + [b.calls[|results|]] else ran)
  {
    hide Served;
    var more := results + [r];
    var ranMore := if did then ran + [b.calls[|results|]] else ran;
    forall i | 0 <= i < |more|
      ensures Served(log, w, b, b.calls[i], more[i], b.calls[i] in ranMore)
    {
      if i < |results| { assert b.calls[i] != b.calls[|results|]; }
    }
  }

  // ------------------------------------------------- the flag between two calls

  /** The result of the call is the event before position `n`. */
  ghost predicate AnsweredAt(log: Log, n: nat, c: Call) {
    0 < n <= |log| && Protocol.Results(log[n - 1], c.id)
  }

  ghost predicate EndsAnswering(log: Log, c: Call) {
    AnsweredAt(log, |log|, c)
  }

  /** Right behind the result of a call that is not the last, the run was cancelled. */
  ghost predicate FlagSeen(log: Log, w: World, calls: seq<Call>) {
    exists k: nat, n: nat :: k + 1 < |calls| && AnsweredAt(log, n, calls[k]) && w.aborted(log[..n], "")
  }

  lemma AnsweredWasCalled(log: Log, n: nat, c: Call)
    requires Accepted(log) && AnsweredAt(log, n, c)
    ensures c.id in Run(log).value.called
  {
    assert log[..|log|] == log;
    NextPending(log, n - 1, c.id);
    Monotone(log, n, |log|);
  }

  lemma NotSeenYet(log: Log, w: World, b: Batch, called: set<string>)
    requires InBatch(log, b, {}, called) && IdsOf(b.calls) !! called
    ensures !FlagSeen(log, w, b.calls)
  {
    hide Run;
    assert forall i | 0 <= i < |b.calls| :: b.calls[i].id in IdsOf(b.calls);
    forall k: nat, n: nat | k < |b.calls| && AnsweredAt(log, n, b.calls[k])
      ensures false
    {
      AnsweredWasCalled(log, n, b.calls[k]);
    }
  }

  ghost predicate Answered(log: Log, c: Call) {
    exists n: nat :: AnsweredAt(log, n, c)
  }

  /** What was answered before is not answered again. */
  lemma AnsweredStays(before: Log, after: Log, n: nat, c: Call)
    requires Accepted(after) && Extends(before, after) && AnsweredAt(after, n, c) && Answered(before, c)
    ensures AnsweredAt(before, n, c) && after[..n] == before[..n]
  {
    hide Run;
    var m: nat :| AnsweredAt(before, m, c);
    assert after[m - 1] == before[m - 1];
    if m < n { AnsweredOnce(after, m - 1, n - 1, c.id); } else if n < m { AnsweredOnce(after, n - 1, m - 1, c.id); }
  }

  /** A call more is answered, and behind its result the flag is looked at. */
  lemma FlagNext(before: Log, after: Log, w: World, b: Batch, called: set<string>, j: nat)
    requires Extends(before, after) && DistinctCalls(b.calls) && IdsOf(b.calls) !! called && j < |b.calls|
    requires forall i | 0 <= i < j :: Answered(before, b.calls[i])
    requires EndsAnswering(after, b.calls[j]) && InBatch(after, b, {}, called + IdsOf(b.calls[..j + 1]))
    ensures FlagSeen(after, w, b.calls) <==> FlagSeen(before, w, b.calls) || (j + 1 < |b.calls| && w.aborted(after, ""))
  {
    hide Run, IdsOf, DistinctCalls, Advance;
    assert after[..|after|] == after;
    NotAmong(b.calls, j + 1);
    if k: nat, n: nat :| k + 1 < |b.calls| && AnsweredAt(before, n, b.calls[k]) && w.aborted(before[..n], "") {
      assert after[..n] == before[..n] && AnsweredAt(after, n, b.calls[k]);
    }
    if k: nat, n: nat :| k + 1 < |b.calls| && AnsweredAt(after, n, b.calls[k]) && w.aborted(after[..n], "") {
      AnsweredWasCalled(after, n, b.calls[k]);
      if k < j {
        AnsweredStays(before, after, n, b.calls[k]);
      } else if n < |after| {
        AnsweredOnce(after, n - 1, |after| - 1, b.calls[j].id);
      }
    }
  }

  lemma NotAmong(calls: seq<Call>, n: nat)
    requires DistinctCalls(calls) && n <= |calls|
    ensures forall k | n <= k < |calls| :: calls[k].id in IdsOf(calls) && calls[k].id !in IdsOf(calls[..n])
  {
    assert forall i | 0 <= i < n :: calls[..n][i] == calls[i];
  }

  lemma UpToAnswered(log: Log, w: World, b: Batch, results: seq<ToolAnswer>, ran: seq<Call>)
    requires AnsweredUpTo(log, w, b, results, ran)
    ensures forall i | 0 <= i < |results| :: Answered(log, b.calls[i])
  {
    forall i | 0 <= i < |results|
      ensures Answered(log, b.calls[i])
    {
      assert Served(log, w, b, b.calls[i], results[i], b.calls[i] in ran);
      ServedFacts(log, w, b, b.calls[i], results[i], b.calls[i] in ran);
      var e :| e in log && e.turn == Some(b.turn) && e.op == Append && IsResultOf(e.body, b.calls[i], results[i]);
      var m :| 0 <= m < |log| && log[m] == e;
      assert AnsweredAt(log, m + 1, b.calls[i]);
    }
  }

  /** The sequential branch: it stops early if and only if the run was cancelled when the
      result of one of the calls, but not of the last, had just been written. */
  method RunInOrder(store: SessionStore, w: World, b: Batch, ghost called: set<string>)
    returns (results: seq<ToolAnswer>, ghost ran: seq<Call>)
    requires store.Valid() && Intact(store.events) && InBatch(store.events, b, {}, called)
    requires DistinctCalls(b.calls) && IdsOf(b.calls) !! called
    modifies store
    ensures store.Valid() && Intact(store.events) && Extends(old(store.events), store.events)
    ensures InOrder(store.events, w, b, called, results, ran)
    ensures |results| < |b.calls| <==> FlagSeen(store.events, w, b.calls)
  {
    hide Intact, Advance, InBatch, AnsweredAt, FlagSeen, Served;
    results, ran := [], [];
    NotSeenYet(store.events, w, b, called);
    assert called + IdsOf(b.calls[..0]) == called;
    while |results| < |b.calls|
      invariant store.Valid() && Intact(store.events) && Extends(old(store.events), store.events)
      invariant InOrder(store.events, w, b, called, results, ran) && !FlagSeen(store.events, w, b.calls)
      decreases |b.calls| - |results|
    {
      ghost var before, n := store.events, |results|;
      UpToAnswered(before, w, b, results, ran);
      results, ran := NextInOrder(store, w, b, called, results, ran);
      FlagNext(before, store.events, w, b, called, n);
      ExtendsTrans(old(store.events), before, store.events);
      if w.aborted(store.events, "") {
        break;
      }
    }
  }

  lemma IdsNext(calls: seq<Call>, n: nat)
    requires n < |calls| && DistinctCalls(calls)
    ensures IdsOf(calls[..n + 1]) == IdsOf(calls[..n]) + {calls[n].id} <= IdsOf(calls)
    ensures calls[n].id !in IdsOf(calls[..n]) && calls[n] in calls
  {
    assert calls[..n + 1] == calls[..n] + [calls[n]];
    assert forall i | 0 <= i < n :: calls[..n][i] == calls[i] == calls[..n + 1][i];
  }

  // ------------------------------------------------------------- in parallel

  /** How far one of the concurrent calls has come. */
  datatype Progress = Fresh | Called | Performed(answer: ToolAnswer) | Finished(answer: ToolAnswer)

  function Stage(p: Progress): nat {
    match p case Fresh => 0 case Called => 1 case Performed(_) => 2 case Finished(_) => 3
  }

  ghost function Reached(calls: seq<Call>, ps: seq<Progress>, from: nat, upTo: nat): set<string>
    requires |ps| == |calls|
  {
    set i | 0 <= i < |ps| && from <= Stage(ps[i]) <= upTo :: calls[i].id
  }

  /** One call moves on by one stage. */
  lemma Moved(calls: seq<Call>, ps: seq<Progress>, i: nat, p: Progress, from: nat, upTo: nat)
    requires DistinctCalls(calls) && |ps| == |calls| && i < |ps|
    ensures Reached(calls, ps[i := p], from, upTo) ==
            Reached(calls, ps, from, upTo) - {calls[i].id} + if from <= Stage(p) <= upTo then {calls[i].id} else {}
    ensures calls[i].id in Reached(calls, ps, from, upTo) <==> from <= Stage(ps[i]) <= upTo
  {
    var qs := ps[i := p];
    assert forall j | 0 <= j < |ps| && j != i :: calls[j].id != calls[i].id && qs[j] == ps[j];
  }

  ghost predicate Reaches(log: Log, w: World, b: Batch, c: Call, p: Progress, did: bool) {
    match p
    case Fresh => true
    case Called => WasCalled(log, b.turn, c)
    case Performed(r) => Genuine(log, w, b, c, r, did)
    case Finished(r) => Served(log, w, b, c, r, did)
  }

  ghost predicate Tracked(log: Log, w: World, b: Batch, ps: seq<Progress>, ran: seq<Call>) {
    && |ps| == |b.calls|
    && forall i | 0 <= i < |ps| :: Reaches(log, w, b, b.calls[i], ps[i], b.calls[i] in ran)
  }

  lemma ReachesStill(before: Log, after: Log, w: World, b: Batch, c: Call, p: Progress, did: bool)
    requires Extends(before, after) && Reaches(before, w, b, c, p, did)
    ensures Reaches(after, w, b, c, p, did)
  {
    match p
    case Fresh =>
    case Called =>
      var e :| e in before && e.turn == Some(b.turn) && e.body == ToolCall(c);
      assert e in after[..|before|];
    case Performed(r) => GenuineStill(before, after, w, b, c, r, did);
    case Finished(r) => ServedStill(before, after, w, b, c, r, did);
  }

  lemma TrackedNext(before: Log, after: Log, w: World, b: Batch, ps: seq<Progress>, ran: seq<Call>, i: nat, p: Progress, did: bool)
    requires Tracked(before, w, b, ps, ran) && Extends(before, after) && i < |ps| && DistinctCalls(b.calls)
    requires var more := if did then ran + [b.calls[i]] else ran; Reaches(after, w, b, b.calls[i], p, b.calls[i] in more)
    ensures Tracked(after, w, b, ps[i := p], if did then ran + [b.calls[i]] else ran)
  {
    hide Reaches;
    var more := if did then ran + [b.calls[i]] else ran;
    forall j | 0 <= j < |ps| && j != i
      ensures Reaches(after, w, b, b.calls[j], ps[j], b.calls[j] in more)
    {
      assert b.calls[j] != b.calls[i];
      ReachesStill(before, after, w, b, b.calls[j], ps[j], b.calls[j] in ran);
    }
  }

  /** Any point of an interleaving. */
  ghost predicate Interleaved(log: Log, w: World, b: Batch, called: set<string>, ps: seq<Progress>, ran: seq<Call>) {
    && Tracked(log, w, b, ps, ran)
    && InBatch(log, b, Reached(b.calls, ps, 1, 2), called + Reached(b.calls, ps, 1, 3))
    && RanAmong(w, b, ran, Reached(b.calls, ps, 2, 3))
  }

  method StartCall(store: SessionStore, w: World, b: Batch, ghost called: set<string>, ps: seq<Progress>, ghost ran: seq<Call>, i: nat)
    returns (next: seq<Progress>)
    requires store.Valid() && Intact(store.events) && Interleaved(store.events, w, b, called, ps, ran)
    requires DistinctCalls(b.calls) && IdsOf(b.calls) !! called && i < |ps| && ps[i].Fresh?
    modifies store
    ensures store.Valid() && Intact(store.events) && Interleaved(store.events, w, b, called, next, ran)
    ensures Extends(old(store.events), store.events) && next == ps[i := Called]
  {
    hide Intact, Advance;
    ghost var before := store.events;
    var c := b.calls[i];
    assert c.id in IdsOf(b.calls);
    MovedAll(b.calls, ps, i, Called);
    AppendCall(store, w, b, c, Reached(b.calls, ps, 1, 2), called + Reached(b.calls, ps, 1, 3));
    TrackedNext(before, store.events, w, b, ps, ran, i, Called, false);
    next := ps[i := Called];
    assert called + Reached(b.calls, ps, 1, 3) + {c.id} == called + Reached(b.calls, next, 1, 3);
  }

  lemma MovedAll(calls: seq<Call>, ps: seq<Progress>, i: nat, p: Progress)
    requires DistinctCalls(calls) && |ps| == |calls| && i < |ps| && Stage(p) == Stage(ps[i]) + 1
    ensures var id, qs := calls[i].id, ps[i := p];
      && Reached(calls, qs, 1, 2) == (if Stage(p) == 1 then Reached(calls, ps, 1, 2) + {id}
                                      else if Stage(p) == 2 then Reached(calls, ps, 1, 2) else Reached(calls, ps, 1, 2) - {id})
      && Reached(calls, qs, 1, 3) == (if Stage(p) == 1 then Reached(calls, ps, 1, 3) + {id} else Reached(calls, ps, 1, 3))
      && Reached(calls, qs, 2, 3) == (if Stage(p) == 2 then Reached(calls, ps, 2, 3) + {id} else Reached(calls, ps, 2, 3))
    ensures calls[i].id in Reached(calls, ps, 1, 3) <==> Stage(ps[i]) >= 1
    ensures calls[i].id in Reached(calls, ps, 2, 3) <==> Stage(ps[i]) >= 2
    ensures calls[i].id in Reached(calls, ps, 1, 2) <==> 1 <= Stage(ps[i]) <= 2
  {
    Moved(calls, ps, i, p, 1, 2);
    Moved(calls, ps, i, p, 1, 3);
    Moved(calls, ps, i, p, 2, 3);
  }

  method PerformCall(store: SessionStore, w: World, b: Batch, ghost called: set<string>, ps: seq<Progress>, ghost ran: seq<Call>, i: nat)
    returns (next: seq<Progress>, ghost ranMore: seq<Call>)
    requires store.Valid() && Intact(store.events) && Interleaved(store.events, w, b, called, ps, ran)
    requires DistinctCalls(b.calls) && i < |ps| && ps[i].Called?
    modifies store
    ensures store.Valid() && Intact(store.events) && Interleaved(store.events, w, b, called, next, ranMore)
    ensures Extends(old(store.events), store.events) && next == ps[i := next[i]] && next[i].Performed?
  {
    hide Intact, Advance;
    ghost var before := store.events;
    var c := b.calls[i];
    ghost var did;
    var r;
    r, did := Perform(store, w, b, c, Reached(b.calls, ps, 1, 2), called + Reached(b.calls, ps, 1, 3));
    MovedAll(b.calls, ps, i, Performed(r));
    NotRunYet(w, b, ran, ps, i);
    TrackedNext(before, store.events, w, b, ps, ran, i, Performed(r), did);
    RanAmongMore(w, b, ran, Reached(b.calls, ps, 2, 3), c, did);
    next := ps[i := Performed(r)];
    ranMore := if did then ran + [c] else ran;
  }

  method FinishCall(store: SessionStore, w: World, b: Batch, ghost called: set<string>, ps: seq<Progress>, ghost ran: seq<Call>, i: nat)
    returns (next: seq<Progress>)
    requires store.Valid() && Intact(store.events) && Interleaved(store.events, w, b, called, ps, ran)
    requires DistinctCalls(b.calls) && i < |ps| && ps[i].Performed?
    modifies store
    ensures store.Valid() && Intact(store.events) && Interleaved(store.events, w, b, called, next, ran)
    ensures Extends(old(store.events), store.events) && next == ps[i := Finished(ps[i].answer)]
  {
    hide Intact, Advance;
    ghost var before := store.events;
    var c, r := b.calls[i], ps[i].answer;
    MovedAll(b.calls, ps, i, Finished(r));
    AppendResult(store, w, b, c, r, Reached(b.calls, ps, 1, 2), called + Reached(b.calls, ps, 1, 3));
    ServedNow(before, store.events, w, b, c, r, c in ran);
    TrackedNext(before, store.events, w, b, ps, ran, i, Finished(r), false);
    next := ps[i := Finished(r)];
  }

  lemma NotRunYet(w: World, b: Batch, ran: seq<Call>, ps: seq<Progress>, i: nat)
    requires DistinctCalls(b.calls) && |ps| == |b.calls| && i < |ps| && ps[i].Called?
    requires RanAmong(w, b, ran, Reached(b.calls, ps, 2, 3))
    ensures b.calls[i] !in ran
  {
    Moved(b.calls, ps, i, ps[i], 2, 3);
  }

  // the loop

  function Left(ps: seq<Progress>): nat {
    if ps == [] then 0 else 3 - Stage(ps[|ps| - 1]) + Left(ps[..|ps| - 1])
  }

  lemma {:induction false} LeftLess(ps: seq<Progress>, i: nat, p: Progress)
    requires i < |ps| && Stage(p) == Stage(ps[i]) + 1
    ensures Left(ps[i := p]) == Left(ps) - 1
  {
    var qs := ps[i := p];
    if i < |ps| - 1 {
      assert qs[..|ps| - 1] == ps[..|ps| - 1][i := p];
      LeftLess(ps[..|ps| - 1], i, p);
    } else {
      assert qs[..|ps| - 1] == ps[..|ps| - 1];
    }
  }

  lemma {:induction false} NoneLeft(ps: seq<Progress>)
    ensures Left(ps) == 0 <==> forall i | 0 <= i < |ps| :: ps[i].Finished?
  {
    if ps != [] {
      NoneLeft(ps[..|ps| - 1]);
      assert forall i | 0 <= i < |ps| - 1 :: ps[..|ps| - 1][i] == ps[i];
    }
  }

  /** The call that the schedule moves next, or the first unfinished one. */
  method NextCall(w: World, tick: nat, ps: seq<Progress>) returns (i: nat)
    requires Left(ps) > 0
    ensures i < |ps| && !ps[i].Finished?
  {
    NoneLeft(ps);
    if w.schedule(tick) < |ps| && !ps[w.schedule(tick)].Finished? {
      return w.schedule(tick);
    }
    i := 0;
    while ps[i].Finished?
      invariant i < |ps| && forall j | 0 <= j < i :: ps[j].Finished?
      decreases |ps| - i
    {
      i := i + 1;
    }
  }

  /** One stage of one call. */
  method MoveOn(store: SessionStore, w: World, b: Batch, ghost called: set<string>, ps: seq<Progress>, ghost ran: seq<Call>, i: nat)
    returns (next: seq<Progress>, ghost ranMore: seq<Call>)
    requires store.Valid() && Intact(store.events) && Interleaved(store.events, w, b, called, ps, ran)
    requires DistinctCalls(b.calls) && IdsOf(b.calls) !! called && i < |ps| && !ps[i].Finished?
    modifies store
    ensures store.Valid() && Intact(store.events) && Interleaved(store.events, w, b, called, next, ranMore)
    ensures Extends(old(store.events), store.events) && Left(next) == Left(ps) - 1
  {
    hide Intact, Advance, Interleaved;
    ranMore := ran;
    match ps[i] {
      case Fresh =>
        next := StartCall(store, w, b, called, ps, ran, i);
      case Called =>
        next, ranMore := PerformCall(store, w, b, called, ps, ran, i);
      case Performed(r) =>
        next := FinishCall(store, w, b, called, ps, ran, i);
    }
    LeftLess(ps, i, next[i]);
  }

  /** Moves the calls on in the order of the schedule until all are finished. */
  method Interleave(store: SessionStore, w: World, b: Batch, ghost called: set<string>, start: seq<Progress>)
    returns (ps: seq<Progress>, ghost ran: seq<Call>)
    requires store.Valid() && Intact(store.events) && Interleaved(store.events, w, b, called, start, [])
    requires DistinctCalls(b.calls) && IdsOf(b.calls) !! called
    modifies store
    ensures store.Valid() && Intact(store.events) && Extends(old(store.events), store.events)
    ensures Interleaved(store.events, w, b, called, ps, ran) && Left(ps) == 0
  {
    hide Intact, Advance;
    ps, ran := start, [];
    var tick := 0;
    while Left(ps) > 0
      invariant store.Valid() && Intact(store.events) && Extends(old(store.events), store.events)
      invariant Interleaved(store.events, w, b, called, ps, ran)
      decreases Left(ps)
    {
      ghost var before := store.events;
      var i := NextCall(w, tick, ps);
      tick := tick + 1;
      ps, ran := MoveOn(store, w, b, called, ps, ran, i);
      ExtendsTrans(old(store.events), before, store.events);
    }
  }

  /** The parallel branch.  The schedule is arbitrary, so this is every interleaving. */
  method RunTogether(store: SessionStore, w: World, b: Batch, ghost called: set<string>)
    returns (results: seq<ToolAnswer>, ghost ran: seq<Call>)
    requires store.Valid() && Intact(store.events) && InBatch(store.events, b, {}, called)
    requires DistinctCalls(b.calls) && IdsOf(b.calls) !! called
    modifies store
    ensures store.Valid() && Intact(store.events) && Extends(old(store.events), store.events)
    ensures |results| == |b.calls| && InOrder(store.events, w, b, called, results, ran)
  {
    hide Intact, Advance;
    var ps := seq(|b.calls|, i => Fresh);
    AllFresh(store.events, w, b, called, ps);
    ps, ran := Interleave(store, w, b, called, ps);
    NoneLeft(ps);
    results := seq(|ps|, i requires 0 <= i < |ps| => ps[i].answer);
    AllFinished(store.events, w, b, called, ps, ran, results);
  }

  lemma AllFresh(log: Log, w: World, b: Batch, called: set<string>, ps: seq<Progress>)
    requires InBatch(log, b, {}, called) && |ps| == |b.calls| && forall i | 0 <= i < |ps| :: ps[i].Fresh?
    ensures Interleaved(log, w, b, called, ps, [])
  {
    assert Reached(b.calls, ps, 1, 2) == {} && Reached(b.calls, ps, 1, 3) == {};
    assert called + {} == called;
  }

  lemma AllFinished(log: Log, w: World, b: Batch, called: set<string>, ps: seq<Progress>, ran: seq<Call>, results: seq<ToolAnswer>)
    requires Interleaved(log, w, b, called, ps, ran) && forall i | 0 <= i < |ps| :: ps[i].Finished?
    requires |results| == |ps| && forall i | 0 <= i < |ps| :: results[i] == ps[i].answer
    ensures InOrder(log, w, b, called, results, ran)
  {
    assert b.calls[..|results|] == b.calls;
    AllReached(b.calls, ps);
    forall i | 0 <= i < |results|
      ensures Served(log, w, b, b.calls[i], results[i], b.calls[i] in ran)
    {
      assert Reaches(log, w, b, b.calls[i], ps[i], b.calls[i] in ran);
    }
  }

  lemma AllReached(calls: seq<Call>, ps: seq<Progress>)
    requires |ps| == |calls| && forall i | 0 <= i < |ps| :: ps[i].Finished?
    ensures Reached(calls, ps, 1, 2) == {}
    ensures Reached(calls, ps, 1, 3) == IdsOf(calls) == Reached(calls, ps, 2, 3)
  {
  }

  // ------------------------------------------------------- awaiting approval

  /** The first call that needs an approval and that the retry policy lets through. */
  predicate IsFirstToAsk(w: World, b: Batch, asked: nat) {
    && asked < |b.calls| && NeedsApproval(w, b.calls[asked]) && Allowed(b, b.calls[asked])
    && forall j | 0 <= j < asked && Allowed(b, b.calls[j]) :: !NeedsApproval(w, b.calls[j])
  }

  method FindApproval(w: World, b: Batch) returns (at: Option<nat>)
    ensures at.Some? ==> IsFirstToAsk(w, b, at.value)
    ensures at.None? ==> forall c | c in b.calls && Allowed(b, c) :: !NeedsApproval(w, c)
  {
    for i := 0 to |b.calls|
      invariant forall j | 0 <= j < i && Allowed(b, b.calls[j]) :: !NeedsApproval(w, b.calls[j])
    {
      if NeedsApproval(w, b.calls[i]) && Allowed(b, b.calls[i]) {
        return Some(i);
      }
    }
    return None;
  }

  predicate NeedsApproval(w: World, c: Call) {
    var d := w.resolve(c.name);
    d.Some? && d.value.needsApproval
  }

  /** Why a call is answered without running while another awaits its approval. */
  function Deferred(w: World, b: Batch, c: Call): ToolAnswer {
    if c.id in b.refused then ErrorAnswer(w, b.refused[c.id], c.name)
    else if c.id in b.exhausted then ErrorAnswer(w, "retry_exhausted", c.name)
    else ErrorAnswer(w, "deferred_for_approval", c.name)
  }

  /** The ids open after the first `n` calls when `asked` is left unanswered. */
  ghost function OpenAsked(b: Batch, n: nat, asked: nat): set<string>
    requires n <= |b.calls| && asked < |b.calls|
  {
    if asked < n then {b.calls[asked].id} else {}
  }

  /** One call of the approval branch: all but the asked call are answered at once. */
  method DeferOne(store: SessionStore, w: World, b: Batch, ghost called: set<string>, n: nat, asked: nat, ghost from: nat)
    requires store.Valid() && Intact(store.events) && DistinctCalls(b.calls) && IdsOf(b.calls) !! called
    requires n < |b.calls| && asked < |b.calls|
    requires InBatch(store.events, b, OpenAsked(b, n, asked), called + IdsOf(b.calls[..n]))
    requires PutOffOnly(store.events, w, b, from, asked)
    modifies store
    ensures PutOffOnly(store.events, w, b, from, asked)
    ensures store.Valid() && Intact(store.events) && Extends(old(store.events), store.events)
    ensures InBatch(store.events, b, OpenAsked(b, n + 1, asked), called + IdsOf(b.calls[..n + 1]))
    ensures WasCalled(store.events, b.turn, b.calls[n])
    ensures n != asked ==> WasAnswered(store.events, b, b.calls[n], Deferred(w, b, b.calls[n]))
  {
    hide Intact, Advance;
    ghost var before := store.events;
    var c := b.calls[n];
    IdsNext(b.calls, n);
    assert called + IdsOf(b.calls[..n]) + {c.id} == called + IdsOf(b.calls[..n + 1]);
    AppendCall(store, w, b, c, OpenAsked(b, n, asked), called + IdsOf(b.calls[..n]));
    GrewPutOff(before, store.events, w, b, from, asked);
    if n == asked {
      assert {} + {c.id} == {c.id};
      return;
    }
    ghost var mid := store.events;
    AppendResult(store, w, b, c, Deferred(w, b, c), OpenAsked(b, n, asked) + {c.id}, called + IdsOf(b.calls[..n + 1]));
    assert IsPutOff(store.events[|mid|], w, b, asked);
    GrewPutOff(mid, store.events, w, b, from, asked);
    assert OpenAsked(b, n, asked) + {c.id} - {c.id} == OpenAsked(b, n + 1, asked);
    ExtendsTrans(before, mid, store.events);
    StillThere(mid, store.events, b, c, Deferred(w, b, c));
  }

  /** The call was called and, unless it is the asked one, answered without running. */
  ghost predicate PutOff(log: Log, w: World, b: Batch, i: nat, asked: nat)
    requires i < |b.calls|
  {
    WasCalled(log, b.turn, b.calls[i]) && (i != asked ==> WasAnswered(log, b, b.calls[i], Deferred(w, b, b.calls[i])))
  }

  /** From `from` on the log holds calls, and results only of calls that were put off. */
  ghost predicate PutOffOnly(log: Log, w: World, b: Batch, from: nat, asked: nat) {
    && from <= |log|
    && forall k | from <= k < |log| :: log[k].body.ToolCall? || log[k].body.ApprovalAsked? || IsPutOff(log[k], w, b, asked)
  }

  ghost predicate IsPutOff(e: Event, w: World, b: Batch, asked: nat) {
    exists i :: 0 <= i < |b.calls| && i != asked && IsResultOf(e.body, b.calls[i], Deferred(w, b, b.calls[i]))
  }

  lemma PutOffOnlyMore(log: Log, e: Event, w: World, b: Batch, from: nat, asked: nat)
    requires PutOffOnly(log, w, b, from, asked)
    requires e.body.ToolCall? || e.body.ApprovalAsked? || IsPutOff(e, w, b, asked)
    ensures PutOffOnly(log + [e], w, b, from, asked)
  {
  }

  /** After the first `n` calls of the approval branch. */
  ghost predicate Deferring(log: Log, w: World, b: Batch, called: set<string>, n: nat, asked: nat) {
    && n <= |b.calls| && asked < |b.calls|
    && InBatch(log, b, OpenAsked(b, n, asked), called + IdsOf(b.calls[..n]))
    && AllPutOff(log, w, b, n, asked)
  }

  ghost predicate AllPutOff(log: Log, w: World, b: Batch, n: nat, asked: nat) {
    n <= |b.calls| && forall i | 0 <= i < n :: PutOff(log, w, b, i, asked)
  }

  lemma PutOffStill(before: Log, after: Log, w: World, b: Batch, n: nat, asked: nat)
    requires Extends(before, after) && AllPutOff(before, w, b, n, asked)
    ensures AllPutOff(after, w, b, n, asked)
  {
    forall i | 0 <= i < n
      ensures PutOff(after, w, b, i, asked)
    {
      assert PutOff(before, w, b, i, asked);
      StillThere(before, after, b, b.calls[i], Deferred(w, b, b.calls[i]));
    }
  }

  lemma GrewPutOff(before: Log, after: Log, w: World, b: Batch, from: nat, asked: nat)
    requires PutOffOnly(before, w, b, from, asked) && |after| == |before| + 1 && after[..|before|] == before
    requires var e := after[|before|]; e.body.ToolCall? || e.body.ApprovalAsked? || IsPutOff(e, w, b, asked)
    ensures PutOffOnly(after, w, b, from, asked)
  {
    assert after == before + [after[|before|]];
    PutOffOnlyMore(before, after[|before|], w, b, from, asked);
  }

  method DeferNext(store: SessionStore, w: World, b: Batch, ghost called: set<string>, n: nat, asked: nat, ghost from: nat)
    requires store.Valid() && Intact(store.events) && DistinctCalls(b.calls) && IdsOf(b.calls) !! called
    requires n < |b.calls| && Deferring(store.events, w, b, called, n, asked) && PutOffOnly(store.events, w, b, from, asked)
    modifies store
    ensures PutOffOnly(store.events, w, b, from, asked)
    ensures store.Valid() && Intact(store.events) && Extends(old(store.events), store.events)
    ensures Deferring(store.events, w, b, called, n + 1, asked)
  {
    hide Intact, Advance, WasAnswered, WasCalled, PutOffOnly, IsPutOff;
    ghost var before := store.events;
    DeferOne(store, w, b, called, n, asked, from);
    PutOffStill(before, store.events, w, b, n, asked);
  }

  method DeferAll(store: SessionStore, w: World, b: Batch, ghost called: set<string>, asked: nat)
    requires store.Valid() && Intact(store.events) && DistinctCalls(b.calls) && IdsOf(b.calls) !! called
    requires asked < |b.calls| && InBatch(store.events, b, {}, called)
    modifies store
    ensures store.Valid() && Intact(store.events) && Extends(old(store.events), store.events)
    ensures Deferring(store.events, w, b, called, |b.calls|, asked)
    ensures PutOffOnly(store.events, w, b, |old(store.events)|, asked)
  {
    hide Intact, Advance, PutOff, Run, InBatch, IsPutOff, DistinctCalls;
    assert called + IdsOf(b.calls[..0]) == called;
    for n := 0 to |b.calls|
      invariant store.Valid() && Intact(store.events) && Extends(old(store.events), store.events)
      invariant Deferring(store.events, w, b, called, n, asked)
      invariant PutOffOnly(store.events, w, b, |old(store.events)|, asked)
    {
      ghost var before := store.events;
      DeferNext(store, w, b, called, n, asked, |old(store.events)|);
      ExtendsTrans(old(store.events), before, store.events);
    }
  }

  // ------------------------------------------------------ execute_tool_calls

  datatype Outcome = Awaiting(approvalId: string, call: Call) | Results(results: seq<ToolAnswer>)

  /** The batch carries what the retry policy finds in the log. */
  ghost predicate Vetted(b: Batch, w: World, log: Log, counts: map<string, nat>) {
    && (forall key :: Get(counts, key) == Attempts(log, b.turn, key))
    && b.exhausted == ExhaustedIds(b.calls, counts, |b.calls|)
    && b.refused == Refusals(b.calls, SeenIn(log, b.turn), w.infer)
  }

  /** New ids are new: no model reply reuses a call id, no approval an approval id. */
  ghost predicate FreshIds(w: World) {
    && (forall log: Log | Run(log).Some? ::
          w.approvalId(log) != "" && w.approvalId(log) !in Run(log).value.asked)
    && (forall log: Log | Run(log).Some? && w.reply(log).Reply? ::
          DistinctCalls(w.reply(log).calls) && IdsOf(w.reply(log).calls) !! Run(log).value.offered)
  }

  method Vet(w: World, log: Log, calls: seq<Call>, turn: nat, step: nat, run: string)
    returns (b: Batch, ghost counts: map<string, nat>)
    ensures b.calls == calls && b.turn == turn && b.step == step && b.run == run && Vetted(b, w, log, counts)
  {
    var prior := ToolAttemptCounts(log, turn);
    var blocked, _ := AllocateToolAttempts(calls, prior);
    var refused := BlockedRetries(calls, log, turn, w.infer);
    counts := prior;
    b := Batch(calls, turn, step, run, blocked, refused);
  }

  predicate Safe(w: World, c: Call) {
    var d := w.resolve(c.name);
    d.Some? && d.value.safe
  }

  /** Several calls, each safe beside the others. */
  predicate SideBySide(w: World, calls: seq<Call>) {
    |calls| > 1 && forall i | 0 <= i < |calls| :: Safe(w, calls[i])
  }

  /** What a call that is put off is told: that it is refused, that its attempts are used up,
      or, when nothing else speaks against it, that it waits for another's approval. */
  ghost predicate ToldOff(b: Batch, c: Call, code: string) {
    if c.id in b.refused then code == b.refused[c.id]
    else if c.id in b.exhausted then code == "retry_exhausted"
    else code == "deferred_for_approval"
  }

  ghost predicate OthersTold(log: Log, w: World, b: Batch, asked: nat) {
    forall i | 0 <= i < |b.calls| && i != asked :: WasTold(log, w, b, b.calls[i])
  }

  ghost predicate WasTold(log: Log, w: World, b: Batch, c: Call) {
    exists r :: IsError(w, c, r) && ToldOff(b, c, r.error) && WasAnswered(log, b, c, r)
  }

  lemma PutOffTold(log: Log, w: World, b: Batch, asked: nat)
    requires AllPutOff(log, w, b, |b.calls|, asked)
    ensures OthersTold(log, w, b, asked)
  {
    forall i | 0 <= i < |b.calls| && i != asked
      ensures WasTold(log, w, b, b.calls[i])
    {
      assert PutOff(log, w, b, i, asked);
      assert IsError(w, b.calls[i], Deferred(w, b, b.calls[i]));
    }
  }

  /** Asking for the approval of one call, the others being answered. */
  method Ask(store: SessionStore, w: World, b: Batch, ghost called: set<string>, asked: nat)
    returns (approvalId: string)
    requires store.Valid() && Intact(store.events) && InBatch(store.events, b, {}, called)
    requires DistinctCalls(b.calls) && IdsOf(b.calls) !! called && asked < |b.calls| && FreshIds(w)
    modifies store
    ensures store.Valid() && Intact(store.events) && Extends(old(store.events), store.events)
    ensures AllPutOff(store.events, w, b, |b.calls|, asked)
    ensures PutOffOnly(store.events, w, b, |old(store.events)|, asked) && OthersTold(store.events, w, b, asked)
    ensures Asks(store.events, b, called, approvalId, b.calls[asked])
    ensures approvalId == w.approvalId(store.events[..|store.events| - 1])
  {
    hide Intact, Advance, OthersTold;
    ghost var before := store.events;
    DeferAll(store, w, b, called, asked);
    ghost var mid := store.events;
    assert b.calls[..|b.calls|] == b.calls;
    approvalId := w.approvalId(store.events);
    var e := Emit(store, w, Some(b.run), Some(b.turn), Some(b.step), ApprovalAsked(approvalId, b.calls[asked]));
    AsksNow(mid, e, w, b, called, b.calls[asked]);
    assert store.events[..|store.events| - 1] == mid;
    GrewPutOff(mid, store.events, w, b, |before|, asked);
    ExtendsTrans(before, mid, store.events);
    PutOffStill(mid, store.events, w, b, |b.calls|, asked);
    PutOffTold(store.events, w, b, asked);
  }

  lemma AsksNow(log: Log, e: Event, w: World, b: Batch, called: set<string>, c: Call)
    requires FreshIds(w) && InBatch(log, b, {c.id}, called + IdsOf(b.calls))
    requires e.turn == Some(b.turn) && e.step == Some(b.step) && e.body == ApprovalAsked(w.approvalId(log), c)
    ensures Extends(log, log + [e]) && Asks(log + [e], b, called, w.approvalId(log), c)
  {
    RunSnoc(log, e);
  }

  /** The log ends with the question and awaits the answer. */
  ghost predicate Asks(log: Log, b: Batch, called: set<string>, approvalId: string, c: Call) {
    && log != [] && log[|log| - 1].body == ApprovalAsked(approvalId, c)
    && Run(log).Some?
    && var a := Run(log).value;
    && a.phase == Waiting(approvalId, c.id) && a.turn == b.turn && a.step == b.step
    && a.called == called + IdsOf(b.calls)
  }

  /** `execute_tool_calls` for a non-empty batch.  Either no tool runs and the log ends in
      a question, or every call is called and answered once, in any interleaving, and the
      results stand in the order of the model; a sequential batch in which the flag was
      seen, and no other, leaves its last calls without call and answer. */
  method ExecuteToolCalls(store: SessionStore, w: World, calls: seq<Call>, turn: nat, step: nat, run: string,
                          ghost called: set<string>)
    returns (outcome: Outcome, ghost b: Batch, ghost counts: map<string, nat>, ghost ran: seq<Call>)
    requires store.Valid() && Intact(store.events) && FreshIds(w)
    requires calls != [] && DistinctCalls(calls) && IdsOf(calls) !! called
    requires InBatch(store.events, Batch(calls, turn, step, run, {}, map[]), {}, called)
    modifies store
    ensures store.Valid() && Intact(store.events) && Extends(old(store.events), store.events)
    ensures b.calls == calls && b.turn == turn && b.step == step && Vetted(b, w, old(store.events), counts)
    ensures outcome.Awaiting? ==>
      && ran == [] && Asks(store.events, b, called, outcome.approvalId, outcome.call)
      && outcome.approvalId == w.approvalId(store.events[..|store.events| - 1])
      && exists asked: nat :: asked < |calls| && IsFirstToAsk(w, b, asked) && outcome.call == calls[asked]
                               && AllPutOff(store.events, w, b, |calls|, asked)
                               && PutOffOnly(store.events, w, b, |old(store.events)|, asked)
                               && OthersTold(store.events, w, b, asked)
    ensures outcome.Results? ==>
      && InOrder(store.events, w, b, called, outcome.results, ran)
      && (|outcome.results| < |calls| <==> !SideBySide(w, calls) && FlagSeen(store.events, w, calls))
      && forall c | c in ran :: !NeedsApproval(w, c)
  {
    hide Intact, Advance, Run, OthersTold, PutOffOnly, AllPutOff, FlagSeen, Asks, Extends;
    var batch;
    batch, counts := Vet(w, store.events, calls, turn, step, run);
    b := batch;
    ran := [];
    var at := FindApproval(w, batch);
    if at.Some? {
      var approvalId := Ask(store, w, batch, called, at.value);
      assert IsFirstToAsk(w, b, at.value) && AllPutOff(store.events, w, b, |calls|, at.value);
      return Awaiting(approvalId, calls[at.value]), b, counts, [];
    }
    var results;
    if SideBySide(w, calls) {
      results, ran := RunTogether(store, w, batch, called);
    } else {
      results, ran := RunInOrder(store, w, batch, called);
    }
    outcome := Results(results);
  }
}
