/** The single moves of the agent loop (`harness/agent/loop.py`), each as what it does to
    the place of the log in the protocol. */
module Moves {
  import opened Schema
  import opened Events
  import opened Surface
  import opened Units
  import opened Compaction
  import opened CompactRuns
  import opened Projections
  import opened Protocol
  import opened Pairing
  import opened Runtime
  import opened Scheduler
  import opened Steps
  import Compact
  import Merge

  /** The log stands in this phase of this turn and step, with no call open. */
  ghost predicate In(log: Log, turn: nat, step: nat, phase: Phase, answers: nat) {
    && Run(log).Some?
    && var a := Run(log).value;
    && a.turn == turn && a.step == step && a.phase == phase && a.answers == answers && a.pending == {}
  }

  /** All calls of the answer are dealt with, and the step is about to end. */
  ghost predicate Closing(log: Log, turn: nat, step: nat, answers: nat) {
    && Run(log).Some?
    && var a := Run(log).value;
    && a.turn == turn && a.step == step && a.phase.Acting? && a.answers == answers && a.pending == {}
  }

  /** A neutral event of the turn leaves everything as it is. */
  lemma StaysIn(log: Log, e: Event, turn: nat, step: nat, phase: Phase, answers: nat)
    requires In(log, turn, step, phase, answers) && !phase.Waiting? && Neutral(e) && (e.turn.None? || e.turn == Some(turn))
    requires phase.Acting? ==> !e.body.UserMessage? && !Compacting(e.body)
    ensures In(log + [e], turn, step, phase, answers) && Run(log + [e]) == Run(log) && Extends(log, log + [e])
  {
    RunSnoc(log, e);
  }

  method EmitNeutral(store: SessionStore, w: World, run: Option<string>, body: Body,
                     turn: nat, ghost step: nat, ghost phase: Phase, ghost answers: nat)
    requires store.Valid() && Intact(store.events) && In(store.events, turn, step, phase, answers) && !phase.Waiting?
    requires Normalize(Draft(run, Some(turn), None, NoOp, [], body)).Some? && Honest(body)
    requires (body.UserMessage? && !phase.Acting?) || body.InboxClaimed?
    modifies store
    ensures store.Valid() && Intact(store.events) && In(store.events, turn, step, phase, answers)
    ensures Extends(old(store.events), store.events) && Run(store.events) == Run(old(store.events))
    ensures |store.events| == |old(store.events)| + 1 && store.events[|old(store.events)|].body == body
    ensures store.events[|old(store.events)|].turn == Some(turn)
  {
    hide Intact, Advance;
    ghost var log := store.events;
    var e := Emit(store, w, run, Some(turn), None, body);
    StaysIn(log, e, turn, step, phase, answers);
  }

  // ------------------------------------------------------------------ turns

  /** The largest turn of the log, 0 if there is none. */
  function MaxTurn(log: Log): nat {
    if log == [] then 0
    else
      var m, t := MaxTurn(log[..|log| - 1]), log[|log| - 1].turn;
      if t.Some? && t.value > m then t.value else m
  }

  method FindMaxTurn(log: Log) returns (m: nat)
    ensures m == MaxTurn(log)
  {
    m := 0;
    for i := 0 to |log|
      invariant m == MaxTurn(log[..i])
    {
      assert log[..i + 1][..i] == log[..i];
      if log[i].turn.Some? && log[i].turn.value > m {
        m := log[i].turn.value;
      }
    }
    assert log[..|log|] == log;
  }

  lemma {:induction false} MaxTurnIsTurn(log: Log)
    requires Accepted(log)
    ensures MaxTurn(log) == Run(log).value.turn
  {
    if log != [] {
      assert log[..|log|] == log;
      PrefixAccepted(log, |log| - 1);
      MaxTurnIsTurn(log[..|log| - 1]);
      AtNext(log, |log| - 1);
      AdvanceTurn(At(log, |log| - 1), log[|log| - 1]);
    }
  }

  lemma AdvanceTurn(a: Auto, e: Event)
    requires Advance(a, e).Some?
    ensures var b := Advance(a, e).value;
      a.turn <= b.turn && (e.turn.Some? ==> e.turn.value == b.turn) && (e.turn.None? ==> b.turn == a.turn)
  {
  }

  /** At `n` a turn starts with its user message. */
  predicate Opens(log: Log, n: nat, turn: nat, text: string, source: Source) {
    && n + 1 < |log| && log[n].body.TurnStart? && log[n].turn == Some(turn)
    && log[n + 1].body == UserMessage(text, source) && log[n + 1].turn == Some(turn)
  }

  /** `_next_turn` and the first two events of a turn. */
  method BeginTurn(store: SessionStore, w: World, run: string, text: string, source: Source) returns (turn: nat)
    requires store.Valid() && Intact(store.events) && Accepted(store.events) && Run(store.events).value.phase.Idle?
    requires !IsBlank(text) && !source.Compaction?
    modifies store
    ensures store.Valid() && Intact(store.events) && In(store.events, turn, 0, Between, 0) && turn > 0
    ensures Extends(old(store.events), store.events) && turn == MaxTurn(old(store.events)) + 1
    ensures |store.events| == |old(store.events)| + 2
    ensures Opens(store.events, |old(store.events)|, turn, text, source)
    ensures Run(store.events).value.called == Run(old(store.events)).value.called
    ensures Inbox(store.events) == Inbox(old(store.events))
  {
    hide Intact;
    ghost var log := store.events;
    var m := FindMaxTurn(store.events);
    MaxTurnIsTurn(store.events);
    assert log[..|log|] == log;
    AlwaysSane(log, |log|);
    turn := m + 1;
    var e := Emit(store, w, Some(run), Some(turn), None, TurnStart);
    ghost var mid := store.events;
    EmitNeutral(store, w, Some(run), UserMessage(text, source), turn, 0, Between, 0);
    InboxNext(log, mid);
    InboxNext(mid, store.events);
    ExtendsTrans(log, mid, store.events);
  }

  /** What claiming an entry writes: the claim and, unless it is blank, its text. */
  function ClaimOf(e: Event): seq<Body> {
    var blank := !e.body.InboxSpliced? || Strip(e.body.content) == "";
    [InboxClaimed(e.seqNo)] + if blank then [] else [UserMessage(Strip(e.body.content), e.body.source)]
  }

  function Claims(open: seq<Event>): seq<Body> {
    if open == [] then [] else Claims(open[..|open| - 1]) + ClaimOf(open[|open| - 1])
  }

  lemma ClaimsNone()
    ensures Claims([]) == []
  {
  }

  lemma ClaimsNext(open: seq<Event>, i: nat)
    requires i < |open|
    ensures Claims(open[..i + 1]) == Claims(open[..i]) + ClaimOf(open[i])
  {
    assert open[..i + 1][..i] == open[..i];
  }

  /** `_claim_inbox`: every entry is claimed, its text becomes a user message. */
  method ClaimInbox(store: SessionStore, w: World, turn: nat, run: string)
    requires store.Valid() && Intact(store.events) && In(store.events, turn, 0, Between, 0)
    modifies store
    ensures store.Valid() && Intact(store.events) && In(store.events, turn, 0, Between, 0)
    ensures Extends(old(store.events), store.events) && Run(store.events) == Run(old(store.events))
    ensures Inbox(store.events) == [] && Adds(old(store.events), store.events, Claims(Inbox(old(store.events))))
  {
    hide Intact, Advance, Adds, Claims, ClaimOf, Spliced, Settled, Run;
    var open := ProjectInbox(store.events);
    ghost var log := store.events;
    IntactIsOk(log);
    EntriesHonest(log);
    AddsNothing(log);
    ClaimsNone();
    for i := 0 to |open|
      invariant store.Valid() && Intact(store.events) && In(store.events, turn, 0, Between, 0)
      invariant Extends(log, store.events) && Run(store.events) == Run(log)
      invariant Spliced(store.events) == Spliced(log)
      invariant Settled(log) <= Settled(store.events) && forall k | 0 <= k < i :: open[k].seqNo in Settled(store.events)
      invariant Adds(log, store.events, Claims(open[..i]))
    {
      ghost var before := store.events;
      ClaimsNext(open, i);
      assert open[i] in Inbox(log);
      ClaimOne(store, w, turn, run, open[i]);
      ExtendsTrans(log, before, store.events);
      AddsMore(log, before, store.events, Claims(open[..i]), ClaimOf(open[i]));
    }
    assert open[..|open|] == open;
    AllSettled(log, store.events, open);
  }

  lemma EntriesHonest(log: Log)
    requires LogOk(log)
    ensures forall e | e in Inbox(log) :: e.body.InboxSpliced? && !e.body.source.Compaction?
  {
    UnsettledIff(Spliced(log), Settled(log));
    SplicedIff(log);
  }

  lemma AllSettled(log: Log, after: Log, open: seq<Event>)
    requires open == Inbox(log) && Spliced(after) == Spliced(log) && Settled(log) <= Settled(after)
    requires forall k | 0 <= k < |open| :: open[k].seqNo in Settled(after)
    ensures Inbox(after) == []
  {
    UnsettledIff(Spliced(log), Settled(log));
    forall e | e in Spliced(log)
      ensures e.seqNo in Settled(after)
    {
      if e.seqNo !in Settled(log) {
        var k :| 0 <= k < |open| && open[k] == e;
      }
    }
    NoneUnsettled(Spliced(after), Settled(after));
  }

  lemma {:induction false} NoneUnsettled(entries: seq<Event>, settled: set<nat>)
    requires forall e | e in entries :: e.seqNo in settled
    ensures Unsettled(entries, settled) == []
  {
    if entries != [] { NoneUnsettled(entries[1..], settled); }
  }

  method ClaimOne(store: SessionStore, w: World, turn: nat, run: string, entry: Event)
    requires store.Valid() && Intact(store.events) && In(store.events, turn, 0, Between, 0)
    requires entry.body.InboxSpliced? && !entry.body.source.Compaction?
    modifies store
    ensures store.Valid() && Intact(store.events) && In(store.events, turn, 0, Between, 0)
    ensures Extends(old(store.events), store.events) && Run(store.events) == Run(old(store.events))
    ensures Spliced(store.events) == Spliced(old(store.events))
    ensures Settled(store.events) == Settled(old(store.events)) + {entry.seqNo}
    ensures Adds(old(store.events), store.events, ClaimOf(entry))
  {
    hide Intact, Advance;
    ghost var log := store.events;
    EmitNeutral(store, w, Some(run), InboxClaimed(entry.seqNo), turn, 0, Between, 0);
    ghost var mid := store.events;
    InboxNext(log, mid);
    var content := Strip(entry.body.content);
    if content == "" {
      return;
    }
    RStripBlank(LStrip(entry.body.content));
    RStripBlank(content);
    StripTwice(entry.body.content);
    EmitNeutral(store, w, Some(run), UserMessage(content, entry.body.source), turn, 0, Between, 0);
    InboxNext(mid, store.events);
    ExtendsTrans(log, mid, store.events);
  }

  lemma InboxNext(log: Log, next: Log)
    requires |next| == |log| + 1 && next[..|log|] == log
    ensures !next[|log|].body.InboxSpliced? ==> Spliced(next) == Spliced(log)
    ensures next[|log|].body.InboxClaimed? ==> Settled(next) == Settled(log) + {next[|log|].body.inboxSeq}
    ensures !next[|log|].body.InboxClaimed? && !next[|log|].body.InboxDiscarded? ==> Settled(next) == Settled(log)
  {
  }

  /** A text stripped to something is not blank. */
  lemma {:induction false} StripTwice(s: string)
    ensures IsBlank(RStrip(LStrip(s))) ==> RStrip(LStrip(s)) == ""
  {
    var t := LStrip(s);
    LStripHead(s);
    RStripHead(t);
  }

  lemma {:induction false} LStripHead(s: string)
    ensures LStrip(s) != "" ==> !IsSpace(LStrip(s)[0])
  {
    hide IsSpace;
    if s != "" && IsSpace(s[0]) { LStripHead(s[1..]); }
  }

  lemma {:induction false} RStripHead(t: string)
    ensures RStrip(t) != "" ==> t != "" && RStrip(t)[0] == t[0]
    decreases |t|
  {
    hide IsSpace;
    if t != "" && IsSpace(t[|t| - 1]) { RStripHead(t[..|t| - 1]); }
  }

  // ------------------------------------------------------------------ steps

  /** Exactly one event was appended. */
  predicate Wrote(before: Log, after: Log, step: Option<nat>, body: Body) {
    |after| == |before| + 1 && after[|before|].step == step && after[|before|].body == body
  }

  method BeginStep(store: SessionStore, w: World, turn: nat, last: nat, step: nat, run: string)
    requires store.Valid() && Intact(store.events) && In(store.events, turn, last, Between, 0) && last < step <= MAX_STEPS
    modifies store
    ensures store.Valid() && Intact(store.events) && In(store.events, turn, step, Asking(false), 0)
    ensures Extends(old(store.events), store.events) && Run(store.events).value.called == Run(old(store.events)).value.called
    ensures Wrote(old(store.events), store.events, Some(step), StepStart)
  {
    hide Intact;
    var e := Emit(store, w, Some(run), Some(turn), Some(step), StepStart);
  }

  method EndStep(store: SessionStore, w: World, turn: nat, step: nat, run: string, error: string,
                 ghost phase: Phase, ghost answers: nat)
    requires store.Valid() && Intact(store.events) && In(store.events, turn, step, phase, answers)
    requires phase.Asking? || phase.Acting?
    modifies store
    ensures store.Valid() && Intact(store.events) && In(store.events, turn, step, Between, answers)
    ensures Extends(old(store.events), store.events) && Run(store.events).value.called == Run(old(store.events)).value.called
    ensures Wrote(old(store.events), store.events, Some(step), StepEnd(error))
  {
    hide Intact;
    var e := Emit(store, w, Some(run), Some(turn), Some(step), StepEnd(error));
  }

  /** `assert_model_request_logged`. */
  method HeaderLogged(log: Log, turn: nat, step: nat) returns (found: bool)
    ensures found <==> exists e :: e in log && e.body.RequestHeader? && e.turn == Some(turn) && e.step == Some(step)
  {
    found := false;
    for i := 0 to |log|
      invariant found <==>
        exists e :: e in log[..i] && e.body.RequestHeader? && e.turn == Some(turn) && e.step == Some(step)
    {
      assert log[..i + 1] == log[..i] + [log[i]];
      if log[i].body.RequestHeader? && log[i].turn == Some(turn) && log[i].step == Some(step) {
        found := true;
      }
    }
    assert log[..|log|] == log;
  }

  /** `_model_step`: the header, the check that it is logged, then what the model sends. */
  method AskModel(store: SessionStore, w: World, persistChunks: bool, turn: nat, step: nat, run: string, system: string,
                  ghost header: bool)
    returns (reply: Reply)
    requires store.Valid() && Intact(store.events) && In(store.events, turn, step, Asking(header), 0)
    modifies store
    ensures store.Valid() && Intact(store.events) && In(store.events, turn, step, Asking(true), 0)
    ensures Extends(old(store.events), store.events) && Run(store.events).value.called == Run(old(store.events)).value.called
    ensures reply == w.reply(store.events)
    ensures |store.events| > |old(store.events)|
    ensures var head := store.events[..|old(store.events)| + 1];
      && Adds(old(store.events), head, [RequestHeader(system)])
      && Adds(head, store.events, if persistChunks then Pieces(w.chunks(head)) else [])
    ensures Paired(Derive(store.events), Exactly()) <==> NoneCutShort(store.events)
  {
    hide Intact, Advance, NoneCutShort, Adds, Pieces;
    ghost var log := store.events;
    var e := Emit(store, w, Some(run), Some(turn), Some(step), RequestHeader(system));
    ghost var mid := store.events;
    Headed(log, e, turn, step, header);
    AddsOne(log, e);
    AddsNothing(mid);
    var logged := HeaderLogged(store.events, turn, step);
    assert e in store.events;
    assert logged;                         // so the invariant violation of the source never arises
    if persistChunks {
      WriteChunks(store, w, turn, step, run);
    }
    ExtendsTrans(log, mid, store.events);
    assert store.events[..|log| + 1] == mid;
    SentExactlyIff(store.events);
    reply := w.reply(store.events);
  }

  lemma Headed(log: Log, e: Event, turn: nat, step: nat, header: bool)
    requires In(log, turn, step, Asking(header), 0)
    requires e.turn == Some(turn) && e.step == Some(step) && e.body.RequestHeader?
    ensures In(log + [e], turn, step, Asking(true), 0) && Extends(log, log + [e])
    ensures Run(log + [e]).value.called == Run(log).value.called
  {
    RunSnoc(log, e);
  }

  method WriteChunks(store: SessionStore, w: World, turn: nat, step: nat, run: string)
    requires store.Valid() && Intact(store.events) && In(store.events, turn, step, Asking(true), 0)
    modifies store
    ensures store.Valid() && Intact(store.events) && In(store.events, turn, step, Asking(true), 0)
    ensures Extends(old(store.events), store.events) && Run(store.events) == Run(old(store.events))
    ensures Adds(old(store.events), store.events, Pieces(w.chunks(old(store.events))))
  {
    hide Intact, Advance, Adds, Pieces;
    AddsNothing(store.events);
    NoPieces();
    var chunks := w.chunks(store.events);
    for i := 0 to |chunks|
      invariant store.Valid() && Intact(store.events) && In(store.events, turn, step, Asking(true), 0)
      invariant Extends(old(store.events), store.events) && Run(store.events) == Run(old(store.events))
      invariant Adds(old(store.events), store.events, Pieces(chunks[..i]))
    {
      PiecesNext(chunks, i);
      if chunks[i] != "" {
        ghost var before := store.events;
        var e := Emit(store, w, Some(run), Some(turn), Some(step), AssistantChunk(chunks[i]));
        StaysIn(before, e, turn, step, Asking(true), 0);
        AddsOne(before, e);
        AddsMore(old(store.events), before, store.events, Pieces(chunks[..i]), [e.body]);
        ExtendsTrans(old(store.events), before, store.events);
      }
    }
    assert chunks[..|chunks|] == chunks;
  }

  method WriteAnswer(store: SessionStore, w: World, turn: nat, step: nat, run: string, content: string, calls: seq<Call>)
    requires store.Valid() && Intact(store.events) && In(store.events, turn, step, Asking(true), 0)
    requires DistinctIds(calls) && IdsOf(calls) !! Run(store.events).value.offered
    modifies store
    ensures store.Valid() && Intact(store.events) && In(store.events, turn, step, Acting(calls), 0)
    ensures Extends(old(store.events), store.events) && Run(store.events).value.called == Run(old(store.events)).value.called
    ensures Wrote(old(store.events), store.events, Some(step), AssistantMessage(content, calls))
  {
    hide Intact;
    var e := Emit(store, w, Some(run), Some(turn), Some(step), AssistantMessage(content, calls));
  }

  /** `_publish` when nothing was published before; empty: nothing to show. */
  method PublishAnswer(store: SessionStore, w: World, turn: nat, run: string, markdown: string, ghost step: nat, ghost phase: Phase)
    returns (shown: string)
    requires store.Valid() && Intact(store.events) && In(store.events, turn, step, phase, 0)
    requires phase.Between? || phase.Acting?
    modifies store
    ensures store.Valid() && Intact(store.events) && In(store.events, turn, step, phase, if shown == "" then 0 else 1)
    ensures Extends(old(store.events), store.events) && shown == w.finalText(old(store.events), markdown)
    ensures shown == "" ==> store.events == old(store.events)
    ensures shown != "" ==> Wrote(old(store.events), store.events, None, AnswerPublished(shown))
    ensures Run(store.events).value.called == Run(old(store.events)).value.called
  {
    hide Intact;
    shown := w.finalText(store.events, markdown);
    if shown != "" {
      var e := Emit(store, w, Some(run), Some(turn), None, AnswerPublished(shown));
    }
  }

  /** User messages of the turn from a policy or a skill, behind the results. */
  method InjectTexts(store: SessionStore, w: World, run: Option<string>, texts: seq<string>, source: Source, turn: nat,
                     ghost step: nat, ghost answers: nat)
    requires store.Valid() && Intact(store.events) && Closing(store.events, turn, step, answers)
    requires !source.Compaction? && (!source.Skill? ==> forall t | t in texts :: t != "" ==> !IsBlank(t))
    modifies store
    ensures store.Valid() && Intact(store.events) && Closing(store.events, turn, step, answers)
    ensures Extends(old(store.events), store.events) && Run(store.events).value.called == Run(old(store.events)).value.called
    ensures Adds(old(store.events), store.events, Messages(texts, source))
  {
    hide Intact, Advance, Adds, Messages, Run;
    AddsNothing(store.events);
    NoMessages(source);
    for i := 0 to |texts|
      invariant store.Valid() && Intact(store.events) && Closing(store.events, turn, step, answers)
      invariant Extends(old(store.events), store.events) && Run(store.events).value.called == Run(old(store.events)).value.called
      invariant Adds(old(store.events), store.events, Messages(texts[..i], source))
    {
      MessagesNext(texts, i, source);
      if texts[i] != "" {
        ghost var before := store.events;
        assert texts[i] in texts;
        var e := Emit(store, w, run, Some(turn), None, UserMessage(texts[i], source));
        StaysClosing(before, e, turn, step, answers);
        AddsOne(before, e);
        AddsMore(old(store.events), before, store.events, Messages(texts[..i], source), [e.body]);
        ExtendsTrans(old(store.events), before, store.events);
      }
    }
    assert texts[..|texts|] == texts;
  }

  lemma StaysClosing(log: Log, e: Event, turn: nat, step: nat, answers: nat)
    requires Closing(log, turn, step, answers) && e.body.UserMessage? && e.turn == Some(turn)
    ensures Closing(log + [e], turn, step, answers) && Extends(log, log + [e])
    ensures Run(log + [e]).value.called == Run(log).value.called
  {
    RunSnoc(log, e);
  }

  /** A turn under way has no end in the log. */
  lemma NotEnded(log: Log, turn: nat, step: nat, answers: nat)
    requires In(log, turn, step, Between, answers)
    ensures forall e | e in log && e.body.TurnEnd? :: e.turn != Some(turn)
  {
    assert log[..|log|] == log;
    AlwaysSane(log, |log|);
    forall e | e in log && e.body.TurnEnd?
      ensures e.turn != Some(turn)
    {
      var i :| 0 <= i < |log| && log[i] == e;
      AtNext(log, i);
      Monotone(log, i + 1, |log|);
    }
  }

  /** `_close_turn`. */
  method CloseTurn(store: SessionStore, w: World, turn: nat, run: string, reason: Reason, ghost step: nat, ghost answers: nat)
    requires store.Valid() && Intact(store.events) && In(store.events, turn, step, Between, answers)
    requires reason.Completed? <==> answers == 1
    modifies store
    ensures store.Valid() && Intact(store.events) && In(store.events, turn, step, Idle, answers)
    ensures Extends(old(store.events), store.events)
    ensures Adds(old(store.events), store.events, [TurnEnd(reason)])
    ensures store.events[|store.events| - 1].body == TurnEnd(reason)
  {
    hide Intact;
    NotEnded(store.events, turn, step, answers);
    var ended := false;
    for i := 0 to |store.events|
      invariant !ended
    {
      if store.events[i].body.TurnEnd? && store.events[i].turn == Some(turn) {
        ended := true;
      }
    }
    if ended {
      return;
    }
    var e := Emit(store, w, Some(run), Some(turn), None, TurnEnd(reason));
  }
}
