/** The session log: the event vocabulary of `harness/contracts/events.py`, the
    envelope check that every stored event has passed, and the in-memory store. */
module Events {
  import opened Schema

  datatype Option<+T> = None | Some(value: T)

  /** Tool-call arguments as the code looks at them: the raw text, its canonical
      JSON form (or the stripped text when it is no JSON), and the text fields of
      its first JSON object. */
  datatype Arguments = Arguments(raw: string, canonical: string, fields: map<string, string>)

  datatype Call = Call(id: string, name: string, args: Arguments)

  datatype Source = User | Inject | Steer | Skill | Vision | Legacy | Plugin | Compaction

  datatype Reason =
    | Completed | Cancelled | Error | LlmTimeout | MaxTokens | WaitingApproval | PersistFailed | Rejected

  datatype SurfaceOp = NoOp | Append | Replace

  /** What an event says.  `shown` of a tool result is the text of its payload,
      which the surface shows when `content` is empty. */
  datatype Body =
    | TurnStart
    | TurnEnd(reason: Reason)
    | StepStart
    | StepEnd(error: string)
    | UserMessage(content: string, source: Source)
    | AssistantChunk(content: string)
    | AssistantMessage(content: string, calls: seq<Call>)
    | ToolCall(call: Call)
    | ToolResult(callId: string, name: string, ok: bool, content: string, shown: string,
                 error: string, errorClass: string)
    | RequestHeader(system: string)
    | RequestContext
    | TodoWrite(todos: seq<Todo>)
    | InboxSpliced(content: string, source: Source)
    | InboxClaimed(inboxSeq: nat)
    | InboxDiscarded(inboxSeq: nat)
    | ApprovalAsked(approvalId: string, call: Call)
    | ApprovalDecided(approvalId: string, decision: string)
    | CompactionStart
    | CompactionSummary(content: string, structured: Summary)
    | CompactionEnd
    | AnswerPublished(content: string)
    | SeedEnd
    | Violation(code: string)
    | Ignorable(kind: string)

  datatype Draft = Draft(
    run: Option<string>, turn: Option<nat>, step: Option<nat>,
    op: SurfaceOp, sources: seq<nat>, body: Body)

  datatype Event = Event(
    seqNo: nat, id: string,
    run: Option<string>, turn: Option<nat>, step: Option<nat>,
    op: SurfaceOp, sources: seq<nat>, body: Body)

  type Log = seq<Event>

  predicate OnSurface(b: Body) {
    b.UserMessage? || b.AssistantMessage? || b.ToolResult? || b.CompactionSummary?
  }

  function DefaultOp(b: Body): SurfaceOp {
    if b.CompactionSummary? then Replace else if OnSurface(b) then Append else NoOp
  }

  /** `normalize_draft`: fills in the default surface operation and refuses an
      ill-formed draft.  Only the checks that the typed body leaves open remain. */
  function Normalize(d: Draft): Option<Draft> {
    var op := if d.op == NoOp then DefaultOp(d.body) else d.op;
    if op != NoOp && !OnSurface(d.body) then None
    else if (d.body.TurnStart? || d.body.TurnEnd?) && d.turn.None? then None
    else if d.body.UserMessage? && IsBlank(d.body.content) && d.body.source != Skill then None
    else if d.body.ToolCall? && (d.body.call.id == "" || d.body.call.name == "") then None
    else if d.body.ToolResult? && d.body.callId == "" then None
    else if op == Replace && d.sources == [] then None
    else Some(d.(op := op))
  }

  /** What is refused: an operation on something that is not on the surface, a turn bracket
      without a turn, a blank message that no skill sends, a call or a result without an
      id, a call without a name, a replacement of nothing. */
  lemma RefusedIff(d: Draft)
    ensures Normalize(d).None? <==>
      || (d.op != NoOp && !(d.body.UserMessage? || d.body.AssistantMessage? || d.body.ToolResult? || d.body.CompactionSummary?))
      || ((d.body.TurnStart? || d.body.TurnEnd?) && d.turn == None)
      || (d.body.UserMessage? && IsBlank(d.body.content) && d.body.source != Skill)
      || (d.body.ToolCall? && d.body.call.id == "") || (d.body.ToolCall? && d.body.call.name == "")
      || (d.body.ToolResult? && d.body.callId == "")
      || (d.sources == [] && (d.op == Replace || (d.op == NoOp && d.body.CompactionSummary?)))
    ensures Normalize(d).Some? ==>
      && Normalize(d).value == d.(op := Normalize(d).value.op)
      && (d.op != NoOp ==> Normalize(d).value.op == d.op)
      && (d.op == NoOp && d.body.CompactionSummary? ==> Normalize(d).value.op == Replace)
      && (d.op == NoOp && (d.body.UserMessage? || d.body.AssistantMessage? || d.body.ToolResult?) ==>
            Normalize(d).value.op == Append)
      && (d.op == NoOp && !OnSurface(d.body) ==> Normalize(d).value.op == NoOp)
  {
  }

  function Stamp(seqNo: nat, id: string, d: Draft): Event {
    Event(seqNo, id, d.run, d.turn, d.step, d.op, d.sources, d.body)
  }

  function AsDraft(e: Event): Draft {
    Draft(e.run, e.turn, e.step, e.op, e.sources, e.body)
  }

  /** What every stored event satisfies: the envelope check would let it pass as it is. */
  predicate Stored(e: Event) {
    Normalize(AsDraft(e)) == Some(AsDraft(e))
  }

  /** A normalized draft is normal: the check is idempotent. */
  lemma NormalizeTwice(d: Draft, seqNo: nat, id: string)
    requires Normalize(d).Some?
    ensures Stored(Stamp(seqNo, id, Normalize(d).value))
  {
  }

  /** Sequence numbers run 1, 2, 3, ... (`assert_contiguous`). */
  ghost predicate Contiguous(log: Log) {
    forall i | 0 <= i < |log| :: log[i].seqNo == i + 1
  }

  ghost predicate Increasing(log: Log) {
    forall i, j | 0 <= i < j < |log| :: log[i].seqNo < log[j].seqNo
  }

  /** Events name only earlier events as their sources. */
  ghost predicate Backward(log: Log) {
    forall i, q | 0 <= i < |log| && q in log[i].sources :: q < log[i].seqNo
  }

  lemma ContiguousIncreasing(log: Log)
    requires Contiguous(log)
    ensures Increasing(log)
  {
  }

  /** `InMemorySessionStore`, one session. */
  class SessionStore {
    var events: Log
    var nextSeq: nat

    ghost predicate Valid()
      reads this
    {
      && Contiguous(events) && nextSeq == |events| + 1
      && forall i | 0 <= i < |events| :: Stored(events[i])
    }

    constructor ()
      ensures Valid() && events == []
    {
      events := [];
      nextSeq := 1;
    }

    method Append(d: Draft, id: string) returns (r: Option<Event>)
      requires Valid()
      modifies this
      ensures Valid()
      ensures r.None? <==> Normalize(d).None?
      ensures r.None? ==> events == old(events)
      ensures r.Some? ==> r.value == Stamp(|old(events)| + 1, id, Normalize(d).value)
      ensures r.Some? ==> events == old(events) + [r.value]
    {
      var n := Normalize(d);
      if n.None? {
        return None;
      }
      NormalizeTwice(d, nextSeq, id);
      var event := Stamp(nextSeq, id, n.value);
      nextSeq := nextSeq + 1;
      events := events + [event];
      r := Some(event);
    }

    /** `load_events` with `after_seq`. */
    method LoadEvents(afterSeq: nat) returns (tail: Log)
      requires Valid()
      ensures tail == if afterSeq <= |events| then events[afterSeq..] else []
    {
      tail := [];
      var i := 0;
      while i < |events|
        invariant 0 <= i <= |events|
        invariant tail == if afterSeq <= i then events[afterSeq..i] else []
      {
        if events[i].seqNo > afterSeq {
          tail := tail + [events[i]];
        }
        i := i + 1;
      }
    }
  }
}
