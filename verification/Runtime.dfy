/** What surrounds the agent: model, tools, policies and the clock of the scheduler, as
    arbitrary functions of the log, and the one way in which the agent writes. */
module Runtime {
  import opened Schema
  import opened Events
  import opened Surface
  import opened Compaction
  import opened Protocol
  import opened Pairing
  import Retry

  datatype Definition = Definition(needsApproval: bool, safe: bool)

  /** What a tool returns: the fields of its result that the log keeps (`shown` is the text of
      the payload, for when `content` is empty), the todo list it may write while it runs,
      and the texts a skill adds. */
  datatype ToolAnswer = ToolAnswer(
    ok: bool, content: string, shown: string, error: string, errorClass: string, todos: Option<seq<Todo>>,
    contexts: seq<string>)

  /** A finished model request, or the code of its failure. */
  datatype Reply = Reply(content: string, calls: seq<Call>) | LlmFailed(code: string)

  datatype Decision = Continue | InjectText(text: string) | PublishText(text: string)

  datatype World = World(
    aborted: (Log, string) -> bool,            // the cancel flag when it is looked at, for a call or ("") by the loop
    chunks: Log -> seq<string>,
    reply: Log -> Reply,
    resolve: string -> Option<Definition>,
    answer: (Log, Call) -> ToolAnswer,
    errorText: (string, string) -> string,     // the text of an error result, by code and tool name
    infer: string -> string,                   // the class of a tool's error code
    decide: Log -> Decision,                   // the tool-error policy
    finalText: (Log, string) -> string,        // language and compliance; empty: nothing to show
    schedule: nat -> nat,                      // which of the parallel calls moves next
    approvalId: Log -> string,
    newRun: Log -> string,
    eventId: nat -> string)

  function ErrorAnswer(w: World, code: string, name: string): ToolAnswer {
    ToolAnswer(false, w.errorText(code, name), w.errorText(code, name), code, Retry.Classify(code, w.infer), None, [])
  }

  function ResultBody(c: Call, r: ToolAnswer): Body {
    ToolResult(c.id, c.name, r.ok, r.content, r.shown, r.error, r.errorClass)
  }

  /** The result of this call with this answer, field by field. */
  predicate IsResultOf(b: Body, c: Call, r: ToolAnswer) {
    && b.ToolResult? && b.callId == c.id && b.name == c.name
    && b.ok == r.ok && b.content == r.content && b.shown == r.shown && b.error == r.error && b.errorClass == r.errorClass
  }

  /** Appends an event that names no sources. */
  method Emit(store: SessionStore, w: World, run: Option<string>, turn: Option<nat>, step: Option<nat>, body: Body)
    returns (e: Event)
    requires store.Valid() && Intact(store.events)
    requires Normalize(Draft(run, turn, step, NoOp, [], body)).Some?
    requires Honest(body) && !IsBracket(body) && !body.CompactionSummary?
    modifies store
    ensures store.Valid() && Intact(store.events)
    ensures store.events == old(store.events) + [e]
    ensures e.run == run && e.turn == turn && e.step == step && e.body == body && e.sources == [] && e.op == DefaultOp(body)
    ensures Run(store.events) == if Run(old(store.events)).None? then None else Advance(Run(old(store.events)).value, e)
  {
    ghost var log := store.events;
    var r := store.Append(Draft(run, turn, step, NoOp, [], body), w.eventId(store.nextSeq));
    e := r.value;
    LogOkSnoc(log, e);
    RunSnoc(log, e);
    StaysIntact(log, e);
  }
}
