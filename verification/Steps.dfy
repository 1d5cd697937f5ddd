/** What the step loop of a turn does (`_steps` of `harness/agent/loop.py`), told by the
    events that it writes and by what surrounds the agent. */
module Steps {
  import opened Schema
  import opened Events
  import opened Protocol
  import opened Runtime
  import opened Scheduler
  import opened Surface
  import Compact
  import Compaction
  import Merge
  import Retry

  /** The compactor's settings and its model, all fixed by the log at the moment of use. */
  datatype Settings = Settings(
    policy: Compact.Policy, count: seq<Msg> -> nat, delta: Log -> Compact.Answer, shorter: Log -> string,
    project: (string, nat) -> Option<string>, idOf: Merge.IdOf, system: Log -> string, persistChunks: bool)

  const MAX_OVERFLOW_RETRIES: nat := 1

  /** Exactly these bodies were appended. */
  ghost predicate Adds(before: Log, after: Log, bodies: seq<Body>) {
    && Extends(before, after) && |after| == |before| + |bodies|
    && forall k | 0 <= k < |bodies| :: after[|before| + k].body == bodies[k]
  }

  lemma AddsMore(a: Log, b: Log, c: Log, x: seq<Body>, y: seq<Body>)
    requires Adds(a, b, x) && Adds(b, c, y)
    ensures Adds(a, c, x + y)
  {
    ExtendsTrans(a, b, c);
    assert forall k | 0 <= k < |b| :: c[k] == b[k];
  }

  lemma AddsNothing(log: Log)
    ensures Adds(log, log, [])
  {
  }

  lemma AddsOne(log: Log, e: Event)
    ensures Adds(log, log + [e], [e.body])
  {
  }

  lemma AddsWritten(before: Log, after: Log, body: Body)
    requires Extends(before, after) && |after| == |before| + 1 && after[|before|].body == body
    ensures Adds(before, after, [body])
  {
  }

  // -------------------------------------------------------------- the request

  /** `maybe_compact` before a request or, `overflow`, after one that was too long: nothing
      below the trigger, else its three stages; `ok` when the budget is met then. */
  ghost predicate Compacts(before: Log, after: Log, s: Settings, turn: nat, run: string, overflow: bool, ok: bool) {
    if s.count(Derive(before)) < s.policy.Limit(s.policy.triggerRatio) && !overflow then ok && after == before
    else exists way: Compact.Way :: CompactsBy(before, after, way, s, turn, run, overflow, ok)
  }

  ghost predicate CompactsBy(before: Log, after: Log, way: Compact.Way, s: Settings, turn: nat, run: string, overflow: bool,
                             ok: bool)
  {
    var target := s.policy.Limit(s.policy.targetRatio);
    && Extends(before, after)
    && Compact.Stages(before, way.trims, way.folded, way.reduced, Compact.Job(turn, run, overflow, s.policy, true, true),
                      Compact.FullRequest(s.count), target, s.delta(before), s.shorter(before), s.project, s.idOf)
    && (ok <==> s.count(Derive(way.reduced)) <= target)
    && if ok then after == way.reduced else Compaction.ViolationStep(way.reduced, after)
  }

  /** The first thing written is the start of the step. */
  predicate Begins(before: Log, after: Log, step: nat) {
    |after| > |before| && after[|before|].body.StepStart? && after[|before|].step == Some(step)
  }

  /** Up to `i` the step has begun and the compactor has been called. */
  ghost predicate Readied(before: Log, after: Log, i: nat, s: Settings, turn: nat, run: string, step: nat, ok: bool) {
    && Begins(before, after, step) && i <= |after| && Extends(before, after)
    && Compacts(after[..|before| + 1], after[..i], s, turn, run, false, ok)
  }

  /** Then up to `j` the request was written: its header and, if they are kept, the pieces in
      which the model sent its text. */
  ghost predicate Requested(before: Log, after: Log, i: nat, j: nat, w: World, s: Settings) {
    && |before| < i < j <= |after|
    && Adds(after[..i], after[..i + 1], [RequestHeader(s.system(after[..|before| + 1]))])
    && Adds(after[..i + 1], after[..j], if s.persistChunks then Pieces(w.chunks(after[..i + 1])) else [])
  }

  function Pieces(texts: seq<string>): seq<Body> {
    var kept := NotEmpty(texts);
    seq(|kept|, k requires 0 <= k < |kept| => AssistantChunk(kept[k]))
  }

  lemma NoPieces()
    ensures Pieces([]) == []
  {
  }

  lemma PiecesNext(texts: seq<string>, i: nat)
    requires i < |texts|
    ensures Pieces(texts[..i + 1]) == if texts[i] == "" then Pieces(texts[..i]) else Pieces(texts[..i]) + [AssistantChunk(texts[i])]
  {
    assert texts[..i + 1][..i] == texts[..i];
  }

  // ----------------------------------------------------------- what it led to

  /** The request failed: the step ends with the code of the failure; a request that was too
      long is compacted and, once, tried again in the next step. */
  ghost predicate RequestFailed(after: Log, j: nat, s: Settings, turn: nat, run: string, code: string,
                         retries: nat, left: nat, stop: Option<Reason>) {
    && j < |after| && after[j].body == StepEnd(code)
    && if code == "context_overflow" && retries < MAX_OVERFLOW_RETRIES then
         && left == retries + 1 && Compacts(after[..j + 1], after, s, turn, run, true, stop.None?)
         && (stop.Some? ==> stop.value == Reason.Error)
       else
         && left == retries && |after| == j + 1
         && stop == Some(if code == "cancelled" then Cancelled else if code == "timeout" then LlmTimeout else Reason.Error)
  }

  /** An answer without calls: the step ends, and its text, if there is one, is published. */
  ghost predicate SaidAnswer(after: Log, j: nat, w: World, content: string, stop: Option<Reason>) {
    && j + 2 <= |after| && after[j + 1].body == StepEnd("")
    && var shown := w.finalText(after[..j + 2], content);
    && stop == Some(if shown == "" then Reason.Error else Completed)
    && if shown == "" then |after| == j + 2 else |after| == j + 3 && after[j + 2].body == AnswerPublished(shown)
  }

  function NotEmpty(texts: seq<string>): seq<string> {
    if texts == [] then []
    else NotEmpty(texts[..|texts| - 1]) + if texts[|texts| - 1] == "" then [] else [texts[|texts| - 1]]
  }

  /** One user message for each text that is not empty. */
  function Messages(texts: seq<string>, source: Source): seq<Body> {
    var kept := NotEmpty(texts);
    seq(|kept|, k requires 0 <= k < |kept| => UserMessage(kept[k], source))
  }

  lemma NoMessages(source: Source)
    ensures Messages([], source) == []
  {
  }

  lemma MessagesNext(texts: seq<string>, i: nat, source: Source)
    requires i < |texts|
    ensures Messages(texts[..i + 1], source) ==
            if texts[i] == "" then Messages(texts[..i], source) else Messages(texts[..i], source) + [UserMessage(texts[i], source)]
  {
    assert texts[..i + 1][..i] == texts[..i];
  }

  /** The texts that the skills among the calls add. */
  function SkillMessages(calls: seq<Call>, results: seq<ToolAnswer>): seq<Body>
    requires |results| <= |calls|
  {
    if results == [] then []
    else
      var k := |results| - 1;
      SkillMessages(calls, results[..k])
      + if calls[k].name == "skill" && results[k].ok then Messages(results[k].contexts, Skill) else []
  }

  /** What the `i`-th call adds. */
  ghost function NextSkill(calls: seq<Call>, results: seq<ToolAnswer>, i: nat): (more: seq<Body>)
    requires i < |results| <= |calls|
    ensures SkillMessages(calls, results[..i + 1]) == SkillMessages(calls, results[..i]) + more
  {
    assert results[..i + 1][..i] == results[..i];
    if calls[i].name == "skill" && results[i].ok then Messages(results[i].contexts, Skill) else []
  }

  /** What the error policy does, and whether that completes the turn. */
  ghost predicate PolicyActed(before: Log, after: Log, w: World, shown: Option<string>) {
    match w.decide(before)
    case Continue => after == before && shown.None?
    case InjectText(text) => Adds(before, after, Messages([text], Plugin)) && shown.None?
    case PublishText(text) =>
      var final := w.finalText(before, text);
      if final == "" then after == before && shown.None?
      else Adds(before, after, [AnswerPublished(final)]) && shown == Some(final)
  }

  /** Behind the results: what the skills add, what the policy does, the end of the step. */
  ghost predicate Finishes(before: Log, after: Log, w: World, calls: seq<Call>, results: seq<ToolAnswer>, shown: Option<string>)
    requires |results| <= |calls|
  {
    exists i: nat, j: nat :: FinishesAt(before, after, i, j, w, calls, results, shown)
  }

  ghost predicate FinishesAt(before: Log, after: Log, i: nat, j: nat, w: World, calls: seq<Call>, results: seq<ToolAnswer>,
                             shown: Option<string>)
    requires |results| <= |calls|
  {
    && i <= j <= |after| && Adds(before, after[..i], SkillMessages(calls, results))
    && PolicyActed(after[..i], after[..j], w, shown) && Adds(after[..j], after, [StepEnd("")])
  }

  lemma FinishedSo(one: Log, two: Log, three: Log, after: Log, w: World, calls: seq<Call>, results: seq<ToolAnswer>,
                   shown: Option<string>)
    requires |results| <= |calls| && Adds(one, two, SkillMessages(calls, results)) && PolicyActed(two, three, w, shown)
    requires Adds(three, after, [StepEnd("")]) && Extends(two, three)
    ensures Finishes(one, after, w, calls, results, shown)
  {
    hide PolicyActed, SkillMessages;
    assert after[..|three|] == three && after[..|two|] == three[..|two|] == two;
    assert FinishesAt(one, after, |two|, |three|, w, calls, results, shown);
  }

  /** The calls were carried out: a question about the first that needs an approval, or each
      answered what it was due, and the step finished. */
  ghost predicate CarriedOut(after: Log, j: nat, w: World, turn: nat, calls: seq<Call>, stop: Option<Reason>) {
    exists b, counts :: CarriedOutBy(after, j, w, turn, calls, b, counts, stop)
  }

  ghost predicate CarriedOutBy(after: Log, j: nat, w: World, turn: nat, calls: seq<Call>, b: Batch, counts: map<string, nat>,
                               stop: Option<Reason>)
  {
    && j < |after| && Vetted(b, w, after[..j + 1], counts) && b.calls == calls && b.turn == turn
    && if stop == Some(WaitingApproval) then exists asked: nat :: QuestionAsked(after, w, b, asked)
       else exists n: nat, results, ran :: j < n && BatchServed(after, n, w, b, results, ran, stop)
  }

  ghost predicate QuestionAsked(after: Log, w: World, b: Batch, asked: nat) {
    && IsFirstToAsk(w, b, asked) && OthersTold(after, w, b, asked)
    && after != [] && after[|after| - 1].body == ApprovalAsked(w.approvalId(after[..|after| - 1]), b.calls[asked])
  }

  ghost predicate BatchServed(after: Log, n: nat, w: World, b: Batch, results: seq<ToolAnswer>, ran: seq<Call>, stop: Option<Reason>) {
    && n <= |after| && AnsweredUpTo(after[..n], w, b, results, ran)
    && exists shown :: Finishes(after[..n], after, w, b.calls, results, shown)
                       && stop == if shown.Some? then Some(Completed) else None
  }

  /** What the model said at `j`, and what became of it. */
  ghost predicate Replied(after: Log, j: nat, w: World, s: Settings, turn: nat, run: string, retries: nat, left: nat,
                          stop: Option<Reason>)
    requires j <= |after|
  {
    match w.reply(after[..j])
    case LlmFailed(code) => RequestFailed(after, j, s, turn, run, code, retries, left, stop)
    case Reply(content, calls) =>
      && left == retries && j < |after| && after[j].body == AssistantMessage(content, calls)
      && if calls == [] then SaidAnswer(after, j, w, content, stop) else CarriedOut(after, j, w, turn, calls, stop)
  }

  /** One step: it begins, the compactor is called, the model is asked and its reply acted
      on; a budget that cannot be met ends it before the request. */
  ghost predicate StepDone(before: Log, after: Log, w: World, s: Settings, turn: nat, run: string, step: nat,
                           retries: nat, left: nat, stop: Option<Reason>) {
    || (exists i: nat :: Readied(before, after, i, s, turn, run, step, false) && GivesUp(after, i, retries, left, stop))
    || (exists i: nat, j: nat :: Readied(before, after, i, s, turn, run, step, true) && Requested(before, after, i, j, w, s)
                                 && Replied(after, j, w, s, turn, run, retries, left, stop))
  }

  ghost predicate GivesUp(after: Log, i: nat, retries: nat, left: nat, stop: Option<Reason>) {
    && |after| == i + 1 && after[i].body == StepEnd("context_budget_exhausted")
    && left == retries && stop == Some(Reason.Error)
  }

  lemma ReadiedSo(before: Log, begun: Log, ready: Log, s: Settings, turn: nat, run: string, step: nat, ok: bool)
    requires Extends(before, begun) && |begun| == |before| + 1 && Extends(begun, ready)
    requires begun[|before|].body.StepStart? && begun[|before|].step == Some(step)
    requires Compacts(begun, ready, s, turn, run, false, ok)
    ensures Readied(before, ready, |ready|, s, turn, run, step, ok)
  {
    hide Compacts;
    assert ready[..|ready|] == ready && ready[..|before| + 1] == begun;
    ExtendsTrans(before, begun, ready);
  }

  lemma ReadiedMore(before: Log, mid: Log, after: Log, i: nat, s: Settings, turn: nat, run: string, step: nat, ok: bool)
    requires Readied(before, mid, i, s, turn, run, step, ok) && Extends(mid, after)
    ensures Readied(before, after, i, s, turn, run, step, ok)
  {
    hide Compacts;
    assert after[..i] == mid[..i] && after[..|before| + 1] == mid[..|before| + 1];
    ExtendsTrans(before, mid, after);
  }

  lemma RequestedSo(before: Log, ready: Log, after: Log, w: World, s: Settings)
    requires |before| < |ready| < |after| && Extends(ready, after)
    requires var head := after[..|ready| + 1];
      && Adds(ready, head, [RequestHeader(s.system(ready[..|before| + 1]))])
      && Adds(head, after, if s.persistChunks then Pieces(w.chunks(head)) else [])
    ensures Requested(before, after, |ready|, |after|, w, s)
  {
    hide Adds, Pieces;
    assert after[..|ready|] == ready && after[..|after|] == after && after[..|before| + 1] == ready[..|before| + 1];
  }

  lemma RequestedMore(before: Log, mid: Log, after: Log, i: nat, j: nat, w: World, s: Settings)
    requires Requested(before, mid, i, j, w, s) && Extends(mid, after)
    ensures Requested(before, after, i, j, w, s)
  {
    hide Adds, Pieces;
    assert after[..|before| + 1] == mid[..|before| + 1];
    assert after[..i] == mid[..i] && after[..i + 1] == mid[..i + 1] && after[..j] == mid[..j];
  }

  // ------------------------------------------------------------- the step loop

  /** Between two steps: the log, and how often a request that was too long was retried. */
  datatype Mark = Mark(log: Log, retries: nat)

  /** The loop has come from `before` to the last mark, every step but the last asked for
      having gone on. */
  ghost predicate GoneOn(marks: seq<Mark>, before: Log, w: World, s: Settings, turn: nat, run: string, last: nat) {
    && marks != [] && marks[0] == Mark(before, 0)
    && forall i: nat | i < |marks| - 1 :: WentOn(marks, i, w, s, turn, run, last)
  }

  /** At mark `i` the run was not cancelled, and the step behind it went on. */
  ghost predicate WentOn(marks: seq<Mark>, i: nat, w: World, s: Settings, turn: nat, run: string, last: nat) {
    && i + 1 < |marks| && last + i < MAX_STEPS && !w.aborted(marks[i].log, "")
    && StepDone(marks[i].log, marks[i + 1].log, w, s, turn, run, last + i + 1, marks[i].retries, marks[i + 1].retries, None)
  }

  /** How the loop ends at a mark: no step is left, or the run was cancelled, or the next step
      is the last. */
  ghost predicate Stops(m: Mark, after: Log, w: World, s: Settings, turn: nat, run: string, at: nat, reason: Reason) {
    if at >= MAX_STEPS then after == m.log && reason == Reason.Error
    else if w.aborted(m.log, "") then after == m.log && reason == Cancelled
    else exists left :: EndsAt(m, after, w, s, turn, run, at, left, reason)
  }

  ghost predicate EndsAt(m: Mark, after: Log, w: World, s: Settings, turn: nat, run: string, at: nat, left: nat,
                           reason: Reason)
  {
    StepDone(m.log, after, w, s, turn, run, at + 1, m.retries, left, Some(reason))
  }

  /** The steps of a turn behind step `last`, from `before` to `after`. */
  ghost predicate Series(marks: seq<Mark>, before: Log, after: Log, w: World, s: Settings, turn: nat, run: string, last: nat,
                         reason: Reason)
  {
    && GoneOn(marks, before, w, s, turn, run, last)
    && Stops(marks[|marks| - 1], after, w, s, turn, run, last + |marks| - 1, reason)
  }

  ghost predicate Stepped(before: Log, after: Log, w: World, s: Settings, turn: nat, run: string, last: nat, reason: Reason) {
    exists marks :: Series(marks, before, after, w, s, turn, run, last, reason)
  }

  lemma GoneOnMore(marks: seq<Mark>, n: Mark, before: Log, w: World, s: Settings, turn: nat, run: string, last: nat)
    requires GoneOn(marks, before, w, s, turn, run, last) && last + |marks| - 1 < MAX_STEPS
    requires var m := marks[|marks| - 1];
      !w.aborted(m.log, "") && StepDone(m.log, n.log, w, s, turn, run, last + |marks|, m.retries, n.retries, None)
    ensures GoneOn(marks + [n], before, w, s, turn, run, last)
  {
    hide StepDone;
    var more := marks + [n];
    forall i: nat | i < |more| - 1
      ensures WentOn(more, i, w, s, turn, run, last)
    {
      if i < |marks| - 1 { assert WentOn(marks, i, w, s, turn, run, last); }
    }
  }
}
