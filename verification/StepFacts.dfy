/** Why the step loop of a turn ends as it does. */
module StepFacts {
  import opened Schema
  import opened Events
  import opened Protocol
  import opened Surface
  import opened Runtime
  import opened Scheduler
  import opened Steps
  import Compact
  import Compaction
  import Merge

  // ----------------------------------------------------------- the compactor

  /** Written by the compactor, its violation included. */
  predicate OfCompactor(b: Body) {
    b.ToolResult? || b.CompactionStart? || b.CompactionSummary? || b.CompactionEnd? || b.Violation?
  }

  ghost predicate QuietTail(before: Log, after: Log) {
    Extends(before, after) && forall k | |before| <= k < |after| :: OfCompactor(after[k].body)
  }

  lemma QuietTrans(a: Log, b: Log, c: Log)
    requires QuietTail(a, b) && QuietTail(b, c)
    ensures QuietTail(a, c)
  {
    hide OfCompactor;
    ExtendsTrans(a, b, c);
    assert forall k | 0 <= k < |b| :: c[k] == b[k];
  }

  lemma {:induction false} TrimsAreQuiet(trims: seq<Log>, i: nat, job: Compact.Job, meter: Compact.Meter, target: int,
                                         project: (string, nat) -> Option<string>)
    requires Compact.Trimming(trims, job, meter, target, project) && i < |trims|
    ensures QuietTail(trims[0], trims[i])
  {
    hide Compact.IsLongest, Compact.CutDown, Compact.Measure;
    if i > 0 {
      TrimsAreQuiet(trims, i - 1, job, meter, target, project);
      assert Compact.TrimsLongest(trims[i - 1], trims[i], job, project);
      QuietTrans(trims[0], trims[i - 1], trims[i]);
    }
  }

  lemma RecordedIsQuiet(log: Log, next: Log, turn: nat, sources: set<nat>, summary: Summary)
    requires Compact.Recorded(log, next, turn, sources, summary)
    ensures QuietTail(log, next)
  {
    hide Render;
  }

  lemma FoldIsQuiet(log: Log, next: Log, job: Compact.Job, meter: Compact.Meter, target: int, answer: Compact.Answer,
                    idOf: Merge.IdOf)
    requires Compact.FoldStage(log, next, job, meter, target, answer, idOf)
    ensures QuietTail(log, next)
  {
    hide Compact.IsFold, Compact.Measure, Compact.CanFold, Compaction.FoldSources, Compact.Recorded, QuietTail, Compact.Room;
    if next == log {
      SameIsQuiet(log);
    } else {
      var summary :| Compact.Folds(log, next, summary, job, Compact.Room(log, meter, target), answer, idOf);
      RecordedIsQuiet(log, next, job.turn, Compaction.FoldSources(log, job.turn, job.policy.Retain()), summary);
    }
  }

  lemma SameIsQuiet(log: Log)
    ensures QuietTail(log, log)
  {
  }

  lemma RefitIsQuiet(log: Log, next: Log, job: Compact.Job, meter: Compact.Meter, target: int, answer: string)
    requires Compact.RefitStage(log, next, job, meter, target, answer)
    ensures QuietTail(log, next)
  {
    hide Compact.Measure, Compact.NothingToRefit, Compact.Recorded, QuietTail, Compact.Room;
    if next == log {
      SameIsQuiet(log);
    } else {
      var latest, summary :| Compact.Rewrites(log, next, latest, summary, job, Compact.Room(log, meter, target), answer);
      RecordedIsQuiet(log, next, job.turn, {latest.value.seqNo}, summary);
    }
  }

  lemma CompactsQuietly(before: Log, after: Log, s: Settings, turn: nat, run: string, overflow: bool, ok: bool)
    requires Compacts(before, after, s, turn, run, overflow, ok)
    ensures QuietTail(before, after)
    ensures !ok ==> |after| > |before| && after[|after| - 1].body.Violation?
  {
    hide Derive, Compact.TrimsLongest, Compact.NothingToTrim, Compact.FoldStage, Compact.RefitStage;
    if way: Compact.Way :| CompactsBy(before, after, way, s, turn, run, overflow, ok) {
      var job := Compact.Job(turn, run, overflow, s.policy, true, true);
      var meter, target := Compact.FullRequest(s.count), s.policy.Limit(s.policy.targetRatio);
      TrimsAreQuiet(way.trims, |way.trims| - 1, job, meter, target, s.project);
      FoldIsQuiet(way.trims[|way.trims| - 1], way.folded, job, meter, target, s.delta(before), s.idOf);
      RefitIsQuiet(way.folded, way.reduced, job, meter, target, s.shorter(before));
      QuietTrans(before, way.trims[|way.trims| - 1], way.folded);
      QuietTrans(before, way.folded, way.reduced);
      if !ok { QuietTrans(before, way.reduced, after); }
    }
  }

  // ---------------------------------------------------------------- one step

  ghost predicate EndsOn(log: Log, b: Body) {
    log != [] && log[|log| - 1].body == b
  }

  /** What makes a step end the turn with an error: the request failed, the budget could not
      be met, or the answer left nothing to show. */
  ghost predicate ErrorCause(before: Log, after: Log, w: World) {
    || (exists j: nat :: RequestFailedAt(before, after, j, w))
    || (EndsOn(after, StepEnd("context_budget_exhausted")) && |after| > |before| + 1 && after[|after| - 2].body.Violation?)
    || (EndsOn(after, StepEnd("")) && |after| > |before| + 1 && NothingToShow(after, w))
  }

  ghost predicate RequestFailedAt(before: Log, after: Log, j: nat, w: World) {
    && |before| < j < |after| && after[j].body.StepEnd? && w.reply(after[..j]) == LlmFailed(after[j].body.error)
    && after[j].body.error != "cancelled" && after[j].body.error != "timeout"
  }

  ghost predicate NothingToShow(after: Log, w: World)
    requires |after| > 1
  {
    var b := after[|after| - 2].body;
    b.AssistantMessage? && b.calls == [] && w.finalText(after, b.content) == ""
  }

  /** The step begins, and its last event tells how it ended. */
  ghost predicate Verdict(before: Log, after: Log, w: World, step: nat, stop: Option<Reason>) {
    && Extends(before, after) && Begins(before, after, step)
    && (stop == Some(Cancelled) <==> EndsOn(after, StepEnd("cancelled")))
    && (stop == Some(LlmTimeout) <==> EndsOn(after, StepEnd("timeout")))
    && (stop == Some(WaitingApproval) <==> after[|after| - 1].body.ApprovalAsked?)
    && (stop == Some(Reason.Error) ==> ErrorCause(before, after, w))
  }

  lemma GivenUp(before: Log, after: Log, i: nat, w: World, s: Settings, turn: nat, run: string, step: nat,
                retries: nat, left: nat, stop: Option<Reason>)
    requires Readied(before, after, i, s, turn, run, step, false) && GivesUp(after, i, retries, left, stop)
    ensures Verdict(before, after, w, step, stop)
  {
    hide Compacts;
    CompactsQuietly(after[..|before| + 1], after[..i], s, turn, run, false, false);
    assert after[i - 1] == after[..i][i - 1];
  }

  lemma RequestGone(before: Log, after: Log, j: nat, w: World, s: Settings, turn: nat, run: string, step: nat, code: string,
                    retries: nat, left: nat, stop: Option<Reason>)
    requires Extends(before, after) && Begins(before, after, step) && |before| < j
    requires RequestFailed(after, j, s, turn, run, code, retries, left, stop) && w.reply(after[..j]) == LlmFailed(code)
    ensures Verdict(before, after, w, step, stop)
  {
    hide Compacts;
    if code == "context_overflow" && retries < MAX_OVERFLOW_RETRIES {
      CompactsQuietly(after[..j + 1], after, s, turn, run, true, stop.None?);
      assert |after| == j + 1 || OfCompactor(after[|after| - 1].body);
    }
    assert stop == Some(Reason.Error) ==> RequestFailedAt(before, after, j, w);
  }

  lemma Carried(before: Log, after: Log, j: nat, w: World, turn: nat, step: nat, calls: seq<Call>, stop: Option<Reason>)
    requires Extends(before, after) && Begins(before, after, step) && CarriedOut(after, j, w, turn, calls, stop)
    ensures Verdict(before, after, w, step, stop)
  {
    hide Vetted, Scheduler.Served, SkillMessages, PolicyActed, OthersTold, IsFirstToAsk;
    var b, counts :| CarriedOutBy(after, j, w, turn, calls, b, counts, stop);
    if stop == Some(WaitingApproval) {
      var asked: nat :| QuestionAsked(after, w, b, asked);
    } else {
      var n: nat, results, ran :| j < n && BatchServed(after, n, w, b, results, ran, stop);
      var shown :| Finishes(after[..n], after, w, b.calls, results, shown) && stop == if shown.Some? then Some(Completed) else None;
      var i: nat, k: nat :| FinishesAt(after[..n], after, i, k, w, b.calls, results, shown);
      AddsLast(after[..k], after, StepEnd(""));
    }
  }

  lemma AddsLast(before: Log, after: Log, b: Body)
    requires Adds(before, after, [b])
    ensures EndsOn(after, b)
  {
    assert after[|before| + 0].body == [b][0];
  }

  lemma StepVerdict(before: Log, after: Log, w: World, s: Settings, turn: nat, run: string, step: nat,
                    retries: nat, left: nat, stop: Option<Reason>)
    requires StepDone(before, after, w, s, turn, run, step, retries, left, stop)
    ensures Verdict(before, after, w, step, stop)
  {
    hide Compacts, RequestFailed, CarriedOut, Verdict;
    if i: nat :| Readied(before, after, i, s, turn, run, step, false) && GivesUp(after, i, retries, left, stop) {
      GivenUp(before, after, i, w, s, turn, run, step, retries, left, stop);
    } else {
      var i: nat, j: nat :| Readied(before, after, i, s, turn, run, step, true) && Requested(before, after, i, j, w, s)
                            && Replied(after, j, w, s, turn, run, retries, left, stop);
      match w.reply(after[..j])
      case LlmFailed(code) => RequestGone(before, after, j, w, s, turn, run, step, code, retries, left, stop);
      case Reply(content, calls) =>
        if calls == [] {
          Said(before, after, j, w, step, content, stop);
        } else {
          Carried(before, after, j, w, turn, step, calls, stop);
        }
    }
  }

  lemma Said(before: Log, after: Log, j: nat, w: World, step: nat, content: string, stop: Option<Reason>)
    requires Extends(before, after) && Begins(before, after, step) && |before| < j < |after|
    requires after[j].body == AssistantMessage(content, []) && SaidAnswer(after, j, w, content, stop)
    ensures Verdict(before, after, w, step, stop)
  {
    assert |after| == j + 2 ==> after[..j + 2] == after;
  }

  // ----------------------------------------------------------- all the steps

  lemma {:induction false} MarksExtend(marks: seq<Mark>, i: nat, before: Log, w: World, s: Settings, turn: nat, run: string,
                                       last: nat)
    requires GoneOn(marks, before, w, s, turn, run, last) && i < |marks|
    ensures Extends(before, marks[i].log)
    ensures i > 0 ==> Begins(before, marks[i].log, last + 1)
  {
    hide StepDone;
    if i > 0 {
      MarksExtend(marks, i - 1, before, w, s, turn, run, last);
      assert WentOn(marks, i - 1, w, s, turn, run, last);
      StepVerdict(marks[i - 1].log, marks[i].log, w, s, turn, run, last + i, marks[i - 1].retries, marks[i].retries, None);
      ExtendsTrans(before, marks[i - 1].log, marks[i].log);
    }
  }

  /** How the last mark and the end of the loop lie to each other. */
  lemma StopsSo(m: Mark, after: Log, w: World, s: Settings, turn: nat, run: string, at: nat, reason: Reason)
    requires Stops(m, after, w, s, turn, run, at, reason)
    ensures Extends(m.log, after)
    ensures |after| > |m.log| <==> at < MAX_STEPS && !w.aborted(m.log, "")
    ensures |after| > |m.log| ==> Verdict(m.log, after, w, at + 1, Some(reason))
  {
    hide StepDone;
    if at < MAX_STEPS && !w.aborted(m.log, "") {
      var left :| EndsAt(m, after, w, s, turn, run, at, left, reason);
      StepVerdict(m.log, after, w, s, turn, run, at + 1, m.retries, left, Some(reason));
    }
  }

  /** A step is taken if and only if one is left and the run is not cancelled at once. */
  lemma StepIsTaken(before: Log, after: Log, w: World, s: Settings, turn: nat, run: string, last: nat, reason: Reason)
    requires Stepped(before, after, w, s, turn, run, last, reason)
    ensures Extends(before, after)
    ensures last < MAX_STEPS && !w.aborted(before, "") ==> Begins(before, after, last + 1)
    ensures last >= MAX_STEPS || w.aborted(before, "") ==> after == before
  {
    hide StepDone, Stops;
    var marks: seq<Mark> :| Series(marks, before, after, w, s, turn, run, last, reason);
    var m := marks[|marks| - 1];
    MarksExtend(marks, |marks| - 1, before, w, s, turn, run, last);
    StopsSo(m, after, w, s, turn, run, last + |marks| - 1, reason);
    ExtendsTrans(before, m.log, after);
    if |marks| > 1 { assert WentOn(marks, 0, w, s, turn, run, last); }
  }

  /** The turn is cancelled if and only if the flag was set where the loop was about to take
      the next step, or the last step ended as cancelled; it times out if and only if the
      last step did; it waits if and only if the last step asked. */
  lemma CancelledIff(marks: seq<Mark>, before: Log, after: Log, w: World, s: Settings, turn: nat, run: string, last: nat,
                     reason: Reason)
    requires Series(marks, before, after, w, s, turn, run, last, reason)
    ensures var m, at := marks[|marks| - 1].log, last + |marks| - 1;
      && (reason == Cancelled <==>
            (after == m && at < MAX_STEPS && w.aborted(m, "")) || (|after| > |m| && EndsOn(after, StepEnd("cancelled"))))
      && (reason == LlmTimeout <==> |after| > |m| && EndsOn(after, StepEnd("timeout")))
      && (reason == WaitingApproval <==> |after| > |m| && after[|after| - 1].body.ApprovalAsked?)
  {
    hide StepDone;
    StopsSo(marks[|marks| - 1], after, w, s, turn, run, last + |marks| - 1, reason);
  }

  /** A turn ends with an error only when all its steps are used up or its last step has a
      cause for it. */
  lemma ErrorHasCause(marks: seq<Mark>, before: Log, after: Log, w: World, s: Settings, turn: nat, run: string, last: nat)
    requires Series(marks, before, after, w, s, turn, run, last, Reason.Error)
    ensures var m := marks[|marks| - 1].log;
      (after == m && last + |marks| - 1 >= MAX_STEPS) || (|after| > |m| && ErrorCause(m, after, w))
  {
    hide StepDone, ErrorCause;
    StopsSo(marks[|marks| - 1], after, w, s, turn, run, last + |marks| - 1, Reason.Error);
  }

  /** From here on the request fits, and the model answers with a text to show. */
  ghost predicate AnswersWith(before: Log, w: World, s: Settings, content: string, shown: string) {
    && shown != ""
    && forall log: Log | Extends(before, log) ::
         && s.count(Derive(log)) < s.policy.Limit(s.policy.triggerRatio)
         && w.reply(log) == Reply(content, []) && w.finalText(log, content) == shown
  }

  /** Then the turn is completed with that text in its first step. */
  lemma AnswerCompletes(before: Log, after: Log, w: World, s: Settings, turn: nat, run: string, last: nat, reason: Reason,
                        content: string, shown: string)
    requires Stepped(before, after, w, s, turn, run, last, reason) && last < MAX_STEPS && !w.aborted(before, "")
    requires AnswersWith(before, w, s, content, shown)
    ensures reason == Completed && Begins(before, after, last + 1) && EndsOn(after, AnswerPublished(shown))
    ensures exists j: nat :: |before| < j < |after| && after[j].body == AssistantMessage(content, [])
  {
    hide StepDone, AnswersWith;
    var marks: seq<Mark> :| Series(marks, before, after, w, s, turn, run, last, reason);
    if |marks| > 1 {
      assert WentOn(marks, 0, w, s, turn, run, last);
      StepAnswers(before, marks[1].log, w, s, turn, run, last + 1, 0, marks[1].retries, None, content, shown);
      assert false;
    }
    var left :| EndsAt(marks[0], after, w, s, turn, run, last, left, reason);
    StepAnswers(before, after, w, s, turn, run, last + 1, 0, left, Some(reason), content, shown);
    StepVerdict(before, after, w, s, turn, run, last + 1, 0, left, Some(reason));
  }

  lemma AnswersNow(before: Log, log: Log, w: World, s: Settings, content: string, shown: string)
    requires AnswersWith(before, w, s, content, shown) && Extends(before, log)
    ensures shown != "" && s.count(Derive(log)) < s.policy.Limit(s.policy.triggerRatio)
    ensures w.reply(log) == Reply(content, []) && w.finalText(log, content) == shown
  {
  }

  lemma StepAnswers(before: Log, after: Log, w: World, s: Settings, turn: nat, run: string, step: nat,
                    retries: nat, left: nat, stop: Option<Reason>, content: string, shown: string)
    requires StepDone(before, after, w, s, turn, run, step, retries, left, stop) && AnswersWith(before, w, s, content, shown)
    ensures stop == Some(Completed) && EndsOn(after, AnswerPublished(shown))
    ensures exists j: nat :: |before| < j < |after| && after[j].body == AssistantMessage(content, [])
  {
    hide RequestFailed, CarriedOut, Derive, Compacts, AnswersWith;
    if i: nat :| Readied(before, after, i, s, turn, run, step, false) && GivesUp(after, i, retries, left, stop) {
      PrefixExtends(before, after, |before| + 1);
      AnswersNow(before, after[..|before| + 1], w, s, content, shown);
      FitsAtOnce(after[..|before| + 1], after[..i], s, turn, run);
      assert false;
    }
    var i: nat, j: nat :| Readied(before, after, i, s, turn, run, step, true) && Requested(before, after, i, j, w, s)
                          && Replied(after, j, w, s, turn, run, retries, left, stop);
    PrefixExtends(before, after, j);
    AnswersNow(before, after[..j], w, s, content, shown);
    SaysIt(before, after, j, w, s, content, shown, stop);
  }

  lemma FitsAtOnce(before: Log, after: Log, s: Settings, turn: nat, run: string)
    requires s.count(Derive(before)) < s.policy.Limit(s.policy.triggerRatio)
    ensures !Compacts(before, after, s, turn, run, false, false)
  {
  }

  lemma SaysIt(before: Log, after: Log, j: nat, w: World, s: Settings, content: string, shown: string, stop: Option<Reason>)
    requires AnswersWith(before, w, s, content, shown) && Extends(before, after) && |before| < j < |after|
    requires after[j].body == AssistantMessage(content, []) && SaidAnswer(after, j, w, content, stop)
    ensures stop == Some(Completed) && EndsOn(after, AnswerPublished(shown))
  {
    hide AnswersWith;
    PrefixExtends(before, after, j + 2);
    AnswersNow(before, after[..j + 2], w, s, content, shown);
  }

  lemma PrefixExtends(before: Log, after: Log, n: nat)
    requires Extends(before, after) && |before| <= n
    ensures n <= |after| ==> Extends(before, after[..n])
  {
  }
}
