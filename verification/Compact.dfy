/** The compactor at work on a store (`harness/compaction/compact.py`). */
module Compact {
  import opened Schema
  import opened Events
  import opened Surface
  import opened SurfaceFacts
  import opened Split
  import opened Compaction
  import opened CompactRuns
  import opened Merge
  import opened Fitting
  import opened Trim
  import RenderSize
  import Shrink

  /** `CompactPolicy`; ratios are exact here. */
  datatype Policy = Policy(
    window: nat, triggerRatio: real, targetRatio: real, retainRatio: real,
    pruneChars: nat, headChars: nat, tailChars: nat, maxNarrative: int)
  {
    function Limit(ratio: real): int {
      (window as real * ratio).Floor
    }

    function Retain(): nat {
      if Limit(retainRatio) < 0 then 0 else Limit(retainRatio)
    }
  }

  /** With the default ratios a compaction that reached its target is no reason for the
      next one: in any window of five tokens or more the target lies below the trigger. */
  lemma TargetBelowTrigger(p: Policy, measured: int)
    requires p.window >= 5 && p.targetRatio == 0.6 && p.triggerRatio == 0.8
    requires measured <= p.Limit(p.targetRatio)
    ensures measured < p.Limit(p.triggerRatio)
  {
    var w := p.window as real;
    assert w * 0.8 >= w * 0.6 + 1.0;
  }

  /** What the model answers when asked for a delta, for a text summary (`None` when the
      call fails) and for a shorter narrative (empty when it fails). */
  datatype Answer = Answer(delta: Option<Delta>, text: Option<string>, narrative: string)

  /** The settings of one `maybe_compact` call. */
  datatype Job = Job(turn: nat, run: string, overflow: bool, policy: Policy, enforce: bool, allowLlm: bool)

  /** How the size of a request is counted: the surface alone, or whatever the adapter
      or the full request estimate says for the messages. */
  datatype Meter = SurfaceOnly | FullRequest(count: seq<Msg> -> nat)

  ghost function Measure(meter: Meter, log: Log): nat {
    if meter.SurfaceOnly? then SurfaceTokens(Derive(log)) else meter.count(Derive(log))
  }

  method CurrentTokens(meter: Meter, log: Log) returns (tokens: nat)
    requires Contiguous(log)
    ensures tokens == Measure(meter, log)
  {
    ContiguousIncreasing(log);
    var messages := DeriveMessages(log);
    if meter.SurfaceOnly? {
      tokens := CountSurfaceTokens(messages);
    } else {
      tokens := meter.count(messages);
    }
  }

  // ------------------------------------------------------------- summaries

  ghost predicate IsLatest(log: Log, latest: Option<Event>) {
    && (latest.None? <==> Committed(log) == {})
    && (latest.Some? ==> IsNewest(Committed(log), latest.value.seqNo) && latest.value in log
                         && latest.value.body.CompactionSummary?)
  }

  /** `latest_committed_summary`. */
  method LatestCommitted(log: Log) returns (latest: Option<Event>)
    requires Contiguous(log) && Backward(log)
    ensures IsLatest(log, latest)
  {
    ContiguousIncreasing(log);
    var committed := CommittedSeqs(log);
    var dropped: set<nat> := {};
    latest := None;
    for i := 0 to |log|
      invariant forall q | q in dropped :: q < i
      invariant latest.None? ==> forall q | q in committed :: q > i
      invariant latest.Some? ==> latest.value.seqNo in committed && latest.value in log && latest.value.body.CompactionSummary?
      invariant latest.Some? ==> forall q | q in committed && q <= i :: q <= latest.value.seqNo
    {
      var e := log[i];
      if e.body.CompactionSummary? && e.seqNo in committed && e.seqNo !in dropped {
        latest := Some(e);
      }
      forall q | q in committed && q == i + 1
        ensures e.body.CompactionSummary?
      {
        NewestIsSummary(log, q);
      }
      dropped := dropped + Sources(e);
    }
    forall q | q in committed
      ensures q <= |log|
    {
      NewestIsSummary(log, q);
    }
  }

  /** A whole transaction was written for `structured`. */
  ghost predicate Recorded(log: Log, next: Log, turn: nat, sources: set<nat>, structured: Summary) {
    && StampedBy(log, next, turn) && SummaryStep(log, next, sources)
    && next[|log| + 1].body == CompactionSummary(Render(structured), structured)
  }

  /** `_append_summary_events`. */
  method AppendSummaryEvents(store: SessionStore, job: Job, sources: seq<nat>, ghost drop: set<nat>, structured: Summary,
                             ids: nat -> string)
    requires store.Valid() && LogOk(store.events) && sources != []
    requires drop == (set q | q in sources) && forall q | q in sources :: q <= |store.events|
    modifies store
    ensures store.Valid() && LogOk(store.events)
    ensures Recorded(old(store.events), store.events, job.turn, drop, structured)
  {
    hide Recorded, Render, LogOk;
    var run, turn := Some(job.run), Some(job.turn);
    var content := Render(structured);
    ghost var log := store.events;
    var one := store.Append(Draft(run, turn, None, NoOp, [], CompactionStart), ids(store.nextSeq));
    LogOkSnoc(log, one.value);
    var two := store.Append(Draft(run, turn, None, Replace, sources, CompactionSummary(content, structured)),
                            ids(store.nextSeq));
    LogOkSnoc(log + [one.value], two.value);
    var three := store.Append(Draft(run, turn, None, NoOp, [], CompactionEnd), ids(store.nextSeq));
    LogOkSnoc(log + [one.value] + [two.value], three.value);
    RecordedIs(log, one.value, two.value, three.value, job.turn, sources, drop, structured);
  }

  lemma RecordedIs(log: Log, one: Event, two: Event, three: Event, turn: nat, sources: seq<nat>, drop: set<nat>,
                   structured: Summary)
    requires one.turn == two.turn == three.turn == Some(turn)
    requires one.body.CompactionStart? && three.body.CompactionEnd?
    requires two.body == CompactionSummary(Render(structured), structured) && two.sources == sources && drop == (set q | q in sources)
    ensures Recorded(log, log + [one] + [two] + [three], turn, drop, structured)
  {
  }

  lemma SeqSetSnoc(s: seq<Msg>, i: nat)
    requires i < |s|
    ensures SeqSet(s[..i + 1]) == SeqSet(s[..i]) + {s[i].seqNo}
  {
    assert s[..i + 1] == s[..i] + [s[i]];
    assert s[i] in s[..i + 1];
  }

  /** Prefix and newest summary, each sequence number once, the summary first. */
  method SourceSeqs(latest: Option<Event>, prefix: seq<Msg>) returns (sources: seq<nat>)
    ensures forall q :: q in sources <==> q in SeqSet(prefix) || (latest.Some? && q == latest.value.seqNo)
    ensures prefix != [] ==> sources != []
  {
    sources := if latest.Some? then [latest.value.seqNo] else [];
    for i := 0 to |prefix|
      invariant forall q :: q in sources <==> q in SeqSet(prefix[..i]) || (latest.Some? && q == latest.value.seqNo)
    {
      SeqSetSnoc(prefix, i);
      if prefix[i].seqNo !in sources {
        sources := sources + [prefix[i].seqNo];
      }
    }
    assert prefix[..|prefix|] == prefix;
    if prefix != [] {
      assert prefix[0].seqNo in SeqSet(prefix);
      assert prefix[0].seqNo in sources;
    }
  }

  lemma NewestSet(log: Log, latest: Option<Event>)
    requires IsLatest(log, latest)
    ensures (if latest.Some? then {latest.value.seqNo} else {}) ==
            set q | q in Committed(log) && IsNewest(Committed(log), q)
  {
  }

  const NO_SUMMARY := Summary(map[], "")

  function StructuredOf(latest: Option<Event>): Summary {
    if latest.Some? && latest.value.body.CompactionSummary? then latest.value.body.structured else NO_SUMMARY
  }

  // --------------------------------------------------------------- trimming

  /** The longest tool result not replaced before, the first of them. */
  ghost predicate IsLongest(log: Log, k: nat) {
    && k in Untrimmed(log)
    && forall j | j in Untrimmed(log) ::
         |log[j].body.content| <= |log[k].body.content| && (|log[j].body.content| == |log[k].body.content| ==> k <= j)
  }

  method ReplacedSeqs(log: Log) returns (replaced: set<nat>)
    ensures forall q :: q in replaced <==> Replaced(log, q)
  {
    replaced := {};
    for i := 0 to |log|
      invariant forall q :: q in replaced <==> Replaced(log[..i], q)
    {
      ReplacedSnoc(log, i);
      if log[i].body.ToolResult? && log[i].op == Replace {
        replaced := replaced + Sources(log[i]);
      }
    }
    assert log[..|log|] == log;
  }

  lemma ReplacedSnoc(log: Log, i: nat)
    requires i < |log|
    ensures forall q :: Replaced(log[..i + 1], q) <==>
              Replaced(log[..i], q) || (log[i].body.ToolResult? && log[i].op == Replace && q in log[i].sources)
  {
    assert log[..i + 1] == log[..i] + [log[i]];
    assert log[i] in log[..i + 1];
  }

  method LongestTool(log: Log) returns (target: Option<nat>)
    ensures target.None? <==> Untrimmed(log) == {}
    ensures target.Some? ==> IsLongest(log, target.value)
  {
    var replaced := ReplacedSeqs(log);
    target := None;
    for i := 0 to |log|
      invariant target.None? ==> forall j | j in Untrimmed(log) :: i <= j
      invariant target.Some? ==> target.value in Untrimmed(log) && target.value < i
      invariant target.Some? ==> forall j | j in Untrimmed(log) && j < i ::
        |log[j].body.content| <= |log[target.value].body.content|
        && (|log[j].body.content| == |log[target.value].body.content| ==> target.value <= j)
    {
      var e := log[i];
      assert i in Untrimmed(log) <==> e.body.ToolResult? && e.op == Append && e.seqNo !in replaced;
      if e.body.ToolResult? && e.op == Append && e.seqNo !in replaced {
        if target.None? || |e.body.content| > |log[target.value].body.content| {
          target := Some(i);
        }
      }
    }
  }

  /** The text that a result is cut down to. */
  function CutDown(text: string, seqNo: nat, policy: Policy, project: (string, nat) -> Option<string>): string {
    Trimmed(text, policy.pruneChars, policy.headChars, policy.tailChars, seqNo, t => project(t, seqNo))
  }

  /** The longest result was cut down, and that changed it. */
  ghost predicate TrimsLongest(log: Log, next: Log, job: Job, project: (string, nat) -> Option<string>) {
    && TrimStep(log, next, job.turn)
    && var e := next[|log|];
    && var text := log[e.sources[0] - 1].body.content;
    && IsLongest(log, e.sources[0] - 1)
    && |text| > job.policy.pruneChars
    && e.body.content == CutDown(text, e.sources[0], job.policy, project) != text
  }

  /** The longest result, if there is one, is as short as it gets. */
  ghost predicate NothingToTrim(log: Log, job: Job, project: (string, nat) -> Option<string>) {
    forall k: nat | IsLongest(log, k) :: CutDown(log[k].body.content, k + 1, job.policy, project) == log[k].body.content
  }

  lemma ShortIsUncut(text: string, seqNo: nat, policy: Policy, project: (string, nat) -> Option<string>)
    requires |text| <= policy.pruneChars
    ensures CutDown(text, seqNo, policy, project) == text
  {
  }

  lemma UncutLongest(log: Log, k: nat, job: Job, project: (string, nat) -> Option<string>)
    requires IsLongest(log, k) && CutDown(log[k].body.content, k + 1, job.policy, project) == log[k].body.content
    ensures NothingToTrim(log, job, project)
  {
    forall j | IsLongest(log, j)
      ensures j == k
    {
    }
  }

  /** `_trim_longest_tool`: it trims unless there is nothing to trim. */
  method TrimLongestTool(store: SessionStore, job: Job, project: (string, nat) -> Option<string>, ids: nat -> string)
    returns (trimmed: bool)
    requires store.Valid() && LogOk(store.events)
    modifies store
    ensures store.Valid() && LogOk(store.events)
    ensures !trimmed ==> store.events == old(store.events) && NothingToTrim(store.events, job, project)
    ensures trimmed ==> TrimsLongest(old(store.events), store.events, job, project)
  {
    var log := store.events;
    var longest := LongestTool(log);
    if longest.None? {
      return false;
    }
    var target := log[longest.value];
    var content := target.body.content;
    if |content| <= job.policy.pruneChars && !job.overflow {
      ShortIsUncut(content, target.seqNo, job.policy, project);
      UncutLongest(log, longest.value, job, project);
      return false;
    }
    var shorter := CutDown(content, target.seqNo, job.policy, project);
    if shorter == content {
      UncutLongest(log, longest.value, job, project);
      return false;
    }
    assert Stored(target);
    var e := store.Append(
      Draft(Some(job.run), Some(job.turn), None, Replace, [target.seqNo],
            ToolResult(target.body.callId, target.body.name, target.body.ok, shorter, shorter, "", "")),
      ids(store.nextSeq));
    return true;
  }

  /** A trim settles one result for good: what is left to trim shrinks. */
  lemma TrimProgress(log: Log, next: Log, turn: nat)
    requires Contiguous(next) && TrimStep(log, next, turn)
    ensures Untrimmed(next) < Untrimmed(log)
  {
    var e := next[|log|];
    assert e in next;
    assert forall k | 0 <= k < |log| :: next[k] == log[k];
    forall k | k in Untrimmed(next)
      ensures k in Untrimmed(log)
    {
      if Replaced(log, next[k].seqNo) { ReplacedMore(log, next, next[k].seqNo); }
    }
    assert e.sources[0] - 1 !in Untrimmed(next);
  }

  lemma ReplacedMore(log: Log, next: Log, q: nat)
    requires |log| <= |next| && next[..|log|] == log && Replaced(log, q)
    ensures Replaced(next, q)
  {
    var r :| r in log && r.body.ToolResult? && r.op == Replace && q in r.sources;
    assert r in next[..|log|];
  }

  // ------------------------------------------------------ writing summaries

  function SourceName(s: Source): string {
    match s
    case User => "user" case Inject => "inject" case Steer => "steer" case Skill => "skill" case Vision => "vision"
    case Legacy => "legacy" case Plugin => "plugin" case Compaction => "compaction"
  }

  function CallNames(calls: seq<Call>): seq<string> {
    if calls == [] then [] else (if calls[0].name == "" then [] else [calls[0].name]) + CallNames(calls[1..])
  }

  function SummaryLine(m: Msg): string {
    match m.role
    case UserRole => (if IsReal(m.source) then "用户" else "上下文[" + SourceName(m.source) + "]") + "：" + Strip(m.content)
    case AssistantRole =>
      "助手" + (if m.calls == [] then "" else "（调用 " + Join(CallNames(m.calls), ", ") + "）") + "：" + Strip(m.content)
    case ToolRole => "工具[" + (if m.name == "" then "tool" else m.name) + "]：" + Strip(m.content)
  }

  /** `_format_for_summary`. */
  function Excerpt(ms: seq<Msg>): string {
    Join(seq(|ms|, i requires 0 <= i < |ms| => SummaryLine(ms[i])), "\n")
  }

  /** The text that stands in for a summary when the model returned none. */
  function TextSummary(answer: string, extract: seq<Msg>, headChars: nat): string {
    var text := Strip(answer);
    var budget := if headChars / 2 > 200 then headChars / 2 else 200;
    if text != "" then text
    else if |Excerpt(extract)| > budget then Excerpt(extract)[..budget] + "\n…[truncated]…"
    else Excerpt(extract)
  }

  /** `current_turn_todos`. */
  function TurnTodos(log: Log, turn: nat): seq<Todo> {
    if log == [] then []
    else
      var e := log[|log| - 1];
      if e.body.TodoWrite? && e.turn == Some(turn) then e.body.todos else TurnTodos(log[..|log| - 1], turn)
  }

  method CurrentTurnTodos(log: Log, turn: nat) returns (latest: seq<Todo>)
    ensures latest == TurnTodos(log, turn)
  {
    latest := [];
    for i := 0 to |log|
      invariant latest == TurnTodos(log[..i], turn)
    {
      assert log[..i + 1][..i] == log[..i];
      if log[i].body.TodoWrite? && log[i].turn == Some(turn) {
        latest := log[i].body.todos;
      }
    }
    assert log[..|log|] == log;
  }

  /** The messages that are no summary (`which`), or the summaries. */
  function Extract(ms: seq<Msg>): seq<Msg> {
    if ms == [] then []
    else Extract(ms[..|ms| - 1]) + if ms[|ms| - 1].source.Compaction? then [] else [ms[|ms| - 1]]
  }

  method ExtractFrom(ms: seq<Msg>) returns (extract: seq<Msg>)
    ensures extract == Extract(ms)
  {
    extract := [];
    for i := 0 to |ms|
      invariant extract == Extract(ms[..i])
    {
      assert ms[..i + 1][..i] == ms[..i];
      if !ms[i].source.Compaction? {
        extract := extract + [ms[i]];
      }
    }
    assert ms[..|ms|] == ms;
  }

  function TurnOf(m: Msg, turns: map<nat, nat>, turn: nat): nat {
    if m.seqNo in turns then turns[m.seqNo] else turn
  }

  /** Tasks may only come from the current turn. */
  function AllowedDelta(delta: Delta, extract: seq<Msg>, turns: map<nat, nat>, turn: nat): Delta {
    if exists i | 0 <= i < |extract| :: TurnOf(extract[i], turns, turn) >= turn then delta
    else delta.(items := delta.items[OpenItems := []][CompletedItems := []])
  }

  function Budget(limit: int, ms: seq<Msg>): int {
    if limit - SurfaceTokens(ms) > 1 then limit - SurfaceTokens(ms) else 1
  }

  ghost predicate IsMerged(merged: Summary, previous: Summary, delta: Delta, log: Log, job: Job, idOf: IdOf) {
    && (forall f :: merged.Get(f) == MergedField(previous, delta, f, job.turn, TurnTodos(log, job.turn), idOf))
    && merged.narrative == Narrative(previous.narrative, delta.narrative, job.policy.maxNarrative)
  }

  /** What `_write_summary` puts into the summary. */
  ghost predicate IsFold(log: Log, structured: Summary, job: Job, limit: int, answer: Answer, idOf: IdOf) {
    var s, turns := Derive(log), Turns(log);
    var extract := Extract(Prefix(s, job.turn, turns, job.policy.Retain()));
    && extract != []
    && if answer.delta.Some? then
         IsFoldedDelta(log, structured, job, Budget(limit, Rest(s, job.turn, turns, job.policy.Retain())),
                       AllowedDelta(answer.delta.value, extract, turns, job.turn), answer.narrative, idOf)
       else
         answer.text.Some?
         && structured ==
            Summary(map[], Clip(TextSummary(answer.text.value, extract, job.policy.headChars), job.policy.maxNarrative))
  }

  /** There is something to fold, and the model answered in one of the two ways. */
  ghost predicate CanFold(log: Log, job: Job, answer: Answer) {
    var extract := Extract(Prefix(Derive(log), job.turn, Turns(log), job.policy.Retain()));
    && extract != []
    && (answer.delta.Some?
        || (answer.text.Some? && !IsBlank(TextSummary(answer.text.value, extract, job.policy.headChars))))
  }

  ghost predicate IsFoldedDelta(log: Log, structured: Summary, job: Job, budget: int, delta: Delta, answer: string, idOf: IdOf) {
    exists latest, merged ::
      && IsLatest(log, latest)
      && IsMerged(merged, StructuredOf(latest), delta, log, job, idOf)
      && structured == Fitted(merged, job.turn, budget, answer, job.policy.maxNarrative)
  }

  method FoldDelta(log: Log, latest: Option<Event>, job: Job, budget: int, delta: Delta, answer: string, idOf: IdOf)
    returns (structured: Summary)
    requires IsLatest(log, latest)
    ensures IsFoldedDelta(log, structured, job, budget, delta, answer, idOf)
  {
    var todos := CurrentTurnTodos(log, job.turn);
    var merged := MergeSummary(StructuredOf(latest), delta, job.turn, todos, job.policy.maxNarrative, idOf);
    structured := FitSummary(merged, job.turn, budget, answer, job.policy.maxNarrative);
    assert IsMerged(merged, StructuredOf(latest), delta, log, job, idOf);
  }

  /** The sources and the content of a summary, or none when nothing is to be written. */
  method Summarize(log: Log, job: Job, limit: int, answer: Answer, idOf: IdOf)
    returns (sources: seq<nat>, structured: Option<Summary>)
    requires LogOk(log)
    ensures structured.None? ==> !CanFold(log, job, answer) || exists blank :: IsBlank(Render(blank))
    ensures structured.Some? ==> CanFold(log, job, answer) && IsFold(log, structured.value, job, limit, answer, idOf) && sources != []
    ensures structured.Some? ==> (set q | q in sources) == FoldSources(log, job.turn, job.policy.Retain())
    ensures structured.Some? ==> forall q | q in sources :: q <= |log|
  {
    ContiguousIncreasing(log);
    var messages := DeriveMessages(log);
    var turns := SeqToTurn(log);
    var prefix, kept := SplitPrefix(messages, job.policy.Retain(), job.turn, turns);
    var latest := LatestCommitted(log);
    var extract := ExtractFrom(prefix);
    if extract == [] {
      return [], None;
    }
    sources := SourceSeqs(latest, prefix);
    FoldSourcesAre(log, job.turn, job.policy.Retain(), latest, sources);
    if answer.delta.Some? {
      var delta := AllowedDelta(answer.delta.value, extract, turns, job.turn);
      var fitted := FoldDelta(log, latest, job, Budget(limit, kept), delta, answer.narrative, idOf);
      if IsBlank(Render(fitted)) {
        return [], None;
      }
      return sources, Some(fitted);
    }
    if answer.text.None? || IsBlank(TextSummary(answer.text.value, extract, job.policy.headChars)) {
      return [], None;
    }
    structured := Some(Summary(map[], Clip(TextSummary(answer.text.value, extract, job.policy.headChars), job.policy.maxNarrative)));
  }

  /** The summary was recorded, in place of the folded prefix and the newest summary. */
  ghost predicate Folds(log: Log, next: Log, summary: Summary, job: Job, limit: int, answer: Answer, idOf: IdOf) {
    && Recorded(log, next, job.turn, FoldSources(log, job.turn, job.policy.Retain()), summary)
    && IsFold(log, summary, job, limit, answer, idOf)
  }

  /** `_write_summary`: it writes exactly when it can. */
  method WriteSummary(store: SessionStore, job: Job, limit: int, answer: Answer, idOf: IdOf, ids: nat -> string)
    returns (written: bool, ghost summary: Summary)
    requires store.Valid() && LogOk(store.events)
    modifies store
    ensures store.Valid() && LogOk(store.events)
    ensures written <==> CanFold(old(store.events), job, answer)
    ensures !written ==> store.events == old(store.events)
    ensures written ==> Folds(old(store.events), store.events, summary, job, limit, answer, idOf)
  {
    hide CanFold, IsFold, Recorded, Render;
    summary := NO_SUMMARY;
    var sources, structured := Summarize(store.events, job, limit, answer, idOf);
    if structured.None? {
      forall blank ensures !IsBlank(Render(blank)) { RenderSize.RenderIsNotBlank(blank); }
      return false, summary;
    }
    summary := structured.value;
    AppendSummaryEvents(store, job, sources, FoldSources(store.events, job.turn, job.policy.Retain()), structured.value, ids);
    written := true;
  }

  lemma FoldSourcesAre(log: Log, turn: nat, retain: nat, latest: Option<Event>, sources: seq<nat>)
    requires Contiguous(log) && IsLatest(log, latest)
    requires var prefix := Prefix(Derive(log), turn, Turns(log), retain);
      forall q :: q in sources <==> q in SeqSet(prefix) || (latest.Some? && q == latest.value.seqNo)
    ensures (set q | q in sources) == FoldSources(log, turn, retain)
    ensures forall q | q in sources :: q <= |log|
  {
    NewestSet(log, latest);
    DeriveFaithful(log);
    var prefix := Prefix(Derive(log), turn, Turns(log), retain);
    forall m | m in prefix
      ensures m in Derive(log)
    {
      PrefixWithin(Derive(log), turn, Turns(log), retain, m);
    }
    if latest.Some? { NewestIsSummary(log, latest.value.seqNo); }
  }

  /** What the newest summary shrinks to when it is to leave room for the other messages. */
  ghost function Reshaped(log: Log, latest: Option<Event>, job: Job, budget: int, answer: string): Summary {
    Fitted(StructuredOf(latest), job.turn, Budget(budget, Extract(Derive(log))), answer, job.policy.maxNarrative)
  }

  ghost predicate IsRefit(log: Log, latest: Option<Event>, fitted: Summary, job: Job, budget: int, answer: string) {
    && IsLatest(log, latest) && latest.Some?
    && fitted == Reshaped(log, latest, job, budget, answer) != StructuredOf(latest)
  }

  /** The newest summary, if there is one, stays as it is. */
  ghost predicate NothingToRefit(log: Log, job: Job, budget: int, answer: string) {
    forall latest | IsLatest(log, latest) && latest.Some? :: Reshaped(log, latest, job, budget, answer) == StructuredOf(latest)
  }

  lemma OneLatest(log: Log, one: Option<Event>, two: Option<Event>)
    requires Contiguous(log) && IsLatest(log, one) && IsLatest(log, two)
    ensures one == two
  {
    if one.Some? {
      var i :| 0 <= i < |log| && log[i] == one.value;
      var j :| 0 <= j < |log| && log[j] == two.value;
      assert i == j;
    }
  }

  lemma Unchanged(log: Log, latest: Option<Event>, job: Job, budget: int, answer: string)
    requires Contiguous(log) && IsLatest(log, latest)
    requires latest.Some? ==> Reshaped(log, latest, job, budget, answer) == StructuredOf(latest)
    ensures NothingToRefit(log, job, budget, answer)
  {
    hide IsLatest, Reshaped, StructuredOf;
    forall other | IsLatest(log, other)
      ensures other == latest
    {
      OneLatest(log, latest, other);
    }
  }

  /** The summary shrunk to what the other messages leave, if that changes it. */
  method ShrinkToFit(log: Log, latest: Event, job: Job, budget: int, answer: string) returns (fitted: Option<Summary>)
    requires LogOk(log) && IsLatest(log, Some(latest))
    ensures fitted.None? ==> NothingToRefit(log, job, budget, answer)
    ensures fitted.Some? ==> IsRefit(log, Some(latest), fitted.value, job, budget, answer)
  {
    hide NothingToRefit, Derive, Fitted, Extract;
    ContiguousIncreasing(log);
    var messages := DeriveMessages(log);
    var others := ExtractFrom(messages);
    var was := StructuredOf(Some(latest));
    var now := FitSummary(was, job.turn, Budget(budget, others), answer, job.policy.maxNarrative);
    if now == was {
      Unchanged(log, Some(latest), job, budget, answer);
      return None;
    }
    fitted := Some(now);
  }

  lemma OneSource(log: Log, latest: Event, sources: seq<nat>)
    requires Contiguous(log) && IsLatest(log, Some(latest)) && sources == [latest.seqNo]
    ensures (set q | q in sources) == {latest.seqNo} && latest.seqNo <= |log|
  {
    NewestIsSummary(log, latest.seqNo);
  }

  method Refit(log: Log, job: Job, budget: int, answer: string)
    returns (sources: seq<nat>, fitted: Option<Summary>, ghost latest: Option<Event>)
    requires LogOk(log)
    ensures fitted.None? ==> NothingToRefit(log, job, budget, answer)
    ensures fitted.Some? ==> latest.Some? && IsRefit(log, latest, fitted.value, job, budget, answer)
    ensures fitted.Some? ==> sources != [] && (set q | q in sources) == {latest.value.seqNo}
    ensures fitted.Some? ==> forall q | q in sources :: q <= |log|
  {
    hide IsRefit, NothingToRefit, IsLatest, Reshaped;
    var found := LatestCommitted(log);
    latest := found;
    if found.None? {
      Unchanged(log, found, job, budget, answer);
      return [], None, latest;
    }
    sources := [found.value.seqNo];
    OneSource(log, found.value, sources);
    fitted := ShrinkToFit(log, found.value, job, budget, answer);
  }

  /** The newest summary was replaced by its shorter form. */
  ghost predicate Rewrites(log: Log, next: Log, latest: Option<Event>, summary: Summary, job: Job, budget: int, answer: string) {
    && IsRefit(log, latest, summary, job, budget, answer)
    && Recorded(log, next, job.turn, {latest.value.seqNo}, summary)
  }

  /** `_rewrite_existing_summary`: it rewrites unless nothing would change. */
  method RewriteExistingSummary(store: SessionStore, job: Job, budget: int, answer: string, ids: nat -> string)
    returns (rewritten: bool, ghost latest: Option<Event>, ghost summary: Summary)
    requires store.Valid() && LogOk(store.events)
    modifies store
    ensures store.Valid() && LogOk(store.events)
    ensures !rewritten ==> store.events == old(store.events) && NothingToRefit(store.events, job, budget, answer)
    ensures rewritten ==> Rewrites(old(store.events), store.events, latest, summary, job, budget, answer)
  {
    hide NothingToRefit, IsRefit, Recorded;
    summary := NO_SUMMARY;
    var sources, fitted, newest := Refit(store.events, job, budget, answer);
    latest := newest;
    if fitted.None? {
      return false, latest, summary;
    }
    summary := fitted.value;
    AppendSummaryEvents(store, job, sources, {latest.value.seqNo}, fitted.value, ids);
    rewritten := true;
  }

  // ---------------------------------------------------------- maybe_compact

  datatype Outcome = Finished(changed: bool) | Exhausted(finalTokens: nat, protectedTokens: nat)

  function Target(meter: Meter, limit: int, policy: Policy): int {
    if meter.SurfaceOnly? then limit else policy.Limit(policy.targetRatio)
  }

  /** `run` is a run of compaction steps in turn `turn` between the two logs. */
  ghost predicate Leads(run: seq<Log>, turn: nat, before: Log, after: Log) {
    CompactRun(run, Always(turn)) && run[0] == before && run[|run| - 1] == after
  }

  lemma LeadsOn(run: seq<Log>, turn: nat, before: Log, after: Log, next: Log)
    requires Leads(run, turn, before, after) && LogOk(next) && CompactStep(after, next, turn)
    ensures Leads(run + [next], turn, before, next)
  {
    LongerRun(run, turn, next);
  }

  /** The first stage: trims, one after the other, until the target is met or nothing is
      left to trim. */
  ghost predicate TrimStage(run: seq<Log>, job: Job, meter: Meter, target: int, project: (string, nat) -> Option<string>) {
    && Trimming(run, job, meter, target, project)
    && var last := run[|run| - 1]; Measure(meter, last) <= target || NothingToTrim(last, job, project)
  }

  ghost predicate Trimming(run: seq<Log>, job: Job, meter: Meter, target: int, project: (string, nat) -> Option<string>) {
    && run != []
    && forall i | 0 <= i < |run| - 1 :: Measure(meter, run[i]) > target && TrimsLongest(run[i], run[i + 1], job, project)
  }

  lemma TrimmingOn(run: seq<Log>, next: Log, job: Job, meter: Meter, target: int, project: (string, nat) -> Option<string>)
    requires Trimming(run, job, meter, target, project) && Measure(meter, run[|run| - 1]) > target
    requires TrimsLongest(run[|run| - 1], next, job, project)
    ensures Trimming(run + [next], job, meter, target, project)
  {
    hide TrimsLongest, Measure;
    var more := run + [next];
    assert forall i | 0 <= i < |run| :: more[i] == run[i];
  }

  function Overhead(measured: nat, ms: seq<Msg>): nat {
    if measured > SurfaceTokens(ms) then measured - SurfaceTokens(ms) else 0
  }

  function AtLeastOne(n: int): int {
    if n > 1 then n else 1
  }

  /** What the summary may take up while the request is at `measured`. */
  ghost function Room(log: Log, meter: Meter, target: int): int {
    AtLeastOne(target - Overhead(Measure(meter, log), Derive(log)))
  }

  /** The second stage: a summary of the prefix, if the target is still missed. */
  ghost predicate FoldStage(log: Log, next: Log, job: Job, meter: Meter, target: int, answer: Answer, idOf: IdOf) {
    if Measure(meter, log) > target && job.allowLlm && CanFold(log, job, answer)
    then exists summary :: Folds(log, next, summary, job, Room(log, meter, target), answer, idOf)
    else next == log
  }

  /** The third stage: a shorter form of the summary, if the target is still missed. */
  ghost predicate RefitStage(log: Log, next: Log, job: Job, meter: Meter, target: int, answer: string) {
    if Measure(meter, log) > target && job.allowLlm && !NothingToRefit(log, job, Room(log, meter, target), answer)
    then exists latest, summary :: Rewrites(log, next, latest, summary, job, Room(log, meter, target), answer)
    else next == log
  }

  /** The three stages one after the other: `trims` ends where `folded` begins. */
  ghost predicate Stages(before: Log, trims: seq<Log>, folded: Log, after: Log, job: Job, meter: Meter, target: int,
                         first: Answer, second: string, project: (string, nat) -> Option<string>, idOf: IdOf) {
    && TrimStage(trims, job, meter, target, project) && trims[0] == before
    && FoldStage(trims[|trims| - 1], folded, job, meter, target, first, idOf)
    && RefitStage(folded, after, job, meter, target, second)
  }

  /** One round of the trimming loop. */
  method TrimRound(store: SessionStore, job: Job, meter: Meter, project: (string, nat) -> Option<string>,
                   ids: nat -> string, ghost before: Log, ghost run: seq<Log>)
    returns (trimmed: bool, after: nat, ghost longer: seq<Log>)
    requires store.Valid() && LogOk(store.events) && Leads(run, job.turn, before, store.events)
    modifies store
    ensures store.Valid() && LogOk(store.events) && Leads(longer, job.turn, before, store.events)
    ensures after == Measure(meter, store.events)
    ensures longer == if trimmed then run + [store.events] else run
    ensures !trimmed ==> store.events == old(store.events) && NothingToTrim(store.events, job, project)
    ensures trimmed ==> TrimsLongest(old(store.events), store.events, job, project)
    ensures trimmed ==> |store.events| == |old(store.events)| + 1 && Untrimmed(store.events) < Untrimmed(old(store.events))
  {
    hide Measure, Untrimmed, Leads, IsLongest, CutDown, NothingToTrim;
    ghost var log := store.events;
    trimmed := TrimLongestTool(store, job, project, ids);
    longer := run;
    if trimmed {
      TrimProgress(log, store.events, job.turn);
      LeadsOn(run, job.turn, before, log, store.events);
      longer := run + [store.events];
    }
    after := CurrentTokens(meter, store.events);
  }

  /** The loop that trims while the request is too large and something can be trimmed. */
  method TrimWhileOver(store: SessionStore, job: Job, target: int, over: nat, meter: Meter,
                       project: (string, nat) -> Option<string>, ids: nat -> string, ghost before: Log)
    returns (changed: bool, measured: nat, ghost run: seq<Log>)
    requires store.Valid() && LogOk(store.events) && store.events == before && over == Measure(meter, before)
    modifies store
    ensures store.Valid() && LogOk(store.events) && Leads(run, job.turn, before, store.events)
    ensures TrimStage(run, job, meter, target, project)
    ensures measured == Measure(meter, store.events)
    ensures |store.events| >= |before| && (changed <==> |store.events| > |before|)
  {
    hide TrimsLongest, NothingToTrim, Measure, CompactRun, Untrimmed;
    changed := false;
    measured := over;
    run := [before];
    RunStart(before, job.turn);
    while measured > target
      invariant Trimming(run, job, meter, target, project)
      invariant store.Valid() && LogOk(store.events) && Leads(run, job.turn, before, store.events)
      invariant measured == Measure(meter, store.events)
      invariant |store.events| >= |before| && (changed <==> |store.events| > |before|)
      decreases Untrimmed(store.events)
    {
      ghost var was := run;
      var trimmed;
      trimmed, measured, run := TrimRound(store, job, meter, project, ids, before, run);
      if !trimmed {
        break;
      }
      TrimmingOn(was, store.events, job, meter, target, project);
      changed := true;
    }
  }

  /** The stages that a call went through. */
  datatype Way = Way(trims: seq<Log>, folded: Log, reduced: Log)

  /** `maybe_compact`.  Below the trigger it does nothing; otherwise it goes through the
      three stages, and when the budget is enforced and they did not reach the target it
      records a violation and gives up. */
  method MaybeCompact(store: SessionStore, job: Job, limit: int, meter: Meter, first: Answer, second: string,
                      project: (string, nat) -> Option<string>, idOf: IdOf, ids: nat -> string)
    returns (outcome: Outcome, ghost run: seq<Log>, ghost way: Way)
    requires store.Valid() && LogOk(store.events)
    modifies store
    ensures store.Valid() && LogOk(store.events) && Leads(run, job.turn, old(store.events), store.events)
    ensures outcome.Finished? && job.enforce ==>
              Below(old(store.events), job, limit, meter) || Measure(meter, store.events) <= Target(meter, limit, job.policy)
    ensures Below(old(store.events), job, limit, meter) ==> store.events == old(store.events) && outcome == Finished(false)
    ensures !Below(old(store.events), job, limit, meter) ==>
      && Stages(old(store.events), way.trims, way.folded, way.reduced, job, meter, Target(meter, limit, job.policy),
                first, second, project, idOf)
      && Concluded(old(store.events), way.reduced, store.events, outcome, job, meter, Target(meter, limit, job.policy))
  {
    hide Stages, Leads, Measure;
    run, way := [store.events], Way([], [], []);
    RunStart(store.events, job.turn);
    var measured := CurrentTokens(meter, store.events);
    if measured < limit && !job.overflow {
      return Finished(false), run, way;
    }
    var target := Target(meter, limit, job.policy);
    var changed;
    changed, measured, run, way := Reduce(store, job, target, measured, meter, first, second, project, idOf, ids);
    if job.enforce && measured > target {
      var protectedTokens;
      protectedTokens, run := ReportViolation(store, job, meter, target, measured, ids, old(store.events), run);
      return Exhausted(measured, protectedTokens), run, way;
    }
    outcome := Finished(changed);
  }

  lemma RunStart(log: Log, turn: nat)
    requires LogOk(log)
    ensures Leads([log], turn, log, log)
  {
  }

  /** There is no reason to compact. */
  ghost predicate Below(log: Log, job: Job, limit: int, meter: Meter) {
    Measure(meter, log) < limit && !job.overflow
  }

  /** How a call ends once the stages have led from `before` to `reduced`. */
  ghost predicate Concluded(before: Log, reduced: Log, after: Log, outcome: Outcome, job: Job, meter: Meter, target: int) {
    if job.enforce && Measure(meter, reduced) > target then
      && ViolationStep(reduced, after) && outcome.Exhausted? && outcome.finalTokens == Measure(meter, reduced)
      && IsProtected(reduced, job.turn, outcome.protectedTokens)
    else after == reduced && outcome == Finished(|reduced| > |before|)
  }

  ghost predicate IsProtected(log: Log, turn: nat, tokens: nat) {
    exists latest :: IsLatest(log, latest)
      && tokens == if latest.Some? then Shrink.ProtectedTokens(StructuredOf(latest), turn) else 0
  }

  /** The three stages: trim, summarize, recompress. */
  method Reduce(store: SessionStore, job: Job, target: int, over: nat, meter: Meter, first: Answer, second: string,
                project: (string, nat) -> Option<string>, idOf: IdOf, ids: nat -> string)
    returns (changed: bool, measured: nat, ghost run: seq<Log>, ghost way: Way)
    requires store.Valid() && LogOk(store.events) && over == Measure(meter, store.events)
    modifies store
    ensures store.Valid() && LogOk(store.events) && Leads(run, job.turn, old(store.events), store.events)
    ensures measured == Measure(meter, store.events)
    ensures |store.events| >= |old(store.events)| && (changed <==> |store.events| > |old(store.events)|)
    ensures way.reduced == store.events
    ensures Stages(old(store.events), way.trims, way.folded, way.reduced, job, meter, target, first, second, project, idOf)
  {
    hide Measure, FoldStage, RefitStage, CompactRun, TrimStage;
    ghost var before := store.events;
    changed, measured, run := TrimWhileOver(store, job, target, over, meter, project, ids, before);
    ghost var trims := run;
    var written, rewritten;
    written, measured, run := Summarized(store, job, target, measured, meter, first, idOf, ids, before, run);
    ghost var folded := store.events;
    rewritten, measured, run := Recompressed(store, job, target, measured, meter, second, ids, before, run);
    changed := changed || written || rewritten;
    way := Way(trims, folded, store.events);
  }

  method ReportedTokens(log: Log, turn: nat) returns (tokens: nat)
    requires LogOk(log)
    ensures IsProtected(log, turn, tokens)
  {
    var latest := LatestCommitted(log);
    tokens := if latest.Some? then Shrink.ProtectedTokens(StructuredOf(latest), turn) else 0;
  }

  /** The violation that `maybe_compact` records before it raises. */
  method ReportViolation(store: SessionStore, job: Job, meter: Meter, target: int, measured: nat, ids: nat -> string,
                         ghost before: Log, ghost run: seq<Log>)
    returns (protectedTokens: nat, ghost longer: seq<Log>)
    requires store.Valid() && LogOk(store.events) && Leads(run, job.turn, before, store.events)
    requires measured == Measure(meter, store.events) > target
    modifies store
    ensures store.Valid() && LogOk(store.events) && Leads(longer, job.turn, before, store.events)
    ensures ViolationStep(old(store.events), store.events) && IsProtected(old(store.events), job.turn, protectedTokens)
  {
    hide Measure, IsProtected;
    protectedTokens := ReportedTokens(store.events, job.turn);
    ghost var log := store.events;
    var e := store.Append(Draft(Some(job.run), Some(job.turn), None, NoOp, [], Violation("context_budget_exhausted")),
                          ids(store.nextSeq));
    ViolationEndsRun(run, job.turn, before, log, e.value);
    longer := run + [store.events];
  }

  lemma ViolationEndsRun(run: seq<Log>, turn: nat, before: Log, log: Log, e: Event)
    requires Leads(run, turn, before, log) && LogOk(log)
    requires e.seqNo == |log| + 1 && e.sources == [] && e.body.Violation? && e.turn == Some(turn)
    ensures LogOk(log + [e]) && Leads(run + [log + [e]], turn, before, log + [e]) && ViolationStep(log, log + [e])
  {
    LogOkSnoc(log, e);
    assert ViolationStep(log, log + [e]);
    LeadsOn(run, turn, before, log, log + [e]);
  }

  /** The summary stage of `maybe_compact`. */
  method Summarized(store: SessionStore, job: Job, target: int, measured: nat, meter: Meter, answer: Answer, idOf: IdOf,
                    ids: nat -> string, ghost before: Log, ghost run: seq<Log>)
    returns (written: bool, after: nat, ghost longer: seq<Log>)
    requires store.Valid() && LogOk(store.events) && Leads(run, job.turn, before, store.events)
    requires measured == Measure(meter, store.events)
    modifies store
    ensures store.Valid() && LogOk(store.events) && Leads(longer, job.turn, before, store.events)
    ensures FoldStage(old(store.events), store.events, job, meter, target, answer, idOf)
    ensures after == Measure(meter, store.events)
    ensures |store.events| == |old(store.events)| + if written then 3 else 0
  {
    hide Measure, CanFold, IsFold, FoldSources, Derive, Leads, CompactStep;
    written, after, longer := false, measured, run;
    if measured > target && job.allowLlm {
      ghost var log := store.events;
      ContiguousIncreasing(store.events);
      var messages := DeriveMessages(store.events);
      ghost var summary;
      written, summary := WriteSummary(store, job, AtLeastOne(target - Overhead(measured, messages)), answer, idOf, ids);
      assert AtLeastOne(target - Overhead(measured, messages)) == Room(log, meter, target);
      if written {
        assert Folds(log, store.events, summary, job, Room(log, meter, target), answer, idOf);
        FoldStep(log, store.events, job.turn, job.policy.Retain(), summary);
        LeadsOn(run, job.turn, before, log, store.events);
        longer := run + [store.events];
        after := CurrentTokens(meter, store.events);
      }
    }
  }

  lemma FoldStep(log: Log, next: Log, turn: nat, retain: nat, summary: Summary)
    requires Recorded(log, next, turn, FoldSources(log, turn, retain), summary)
    ensures CompactStep(log, next, turn)
  {
  }

  lemma RefitStep(log: Log, next: Log, latest: Option<Event>, summary: Summary, job: Job, budget: int, answer: string)
    requires Rewrites(log, next, latest, summary, job, budget, answer)
    ensures CompactStep(log, next, job.turn) && |next| == |log| + 3 && !NothingToRefit(log, job, budget, answer)
  {
    assert IsNewest(Committed(log), latest.value.seqNo);
  }

  /** The recompression stage of `maybe_compact`. */
  method Recompressed(store: SessionStore, job: Job, target: int, measured: nat, meter: Meter, answer: string,
                      ids: nat -> string, ghost before: Log, ghost run: seq<Log>)
    returns (rewritten: bool, after: nat, ghost longer: seq<Log>)
    requires store.Valid() && LogOk(store.events) && Leads(run, job.turn, before, store.events)
    requires measured == Measure(meter, store.events)
    modifies store
    ensures store.Valid() && LogOk(store.events) && Leads(longer, job.turn, before, store.events)
    ensures RefitStage(old(store.events), store.events, job, meter, target, answer)
    ensures after == Measure(meter, store.events)
    ensures |store.events| == |old(store.events)| + if rewritten then 3 else 0
  {
    hide Measure, Derive, Leads, NothingToRefit, Rewrites, CompactStep, LogOk;
    rewritten, after, longer := false, measured, run;
    if measured > target && job.allowLlm {
      ghost var log := store.events;
      ContiguousIncreasing(store.events);
      var messages := DeriveMessages(store.events);
      ghost var latest, summary;
      rewritten, latest, summary :=
        RewriteExistingSummary(store, job, AtLeastOne(target - Overhead(measured, messages)), answer, ids);
      assert AtLeastOne(target - Overhead(measured, messages)) == Room(log, meter, target);
      if rewritten {
        RefitStep(log, store.events, latest, summary, job, Room(log, meter, target), answer);
        LeadsOn(run, job.turn, before, log, store.events);
        longer := run + [store.events];
        after := CurrentTokens(meter, store.events);
      }
    }
  }

  /** Trimming a result that is no longer on the surface changes nothing there. */
  lemma TrimOffSurface(log: Log, next: Log, turn: nat)
    requires LogOk(next) && TrimStep(log, next, turn)
    requires forall m | m in Derive(log) :: m.seqNo != next[|log|].sources[0]
    ensures Derive(next) == Derive(log)
  {
    TrimEffect(log, next, turn);
    SpliceNothing(Derive(log), {next[|log|].sources[0]}, FromEvent(next[|log|]));
  }

  lemma {:induction false} SpliceNothing(s: seq<Msg>, drop: set<nat>, m: Msg)
    requires forall x | x in s :: x.seqNo !in drop
    ensures Splice(s, drop, m, false) == s
  {
    if s != [] { SpliceNothing(s[1..], drop, m); }
  }
}
