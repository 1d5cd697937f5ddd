/** The figures and texts that a compaction goes by. */
module CompactFacts {
  import opened Schema
  import opened Events
  import opened Surface
  import opened Units
  import opened Split
  import opened Merge
  import opened Fitting
  import opened Compact
  import Rendering

  // -------------------------------------------------------------- what fits

  lemma {:induction false} TokensAppend(a: seq<Msg>, b: seq<Msg>)
    ensures SurfaceTokens(a + b) == SurfaceTokens(a) + SurfaceTokens(b)
  {
    hide Estimate;
    if b == [] {
      assert a + b == a;
    } else {
      assert (a + b)[..|a + b| - 1] == a + b[..|b| - 1];
      TokensAppend(a, b[..|b| - 1]);
    }
  }

  /** What a message counts for: eight tokens, its text, and eight for each call. */
  lemma TokensOfOne(m: Msg, ideographs: nat)
    requires |set i | 0 <= i < |m.content| && Rendering.Ideograph(m.content[i])| == ideographs
    ensures SurfaceTokens([m]) == 8 + ideographs + (|m.content| - ideographs) / 4 + 8 * |m.calls|
  {
    assert [m][..0] == [] && SurfaceTokens([]) == 0;
    Rendering.EstimateIs(m.content, ideographs);
  }

  lemma {:induction false} TailBounds(us: seq<Unit>, t: nat, used: nat, retain: nat)
    requires t <= |us|
    ensures var r, limit := TailFrom(us, t, used, retain), if retain < 1 then 1 else retain;
      && (r < t ==> SurfaceTokens(Units.Flat(us[r..t])) + used <= limit)
      && (r > 0 ==> SurfaceTokens(Units.Flat(us[r - 1..t])) + used > limit)
  {
    hide SurfaceTokens;
    if t > 0 {
      var chunk := SurfaceTokens(us[t - 1]);
      FlatLast(us, t - 1, t);
      if used + chunk <= (if retain < 1 then 1 else retain) {
        TailBounds(us, t - 1, used + chunk, retain);
        var r := TailFrom(us, t, used, retain);
        FlatLast(us, r, t);
        if r > 0 { FlatLast(us, r - 1, t); }
        NoUnits(us, t - 1);
      } else {
        NoUnits(us, t);
      }
    }
  }

  lemma NoUnits(us: seq<Unit>, t: nat)
    requires t <= |us|
    ensures us[t..t] == [] && SurfaceTokens(Units.Flat(us[t..t])) == 0
  {
  }

  lemma FlatLast(us: seq<Unit>, r: nat, t: nat)
    requires r <= t <= |us|
    ensures r < t ==> SurfaceTokens(Units.Flat(us[r..t])) == SurfaceTokens(Units.Flat(us[r..t - 1])) + SurfaceTokens(us[t - 1])
  {
    hide SurfaceTokens;
    if r < t {
      FlatSnoc(us[r..t - 1], us[t - 1]);
      assert us[r..t - 1] + [us[t - 1]] == us[r..t];
      TokensAppend(Units.Flat(us[r..t - 1]), us[t - 1]);
    }
  }

  lemma {:induction false} FlatSnoc(us: seq<Unit>, u: Unit)
    ensures Units.Flat(us + [u]) == Units.Flat(us) + u
  {
    if us == [] {
      assert [u][1..] == [] && [] + [u] == [u];
    } else {
      assert (us + [u])[1..] == us[1..] + [u];
      FlatSnoc(us[1..], u);
    }
  }

  /** The tail is the longest that fits: the last unit at any rate, then as many units before
      it as the tokens allow, and not one more. */
  lemma TailIsLongest(us: seq<Unit>, retain: nat)
    requires us != []
    ensures var r, limit := Tail(us, retain), if retain < 1 then 1 else retain;
      && r < |us|
      && (r < |us| - 1 ==> SurfaceTokens(Units.Flat(us[r..])) <= limit)
      && (r > 0 ==> SurfaceTokens(Units.Flat(us[r - 1..])) > limit)
  {
    hide SurfaceTokens, Units.Flat;
    var n := |us|;
    var r := Tail(us, retain);
    TailBounds(us, n - 1, SurfaceTokens(us[n - 1]), retain);
    assert us[..n] == us && us[r..n] == us[r..];
    FlatLast(us, r, n);
    if r > 0 {
      assert us[r - 1..n] == us[r - 1..];
      FlatLast(us, r - 1, n);
    }
  }

  /** What a summary may take up: what the target leaves when the request's own overhead and
      the messages beside the summary are paid for, and at least one token. */
  lemma RoomIs(log: Log, meter: Meter, target: int, beside: seq<Msg>)
    ensures var own := Measure(meter, log) - SurfaceTokens(Derive(log));
      var room := if own > 0 then target - own else target;
      && Room(log, meter, target) == (if room > 1 then room else 1)
      && Budget(Room(log, meter, target), beside) ==
         if Room(log, meter, target) - SurfaceTokens(beside) > 1 then Room(log, meter, target) - SurfaceTokens(beside) else 1
  {
  }

  /** The limits of a policy are the whole tokens of its shares of the window. */
  lemma LimitIs(p: Policy, ratio: real)
    ensures p.Limit(ratio) as real <= p.window as real * ratio < p.Limit(ratio) as real + 1.0
    ensures ratio == p.retainRatio && ratio >= 0.0 ==> p.Retain() == p.Limit(ratio)
  {
    if ratio >= 0.0 { assert p.window as real * ratio >= 0.0; }
  }

  // ----------------------------------------------------------- what goes in

  /** The todo list of a turn is the newest that was written in it. */
  lemma {:induction false} TodosAreNewest(log: Log, turn: nat, k: nat)
    requires k < |log| && log[k].body.TodoWrite? && log[k].turn == Some(turn)
    requires forall j | k < j < |log| && log[j].body.TodoWrite? :: log[j].turn != Some(turn)
    ensures TurnTodos(log, turn) == log[k].body.todos
  {
    if k < |log| - 1 { TodosAreNewest(log[..|log| - 1], turn, k); }
  }

  lemma {:induction false} NoTodos(log: Log, turn: nat)
    requires forall j | 0 <= j < |log| && log[j].body.TodoWrite? :: log[j].turn != Some(turn)
    ensures TurnTodos(log, turn) == []
  {
    if log != [] { NoTodos(log[..|log| - 1], turn); }
  }

  /** What is extracted are the messages that are no summary themselves, in order. */
  lemma {:induction false} ExtractIs(ms: seq<Msg>)
    ensures forall m :: m in Extract(ms) <==> m in ms && m.source != Source.Compaction
    ensures forall i, j | 0 <= i < j < |Extract(ms)| && (forall a, b | 0 <= a < b < |ms| :: ms[a].seqNo < ms[b].seqNo) ::
              Extract(ms)[i].seqNo < Extract(ms)[j].seqNo
  {
    if ms != [] {
      var front, last := ms[..|ms| - 1], ms[|ms| - 1];
      assert ms == front + [last];
      ExtractIs(front);
    }
  }

  /** A delta may name tasks exactly when some of what is folded is of the current turn. */
  lemma AllowedIs(delta: Delta, extract: seq<Msg>, turns: map<nat, nat>, turn: nat)
    ensures var allowed := AllowedDelta(delta, extract, turns, turn);
      && (forall f: Field | !f.OpenItems? && !f.CompletedItems? :: allowed.Get(f) == delta.Get(f))
      && allowed.resolved == delta.resolved && allowed.superseded == delta.superseded && allowed.narrative == delta.narrative
      && if exists m :: m in extract && (m.seqNo in turns ==> turns[m.seqNo] >= turn) then allowed == delta
         else allowed.Get(OpenItems) == [] && allowed.Get(CompletedItems) == []
  {
    if m :| m in extract && (m.seqNo in turns ==> turns[m.seqNo] >= turn) {
      var i :| 0 <= i < |extract| && extract[i] == m;
      assert TurnOf(extract[i], turns, turn) >= turn;
    }
  }

  /** Without an answer the excerpt stands in, cut after 200 characters or half the head. */
  lemma TextSummaryIs(answer: string, extract: seq<Msg>, headChars: nat)
    ensures Strip(answer) != "" ==> TextSummary(answer, extract, headChars) == Strip(answer)
    ensures Strip(answer) == "" ==>
      var excerpt, budget := Excerpt(extract), if headChars >= 400 then headChars / 2 else 200;
      && (|excerpt| <= budget ==> TextSummary(answer, extract, headChars) == excerpt)
      && (|excerpt| > budget ==> TextSummary(answer, extract, headChars) == excerpt[..budget] + "\n…[truncated]…")
  {
  }

  /** What the line of a message begins with: who speaks, and what calls the answer made. */
  ghost predicate Introduces(intro: string, m: Msg) {
    match m.role
    case UserRole =>
      if m.source in {User, Legacy, Vision} then intro == "用户"
      else exists name :: Names(name, m.source) && intro == "上下文[" + name + "]"
    case AssistantRole => if m.calls == [] then intro == "助手" else intro == "助手（调用 " + Join(CallNames(m.calls), ", ") + "）"
    case ToolRole => intro == "工具[" + (if m.name == "" then "tool" else m.name) + "]"
  }

  ghost predicate Names(name: string, s: Source) {
    match s
    case User => name == "user"
    case Inject => name == "inject"
    case Steer => name == "steer"
    case Skill => name == "skill"
    case Vision => name == "vision"
    case Legacy => name == "legacy"
    case Plugin => name == "plugin"
    case Compaction => name == "compaction"
  }

  lemma LineIs(m: Msg) returns (intro: string)
    ensures Introduces(intro, m) && SummaryLine(m) == intro + "：" + Strip(m.content)
  {
    hide Strip, Join;
    intro := match m.role
      case UserRole => (if IsReal(m.source) then "用户" else "上下文[" + SourceName(m.source) + "]")
      case AssistantRole => "助手" + (if m.calls == [] then "" else "（调用 " + Join(CallNames(m.calls), ", ") + "）")
      case ToolRole => "工具[" + (if m.name == "" then "tool" else m.name) + "]";
    assert Names(SourceName(m.source), m.source);
  }

  /** The names of the calls, in order, those without a name left out. */
  lemma {:induction false} NamesAre(calls: seq<Call>, name: string)
    ensures name in CallNames(calls) <==> name != "" && exists c :: c in calls && c.name == name
    ensures |CallNames(calls)| <= |calls|
    ensures (forall c | c in calls :: c.name != "") ==>
              |CallNames(calls)| == |calls| && forall i | 0 <= i < |calls| :: CallNames(calls)[i] == calls[i].name
  {
    if calls != [] {
      NamesAre(calls[1..], name);
      assert calls == [calls[0]] + calls[1..];
    }
  }

  /** A compressed narrative is within half the limit, or 64 characters, and blank only when
      the narrative was or the answer is. */
  lemma CompressedIs(narrative: string, answer: string, maxNarrative: int)
    ensures var limit, short := CompressLimit(maxNarrative), Compressed(narrative, answer, CompressLimit(maxNarrative));
      && limit == (if maxNarrative >= 130 then maxNarrative / 2 else 64) && |short| <= limit
      && (IsBlank(narrative) ==> short == "")
      && (!IsBlank(narrative) ==> short <= Strip(if answer == "" then narrative else answer))
  {
    ClippedIs(if answer != "" then answer else narrative, CompressLimit(maxNarrative));
  }
}
