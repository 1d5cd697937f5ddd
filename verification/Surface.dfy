/** The model-visible surface: a fold over the log (`harness/session/surface.py`). */
module Surface {
  import opened Schema
  import opened Events

  datatype Role = UserRole | AssistantRole | ToolRole

  datatype Msg = Msg(
    seqNo: nat, role: Role, content: string, source: Source,
    callId: string, name: string, calls: seq<Call>)

  // ---------------------------------------------------------------- commit

  predicate IsBracket(b: Body) {
    b.CompactionStart? || b.CompactionEnd?
  }

  ghost predicate NoBracket(log: Log, i: int, j: int) {
    forall m | i < m < j && 0 <= m < |log| :: !IsBracket(log[m].body)
  }

  /** The start at `i` and the end at `j` enclose `k`, with no other bracket between. */
  ghost predicate Encloses(log: Log, i: nat, k: nat, j: nat) {
    && i < k < j < |log|
    && log[i].body.CompactionStart? && log[j].body.CompactionEnd?
    && NoBracket(log, i, j)
  }

  lemma BracketBreaks(log: Log, i: int, j: int, m: nat)
    requires i < m < j && m < |log| && IsBracket(log[m].body)
    ensures !NoBracket(log, i, j)
  {
  }

  ghost predicate CommittedAt(log: Log, k: nat) {
    && k < |log| && log[k].body.CompactionSummary?
    && exists i: nat, j: nat :: Encloses(log, i, k, j)
  }

  /** The sequence numbers of the committed summaries. */
  ghost function Committed(log: Log): set<nat> {
    set k: nat | k < |log| && CommittedAt(log, k) :: log[k].seqNo
  }

  lemma CommittedIff(log: Log, k: nat)
    requires Increasing(log) && k < |log|
    ensures log[k].seqNo in Committed(log) <==> CommittedAt(log, k)
  {
  }

  /** The position of the start that is open before position `i`. */
  ghost function OpenBefore(log: Log, i: nat): (at: Option<nat>)
    requires i <= |log|
    ensures at.Some? ==> at.value < i
  {
    if i == 0 then None
    else if log[i - 1].body.CompactionStart? then Some(i - 1)
    else if log[i - 1].body.CompactionEnd? then None
    else OpenBefore(log, i - 1)
  }

  lemma {:induction false} OpenBeforeIff(log: Log, i: nat, at: nat)
    requires i <= |log|
    ensures OpenBefore(log, i) == Some(at) <==>
            at < i && log[at].body.CompactionStart? && NoBracket(log, at, i)
  {
    if i > 0 && at < i - 1 && !IsBracket(log[i - 1].body) {
      OpenBeforeIff(log, i - 1, at);
      assert NoBracket(log, at, i) <==> NoBracket(log, at, i - 1);
    } else if i > 0 && !IsBracket(log[i - 1].body) {
      OpenBeforeIff(log, i - 1, at);
    }
  }

  /** The scan that `_committed_replace_seqs` and `_committed_summary_seqs` share. */
  method CommittedSeqs(log: Log) returns (committed: set<nat>)
    requires Increasing(log)
    ensures committed == Committed(log)
  {
    committed := {};
    var open: Option<nat> := None;
    var i := 0;
    while i < |log|
      invariant 0 <= i <= |log|
      invariant open == if OpenBefore(log, i).None? then None else Some(log[OpenBefore(log, i).value].seqNo)
      invariant committed == Committed(log[..i])
    {
      CommittedSnoc(log[..i], log[i]);
      assert log[..i + 1] == log[..i] + [log[i]];
      if log[i].body.CompactionStart? {
        open := Some(log[i].seqNo);
      } else if log[i].body.CompactionEnd? {
        if open.Some? {
          var more := SummariesBetween(log, open.value, log[i].seqNo);
          committed := committed + more;
        }
        EndCloses(log, i);
        open := None;
      }
      i := i + 1;
    }
    assert log[..i] == log;
  }

  method SummariesBetween(log: Log, lo: nat, hi: nat) returns (found: set<nat>)
    ensures found == SeqsBetween(log, lo, hi)
  {
    found := {};
    var m := 0;
    while m < |log|
      invariant 0 <= m <= |log|
      invariant found == SeqsBetween(log[..m], lo, hi)
    {
      assert log[..m + 1] == log[..m] + [log[m]];
      if log[m].body.CompactionSummary? && lo < log[m].seqNo < hi {
        found := found + {log[m].seqNo};
      }
      m := m + 1;
    }
    assert log[..m] == log;
  }

  ghost function SeqsBetween(log: Log, lo: nat, hi: nat): set<nat> {
    set e | e in log && e.body.CompactionSummary? && lo < e.seqNo < hi :: e.seqNo
  }

  /** The summaries that an end at position `j` commits. */
  ghost function ClosedBy(log: Log, j: nat): set<nat>
    requires j < |log|
  {
    set k: nat, i: nat | k < j && i < k && log[k].body.CompactionSummary? && Encloses(log, i, k, j) :: log[k].seqNo
  }

  /** An end closes exactly the summaries after the start that is open before it. */
  lemma EndCloses(log: Log, j: nat)
    requires Increasing(log) && j < |log| && log[j].body.CompactionEnd?
    ensures ClosedBy(log[..j + 1], j) ==
            if OpenBefore(log, j).None? then {}
            else SeqsBetween(log, log[OpenBefore(log, j).value].seqNo, log[j].seqNo)
  {
    var cut := log[..j + 1];
    forall i: nat | i < j
      ensures NoBracket(cut, i, j) <==> NoBracket(log, i, j)
    {
      assert forall m | i < m < j && 0 <= m < |log| :: log[m] == cut[m];
    }
    forall k: nat, i: nat | k < j && i < k && Encloses(cut, i, k, j)
      ensures OpenBefore(log, j) == Some(i)
    {
      OpenBeforeIff(log, j, i);
    }
    if OpenBefore(log, j).Some? {
      var at := OpenBefore(log, j).value;
      OpenBeforeIff(log, j, at);
      forall k: nat | k < |log| && log[k].body.CompactionSummary? && log[at].seqNo < log[k].seqNo < log[j].seqNo
        ensures log[k].seqNo in ClosedBy(cut, j)
      {
        assert at < k < j;
        assert Encloses(cut, at, k, j);
      }
    }
  }

  lemma CommittedSnoc(log: Log, e: Event)
    ensures Committed(log + [e]) == Committed(log) + (if e.body.CompactionEnd? then ClosedBy(log + [e], |log|) else {})
  {
    var big := log + [e];
    forall k: nat, i: nat, j: nat | j < |log|
      ensures Encloses(big, i, k, j) <==> Encloses(log, i, k, j)
    {
      if Encloses(log, i, k, j) { assert NoBracket(log, i, j); }
      if Encloses(big, i, k, j) {
        assert NoBracket(big, i, j);
        assert forall m | i < m < j && 0 <= m < |log| :: log[m] == big[m];
      }
    }
    forall k: nat | k < |big|
      ensures CommittedAt(big, k) <==>
              CommittedAt(log, k) || (big[k].body.CompactionSummary? && exists i: nat :: Encloses(big, i, k, |log|))
    {
      if CommittedAt(big, k) {
        var i: nat, j: nat :| Encloses(big, i, k, j);
        if j < |log| { assert Encloses(log, i, k, j); }
      }
      if CommittedAt(log, k) {
        var i: nat, j: nat :| Encloses(log, i, k, j);
        assert Encloses(big, i, k, j);
      }
    }
  }

  /** Events whose first bracket, if any, is a start: what any later run of
      compactions, complete or cut short by a crash, appends. */
  ghost predicate StartsFresh(ext: Log) {
    forall j | 0 <= j < |ext| && ext[j].body.CompactionEnd? ::
      exists i :: 0 <= i < j && ext[i].body.CompactionStart?
  }

  /** Whatever is appended after a log, as long as its first bracket is a start,
      leaves the fate of every summary already logged unchanged: an orphaned start
      or summary is never committed later, and a committed one stays committed. */
  lemma OrphansStayOrphans(log: Log, ext: Log, k: nat)
    requires StartsFresh(ext) && k < |log|
    ensures CommittedAt(log + ext, k) <==> CommittedAt(log, k)
  {
    var big := log + ext;
    if CommittedAt(log, k) {
      var i: nat, j: nat :| Encloses(log, i, k, j);
      assert NoBracket(log, i, j);
      assert Encloses(big, i, k, j);
    }
    if CommittedAt(big, k) {
      var i: nat, j: nat :| Encloses(big, i, k, j);
      if j >= |log| {
        assert ext[j - |log|].body.CompactionEnd?;
        var s :| 0 <= s < j - |log| && ext[s].body.CompactionStart?;
        BracketBreaks(big, i, j, |log| + s);
      }
      assert forall m | i < m < j && 0 <= m < |log| :: log[m] == big[m];
      assert Encloses(log, i, k, j);
    }
  }

  /** Without that condition it fails: a bare end commits an orphaned summary. */
  lemma BareEndCommitsAnOrphan(log: Log, end: Event)
    requires |log| >= 2 && log[|log| - 2].body.CompactionStart? && log[|log| - 1].body.CompactionSummary?
    requires end.body.CompactionEnd?
    ensures !CommittedAt(log, |log| - 1)
    ensures CommittedAt(log + [end], |log| - 1)
  {
    assert Encloses(log + [end], |log| - 2, |log| - 1, |log|);
  }

  // --------------------------------------------------------------- surface

  function FromEvent(e: Event): Msg
    requires OnSurface(e.body)
  {
    match e.body
    case UserMessage(content, source) => Msg(e.seqNo, UserRole, content, source, "", "", [])
    case AssistantMessage(content, calls) => Msg(e.seqNo, AssistantRole, content, User, "", "", calls)
    case ToolResult(callId, name, _, content, shown, _, _) =>
      Msg(e.seqNo, ToolRole, if content != "" then content else shown, User, callId, name, [])
    case CompactionSummary(content, _) => Msg(e.seqNo, UserRole, content, Compaction, "", "", [])
  }

  function Sources(e: Event): set<nat> {
    set q | q in e.sources
  }

  function Without(s: seq<Msg>, drop: set<nat>): seq<Msg> {
    if s == [] then []
    else (if s[0].seqNo in drop then [] else [s[0]]) + Without(s[1..], drop)
  }

  /** `s` without the dropped messages, `m` standing where the first of them stood;
      when none is dropped `m` goes to the end (`atEnd`) or nowhere. */
  function Splice(s: seq<Msg>, drop: set<nat>, m: Msg, atEnd: bool): seq<Msg> {
    if s == [] then (if atEnd then [m] else [])
    else if s[0].seqNo in drop then [m] + Without(s[1..], drop)
    else [s[0]] + Splice(s[1..], drop, m, atEnd)
  }

  function Apply(s: seq<Msg>, e: Event, committed: set<nat>): seq<Msg> {
    if e.body.CompactionSummary? then
      if e.seqNo in committed then Splice(s, Sources(e), FromEvent(e), true) else s
    else if e.body.ToolResult? && e.op == Replace then
      Splice(s, Sources(e), FromEvent(e), false)
    else if e.op != Append || !OnSurface(e.body) then s
    else s + [FromEvent(e)]
  }

  function Fold(log: Log, committed: set<nat>): seq<Msg> {
    if log == [] then [] else Apply(Fold(log[..|log| - 1], committed), log[|log| - 1], committed)
  }

  /** The surface of a log. */
  ghost function Derive(log: Log): seq<Msg> {
    Fold(log, Committed(log))
  }

  lemma {:induction false} WithoutAppend(s: seq<Msg>, t: seq<Msg>, drop: set<nat>)
    ensures Without(s + t, drop) == Without(s, drop) + Without(t, drop)
  {
    if s == [] {
      assert s + t == t;
    } else {
      assert (s + t)[1..] == s[1..] + t;
      WithoutAppend(s[1..], t, drop);
    }
  }

  lemma WithoutNext(s: seq<Msg>, at: nat, i: nat, drop: set<nat>)
    requires at <= i < |s|
    ensures Without(s[at..i + 1], drop) == Without(s[at..i], drop) + if s[i].seqNo in drop then [] else [s[i]]
  {
    WithoutAppend(s[at..i], [s[i]], drop);
    assert s[at..i] + [s[i]] == s[at..i + 1];
    assert [s[i]][1..] == [];
  }

  /** The shape of `Splice`: an untouched front, the message, a filtered rest. */
  lemma {:induction false} SpliceAt(front: seq<Msg>, rest: seq<Msg>, drop: set<nat>, m: Msg, atEnd: bool)
    requires forall k | 0 <= k < |front| :: front[k].seqNo !in drop
    requires rest != [] ==> rest[0].seqNo in drop
    ensures Splice(front + rest, drop, m, atEnd) ==
            if rest != [] || atEnd then front + [m] + Without(rest, drop) else front
  {
    if front == [] {
      assert front + rest == rest;
    } else {
      assert (front + rest)[1..] == front[1..] + rest;
      SpliceAt(front[1..], rest, drop, m, atEnd);
    }
  }

  lemma SpliceFrom(s: seq<Msg>, at: nat, drop: set<nat>, m: Msg, atEnd: bool)
    requires at <= |s| && forall k | 0 <= k < at :: s[k].seqNo !in drop
    requires at < |s| ==> s[at].seqNo in drop
    ensures Splice(s, drop, m, atEnd) ==
            if at < |s| || atEnd then s[..at] + [m] + Without(s[at..], drop) else s
  {
    assert s == s[..at] + s[at..];
    SpliceAt(s[..at], s[at..], drop, m, atEnd);
  }

  method FirstIn(s: seq<Msg>, drop: set<nat>) returns (at: nat)
    ensures at <= |s| && (at < |s| ==> s[at].seqNo in drop)
    ensures forall k | 0 <= k < at :: s[k].seqNo !in drop
  {
    at := 0;
    while at < |s| && s[at].seqNo !in drop
      invariant at <= |s| && forall k | 0 <= k < at :: s[k].seqNo !in drop
    {
      at := at + 1;
    }
  }

  /** The first `i` messages, `m` and a filter from position `at` on. */
  ghost function Rewritten(s: seq<Msg>, at: nat, i: nat, m: Msg, drop: set<nat>): seq<Msg>
    requires at <= |s| && i <= |s|
  {
    if at < i then s[..at] + [m] + Without(s[at..i], drop) else s[..i]
  }

  lemma RewrittenNext(s: seq<Msg>, at: nat, i: nat, m: Msg, drop: set<nat>)
    requires at <= |s| && i < |s| && (at < |s| ==> s[at].seqNo in drop)
    ensures Rewritten(s, at, i + 1, m, drop) == Rewritten(s, at, i, m, drop)
            + (if i == at then [m] else []) + (if at <= i && s[i].seqNo in drop then [] else [s[i]])
  {
    if at <= i { WithoutNext(s, at, i, drop); }
  }

  /** The summary branch of `derive_messages`. */
  method InsertSummary(s: seq<Msg>, drop: set<nat>, m: Msg) returns (kept: seq<Msg>)
    ensures kept == Splice(s, drop, m, true)
  {
    var insertAt := FirstIn(s, drop);
    kept := [];
    var placed := false;
    var i := 0;
    while i < |s|
      invariant 0 <= i <= |s|
      invariant placed <==> insertAt < i
      invariant kept == Rewritten(s, insertAt, i, m, drop)
    {
      RewrittenNext(s, insertAt, i, m, drop);
      if i == insertAt && !placed {
        kept := kept + [m];
        placed := true;
      }
      if s[i].seqNo !in drop {
        kept := kept + [s[i]];
      }
      i := i + 1;
    }
    SpliceFrom(s, insertAt, drop, m, true);
    if !placed {
      kept := kept + [m];
    }
    assert s[insertAt..i] == s[insertAt..];
  }

  /** The replacement branch of `derive_messages` for tool results. */
  method ReplaceResult(s: seq<Msg>, drop: set<nat>, m: Msg) returns (next: seq<Msg>)
    ensures next == Splice(s, drop, m, false)
  {
    ghost var at := FirstDropped(s, drop);
    next := [];
    var replaced := false;
    var i := 0;
    while i < |s|
      invariant 0 <= i <= |s|
      invariant replaced <==> at < i
      invariant next == Rewritten(s, at, i, m, drop)
    {
      RewrittenNext(s, at, i, m, drop);
      if s[i].seqNo in drop {
        if !replaced {
          next := next + [m];
          replaced := true;
        }
      } else {
        next := next + [s[i]];
      }
      i := i + 1;
    }
    SpliceFrom(s, at, drop, m, false);
    assert s[at..i] == s[at..];
    if !replaced {
      next := s;
    }
  }

  ghost function FirstDropped(s: seq<Msg>, drop: set<nat>): (at: nat)
    ensures at <= |s| && (at < |s| ==> s[at].seqNo in drop)
    ensures forall k | 0 <= k < at :: s[k].seqNo !in drop
  {
    if s == [] || s[0].seqNo in drop then 0 else 1 + FirstDropped(s[1..], drop)
  }

  method DeriveMessages(log: Log) returns (surface: seq<Msg>)
    requires Increasing(log)
    ensures surface == Derive(log)
  {
    var committed := CommittedSeqs(log);
    surface := [];
    var i := 0;
    while i < |log|
      invariant 0 <= i <= |log|
      invariant surface == Fold(log[..i], committed)
    {
      var e := log[i];
      assert log[..i + 1][..i] == log[..i];
      i := i + 1;
      if e.body.CompactionSummary? {
        if e.seqNo in committed {
          surface := InsertSummary(surface, Sources(e), FromEvent(e));
        }
        continue;
      }
      if e.body.ToolResult? && e.op == Replace {
        surface := ReplaceResult(surface, Sources(e), FromEvent(e));
        continue;
      }
      if e.op != Append || !OnSurface(e.body) {
        continue;
      }
      surface := surface + [FromEvent(e)];
    }
    assert log[..i] == log;
  }
}
