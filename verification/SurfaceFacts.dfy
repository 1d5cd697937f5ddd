/** What holds of the surface of every log: its messages are faithful to the log,
    and a compaction changes it in one step or not at all. */
module SurfaceFacts {
  import opened Schema
  import opened Events
  import opened Surface

  lemma {:induction false} FoldAgrees(log: Log, c: set<nat>, d: set<nat>)
    requires forall e | e in log :: e.seqNo in c <==> e.seqNo in d
    ensures Fold(log, c) == Fold(log, d)
  {
    if log != [] {
      FoldAgrees(log[..|log| - 1], c, d);
      assert log[|log| - 1] in log;
    }
  }

  lemma FoldSnoc(log: Log, e: Event, c: set<nat>)
    ensures Fold(log + [e], c) == Apply(Fold(log, c), e, c)
  {
    assert (log + [e])[..|log|] == log;
  }

  /** An event that is no end commits nothing; one that is no committed summary is
      applied to the surface as it is. */
  lemma DeriveSnoc(log: Log, e: Event)
    requires Contiguous(log + [e]) && !e.body.CompactionEnd?
    ensures Committed(log + [e]) == Committed(log)
    ensures Derive(log + [e]) == Apply(Derive(log), e, {})
  {
    CommittedSnoc(log, e);
    FoldSnoc(log, e, Committed(log));
    assert (log + [e])[|log|].seqNo == |log| + 1;
    forall q | q in Committed(log)
      ensures q <= |log|
    {
      var k: nat :| k < |log| && CommittedAt(log, k) && q == log[k].seqNo;
      assert log[k] == (log + [e])[k];
    }
  }

  lemma EndCommitsOne(log: Log, start: Event, sum: Event, end: Event)
    requires Contiguous(log + [start] + [sum] + [end])
    requires start.body.CompactionStart? && sum.body.CompactionSummary? && end.body.CompactionEnd?
    ensures Committed(log + [start] + [sum] + [end]) == Committed(log + [start] + [sum]) + {sum.seqNo}
  {
    hide Increasing;
    var two := log + [start] + [sum];
    var all := two + [end];
    CommittedSnoc(two, end);
    ContiguousIncreasing(all);
    OpenBeforeIff(all, |two|, |log|);
    EndCloses(all, |two|);
    assert all[..|two| + 1] == all;
    assert all[|log| + 1] == sum && all[|log|] == start && all[|log| + 2] == end;
    assert sum in all;
    forall e | e in all && start.seqNo < e.seqNo < end.seqNo
      ensures e == sum
    {
      var i :| 0 <= i < |all| && all[i] == e;
      assert i == |log| + 1;
    }
  }

  lemma SeqsBounded(log: Log, e: Event)
    requires Contiguous(log) && e in log
    ensures 1 <= e.seqNo <= |log|
  {
  }

  /** A start, a summary and an end in a row: the surface stays as it was until the
      end is written, and then the summary stands in for its sources, all at once. */
  lemma TransactionIsAtomic(log: Log, start: Event, sum: Event, end: Event)
    requires Contiguous(log + [start] + [sum] + [end])
    requires start.body.CompactionStart? && sum.body.CompactionSummary? && end.body.CompactionEnd?
    ensures Derive(log + [start]) == Derive(log)
    ensures Derive(log + [start] + [sum]) == Derive(log)
    ensures Derive(log + [start] + [sum] + [end]) == Splice(Derive(log), Sources(sum), FromEvent(sum), true)
    ensures Committed(log + [start] + [sum] + [end]) == Committed(log) + {sum.seqNo}
  {
    var one := log + [start];
    var two := one + [sum];
    FrontContiguous(two, end);
    FrontContiguous(one, sum);
    FrontContiguous(log, start);
    DeriveSnoc(log, start);
    DeriveSnoc(one, sum);
    EndCommitsOne(log, start, sum, end);
    FoldCommitted(log, start, sum, end, Committed(log) + {sum.seqNo});
    assert (two + [end])[|log| + 1] == sum;
    forall e | e in log
      ensures e.seqNo != sum.seqNo
    {
      SeqsBounded(log, e);
    }
    FoldAgrees(log, Committed(log) + {sum.seqNo}, Committed(log));
  }

  lemma FrontContiguous(log: Log, e: Event)
    requires Contiguous(log + [e])
    ensures Contiguous(log)
  {
    assert forall i | 0 <= i < |log| :: log[i] == (log + [e])[i];
  }

  lemma FoldCommitted(log: Log, start: Event, sum: Event, end: Event, c: set<nat>)
    requires start.body.CompactionStart? && sum.body.CompactionSummary? && end.body.CompactionEnd?
    requires sum.seqNo in c
    ensures Fold(log + [start] + [sum] + [end], c) == Splice(Fold(log, c), Sources(sum), FromEvent(sum), true)
  {
    FoldSnoc(log + [start] + [sum], end, c);
    FoldSnoc(log + [start], sum, c);
    FoldSnoc(log, start, c);
  }

  // ------------------------------------------------------------ faithfulness

  /** Every message shows an event of the log. */
  ghost predicate Shows(s: seq<Msg>, log: Log) {
    forall m | m in s :: 1 <= m.seqNo <= |log| && OnSurface(log[m.seqNo - 1].body)
                         && m == FromEvent(log[m.seqNo - 1])
  }

  ghost predicate Distinct(s: seq<Msg>) {
    forall i, j | 0 <= i < j < |s| :: s[i].seqNo != s[j].seqNo
  }

  lemma {:induction false} WithoutIff(s: seq<Msg>, drop: set<nat>)
    ensures forall m :: m in Without(s, drop) <==> m in s && m.seqNo !in drop
    ensures Distinct(s) ==> Distinct(Without(s, drop))
  {
    if s != [] {
      WithoutIff(s[1..], drop);
      assert s == [s[0]] + s[1..];
    }
  }

  ghost predicate Drops(s: seq<Msg>, drop: set<nat>) {
    exists m :: m in s && m.seqNo in drop
  }

  lemma {:induction false} SpliceIff(s: seq<Msg>, drop: set<nat>, m: Msg, atEnd: bool)
    ensures forall x :: x in Splice(s, drop, m, atEnd) <==>
              (x in s && x.seqNo !in drop) || (x == m && (atEnd || Drops(s, drop)))
    ensures Distinct(s) && (forall x | x in s :: x.seqNo != m.seqNo) ==> Distinct(Splice(s, drop, m, atEnd))
  {
    if s != [] {
      assert s == [s[0]] + s[1..];
      if s[0].seqNo in drop {
        WithoutIff(s[1..], drop);
      } else {
        SpliceIff(s[1..], drop, m, atEnd);
        assert Drops(s, drop) <==> Drops(s[1..], drop);
      }
    }
  }

  lemma ShowsMore(s: seq<Msg>, log: Log, e: Event)
    requires Shows(s, log) && Contiguous(log + [e])
    ensures Shows(s, log + [e]) && e.seqNo == |log| + 1
    ensures forall m | m in s :: m.seqNo != e.seqNo
    ensures OnSurface(e.body) ==> Shows([FromEvent(e)], log + [e])
  {
    assert (log + [e])[|log|] == e;
    assert forall m | m in s :: (log + [e])[m.seqNo - 1] == log[m.seqNo - 1];
  }

  lemma SpliceFaithful(s: seq<Msg>, log: Log, m: Msg, drop: set<nat>, atEnd: bool)
    requires Shows(s, log) && Distinct(s) && Shows([m], log) && forall x | x in s :: x.seqNo != m.seqNo
    ensures Shows(Splice(s, drop, m, atEnd), log) && Distinct(Splice(s, drop, m, atEnd))
  {
    SpliceIff(s, drop, m, atEnd);
    assert m in [m];
  }

  lemma AddFaithful(s: seq<Msg>, log: Log, m: Msg)
    requires Shows(s, log) && Distinct(s) && Shows([m], log) && forall x | x in s :: x.seqNo != m.seqNo
    ensures Shows(s + [m], log) && Distinct(s + [m])
  {
    assert m in [m];
  }

  lemma ApplyFaithful(s: seq<Msg>, log: Log, e: Event, committed: set<nat>)
    requires Shows(s, log) && Distinct(s) && Contiguous(log + [e])
    ensures Shows(Apply(s, e, committed), log + [e]) && Distinct(Apply(s, e, committed))
  {
    ShowsMore(s, log, e);
    if OnSurface(e.body) {
      var m := FromEvent(e);
      SpliceFaithful(s, log + [e], m, Sources(e), e.body.CompactionSummary?);
      AddFaithful(s, log + [e], m);
    }
  }

  lemma {:induction false} FoldFaithful(log: Log, committed: set<nat>)
    requires Contiguous(log)
    ensures Shows(Fold(log, committed), log) && Distinct(Fold(log, committed))
  {
    if log != [] {
      var front, e := log[..|log| - 1], log[|log| - 1];
      assert log == front + [e];
      FoldFaithful(front, committed);
      ApplyFaithful(Fold(front, committed), front, e, committed);
    }
  }

  lemma DeriveFaithful(log: Log)
    requires Contiguous(log)
    ensures Shows(Derive(log), log) && Distinct(Derive(log))
  {
    FoldFaithful(log, Committed(log));
  }

  /** The message says what the event says: a user message its text and its source, an
      answer its text and its calls, a result its call, its tool and its text (that of the
      payload when it has none), a summary its text as the compaction's. */
  ghost predicate Tells(m: Msg, b: Body) {
    match b
    case UserMessage(content, source) =>
      m.role == UserRole && m.content == content && m.source == source && m.calls == []
    case AssistantMessage(content, calls) =>
      m.role == AssistantRole && m.content == content && m.calls == calls
    case ToolResult(callId, name, _, content, shown, _, _) =>
      && m.role == ToolRole && m.callId == callId && m.name == name && m.calls == []
      && (content != "" ==> m.content == content) && (content == "" ==> m.content == shown)
    case CompactionSummary(content, _) =>
      m.role == UserRole && m.content == content && m.source == Compaction && m.calls == []
    case _ => false
  }

  /** Every message of the surface says what its event says. */
  lemma MessagesTell(log: Log, m: Msg)
    requires Contiguous(log) && m in Derive(log)
    ensures 1 <= m.seqNo <= |log| && Tells(m, log[m.seqNo - 1].body)
  {
    DeriveFaithful(log);
  }
}
