/** The other folds over the log: chat history, inbox and pending approvals
    (`project_chat_messages`, `project_inbox`, `pending_approvals`). */
module Projections {
  import opened Schema
  import opened Events

  datatype ChatRow = ChatRow(fromUser: bool, content: string, sourceSeq: nat)

  predicate ShownInChat(s: Source) {
    s.User? || s.Legacy? || s.Vision?
  }

  function Chat(log: Log): seq<ChatRow> {
    if log == [] then []
    else
      var e := log[|log| - 1];
      Chat(log[..|log| - 1])
      + match e.body
        case UserMessage(content, source) => if ShownInChat(source) then [ChatRow(true, content, e.seqNo)] else []
        case AnswerPublished(content) => [ChatRow(false, content, e.seqNo)]
        case _ => []
  }

  method ProjectChat(log: Log) returns (rows: seq<ChatRow>)
    ensures rows == Chat(log)
  {
    rows := [];
    for i := 0 to |log|
      invariant rows == Chat(log[..i])
    {
      assert log[..i + 1][..i] == log[..i];
      match log[i].body {
        case UserMessage(content, source) =>
          if ShownInChat(source) {
            rows := rows + [ChatRow(true, content, log[i].seqNo)];
          }
        case AnswerPublished(content) =>
          rows := rows + [ChatRow(false, content, log[i].seqNo)];
        case _ =>
      }
    }
    assert log[..|log|] == log;
  }

  /** The event makes this row: what the user said (or sent as a picture, or said before
      sources were logged), or what was published. */
  ghost predicate Makes(e: Event, row: ChatRow) {
    && row.sourceSeq == e.seqNo
    && if row.fromUser then
         e.body.UserMessage? && e.body.content == row.content && e.body.source in {User, Legacy, Vision}
       else e.body == AnswerPublished(row.content)
  }

  /** The rows are those of the log's events ... */
  lemma {:induction false} ChatRows(log: Log)
    ensures forall row :: row in Chat(log) <==> (exists e :: e in log && Makes(e, row))
  {
    if log != [] {
      var front, e := log[..|log| - 1], log[|log| - 1];
      assert log == front + [e];
      ChatRows(front);
      forall row
        ensures row in Chat(log) <==> (exists x :: x in log && Makes(x, row))
      {
        if row in Chat(front) {
          var x :| x in front && Makes(x, row);
          assert x in log;
        }
        if Makes(e, row) { assert e in log; }
      }
    }
  }

  /** ... in the order of the log. */
  lemma {:induction false} ChatInOrder(log: Log, i: nat, j: nat)
    requires Contiguous(log) && i < j < |Chat(log)|
    ensures Chat(log)[i].sourceSeq < Chat(log)[j].sourceSeq
  {
    var front := log[..|log| - 1];
    ChatBounded(front);
    if j < |Chat(front)| {
      ChatInOrder(front, i, j);
    } else {
      assert Chat(log)[i] == Chat(front)[i] && Chat(front)[i] in Chat(front);
    }
  }

  lemma {:induction false} ChatBounded(log: Log)
    requires Contiguous(log)
    ensures forall row | row in Chat(log) :: row.sourceSeq <= |log|
  {
    if log != [] { ChatBounded(log[..|log| - 1]); }
  }

  // ----------------------------------------------------------------- inbox

  /** The spliced entries, oldest first. */
  function Spliced(log: Log): seq<Event> {
    if log == [] then []
    else Spliced(log[..|log| - 1]) + if log[|log| - 1].body.InboxSpliced? then [log[|log| - 1]] else []
  }

  function Settled(log: Log): set<nat> {
    if log == [] then {}
    else
      var b := log[|log| - 1].body;
      Settled(log[..|log| - 1])
      + match b
        case InboxClaimed(q) => {q}
        case InboxDiscarded(q) => {q}
        case _ => {}
  }

  function Unsettled(entries: seq<Event>, settled: set<nat>): seq<Event> {
    if entries == [] then []
    else (if entries[0].seqNo in settled then [] else [entries[0]]) + Unsettled(entries[1..], settled)
  }

  /** `project_inbox`: spliced, neither claimed nor discarded. */
  function Inbox(log: Log): seq<Event> {
    Unsettled(Spliced(log), Settled(log))
  }

  method ProjectInbox(log: Log) returns (open: seq<Event>)
    ensures open == Inbox(log)
  {
    var pending: seq<Event> := [];
    var settled: set<nat> := {};
    for i := 0 to |log|
      invariant pending == Spliced(log[..i]) && settled == Settled(log[..i])
    {
      assert log[..i + 1][..i] == log[..i];
      match log[i].body {
        case InboxSpliced(_, _) => pending := pending + [log[i]];
        case InboxClaimed(q) => settled := settled + {q};
        case InboxDiscarded(q) => settled := settled + {q};
        case _ =>
      }
    }
    assert log[..|log|] == log;
    open := KeepUnsettled(pending, settled);
  }

  method KeepUnsettled(pending: seq<Event>, settled: set<nat>) returns (open: seq<Event>)
    ensures open == Unsettled(pending, settled)
  {
    open := [];
    for i := 0 to |pending|
      invariant open + Unsettled(pending[i..], settled) == Unsettled(pending, settled)
    {
      assert pending[i..][1..] == pending[i + 1..];
      if pending[i].seqNo !in settled {
        open := open + [pending[i]];
      }
    }
  }

  lemma {:induction false} UnsettledIff(entries: seq<Event>, settled: set<nat>)
    ensures forall e :: e in Unsettled(entries, settled) <==> e in entries && e.seqNo !in settled
  {
    if entries != [] {
      UnsettledIff(entries[1..], settled);
      assert entries == [entries[0]] + entries[1..];
    }
  }

  lemma {:induction false} SplicedIff(log: Log)
    ensures forall e :: e in Spliced(log) <==> e in log && e.body.InboxSpliced?
  {
    if log != [] {
      SplicedIff(log[..|log| - 1]);
      assert log == log[..|log| - 1] + [log[|log| - 1]];
    }
  }

  lemma {:induction false} SettledIff(log: Log, q: nat)
    ensures q in Settled(log) <==> exists e :: e in log && (e.body == InboxClaimed(q) || e.body == InboxDiscarded(q))
  {
    if log != [] {
      var front, e := log[..|log| - 1], log[|log| - 1];
      assert log == front + [e];
      SettledIff(front, q);
    }
  }

  ghost predicate OldestFirst(entries: seq<Event>) {
    forall i, j | 0 <= i < j < |entries| :: entries[i].seqNo < entries[j].seqNo
  }

  lemma {:induction false} SplicedInOrder(log: Log)
    requires Contiguous(log)
    ensures OldestFirst(Spliced(log)) && forall e | e in Spliced(log) :: e.seqNo <= |log|
  {
    if log != [] { SplicedInOrder(log[..|log| - 1]); }
  }

  lemma {:induction false} UnsettledInOrder(entries: seq<Event>, settled: set<nat>)
    requires OldestFirst(entries)
    ensures OldestFirst(Unsettled(entries, settled))
  {
    if entries != [] {
      var rest := Unsettled(entries[1..], settled);
      UnsettledInOrder(entries[1..], settled);
      UnsettledIff(entries[1..], settled);
      forall x | x in rest
        ensures entries[0].seqNo < x.seqNo
      {
        var k :| 0 <= k < |entries[1..]| && entries[1..][k] == x;
        assert entries[k + 1] == x;
      }
    }
  }

  ghost predicate NamedBy(log: Log, q: nat) {
    exists e :: e in log && (e.body == InboxClaimed(q) || e.body == InboxDiscarded(q))
  }

  /** The inbox holds the spliced entries that no claim and no discard names, oldest first. */
  lemma InboxIs(log: Log)
    requires Contiguous(log)
    ensures forall e :: e in Inbox(log) <==> (e in log && e.body.InboxSpliced? && !NamedBy(log, e.seqNo))
    ensures OldestFirst(Inbox(log))
  {
    UnsettledIff(Spliced(log), Settled(log));
    SplicedIff(log);
    forall q: nat
      ensures q in Settled(log) <==> NamedBy(log, q)
    {
      SettledIff(log, q);
    }
    SplicedInOrder(log);
    UnsettledInOrder(Spliced(log), Settled(log));
  }

  // ------------------------------------------------------------- approvals

  datatype Ask = Ask(approvalId: string, call: Call)

  function Asked(log: Log): map<string, Ask> {
    if log == [] then map[]
    else match log[|log| - 1].body
      case ApprovalAsked(id, call) => Asked(log[..|log| - 1])[id := Ask(id, call)]
      case _ => Asked(log[..|log| - 1])
  }

  function Decided(log: Log): set<string> {
    if log == [] then {}
    else match log[|log| - 1].body
      case ApprovalDecided(id, _) => Decided(log[..|log| - 1]) + {id}
      case _ => Decided(log[..|log| - 1])
  }

  /** `pending_approvals`, by approval id. */
  function Pending(log: Log): map<string, Ask> {
    var asked := Asked(log);
    map id | id in asked && id != "" && id !in Decided(log) :: asked[id]
  }

  method PendingApprovals(log: Log) returns (pending: map<string, Ask>)
    ensures pending == Pending(log)
  {
    var asked: map<string, Ask> := map[];
    var decided: set<string> := {};
    for i := 0 to |log|
      invariant asked == Asked(log[..i]) && decided == Decided(log[..i])
    {
      assert log[..i + 1][..i] == log[..i];
      match log[i].body {
        case ApprovalAsked(id, call) => asked := asked[id := Ask(id, call)];
        case ApprovalDecided(id, _) => decided := decided + {id};
        case _ =>
      }
    }
    assert log[..|log|] == log;
    pending := map id | id in asked && id != "" && id !in decided :: asked[id];
  }

  /** The first asking position of an id, and that it was asked before it was decided. */
  ghost predicate WasAsked(log: Log, id: string) {
    exists i :: 0 <= i < |log| && log[i].body.ApprovalAsked? && log[i].body.approvalId == id
  }

  ghost predicate WasDecided(log: Log, id: string) {
    exists i :: 0 <= i < |log| && log[i].body.ApprovalDecided? && log[i].body.approvalId == id
  }

  lemma {:induction false} AskedIff(log: Log, id: string)
    ensures id in Asked(log) <==> WasAsked(log, id)
    ensures id in Asked(log) ==> Asked(log)[id].approvalId == id
  {
    if log != [] {
      var front := log[..|log| - 1];
      AskedIff(front, id);
      if WasAsked(front, id) {
        var i :| 0 <= i < |front| && front[i].body.ApprovalAsked? && front[i].body.approvalId == id;
        assert front[i] == log[i];
      }
    }
  }

  lemma {:induction false} DecidedIff(log: Log, id: string)
    ensures id in Decided(log) <==> WasDecided(log, id)
  {
    if log != [] {
      var front := log[..|log| - 1];
      DecidedIff(front, id);
      if WasDecided(front, id) {
        var i :| 0 <= i < |front| && front[i].body.ApprovalDecided? && front[i].body.approvalId == id;
        assert front[i] == log[i];
      }
    }
  }

  /** An approval is pending exactly when its id is set, it was asked and never decided. */
  lemma PendingIff(log: Log, id: string)
    ensures id in Pending(log) <==> id != "" && WasAsked(log, id) && !WasDecided(log, id)
  {
    AskedIff(log, id);
    DecidedIff(log, id);
  }
}
