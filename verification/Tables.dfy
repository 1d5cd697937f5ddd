/** The tables behind the Postgres log (`app/backend/app/models/agent/session.py`), one
    session, as maps by primary key, and how an event is read back from them. */
module Tables {
  import opened Schema
  import opened Events

  datatype MessageRow = MessageRow(
    seqNo: nat, run: Option<string>, turn: Option<nat>, step: Option<nat>,
    fromUser: bool, content: string, published: bool, data: Body)

  datatype ModelCallRow = ModelCallRow(
    run: string, turn: nat, step: nat, running: bool, response: Option<string>, sourceToSeq: nat, data: Body)

  datatype CallStatus = NotRun | Succeeded | Failed

  datatype ToolCallRow = ToolCallRow(
    provider: string, run: string, turn: nat, step: nat, name: string,
    status: CallStatus, attempts: nat, content: string, errorCode: string, errorClass: string, data: Option<Body>)

  datatype AttemptRow = AttemptRow(toolCall: string, number: nat, status: CallStatus, content: string, data: Body)

  datatype ApprovalStatus = Undecided | Allowed | Denied

  datatype ApprovalRow = ApprovalRow(run: string, status: ApprovalStatus, decision: string, data: Body)

  datatype CompactionRow = CompactionRow(run: string, turn: nat, fromSeq: nat, toSeq: nat, sources: seq<nat>, data: Body)

  datatype TodoRow = TodoRow(seqNo: nat, turn: nat, version: nat, data: Body)

  datatype Payload =
    | Inline(data: Body)
    | Message(key: string)
    | ModelCall(key: string)
    | ToolCallOf(key: string)
    | Attempt(key: string)
    | Asking(key: string)
    | Deciding(approval: Option<string>, data: Body)
    | CompactionOf(key: string)
    | TodoOf(key: string)

  /** A row of the event log. */
  datatype LogRow = LogRow(
    seqNo: nat, id: string, run: Option<string>, turn: Option<nat>, step: Option<nat>,
    op: SurfaceOp, sources: seq<nat>, payload: Payload)

  datatype Tables = Tables(
    messages: map<string, MessageRow>, modelCalls: map<string, ModelCallRow>, toolCalls: map<string, ToolCallRow>,
    attempts: map<string, AttemptRow>, approvals: map<string, ApprovalRow>, compactions: map<string, CompactionRow>,
    todos: map<string, TodoRow>)

  /** The data of the event behind a row, if it is found. */
  function DataOf(p: Payload, t: Tables): Option<Body> {
    match p
    case Inline(data) => Some(data)
    case Message(key) => if key in t.messages then Some(t.messages[key].data) else None
    case ModelCall(key) => if key in t.modelCalls then Some(t.modelCalls[key].data) else None
    case ToolCallOf(key) => if key in t.toolCalls then t.toolCalls[key].data else None
    case Attempt(key) => if key in t.attempts then Some(t.attempts[key].data) else None
    case Asking(key) => if key in t.approvals then Some(t.approvals[key].data) else None
    case Deciding(_, data) => Some(data)
    case CompactionOf(key) => if key in t.compactions then Some(t.compactions[key].data) else None
    case TodoOf(key) => if key in t.todos then Some(t.todos[key].data) else None
  }

  /** `_event_from_log`. */
  function EventFromLog(row: LogRow, t: Tables): Option<Event> {
    var data := DataOf(row.payload, t);
    if data.None? then None
    else Some(Event(row.seqNo, row.id, row.run, row.turn, row.step, row.op, row.sources, data.value))
  }

  function RowOf(seqNo: nat, id: string, d: Draft, p: Payload): LogRow {
    LogRow(seqNo, id, d.run, d.turn, d.step, d.op, d.sources, p)
  }

  /** Rows are added and changed, but what events were written with stays. */
  ghost predicate Keeps(a: Tables, b: Tables) {
    && (forall k | k in a.messages :: k in b.messages && b.messages[k].data == a.messages[k].data)
    && (forall k | k in a.modelCalls :: k in b.modelCalls && b.modelCalls[k].data == a.modelCalls[k].data)
    && (forall k | k in a.toolCalls :: k in b.toolCalls && b.toolCalls[k].data == a.toolCalls[k].data)
    && (forall k | k in a.attempts :: k in b.attempts && b.attempts[k].data == a.attempts[k].data)
    && (forall k | k in a.approvals :: k in b.approvals && b.approvals[k].data == a.approvals[k].data)
    && (forall k | k in a.compactions :: k in b.compactions && b.compactions[k].data == a.compactions[k].data)
    && (forall k | k in a.todos :: k in b.todos && b.todos[k].data == a.todos[k].data)
  }

  /** Whatever is read back stays as it was. */
  lemma KeptReads(row: LogRow, a: Tables, b: Tables)
    requires Keeps(a, b) && EventFromLog(row, a).Some?
    ensures EventFromLog(row, b) == EventFromLog(row, a)
  {
  }

  type Calls = map<string, ToolCallRow>
  type Attempts = map<string, AttemptRow>

  predicate IsAttempt(attempts: Attempts, a: string, call: string, n: nat) {
    a in attempts && attempts[a].toolCall == call && attempts[a].number == n
  }

  ghost predicate HasAttempt(attempts: Attempts, call: string, n: nat) {
    exists a :: IsAttempt(attempts, a, call, n)
  }

  /** An attempt belongs to a call, its number is within the call's count, and the last
      one gave the call its status. */
  predicate Belongs(calls: Calls, row: AttemptRow) {
    && row.toolCall in calls && 1 <= row.number <= calls[row.toolCall].attempts
    && (row.number == calls[row.toolCall].attempts ==> row.status == calls[row.toolCall].status)
  }

  /** The attempts of each call are numbered 1 to its attempt count, each number once. */
  ghost predicate Numbered(calls: Calls, attempts: Attempts) {
    && (forall a | a in attempts :: Belongs(calls, attempts[a]))
    && (forall a, b, c, n | IsAttempt(attempts, a, c, n) && IsAttempt(attempts, b, c, n) :: a == b)
    && (forall c, n: nat | c in calls && n > 0 :: n <= calls[c].attempts ==> HasAttempt(attempts, c, n))
  }

  lemma NewCall(calls: Calls, attempts: Attempts, key: string, row: ToolCallRow)
    requires Numbered(calls, attempts) && key !in calls && row.attempts == 0
    ensures Numbered(calls[key := row], attempts)
  {
    forall a | a in attempts
      ensures Belongs(calls[key := row], attempts[a])
    {
      assert Belongs(calls, attempts[a]);
    }
  }

  /** One more attempt of call `key`. */
  lemma NextAttempt(calls: Calls, attempts: Attempts, key: string, row: ToolCallRow, id: string, attempt: AttemptRow)
    requires Numbered(calls, attempts) && key in calls && id !in attempts
    requires row.attempts == calls[key].attempts + 1 == attempt.number
    requires attempt.toolCall == key && attempt.status == row.status
    ensures Numbered(calls[key := row], attempts[id := attempt])
  {
    var calls', attempts' := calls[key := row], attempts[id := attempt];
    forall a | a in attempts'
      ensures Belongs(calls', attempts'[a])
    {
      if a != id { assert Belongs(calls, attempts[a]); }
    }
    forall a | a in attempts && attempts[a].toolCall == key
      ensures attempts[a].number < attempt.number
    {
      assert Belongs(calls, attempts[a]);
    }
    forall a, b, c, n | IsAttempt(attempts', a, c, n) && IsAttempt(attempts', b, c, n)
      ensures a == b
    {
      if a != id && b != id {
        assert IsAttempt(attempts, a, c, n) && IsAttempt(attempts, b, c, n);
      }
    }
    forall c, n: nat | c in calls' && n > 0 && n <= calls'[c].attempts
      ensures HasAttempt(attempts', c, n)
    {
      if c == key && n == row.attempts {
        assert IsAttempt(attempts', id, c, n);
      } else {
        assert HasAttempt(attempts, c, n);
        var a :| IsAttempt(attempts, a, c, n);
        assert IsAttempt(attempts', a, c, n);
      }
    }
  }

  /** No table knows the id. */
  predicate FreshId(id: string, t: Tables) {
    id !in t.messages && id !in t.modelCalls && id !in t.toolCalls && id !in t.attempts
    && id !in t.compactions && id !in t.todos
  }
}
