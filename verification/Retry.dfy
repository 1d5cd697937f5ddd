/** How often a tool may be tried in one turn (`harness/tools/retry_policy.py`). */
module Retry {
  import opened Schema
  import opened Events

  const MAX_ATTEMPTS: nat := 2

  predicate IsLimited(name: string) {
    var n := Strip(name);
    n != "todo_write" && n != "read_tool_log" && n != ""
  }

  function FieldOf(a: Arguments, key: string): string {
    if key in a.fields then a.fields[key] else ""
  }

  /** `attempt_key`: the tool name; the two ledger tools count per business action. */
  function AttemptKey(name: string, a: Arguments): string {
    var tool := Strip(name);
    if tool == "ledger_records" then
      Join([tool, FieldOf(a, "action"), FieldOf(a, "enterprise"), FieldOf(a, "month"), FieldOf(a, "invoice_no")], "|")
    else if tool == "ledger_search_rules" then
      Join([tool, FieldOf(a, "enterprise"), FieldOf(a, "month"), FieldOf(a, "topic")], "|")
    else tool
  }

  function KeyOf(c: Call): string {
    AttemptKey(c.name, c.args)
  }

  /** Every tool is limited but for the todo list and the log reader. */
  lemma LimitedIff(name: string)
    ensures IsLimited(name) <==> !IsBlank(name) && Strip(name) !in {"todo_write", "read_tool_log"}
  {
    StripBlank(name);
  }

  /** The fields that tell the actions of a ledger tool apart. */
  ghost predicate Distinguishes(tool: string, field: string) {
    || (tool == "ledger_records" && field in {"action", "enterprise", "month", "invoice_no"})
    || (tool == "ledger_search_rules" && field in {"enterprise", "month", "topic"})
  }

  /** Attempts are counted together exactly by the tool's name, and for the two ledger tools
      by those fields too, absent ones being empty; no other argument matters. */
  lemma SameKey(c: Call, d: Call)
    requires Strip(c.name) == Strip(d.name)
    requires forall field | Distinguishes(Strip(c.name), field) :: FieldOf(c.args, field) == FieldOf(d.args, field)
    ensures KeyOf(c) == KeyOf(d)
    ensures Strip(c.name) !in {"ledger_records", "ledger_search_rules"} ==> KeyOf(c) == Strip(c.name)
  {
    hide Strip, Join;
  }

  lemma {:induction false} JoinTellsApart(a: seq<string>, b: seq<string>)
    requires |a| == |b| > 0 && Join(a, "|") == Join(b, "|")
    requires forall i | 0 <= i < |a| :: '|' !in a[i] && '|' !in b[i]
    ensures a == b
  {
    if |a| > 1 {
      var x, y := Join(a[1..], "|"), Join(b[1..], "|");
      var s := Join(a, "|");
      assert forall k | 0 <= k < |a[0]| :: a[0][k] != '|';
      assert forall k | 0 <= k < |b[0]| :: b[0][k] != '|';
      assert s == a[0] + "|" + x == b[0] + "|" + y;
      assert s[|a[0]|] == '|' && s[|b[0]|] == '|';
      assert s[..|a[0]|] == a[0] && s[..|b[0]|] == b[0];
      assert s[|a[0]| + 1..] == x && s[|b[0]| + 1..] == y;
      JoinTellsApart(a[1..], b[1..]);
    }
  }

  /** Two actions of a ledger tool are counted apart when no field holds the separator ... */
  lemma KeyTellsApart(c: Call, d: Call, field: string)
    requires Strip(c.name) == Strip(d.name) && Distinguishes(Strip(c.name), field) && KeyOf(c) == KeyOf(d)
    requires forall f | Distinguishes(Strip(c.name), f) :: '|' !in FieldOf(c.args, f) && '|' !in FieldOf(d.args, f)
    ensures FieldOf(c.args, field) == FieldOf(d.args, field)
  {
    hide Strip, Join, FieldOf;
    var x, y := c.args, d.args;
    if Strip(c.name) == "ledger_records" {
      var a := ["ledger_records", FieldOf(x, "action"), FieldOf(x, "enterprise"), FieldOf(x, "month"), FieldOf(x, "invoice_no")];
      var b := ["ledger_records", FieldOf(y, "action"), FieldOf(y, "enterprise"), FieldOf(y, "month"), FieldOf(y, "invoice_no")];
      JoinTellsApart(a, b);
      assert a[1] == b[1] && a[2] == b[2] && a[3] == b[3] && a[4] == b[4];
    } else {
      var a := ["ledger_search_rules", FieldOf(x, "enterprise"), FieldOf(x, "month"), FieldOf(x, "topic")];
      var b := ["ledger_search_rules", FieldOf(y, "enterprise"), FieldOf(y, "month"), FieldOf(y, "topic")];
      JoinTellsApart(a, b);
      assert a[1] == b[1] && a[2] == b[2] && a[3] == b[3];
    }
  }

  /** ... and may be counted together when one does. */
  lemma KeysCollide()
    ensures AttemptKey("ledger_search_rules", Arguments("", "", map["enterprise" := "x|"])) ==
            AttemptKey("ledger_search_rules", Arguments("", "", map["enterprise" := "x", "month" := "|"]))
  {
    var tool := "ledger_search_rules";
    assert Strip(tool) == tool;
    hide Strip, Join;
    JoinsAlike(tool);
  }

  lemma JoinsAlike(tool: string)
    ensures Join([tool, "x|", "", ""], "|") == Join([tool, "x", "|", ""], "|")
  {
    JoinOfFour(tool, "x|", "", "");
    JoinOfFour(tool, "x", "|", "");
    assert "x|" + "|" + ("" + "|" + "") == "x" + "|" + ("|" + "|" + "");
  }

  lemma JoinOfFour(a: string, b: string, c: string, d: string)
    ensures Join([a, b, c, d], "|") == a + "|" + (b + "|" + (c + "|" + d))
  {
    JoinCons(a, [b, c, d], "|");
    JoinOfThree(b, c, d, "|");
    assert [a, b, c, d] == [a] + [b, c, d];
  }

  predicate Counts(e: Event, turn: nat, key: string) {
    e.turn == Some(turn) && e.body.ToolCall? && IsLimited(e.body.call.name) && KeyOf(e.body.call) == key
  }

  /** The attempts that the log of a turn records for a key. */
  function Attempts(log: Log, turn: nat, key: string): nat {
    if log == [] then 0
    else Attempts(log[..|log| - 1], turn, key) + if Counts(log[|log| - 1], turn, key) then 1 else 0
  }

  function Get(m: map<string, nat>, key: string): nat {
    if key in m then m[key] else 0
  }

  method ToolAttemptCounts(log: Log, turn: nat) returns (counts: map<string, nat>)
    ensures forall key :: Get(counts, key) == Attempts(log, turn, key)
  {
    counts := map[];
    for i := 0 to |log|
      invariant forall key :: Get(counts, key) == Attempts(log[..i], turn, key)
    {
      assert log[..i + 1][..i] == log[..i];
      var e := log[i];
      if e.turn == Some(turn) && e.body.ToolCall? && IsLimited(e.body.call.name) {
        var key := KeyOf(e.body.call);
        counts := counts[key := Get(counts, key) + 1];
      }
    }
    assert log[..|log|] == log;
  }

  // ------------------------------------------------------------ allocation

  /** The attempts used for a key after the first `n` calls of a batch. */
  function Used(calls: seq<Call>, prior: nat, n: nat, key: string): nat
    requires n <= |calls|
  {
    if n == 0 then prior
    else
      var u := Used(calls, prior, n - 1, key);
      var c := calls[n - 1];
      if IsLimited(c.name) && KeyOf(c) == key && u < MAX_ATTEMPTS then u + 1 else u
  }

  /** Call number `i` of the batch exceeds the attempts of its key. */
  predicate Exhausted(calls: seq<Call>, prior: map<string, nat>, i: nat)
    requires i < |calls|
  {
    IsLimited(calls[i].name) && Used(calls, Get(prior, KeyOf(calls[i])), i, KeyOf(calls[i])) >= MAX_ATTEMPTS
  }

  ghost function ExhaustedIds(calls: seq<Call>, prior: map<string, nat>, n: nat): set<string>
    requires n <= |calls|
  {
    set i | 0 <= i < n && Exhausted(calls, prior, i) :: calls[i].id
  }

  lemma ExhaustedNext(calls: seq<Call>, prior: map<string, nat>, n: nat)
    requires n < |calls|
    ensures ExhaustedIds(calls, prior, n + 1) ==
            ExhaustedIds(calls, prior, n) + if Exhausted(calls, prior, n) then {calls[n].id} else {}
  {
  }

  method AllocateToolAttempts(calls: seq<Call>, priorCounts: map<string, nat>)
    returns (blocked: set<string>, counts: map<string, nat>)
    ensures blocked == ExhaustedIds(calls, priorCounts, |calls|)
    ensures forall key :: Get(counts, key) == Used(calls, Get(priorCounts, key), |calls|, key)
  {
    hide IsLimited, KeyOf;
    counts := priorCounts;
    blocked := {};
    for n := 0 to |calls|
      invariant forall key :: Get(counts, key) == Used(calls, Get(priorCounts, key), n, key)
      invariant blocked == ExhaustedIds(calls, priorCounts, n)
    {
      ExhaustedNext(calls, priorCounts, n);
      var call := calls[n];
      if IsLimited(call.name) {
        var key := KeyOf(call);
        var used := Get(counts, key);
        if used >= MAX_ATTEMPTS {
          blocked := blocked + {call.id};
        } else {
          counts := counts[key := used + 1];
        }
      }
    }
  }

  /** The calls of a batch that are admitted for a key. */
  function Admitted(calls: seq<Call>, prior: nat, n: nat, key: string): nat
    requires n <= |calls|
  {
    if n == 0 then 0
    else
      var c := calls[n - 1];
      Admitted(calls, prior, n - 1, key)
      + if IsLimited(c.name) && KeyOf(c) == key && Used(calls, prior, n - 1, key) < MAX_ATTEMPTS then 1 else 0
  }

  lemma {:induction false} AdmittedIsUsed(calls: seq<Call>, prior: nat, n: nat, key: string)
    requires n <= |calls|
    ensures Admitted(calls, prior, n, key) == Used(calls, prior, n, key) - prior
    ensures prior + Admitted(calls, prior, n, key) <= (if prior < MAX_ATTEMPTS then MAX_ATTEMPTS else prior)
  {
    hide IsLimited, KeyOf;
    if n > 0 { AdmittedIsUsed(calls, prior, n - 1, key); }
  }

  // --------------------------------------------------------- failed before

  datatype Failure = Failure(callId: string, error: string, errorClass: string)

  /** What one pass over the events of a turn collects. */
  datatype Seen = Seen(calls: map<string, Call>, failures: map<string, Failure>)

  const NO_ARGUMENTS := Arguments("", "", map[])

  function ArgumentsOf(seen: Seen, callId: string): Arguments {
    if callId in seen.calls then seen.calls[callId].args else NO_ARGUMENTS
  }

  function See(seen: Seen, e: Event, turn: nat): Seen {
    if e.turn != Some(turn) then seen
    else match e.body
      case ToolCall(call) => seen.(calls := seen.calls[call.id := call])
      case ToolResult(callId, name, ok, _, _, error, errorClass) =>
        if ok || Strip(name) == "" then seen
        else seen.(failures := seen.failures[AttemptKey(name, ArgumentsOf(seen, callId)) :=
                                              Failure(callId, error, errorClass)])
      case _ => seen
  }

  function SeenIn(log: Log, turn: nat): Seen {
    if log == [] then Seen(map[], map[]) else See(SeenIn(log[..|log| - 1], turn), log[|log| - 1], turn)
  }

  lemma SeenSnoc(log: Log, e: Event, turn: nat)
    ensures SeenIn(log + [e], turn) == See(SeenIn(log, turn), e, turn)
  {
    assert (log + [e])[..|log|] == log;
  }

  /** The error classes that decide a retry; a `ClassOf` gives those of the tools' codes. */
  type ClassOf = string -> string

  /** `classify`, for the codes of the runtime itself and for those of the tools. */
  function Classify(code: string, infer: ClassOf): string {
    if code == "" then "transient"
    else if code == "retry_exhausted" || code == "unknown_tool" || code == "denied" then "policy"
    else if code == "cancelled" || code == "deferred_for_approval" then "control"
    else if code == "retry_requires_change" then "invalid_input"
    else if code == "unavailable_retry_blocked" then "unavailable"
    else if code == "contract_retry_blocked" then "contract"
    else infer(code)
  }

  function ClassOfFailure(f: Failure, infer: ClassOf): string {
    if f.errorClass != "" then f.errorClass else Classify(f.error, infer)
  }

  /** The error code with which `blocked_retries` refuses the call, if it does. */
  function RefusalCode(seen: Seen, c: Call, infer: ClassOf): Option<string> {
    if KeyOf(c) !in seen.failures then None
    else
      var f := seen.failures[KeyOf(c)];
      var kind := ClassOfFailure(f, infer);
      if kind == "transient" then None
      else if kind == "invalid_input" || kind == "empty" then
        if f.callId in seen.calls && seen.calls[f.callId].args.canonical == c.args.canonical
        then Some("retry_requires_change") else None
      else if kind == "unavailable" then Some("unavailable_retry_blocked")
      else if kind == "contract" then Some("contract_retry_blocked")
      else None
  }

  /** A call is refused when the latest failure of its key makes another try pointless: an
      invalid or empty one when the arguments are the same, one for which the tool is
      unavailable or breaks its contract whatever the arguments; no other. */
  lemma RefusedWhen(seen: Seen, c: Call, infer: ClassOf)
    ensures Refused(seen, c, infer) <==> KeyOf(c) in seen.failures && Repels(seen, seen.failures[KeyOf(c)], c, infer)
    ensures Refused(seen, c, infer) ==>
      var kind := KindOf(seen.failures[KeyOf(c)], infer);
      RefusalCode(seen, c, infer).value ==
      if kind in {"invalid_input", "empty"} then "retry_requires_change"
      else if kind == "unavailable" then "unavailable_retry_blocked" else "contract_retry_blocked"
  {
  }

  /** The class that the failure was logged with or, if none was, that of its code. */
  ghost function KindOf(f: Failure, infer: ClassOf): string {
    if f.errorClass == "" then Classify(f.error, infer) else f.errorClass
  }

  ghost predicate Repels(seen: Seen, f: Failure, c: Call, infer: ClassOf) {
    || KindOf(f, infer) in {"unavailable", "contract"}
    || (KindOf(f, infer) in {"invalid_input", "empty"} && f.callId in seen.calls
        && seen.calls[f.callId].args.canonical == c.args.canonical)
  }

  /** The classes of the codes that the runtime itself writes. */
  lemma ClassesOfOwnCodes(infer: ClassOf)
    ensures Classify("", infer) == "transient"
    ensures forall code | code in {"retry_exhausted", "unknown_tool", "denied"} :: Classify(code, infer) == "policy"
    ensures forall code | code in {"cancelled", "deferred_for_approval"} :: Classify(code, infer) == "control"
    ensures Classify("retry_requires_change", infer) == "invalid_input"
    ensures Classify("unavailable_retry_blocked", infer) == "unavailable"
    ensures Classify("contract_retry_blocked", infer) == "contract"
  {
  }

  predicate Refused(seen: Seen, c: Call, infer: ClassOf) {
    RefusalCode(seen, c, infer).Some?
  }

  function Refusals(calls: seq<Call>, seen: Seen, infer: ClassOf): map<string, string> {
    if calls == [] then map[]
    else
      var rest, c := Refusals(calls[..|calls| - 1], seen, infer), calls[|calls| - 1];
      if Refused(seen, c, infer) then rest[c.id := RefusalCode(seen, c, infer).value] else rest
  }

  lemma {:induction false} RefusalsIff(calls: seq<Call>, seen: Seen, infer: ClassOf, id: string)
    ensures id in Refusals(calls, seen, infer) <==>
            exists i :: 0 <= i < |calls| && calls[i].id == id && Refused(seen, calls[i], infer)
  {
    hide RefusalCode;
    if calls != [] {
      var front := calls[..|calls| - 1];
      RefusalsIff(front, seen, infer, id);
      assert forall i | 0 <= i < |front| :: front[i] == calls[i];
    }
  }

  method Look(log: Log, turn: nat) returns (seen: Seen)
    ensures seen == SeenIn(log, turn)
  {
    seen := Seen(map[], map[]);
    for i := 0 to |log|
      invariant seen == SeenIn(log[..i], turn)
    {
      assert log[..i + 1][..i] == log[..i];
      seen := See(seen, log[i], turn);
    }
    assert log[..|log|] == log;
  }

  method BlockedRetries(calls: seq<Call>, log: Log, turn: nat, infer: ClassOf) returns (blocked: map<string, string>)
    ensures blocked == Refusals(calls, SeenIn(log, turn), infer)
  {
    var seen := Look(log, turn);
    blocked := map[];
    for i := 0 to |calls|
      invariant blocked == Refusals(calls[..i], seen, infer)
    {
      assert calls[..i + 1][..i] == calls[..i];
      var code := RefusalCode(seen, calls[i], infer);
      if code.Some? {
        blocked := blocked[calls[i].id := code.value];
      }
    }
    assert calls[..|calls|] == calls;
  }

  // ----------------------------------------------- retries and compaction

  /** The replacement that compaction writes for a trimmed tool result. */
  predicate Trims(e: Event, turn: nat) {
    e.turn == Some(turn) && e.body.ToolResult? && e.op == Replace
    && e.body.error == "" && e.body.errorClass == ""
  }

  /** The replacement of a failed result stands in for the failure of key `key`. */
  predicate Masks(seen: Seen, e: Event, key: string) {
    e.body.ToolResult? && !e.body.ok && Strip(e.body.name) != ""
    && AttemptKey(e.body.name, ArgumentsOf(seen, e.body.callId)) == key
  }

  /** Trimming loses refusals: afterwards a call is refused exactly when it was and the
      trimmed result is not a failure recorded for its key.  The replacement carries
      neither error nor error class, so the latest failure counts as transient. */
  lemma TrimMasksFailure(log: Log, e: Event, turn: nat, c: Call, infer: ClassOf)
    requires Trims(e, turn)
    ensures Refused(SeenIn(log + [e], turn), c, infer) <==>
            Refused(SeenIn(log, turn), c, infer) && !Masks(SeenIn(log, turn), e, KeyOf(c))
  {
    hide SeenIn, AttemptKey;
    SeenSnoc(log, e, turn);
  }

  lemma StripOne(c: char)
    requires !IsSpace(c)
    ensures Strip([c]) == [c]
  {
    var s := [c];
    assert s[0] == c && s[|s| - 1] == c;
    assert LStrip(s) == s && RStrip(s) == s;
  }

  /** `turn_has_successful_data_tool`. */
  function Succeeded(log: Log, turn: nat): bool {
    log != [] && (Succeeded(log[..|log| - 1], turn) || IsSuccess(log[|log| - 1], turn))
  }

  predicate IsSuccess(e: Event, turn: nat) {
    e.turn == Some(turn) && e.body.ToolResult? && IsLimited(e.body.name) && e.body.ok
  }

  /** A trim is stamped with the turn in which it happens: that turn then has a successful
      tool exactly when it had one or the trimmed result, of whatever turn, was one. */
  lemma TrimCountsAsSuccess(log: Log, e: Event, turn: nat)
    requires Trims(e, turn)
    ensures Succeeded(log + [e], turn) <==> Succeeded(log, turn) || (IsLimited(e.body.name) && e.body.ok)
  {
    assert (log + [e])[..|log|] == log;
  }
}
