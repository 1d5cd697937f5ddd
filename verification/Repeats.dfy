/** Calls that repeat a failed one unchanged: which of them the retry policy refuses, and
    what a trim has to do with it. */
module Repeats {
  import opened Schema
  import opened Events
  import opened Protocol
  import opened Retry

  /** The attempt key under which an event of the turn is recorded as a failure, if it is. */
  function FailKey(log: Log, f: nat, turn: nat): Option<string>
    requires f < |log|
  {
    var e := log[f];
    if e.turn == Some(turn) && e.body.ToolResult? && !e.body.ok && Strip(e.body.name) != ""
    then Some(AttemptKey(e.body.name, ArgumentsOf(SeenIn(log[..f], turn), e.body.callId))) else None
  }

  /** The event is a failed result of the key, and not the replacement of one. */
  predicate Fails(log: Log, f: nat, turn: nat, key: string) {
    f < |log| && log[f].op != Replace && FailKey(log, f, turn) == Some(key)
  }

  /** Of the first `n` events the one at `f` is the key's latest failure, trims aside. */
  ghost predicate LatestFailure(log: Log, n: nat, turn: nat, key: string, f: nat) {
    f < n <= |log| && Fails(log, f, turn, key) && forall k | f < k < n :: !Fails(log, k, turn, key)
  }

  function FailureOf(e: Event): Failure
    requires e.body.ToolResult?
  {
    Failure(e.body.callId, e.body.error, e.body.errorClass)
  }

  predicate InvalidOrEmpty(e: Event, infer: ClassOf) {
    e.body.ToolResult?
    && (ClassOfFailure(FailureOf(e), infer) == "invalid_input" || ClassOfFailure(FailureOf(e), infer) == "empty")
  }

  /** The canonical arguments of the call that a result answers. */
  function CanonicalAt(log: Log, f: nat, turn: nat): Option<string>
    requires f < |log| && log[f].body.ToolResult?
  {
    var calls := SeenIn(log[..f], turn).calls;
    if log[f].body.callId in calls then Some(calls[log[f].body.callId].args.canonical) else None
  }

  /** The call repeats, unchanged, the one that failed at `f` as invalid or empty. */
  predicate RepeatsAt(log: Log, f: nat, turn: nat, c: Call, infer: ClassOf) {
    && Fails(log, f, turn, KeyOf(c)) && InvalidOrEmpty(log[f], infer)
    && CanonicalAt(log, f, turn) == Some(c.args.canonical)
  }

  /** A trimmed failure of the key was logged after the one at `f`. */
  ghost predicate Masked(log: Log, n: nat, turn: nat, key: string, f: nat) {
    exists k :: f < k < n <= |log| && log[k].op == Replace && FailKey(log, k, turn) == Some(key)
  }

  // ----------------------------------------------------------- what is seen

  lemma SeenNext(log: Log, n: nat, turn: nat)
    requires n < |log|
    ensures var seen, key := SeenIn(log[..n], turn), FailKey(log, n, turn);
      SeenIn(log[..n + 1], turn).failures == if key.Some? then seen.failures[key.value := FailureOf(log[n])] else seen.failures
  {
    hide AttemptKey, Strip;
    assert log[..n + 1] == log[..n] + [log[n]];
    SeenSnoc(log[..n], log[n], turn);
  }

  /** Of the first `n` events the one at `f` is the latest recorded as a failure of the key. */
  ghost predicate LatestRecorded(log: Log, n: nat, turn: nat, key: string, f: nat) {
    f < n <= |log| && FailKey(log, f, turn) == Some(key) && forall k | f < k < n :: FailKey(log, k, turn) != Some(key)
  }

  /** What the policy remembers of a key is its latest failure, trimmed or not. */
  lemma {:induction false} SeenIsLatest(log: Log, n: nat, turn: nat, key: string, f: nat)
    requires LatestRecorded(log, n, turn, key, f)
    ensures var failures := SeenIn(log[..n], turn).failures; key in failures && failures[key] == FailureOf(log[f])
  {
    hide FailKey, SeenIn;
    SeenNext(log, n - 1, turn);
    if f < n - 1 { SeenIsLatest(log, n - 1, turn, key, f); } else { HasResult(log, f, turn); }
  }

  lemma HasResult(log: Log, f: nat, turn: nat)
    requires f < |log| && FailKey(log, f, turn).Some?
    ensures log[f].body.ToolResult?
  {
  }

  lemma {:induction false} LatestOf(log: Log, n: nat, turn: nat, key: string, k: nat) returns (f: nat)
    requires k < n <= |log| && FailKey(log, k, turn) == Some(key)
    ensures k <= f && LatestRecorded(log, n, turn, key, f)
  {
    hide FailKey;
    if FailKey(log, n - 1, turn) == Some(key) {
      f := n - 1;
    } else {
      f := LatestOf(log, n - 1, turn, key, k);
    }
  }

  /** A remembered call is in the log. */
  lemma {:induction false} SeenWasCalled(log: Log, n: nat, turn: nat, id: string)
    requires n <= |log| && id in SeenIn(log[..n], turn).calls
    ensures exists i :: 0 <= i < n && log[i].turn == Some(turn) && log[i].body == ToolCall(SeenIn(log[..n], turn).calls[id])
                        && SeenIn(log[..n], turn).calls[id].id == id
  {
    hide AttemptKey;
    if n > 0 {
      hide SeenIn;
      var front, e := log[..n - 1], log[n - 1];
      assert log[..n] == front + [e];
      SeenSnoc(front, e, turn);
      if e.turn == Some(turn) && e.body.ToolCall? && e.body.call.id == id {
        assert log[n - 1].body == ToolCall(SeenIn(log[..n], turn).calls[id]);
      } else {
        SeenWasCalled(log, n - 1, turn, id);
      }
    }
  }

  /** ... and stays remembered as it is, since ids are used once. */
  lemma {:induction false} SeenStays(log: Log, f: nat, n: nat, turn: nat, id: string)
    requires Accepted(log) && f <= n <= |log| && id in SeenIn(log[..f], turn).calls
    ensures id in SeenIn(log[..n], turn).calls && SeenIn(log[..n], turn).calls[id] == SeenIn(log[..f], turn).calls[id]
    decreases n
  {
    hide AttemptKey, Advance, Run;
    if f < n {
      SeenStays(log, f, n - 1, turn, id);
      SeenWasCalled(log, f, turn, id);
      var i :| 0 <= i < f && log[i].body.ToolCall? && log[i].body.call.id == id;
      assert log[..n] == log[..n - 1] + [log[n - 1]];
      SeenSnoc(log[..n - 1], log[n - 1], turn);
      if log[n - 1].body.ToolCall? { CalledOnce(log, i, n - 1); }
    }
  }

  /** Trims carry neither an error nor its class. */
  lemma TrimsAreBare(log: Log, k: nat)
    requires Accepted(log) && k < |log| && log[k].body.ToolResult? && log[k].op == Replace
    ensures log[k].body.error == "" && log[k].body.errorClass == ""
  {
    AtNext(log, k);
  }

  // ------------------------------------------------------------ the theorem

  lemma KindRefuses(seen: Seen, e: Event, c: Call, infer: ClassOf)
    requires KeyOf(c) in seen.failures && e.body.ToolResult? && seen.failures[KeyOf(c)] == FailureOf(e)
    ensures e.body.callId in seen.calls && seen.calls[e.body.callId].args.canonical == c.args.canonical ==>
              (InvalidOrEmpty(e, infer) ==> Refused(seen, c, infer))
    ensures e.body.error == "" && e.body.errorClass == "" ==> !Refused(seen, c, infer)
  {
    hide AttemptKey;
  }

  /** A call that repeats its key's latest invalid or empty failure is refused if and only
      if no trim has masked that failure. */
  lemma RefusedIffUnmasked(log: Log, turn: nat, c: Call, f: nat, infer: ClassOf)
    requires Accepted(log) && LatestFailure(log, |log|, turn, KeyOf(c), f) && RepeatsAt(log, f, turn, c, infer)
    ensures Refused(SeenIn(log, turn), c, infer) <==> !Masked(log, |log|, turn, KeyOf(c), f)
  {
    hide FailKey, SeenIn, Run, KeyOf, InvalidOrEmpty, Refused;
    var key := KeyOf(c);
    assert log[..|log|] == log;
    HasResult(log, f, turn);
    if Masked(log, |log|, turn, key, f) {
      var k :| f < k < |log| && log[k].op == Replace && FailKey(log, k, turn) == Some(key);
      var l := LatestOf(log, |log|, turn, key, k);
      assert !Fails(log, l, turn, key);
      SeenIsLatest(log, |log|, turn, key, l);
      HasResult(log, l, turn);
      TrimsAreBare(log, l);
      KindRefuses(SeenIn(log, turn), log[l], c, infer);
    } else {
      forall k | f < k < |log|
        ensures FailKey(log, k, turn) != Some(key)
      {
        assert !Fails(log, k, turn, key);
      }
      SeenIsLatest(log, |log|, turn, key, f);
      SeenStays(log, f, |log|, turn, log[f].body.callId);
      KindRefuses(SeenIn(log, turn), log[f], c, infer);
    }
  }

  lemma CutSame(log: Log, v: nat, f: nat, turn: nat, c: Call, infer: ClassOf)
    requires f < v <= |log|
    ensures log[..v][f] == log[f] && FailKey(log[..v], f, turn) == FailKey(log, f, turn)
    ensures RepeatsAt(log[..v], f, turn, c, infer) <==> RepeatsAt(log, f, turn, c, infer)
  {
    assert log[..v][..f] == log[..f];
  }

  /** A call that was not refused on the log of `v` events, and that later repeats its
      key's latest failure, repeats one that came after, or one that was masked. */
  lemma RepeatIsNewOrMasked(log: Log, v: nat, n: nat, turn: nat, c: Call, f: nat, infer: ClassOf)
    requires Accepted(log) && v <= n <= |log| && !Refused(SeenIn(log[..v], turn), c, infer)
    requires LatestFailure(log, n, turn, KeyOf(c), f) && RepeatsAt(log, f, turn, c, infer)
    ensures f >= v || Masked(log, v, turn, KeyOf(c), f)
  {
    hide FailKey, SeenIn, Run, KeyOf, InvalidOrEmpty, Refused;
    if f < v {
      var cut := log[..v];
      PrefixAccepted(log, v);
      forall k | 0 <= k < v
        ensures cut[k] == log[k] && FailKey(cut, k, turn) == FailKey(log, k, turn)
        ensures Fails(cut, k, turn, KeyOf(c)) == Fails(log, k, turn, KeyOf(c))
      {
        CutSame(log, v, k, turn, c, infer);
      }
      CutSame(log, v, f, turn, c, infer);
      RefusedIffUnmasked(cut, turn, c, f, infer);
      var k :| f < k < v && cut[k].op == Replace && FailKey(cut, k, turn) == Some(KeyOf(c));
    }
  }
}
