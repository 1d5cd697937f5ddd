/** Choosing what to fold into a summary (`_split_prefix`). */
module Split {
  import opened Schema
  import opened Events
  import opened Surface
  import opened SurfaceFacts
  import opened Units

  /** `surface_tokens`. */
  function SurfaceTokens(ms: seq<Msg>): nat {
    if ms == [] then 0
    else SurfaceTokens(ms[..|ms| - 1]) + 8 + Estimate(ms[|ms| - 1].content) + 8 * |ms[|ms| - 1].calls|
  }

  method CountSurfaceTokens(ms: seq<Msg>) returns (total: nat)
    ensures total == SurfaceTokens(ms)
  {
    total := 0;
    for i := 0 to |ms|
      invariant total == SurfaceTokens(ms[..i])
    {
      assert ms[..i + 1][..i] == ms[..i];
      total := total + 8 + Estimate(ms[i].content);
      if ms[i].calls != [] {
        total := total + 8 * |ms[i].calls|;
      }
    }
    assert ms[..|ms|] == ms;
  }

  /** `_seq_to_turn`. */
  function Turns(log: Log): map<nat, nat> {
    if log == [] then map[]
    else
      var e := log[|log| - 1];
      if e.turn.Some? then Turns(log[..|log| - 1])[e.seqNo := e.turn.value] else Turns(log[..|log| - 1])
  }

  lemma {:induction false} TurnsAt(log: Log, q: nat)
    requires Contiguous(log)
    ensures q in Turns(log) <==> 1 <= q <= |log| && log[q - 1].turn.Some?
    ensures q in Turns(log) ==> Turns(log)[q] == log[q - 1].turn.value
  {
    if log != [] { TurnsAt(log[..|log| - 1], q); }
  }

  method SeqToTurn(log: Log) returns (turns: map<nat, nat>)
    ensures turns == Turns(log)
  {
    turns := map[];
    for i := 0 to |log|
      invariant turns == Turns(log[..i])
    {
      assert log[..i + 1][..i] == log[..i];
      if log[i].turn.Some? {
        turns := turns[log[i].seqNo := log[i].turn.value];
      }
    }
    assert log[..|log|] == log;
  }

  predicate IsReal(s: Source) {
    s.User? || s.Legacy? || s.Vision?
  }

  /** A real user message that may be of turn `turn`. */
  predicate RealUser(m: Msg, turn: nat, turns: map<nat, nat>) {
    m.role.UserRole? && IsReal(m.source) && (m.seqNo in turns ==> turns[m.seqNo] == turn)
  }

  predicate HasRealUser(u: Unit, turn: nat, turns: map<nat, nat>) {
    exists i | 0 <= i < |u| :: RealUser(u[i], turn, turns)
  }

  /** The last of the first `n` units that holds such a message, or `n` when none does. */
  function LastReal(us: seq<Unit>, n: nat, turn: nat, turns: map<nat, nat>): Option<nat>
    requires n <= |us|
  {
    if n == 0 then None
    else if HasRealUser(us[n - 1], turn, turns) then Some(n - 1)
    else LastReal(us, n - 1, turn, turns)
  }

  /** The start of the tail that fits: units from the end while the tokens allow. */
  function TailFrom(us: seq<Unit>, t: nat, used: nat, retain: nat): (r: nat)
    requires t <= |us|
    ensures r <= t
  {
    if t == 0 then 0
    else if used + SurfaceTokens(us[t - 1]) > (if retain < 1 then 1 else retain) then t
    else TailFrom(us, t - 1, used + SurfaceTokens(us[t - 1]), retain)
  }

  predicate IsKept(us: seq<Unit>, i: nat, turn: nat, turns: map<nat, nat>, retain: nat)
    requires i < |us|
  {
    || |us| < 2
    || TailFrom(us, |us| - 1, SurfaceTokens(us[|us| - 1]), retain) <= i
    || LastReal(us, |us|, turn, turns) == Some(i)
  }

  /** The units up to `n` that are (`which`) or are not kept, end to end. */
  function Picked(us: seq<Unit>, n: nat, turn: nat, turns: map<nat, nat>, retain: nat, which: bool): seq<Msg>
    requires n <= |us|
  {
    if n == 0 then []
    else Picked(us, n - 1, turn, turns, retain, which)
         + if IsKept(us, n - 1, turn, turns, retain) == which then us[n - 1] else []
  }

  function Prefix(s: seq<Msg>, turn: nat, turns: map<nat, nat>, retain: nat): seq<Msg> {
    Picked(UnitsOf(s), |UnitsOf(s)|, turn, turns, retain, false)
  }

  function Rest(s: seq<Msg>, turn: nat, turns: map<nat, nat>, retain: nat): seq<Msg> {
    Picked(UnitsOf(s), |UnitsOf(s)|, turn, turns, retain, true)
  }

  /** `_is_incomplete_unit`: a call of the head has no result yet. */
  predicate Incomplete(u: Unit) {
    u != [] && Opens(u[0])
    && exists k | 0 <= k < |u[0].calls| :: u[0].calls[k].id != "" && u[0].calls[k].id !in Ids(u[1..])
  }

  method FindReal(us: seq<Unit>, turn: nat, turns: map<nat, nat>) returns (at: Option<nat>)
    ensures at == LastReal(us, |us|, turn, turns)
  {
    var index := |us|;
    while index > 0
      invariant 0 <= index <= |us| && LastReal(us, index, turn, turns) == LastReal(us, |us|, turn, turns)
    {
      index := index - 1;
      var found := false;
      for i := 0 to |us[index]|
        invariant found <==> exists k | 0 <= k < i :: RealUser(us[index][k], turn, turns)
      {
        if RealUser(us[index][i], turn, turns) {
          found := true;
        }
      }
      if found {
        return Some(index);
      }
    }
    return None;
  }

  lemma FewUnits(s: seq<Msg>, retain: nat, turn: nat, turns: map<nat, nat>)
    requires |UnitsOf(s)| < 2
    ensures Prefix(s, turn, turns, retain) == [] && Rest(s, turn, turns, retain) == s
  {
    var us := UnitsOf(s);
    FlatUnits(s);
    if us != [] {
      assert us[1..] == [];
      assert Picked(us, 0, turn, turns, retain, false) == [] == Picked(us, 0, turn, turns, retain, true);
      assert IsKept(us, 0, turn, turns, retain);
    }
  }

  method SplitPrefix(messages: seq<Msg>, retain: nat, turn: nat, turns: map<nat, nat>)
    returns (prefix: seq<Msg>, kept: seq<Msg>)
    ensures prefix == Prefix(messages, turn, turns, retain)
    ensures kept == Rest(messages, turn, turns, retain)
  {
    var units := SplitUnits(messages);
    if |units| < 2 {
      FewUnits(messages, retain, turn, turns);
      return [], messages;
    }
    var pinned: set<nat> := {};
    if Incomplete(units[|units| - 1]) {
      pinned := pinned + {|units| - 1};
    }
    var newest := FindReal(units, turn, turns);
    if newest.Some? {
      pinned := pinned + {newest.value};
    }
    var tail := KeepTail(units, retain);
    var keptIndices := tail + pinned;
    assert forall i: nat | i < |units| :: i in keptIndices <==> IsKept(units, i, turn, turns, retain);
    prefix, kept := Pick(units, keptIndices, turn, turns, retain);
  }

  ghost function Tail(units: seq<Unit>, retain: nat): nat
    requires units != []
  {
    TailFrom(units, |units| - 1, SurfaceTokens(units[|units| - 1]), retain)
  }

  method KeepTail(units: seq<Unit>, retain: nat) returns (keptIndices: set<nat>)
    requires |units| >= 2
    ensures forall i: nat :: i in keptIndices <==> Tail(units, retain) <= i < |units|
  {
    keptIndices := {|units| - 1};
    var used: nat := CountSurfaceTokens(units[|units| - 1]);
    var cursor: nat := |units| - 1;      // one past the unit looked at
    while cursor > 0
      invariant cursor <= |units| - 1
      invariant TailFrom(units, cursor, used, retain) == Tail(units, retain)
      invariant forall i: nat :: i in keptIndices <==> cursor <= i < |units|
    {
      var chunk := CountSurfaceTokens(units[cursor - 1]);
      if used + chunk > (if retain < 1 then 1 else retain) {
        break;
      }
      cursor := cursor - 1;
      keptIndices := keptIndices + {cursor};
      used := used + chunk;
    }
  }

  method Pick(units: seq<Unit>, keptIndices: set<nat>, ghost turn: nat, ghost turns: map<nat, nat>, ghost retain: nat)
    returns (prefix: seq<Msg>, kept: seq<Msg>)
    requires forall i: nat | i < |units| :: i in keptIndices <==> IsKept(units, i, turn, turns, retain)
    ensures prefix == Picked(units, |units|, turn, turns, retain, false)
    ensures kept == Picked(units, |units|, turn, turns, retain, true)
  {
    prefix, kept := [], [];
    for index := 0 to |units|
      invariant prefix == Picked(units, index, turn, turns, retain, false)
      invariant kept == Picked(units, index, turn, turns, retain, true)
    {
      if index in keptIndices {
        kept := kept + units[index];
      } else {
        prefix := prefix + units[index];
      }
    }
  }

  // ------------------------------------------------------------- soundness

  lemma {:induction false} PickedIff(us: seq<Unit>, n: nat, turn: nat, turns: map<nat, nat>, retain: nat, which: bool, m: Msg)
    requires n <= |us|
    ensures m in Picked(us, n, turn, turns, retain, which) <==>
            exists i | 0 <= i < n :: IsKept(us, i, turn, turns, retain) == which && m in us[i]
  {
    if n > 0 { PickedIff(us, n - 1, turn, turns, retain, which, m); }
  }

  lemma {:induction false} InFlat(us: seq<Unit>, i: nat, m: Msg) returns (p: nat)
    requires i < |us| && m in us[i]
    ensures p < |Flat(us)| && Flat(us)[p] == m
    ensures i == 0 ==> p < |us[0]|
    ensures i > 0 ==> |us[0]| <= p
  {
    if i == 0 {
      p :| 0 <= p < |us[0]| && us[0][p] == m;
    } else {
      var q := InFlat(us[1..], i - 1, m);
      p := |us[0]| + q;
    }
  }

  /** A message with unique sequence number belongs to one unit only. */
  lemma {:induction false} OneUnit(us: seq<Unit>, i: nat, j: nat, a: Msg, b: Msg)
    requires i < |us| && j < |us| && a in us[i] && b in us[j]
    requires Distinct(Flat(us)) && a.seqNo == b.seqNo
    ensures i == j
  {
    if i == 0 || j == 0 {
      var p := InFlat(us, i, a);
      var q := InFlat(us, j, b);
    } else {
      assert Flat(us)[|us[0]|..] == Flat(us[1..]);
      OneUnit(us[1..], i - 1, j - 1, a, b);
    }
  }

  ghost function SeqSet(s: seq<Msg>): set<nat> {
    set m | m in s :: m.seqNo
  }

  lemma PrefixWithin(s: seq<Msg>, turn: nat, turns: map<nat, nat>, retain: nat, m: Msg)
    requires m in Prefix(s, turn, turns, retain)
    ensures m in s
  {
    var us := UnitsOf(s);
    FlatUnits(s);
    PickedIff(us, |us|, turn, turns, retain, false, m);
    var i :| 0 <= i < |us| && !IsKept(us, i, turn, turns, retain) && m in us[i];
    var p := InFlat(us, i, m);
  }

  /** The prefix consists of whole units: no other unit is touched. */
  lemma PrefixAligned(s: seq<Msg>, turn: nat, turns: map<nat, nat>, retain: nat)
    requires Distinct(s)
    ensures Aligned(UnitsOf(s), SeqSet(Prefix(s, turn, turns, retain)))
  {
    var us := UnitsOf(s);
    FlatUnits(s);
    forall i, m: Msg, x: Msg | 0 <= i < |us| && m in us[i] && x in us[i] && m.seqNo in SeqSet(Prefix(s, turn, turns, retain))
      ensures x.seqNo in SeqSet(Prefix(s, turn, turns, retain))
    {
      var y: Msg :| y in Prefix(s, turn, turns, retain) && y.seqNo == m.seqNo;
      PickedIff(us, |us|, turn, turns, retain, false, y);
      var j :| 0 <= j < |us| && !IsKept(us, j, turn, turns, retain) && y in us[j];
      OneUnit(us, i, j, m, y);
      PickedIff(us, |us|, turn, turns, retain, false, x);
    }
  }
}
