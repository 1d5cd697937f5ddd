/** Units of the surface: an assistant message with tool calls together with the
    tool results that follow it (`_units`), and what may be cut out without
    separating a call from its results. */
module Units {
  import opened Schema
  import opened Events
  import opened Surface
  import opened SurfaceFacts

  type Unit = seq<Msg>

  predicate Opens(m: Msg) {
    m.role.AssistantRole? && m.calls != []
  }

  function ToolRun(s: seq<Msg>): (n: nat)
    ensures n <= |s| && (forall k | 0 <= k < n :: s[k].role.ToolRole?)
    ensures n < |s| ==> !s[n].role.ToolRole?
  {
    if s != [] && s[0].role.ToolRole? then 1 + ToolRun(s[1..]) else 0
  }

  /** The length of the first unit. */
  function Head(s: seq<Msg>): (n: nat)
    requires s != []
    ensures 1 <= n <= |s|
  {
    if Opens(s[0]) then 1 + ToolRun(s[1..]) else 1
  }

  /** `_units`. */
  function UnitsOf(s: seq<Msg>): seq<Unit>
    decreases |s|
  {
    if s == [] then [] else [s[..Head(s)]] + UnitsOf(s[Head(s)..])
  }

  method SplitUnits(messages: seq<Msg>) returns (grouped: seq<Unit>)
    ensures grouped == UnitsOf(messages)
  {
    grouped := [];
    var index := 0;
    while index < |messages|
      invariant 0 <= index <= |messages|
      invariant grouped + UnitsOf(messages[index..]) == UnitsOf(messages)
    {
      var end := Bundle(messages, index);
      var bundle := messages[index..end];
      NextUnit(messages, index, end, grouped);
      grouped := grouped + [bundle];
      index := end;
    }
  }

  lemma NextUnit(s: seq<Msg>, index: nat, end: nat, grouped: seq<Unit>)
    requires index < |s| && index + Head(s[index..]) == end
    ensures grouped + UnitsOf(s[index..]) == (grouped + [s[index..end]]) + UnitsOf(s[end..])
  {
    var rest, n := s[index..], end - index;
    assert rest[..n] == s[index..end] && rest[n..] == s[end..];
    Shift(grouped, rest[..n], UnitsOf(rest[n..]));
  }

  lemma Shift(a: seq<Unit>, u: Unit, b: seq<Unit>)
    ensures a + ([u] + b) == (a + [u]) + b
  {
  }

  /** The end of the unit that starts at `start`. */
  method Bundle(messages: seq<Msg>, start: nat) returns (index: nat)
    requires start < |messages|
    ensures index == start + Head(messages[start..]) && index <= |messages|
  {
    index := start + 1;
    if Opens(messages[start]) {
      while index < |messages| && messages[index].role.ToolRole?
        invariant start < index <= |messages|
        invariant forall k | start < k < index :: messages[k].role.ToolRole?
      {
        index := index + 1;
      }
      ToolRunIs(messages[start..][1..], index - start - 1);
    }
  }

  lemma ToolRunIs(s: seq<Msg>, n: nat)
    requires n <= |s| && forall k | 0 <= k < n :: s[k].role.ToolRole?
    requires n < |s| ==> !s[n].role.ToolRole?
    ensures ToolRun(s) == n
  {
  }

  function Flat(us: seq<Unit>): seq<Msg> {
    if us == [] then [] else us[0] + Flat(us[1..])
  }

  /** A unit that starts with its own head: no tool result on its own. */
  predicate Tidy(u: Unit) {
    && u != [] && !u[0].role.ToolRole?
    && (if Opens(u[0]) then forall k | 1 <= k < |u| :: u[k].role.ToolRole? else |u| == 1)
  }

  lemma Unfold(s: seq<Msg>)
    requires s != []
    ensures |UnitsOf(s)| == 1 + |UnitsOf(s[Head(s)..])|
    ensures UnitsOf(s)[0] == s[..Head(s)] && UnitsOf(s)[1..] == UnitsOf(s[Head(s)..])
  {
  }

  lemma FlatCons(u: Unit, us: seq<Unit>)
    ensures Flat([u] + us) == u + Flat(us)
  {
    assert ([u] + us)[1..] == us;
  }

  /** The units partition the surface. */
  lemma {:induction false} FlatUnits(s: seq<Msg>)
    ensures Flat(UnitsOf(s)) == s
    decreases |s|
  {
    hide Head;
    if s != [] {
      var n := Head(s);
      FlatUnits(s[n..]);
      FlatCons(s[..n], UnitsOf(s[n..]));
      assert UnitsOf(s) == [s[..n]] + UnitsOf(s[n..]);
      assert s == s[..n] + s[n..];
    }
  }

  /** Units laid end to end are found again. */
  lemma {:induction false} UnitsFlat(us: seq<Unit>)
    requires forall i | 0 <= i < |us| :: Tidy(us[i])
    ensures UnitsOf(Flat(us)) == us
  {
    if us != [] {
      UnitsFlat(us[1..]);
      var u, rest := us[0], Flat(us[1..]);
      var s := u + rest;
      assert s[..|u|] == u && s[|u|..] == rest;
      if |us| > 1 { assert rest[0] == us[1][0]; }
      if Opens(u[0]) {
        assert forall k | 0 <= k < |u| - 1 :: s[1..][k] == u[k + 1];
        assert |u| - 1 < |s[1..]| ==> s[1..][|u| - 1] == rest[0];
        ToolRunIs(s[1..], |u| - 1);
      }
    }
  }

  // --------------------------------------------------------------- pairing

  function Ids(tools: seq<Msg>): seq<string> {
    if tools == [] then [] else [tools[0].callId] + Ids(tools[1..])
  }

  /** How the results behind an assistant message answer its calls. */
  type Answering = (seq<Call>, seq<string>) -> bool

  ghost predicate UnitOk(u: Unit, ok: Answering) {
    Tidy(u) && (Opens(u[0]) ==> ok(u[0].calls, Ids(u[1..])))
  }

  /** No tool message stands alone, and behind every assistant message with calls
      stand results that answer it as `ok` asks. */
  ghost predicate Paired(s: seq<Msg>, ok: Answering) {
    forall i | 0 <= i < |UnitsOf(s)| :: UnitOk(UnitsOf(s)[i], ok)
  }

  function CallIds(calls: seq<Call>): seq<string> {
    if calls == [] then [] else [calls[0].id] + CallIds(calls[1..])
  }

  /** Exactly one result for each call, in any order. */
  ghost predicate AnsweredExactly(calls: seq<Call>, ids: seq<string>) {
    multiset(ids) == multiset(CallIds(calls))
  }

  /** Each unit is dropped as a whole or not touched. */
  ghost predicate Aligned(us: seq<Unit>, drop: set<nat>) {
    forall i | 0 <= i < |us| ::
      (forall m | m in us[i] :: m.seqNo in drop) || (forall m | m in us[i] :: m.seqNo !in drop)
  }

  predicate Gone(u: Unit, drop: set<nat>) {
    u != [] && u[0].seqNo in drop
  }

  function KeepUnits(us: seq<Unit>, drop: set<nat>): seq<Unit>
  {
    if us == [] then []
    else (if Gone(us[0], drop) then [] else [us[0]]) + KeepUnits(us[1..], drop)
  }

  function SpliceUnits(us: seq<Unit>, drop: set<nat>, m: Msg): seq<Unit>
  {
    if us == [] then [[m]]
    else if Gone(us[0], drop) then [[m]] + KeepUnits(us[1..], drop)
    else [us[0]] + SpliceUnits(us[1..], drop, m)
  }

  lemma {:induction false} WithoutAll(u: seq<Msg>, drop: set<nat>)
    requires forall m | m in u :: m.seqNo in drop
    ensures Without(u, drop) == []
  {
    if u != [] { WithoutAll(u[1..], drop); }
  }

  lemma {:induction false} WithoutNone(u: seq<Msg>, drop: set<nat>)
    requires forall m | m in u :: m.seqNo !in drop
    ensures Without(u, drop) == u
  {
    if u != [] { WithoutNone(u[1..], drop); }
  }

  lemma {:induction false} WithoutByUnits(us: seq<Unit>, drop: set<nat>)
    requires Aligned(us, drop) && forall i | 0 <= i < |us| :: us[i] != []
    ensures Without(Flat(us), drop) == Flat(KeepUnits(us, drop))
    ensures forall i | 0 <= i < |KeepUnits(us, drop)| :: KeepUnits(us, drop)[i] in us
  {
    if us != [] {
      WithoutByUnits(us[1..], drop);
      WithoutAppend(us[0], Flat(us[1..]), drop);
      if Gone(us[0], drop) {
        WithoutAll(us[0], drop);
        assert KeepUnits(us, drop) == KeepUnits(us[1..], drop);
      } else {
        WithoutNone(us[0], drop);
        assert KeepUnits(us, drop)[1..] == KeepUnits(us[1..], drop);
      }
    }
  }

  lemma {:induction false} SpliceSkips(u: seq<Msg>, rest: seq<Msg>, drop: set<nat>, m: Msg)
    requires forall x | x in u :: x.seqNo !in drop
    ensures Splice(u + rest, drop, m, true) == u + Splice(rest, drop, m, true)
  {
    if u == [] {
      assert u + rest == rest;
    } else {
      assert (u + rest)[1..] == u[1..] + rest;
      SpliceSkips(u[1..], rest, drop, m);
    }
  }

  lemma SpliceDrops(u: Unit, rest: seq<Msg>, drop: set<nat>, m: Msg)
    requires u != [] && forall x | x in u :: x.seqNo in drop
    ensures Splice(u + rest, drop, m, true) == [m] + Without(rest, drop)
  {
    assert (u + rest)[1..] == u[1..] + rest;
    WithoutAppend(u[1..], rest, drop);
    WithoutAll(u[1..], drop);
  }

  lemma {:induction false} SpliceByUnits(us: seq<Unit>, drop: set<nat>, m: Msg)
    requires Aligned(us, drop) && forall i | 0 <= i < |us| :: us[i] != []
    ensures Splice(Flat(us), drop, m, true) == Flat(SpliceUnits(us, drop, m))
    ensures forall i | 0 <= i < |SpliceUnits(us, drop, m)| ::
              SpliceUnits(us, drop, m)[i] in us || SpliceUnits(us, drop, m)[i] == [m]
  {
    if us == [] {
      assert [[m]][1..] == [];
    } else if Gone(us[0], drop) {
      assert us[0][0] in us[0];
      WithoutByUnits(us[1..], drop);
      SpliceDrops(us[0], Flat(us[1..]), drop, m);
      assert ([[m]] + KeepUnits(us[1..], drop))[1..] == KeepUnits(us[1..], drop);
    } else {
      assert us[0][0] in us[0];
      SpliceByUnits(us[1..], drop, m);
      SpliceSkips(us[0], Flat(us[1..]), drop, m);
      assert SpliceUnits(us, drop, m)[1..] == SpliceUnits(us[1..], drop, m);
    }
  }

  /** A summary that replaces whole units lands on a unit boundary and separates
      no call from its results. */
  lemma SummaryKeepsPairs(s: seq<Msg>, drop: set<nat>, m: Msg, ok: Answering)
    requires Paired(s, ok) && Aligned(UnitsOf(s), drop) && m.role.UserRole?
    ensures Paired(Splice(s, drop, m, true), ok)
  {
    var us := UnitsOf(s);
    FlatUnits(s);
    SpliceByUnits(us, drop, m);
    forall i | 0 <= i < |SpliceUnits(us, drop, m)|
      ensures UnitOk(SpliceUnits(us, drop, m)[i], ok)
    {
      var u := SpliceUnits(us, drop, m)[i];
      if u in us {
        var k :| 0 <= k < |us| && us[k] == u;
      }
    }
    UnitsFlat(SpliceUnits(us, drop, m));
  }

  /** Messages that differ in their text only. */
  ghost predicate Alike(s: seq<Msg>, t: seq<Msg>) {
    && |s| == |t|
    && forall i | 0 <= i < |s| ::
         s[i].role == t[i].role && s[i].calls == t[i].calls && s[i].callId == t[i].callId
  }

  lemma {:induction false} AlikeRun(s: seq<Msg>, t: seq<Msg>)
    requires Alike(s, t)
    ensures ToolRun(s) == ToolRun(t)
  {
    if s != [] { AlikeRun(s[1..], t[1..]); }
  }

  lemma {:induction false} AlikeIds(s: seq<Msg>, t: seq<Msg>)
    requires Alike(s, t)
    ensures Ids(s) == Ids(t)
  {
    if s != [] { AlikeIds(s[1..], t[1..]); }
  }

  lemma AlikeOk(u: Unit, v: Unit, ok: Answering)
    requires Alike(u, v)
    ensures UnitOk(u, ok) <==> UnitOk(v, ok)
  {
    if u != [] { AlikeIds(u[1..], v[1..]); }
  }

  lemma {:induction false} AlikePaired(s: seq<Msg>, t: seq<Msg>, ok: Answering)
    requires Alike(s, t)
    ensures Paired(s, ok) <==> Paired(t, ok)
    decreases |s|
  {
    if s != [] {
      AlikeRun(s[1..], t[1..]);
      var n := Head(s);
      AlikePaired(s[n..], t[n..], ok);
      AlikeOk(s[..n], t[..n], ok);
      PairedCons(s[..n], s[n..], ok);
      PairedCons(t[..n], t[n..], ok);
      assert UnitsOf(s) == [s[..n]] + UnitsOf(s[n..]);
      assert UnitsOf(t) == [t[..n]] + UnitsOf(t[n..]);
    }
  }

  lemma PairedCons(u: Unit, rest: seq<Msg>, ok: Answering)
    ensures (forall i | 0 <= i < |[u] + UnitsOf(rest)| :: UnitOk(([u] + UnitsOf(rest))[i], ok))
            <==> UnitOk(u, ok) && Paired(rest, ok)
  {
    var all := [u] + UnitsOf(rest);
    assert all[0] == u && all[1..] == UnitsOf(rest);
    assert forall i | 0 < i < |all| :: all[i] == UnitsOf(rest)[i - 1];
    assert forall i | 0 <= i < |UnitsOf(rest)| :: UnitsOf(rest)[i] == all[i + 1];
  }

  /** Replacing one tool result by another for the same call separates nothing. */
  lemma {:induction false} ReplaceIsAlike(s: seq<Msg>, q: nat, m: Msg)
    requires Distinct(s) && m.role.ToolRole? && m.calls == []
    requires forall x | x in s && x.seqNo == q :: x.role.ToolRole? && x.calls == [] && x.callId == m.callId
    ensures Alike(s, Splice(s, {q}, m, false))
  {
    if s != [] {
      if s[0].seqNo == q {
        WithoutNone(s[1..], {q});
      } else {
        ReplaceIsAlike(s[1..], q, m);
      }
    }
  }

  lemma TrimKeepsPairs(s: seq<Msg>, q: nat, m: Msg, ok: Answering)
    requires Distinct(s) && m.role.ToolRole? && m.calls == []
    requires forall x | x in s && x.seqNo == q :: x.role.ToolRole? && x.calls == [] && x.callId == m.callId
    ensures Paired(s, ok) <==> Paired(Splice(s, {q}, m, false), ok)
  {
    ReplaceIsAlike(s, q, m);
    AlikePaired(s, Splice(s, {q}, m, false), ok);
  }
}
