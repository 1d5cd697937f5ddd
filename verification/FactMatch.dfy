/** Matching expected facts to actual ones (`evals/evaluators/fact.py`), for any notion of
    compatibility of two facts. */
module FactMatch {
  import opened Schema
  import opened Events

  /** The least unused position from `from` on that is compatible. */
  function FirstFit<E, A>(wanted: E, actual: seq<A>, compatible: (E, A) -> bool, used: set<nat>, from: nat): Option<nat>
    requires from <= |actual|
    decreases |actual| - from
  {
    if from == |actual| then None
    else if from !in used && compatible(wanted, actual[from]) then Some(from)
    else FirstFit(wanted, actual, compatible, used, from + 1)
  }

  lemma {:induction false} FirstFitIs<E, A>(wanted: E, actual: seq<A>, compatible: (E, A) -> bool, used: set<nat>, from: nat)
    requires from <= |actual|
    ensures var r := FirstFit(wanted, actual, compatible, used, from);
      && (r.Some? ==> from <= r.value < |actual| && r.value !in used && compatible(wanted, actual[r.value]))
      && (forall j | from <= j < (if r.Some? then r.value else |actual|) && compatible(wanted, actual[j]) :: j in used)
    decreases |actual| - from
  {
    if from < |actual| && !(from !in used && compatible(wanted, actual[from])) {
      FirstFitIs(wanted, actual, compatible, used, from + 1);
    }
  }

  /** For each expected fact, in order, the position matched to it. */
  function Greedy<E, A>(expected: seq<E>, actual: seq<A>, compatible: (E, A) -> bool): seq<Option<nat>> {
    if expected == [] then []
    else
      var front := Greedy(expected[..|expected| - 1], actual, compatible);
      front + [FirstFit(expected[|expected| - 1], actual, compatible, Used(front), 0)]
  }

  function Used(picks: seq<Option<nat>>): set<nat> {
    if picks == [] then {}
    else Used(picks[..|picks| - 1]) + if picks[|picks| - 1].Some? then {picks[|picks| - 1].value} else {}
  }

  function Matched(picks: seq<Option<nat>>): set<nat> {
    if picks == [] then {}
    else Matched(picks[..|picks| - 1]) + if picks[|picks| - 1].Some? then {|picks| - 1} else {}
  }

  ghost predicate Picks(picks: seq<Option<nat>>, j: nat) {
    exists i :: 0 <= i < |picks| && picks[i] == Some(j)
  }

  lemma {:induction false} UsedIff(picks: seq<Option<nat>>, j: nat)
    ensures j in Used(picks) <==> Picks(picks, j)
  {
    if picks != [] {
      var front := picks[..|picks| - 1];
      UsedIff(front, j);
      assert forall i | 0 <= i < |front| :: front[i] == picks[i];
      if Picks(front, j) {
        var i :| 0 <= i < |front| && front[i] == Some(j);
        assert picks[i] == Some(j);
      }
    }
  }

  lemma {:induction false} MatchedIff(picks: seq<Option<nat>>, i: nat)
    ensures i in Matched(picks) <==> i < |picks| && picks[i].Some?
  {
    if picks != [] { MatchedIff(picks[..|picks| - 1], i); }
  }

  datatype Match = Match(expected: nat, actual: nat)

  /** The matched pairs and the missing facts that the picks stand for. */
  function Pairs(picks: seq<Option<nat>>): seq<Match> {
    if picks == [] then []
    else
      var last := picks[|picks| - 1];
      Pairs(picks[..|picks| - 1]) + if last.Some? then [Match(|picks| - 1, last.value)] else []
  }

  function Missing(picks: seq<Option<nat>>): seq<nat> {
    if picks == [] then []
    else Missing(picks[..|picks| - 1]) + if picks[|picks| - 1].Some? then [] else [|picks| - 1]
  }

  /** The loop of `evaluate_facts`. */
  method MatchFacts<E, A>(expected: seq<E>, actual: seq<A>, compatible: (E, A) -> bool)
    returns (matched: seq<Match>, missing: seq<nat>)
    ensures var picks := Greedy(expected, actual, compatible);
      matched == Pairs(picks) && missing == Missing(picks)
  {
    matched, missing := [], [];
    var used: set<nat> := {};
    ghost var picks := [];
    for n := 0 to |expected|
      invariant picks == Greedy(expected[..n], actual, compatible) && |picks| == n
      invariant used == Used(picks) && matched == Pairs(picks) && missing == Missing(picks)
    {
      assert expected[..n + 1][..n] == expected[..n];
      var candidate := FirstFit(expected[n], actual, compatible, used, 0);
      ghost var more := picks + [candidate];
      assert more[..n] == picks;
      if candidate.None? {
        missing := missing + [n];
      } else {
        used := used + {candidate.value};
        matched := matched + [Match(n, candidate.value)];
      }
      picks := more;
    }
    assert expected[..|expected|] == expected;
  }

  // --------------------------------------------------------------- theorems

  /** Matches are compatible, and no actual fact is matched twice. */
  lemma {:induction false} GreedyIsMatching<E, A>(expected: seq<E>, actual: seq<A>, compatible: (E, A) -> bool)
    ensures var picks := Greedy(expected, actual, compatible);
      && |picks| == |expected|
      && (forall i | 0 <= i < |picks| && picks[i].Some? ::
            picks[i].value < |actual| && compatible(expected[i], actual[picks[i].value]))
      && (forall i, j | 0 <= i < j < |picks| && picks[i].Some? && picks[j].Some? :: picks[i].value != picks[j].value)
  {
    if expected != [] {
      var front := Greedy(expected[..|expected| - 1], actual, compatible);
      GreedyIsMatching(expected[..|expected| - 1], actual, compatible);
      var last := FirstFit(expected[|expected| - 1], actual, compatible, Used(front), 0);
      FirstFitIs(expected[|expected| - 1], actual, compatible, Used(front), 0);
      forall i | 0 <= i < |front| && front[i].Some?
        ensures Some(front[i].value) != last
      {
        UsedIff(front, front[i].value);
      }
    }
  }

  /** The matching is maximal: no missing fact has an unused compatible one. */
  lemma {:induction false} GreedyIsMaximal<E, A>(expected: seq<E>, actual: seq<A>, compatible: (E, A) -> bool, i: nat, j: nat)
    requires i < |expected| && j < |actual| && compatible(expected[i], actual[j])
    requires |Greedy(expected, actual, compatible)| == |expected| && Greedy(expected, actual, compatible)[i].None?
    ensures j in Used(Greedy(expected, actual, compatible))
  {
    var front := Greedy(expected[..|expected| - 1], actual, compatible);
    var picks := Greedy(expected, actual, compatible);
    GreedyIsMatching(expected[..|expected| - 1], actual, compatible);
    assert forall k | 0 <= k < |front| :: picks[k] == front[k];
    if i < |expected| - 1 {
      GreedyIsMaximal(expected[..|expected| - 1], actual, compatible, i, j);
    } else {
      FirstFitIs(expected[i], actual, compatible, Used(front), 0);
    }
    assert picks[..|picks| - 1] == front;
  }

  /** A one-to-one matching of expected to actual facts. */
  ghost predicate OneToOne<E, A>(m: map<nat, nat>, expected: seq<E>, actual: seq<A>, compatible: (E, A) -> bool) {
    && (forall i | i in m :: i < |expected| && m[i] < |actual| && compatible(expected[i], actual[m[i]]))
    && (forall i, j | i in m && j in m && m[i] == m[j] :: i == j)
  }

  lemma {:induction false} InjectionCard(keys: set<nat>, m: map<nat, nat>, values: set<nat>)
    requires forall i | i in keys :: i in m && m[i] in values
    requires forall i, j | i in keys && j in keys && m[i] == m[j] :: i == j
    ensures |keys| <= |values|
    decreases keys
  {
    if keys != {} {
      var i :| i in keys;
      InjectionCard(keys - {i}, m, values - {m[i]});
      assert |keys - {i}| == |keys| - 1 && |values - {m[i]}| == |values| - 1;
    }
  }

  lemma {:induction false} MatchedCard(picks: seq<Option<nat>>)
    requires forall i, j | 0 <= i < j < |picks| && picks[i].Some? && picks[j].Some? :: picks[i].value != picks[j].value
    ensures |Used(picks)| == |Matched(picks)| == |Pairs(picks)|
  {
    if picks != [] {
      var front, last := picks[..|picks| - 1], picks[|picks| - 1];
      MatchedCard(front);
      assert forall i | 0 <= i < |front| :: front[i] == picks[i];
      MatchedIff(front, |front|);
      if last.Some? { UsedIff(front, last.value); }
    }
  }

  /** The greedy matching has at least half as many matches as any one-to-one matching. */
  lemma AtLeastHalf<E, A>(expected: seq<E>, actual: seq<A>, compatible: (E, A) -> bool, m: map<nat, nat>)
    requires OneToOne(m, expected, actual, compatible)
    ensures |m| <= 2 * |Pairs(Greedy(expected, actual, compatible))|
  {
    var picks := Greedy(expected, actual, compatible);
    GreedyIsMatching(expected, actual, compatible);
    MatchedCard(picks);
    var hit, lost := m.Keys * Matched(picks), m.Keys - Matched(picks);
    forall i | i in lost
      ensures m[i] in Used(picks)
    {
      MatchedIff(picks, i);
      GreedyIsMaximal(expected, actual, compatible, i, m[i]);
    }
    InjectionCard(lost, m, Used(picks));
    SubsetCard(hit, Matched(picks));
    assert m.Keys == hit + lost;
    assert |m.Keys| == |hit| + |lost|;
  }

  lemma {:induction false} SubsetCard(a: set<nat>, b: set<nat>)
    requires a <= b
    ensures |a| <= |b|
  {
    assert b == a + (b - a);
  }

  /** Half is all that can be promised: two facts, of which the first takes the one that
      only the second could use otherwise. */
  lemma HalfIsTight<E, A>(e: seq<E>, a: seq<A>, compatible: (E, A) -> bool)
    requires |e| == |a| == 2
    requires compatible(e[0], a[0]) && compatible(e[0], a[1]) && compatible(e[1], a[0]) && !compatible(e[1], a[1])
    ensures OneToOne(map[0 := 1, 1 := 0], e, a, compatible)
    ensures Pairs(Greedy(e, a, compatible)) == [Match(0, 0)]
  {
    var first: seq<Option<nat>> := [Some(0)];
    var both: seq<Option<nat>> := [Some(0), None];
    assert e[..2] == e && e[..2][..1] == e[..1] && e[..1][..0] == [] && first[..0] == [] && both[..1] == first;
    assert Greedy([], a, compatible) == [] && Used([]) == {};
    assert Greedy(e[..1], a, compatible) == [FirstFit(e[0], a, compatible, {}, 0)] == first;
    assert Used(first) == {0};
    FirstFitIs(e[1], a, compatible, {0}, 0);
    assert FirstFit(e[1], a, compatible, {0}, 0) == None;
    assert Greedy(e, a, compatible) == both;
    assert Pairs(first) == [Match(0, 0)];
  }

  /** The metric part of `_same_identity`: equal, or one contains the other. */
  predicate SameMetric(expected: string, actual: string) {
    expected != "" && actual != "" && (expected == actual || Contains(actual, expected) || Contains(expected, actual))
  }

  lemma {:induction false} ContainsAt(s: string, part: string, n: nat)
    requires n <= |s| && part <= s[n..]
    ensures Contains(s, part)
  {
    if n > 0 { ContainsAt(s[1..], part, n - 1); }
  }

  lemma {:induction false} TooLong(s: string, part: string)
    requires |part| > |s|
    ensures !Contains(s, part)
  {
    if s != "" { TooLong(s[1..], part); }
  }

  /** Containment of metrics is such a relation: the vaguer fact takes the only match of
      the more specific one. */
  lemma MetricsHalf()
    ensures var e, a := ["sales", "net sales"], ["net sales", "new sales"];
      && OneToOne(map[0 := 1, 1 := 0], e, a, SameMetric)
      && Pairs(Greedy(e, a, SameMetric)) == [Match(0, 0)]
  {
    var e, a := ["sales", "net sales"], ["net sales", "new sales"];
    assert a[0][4..] == "sales" && a[1][4..] == "sales";
    ContainsAt(a[0], "sales", 4);
    ContainsAt(a[1], "sales", 4);
    assert a[1][2] == 'w' && e[1][2] == 't';
    TooLong(a[1][1..], e[1]);
    TooLong(e[1][1..], a[1]);
    HalfIsTight(e, a, SameMetric);
  }
}
