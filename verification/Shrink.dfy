/** Fitting a structured summary into a token budget: `_protected`,
    `protected_summary_tokens` and `shrink_summary_v2` of `harness/compaction/compact.py`. */
module Shrink {
  import opened Schema
  import opened Subsequence
  import RenderSize

  predicate Urgent(p: Priority) {
    p.High? || p.Critical?
  }

  /** `_protected`. */
  predicate Protected(i: Item, f: Field, turn: int) {
    if f.OpenItems? && i.status.Active? then true
    else if f.CompletedItems? && i.updatedTurn == turn then true
    else if (f.Constraints? || f.Preferences? || f.Entities?) && i.status.Active? then
      Urgent(i.priority) || !f.Constraints?
    else if f.Resources? && i.rebuildable.No? then true
    else if f.Failures? && i.retryable.No? && i.status.Active? then true
    else if f.Facts? && (Urgent(i.priority) || i.updatedTurn == turn) then true
    else i.priority.Critical? || (i.updatedTurn == turn && f.OpenItems?)
  }

  /** The eviction order of the fields; open items are never candidates. */
  const ORDER: seq<Field> :=
    [ConversationNotes, Failures, ToolState, CompletedItems, Resources,
     Decisions, Facts, Skills, Preferences, Entities, Constraints]

  /** The place of a field in the eviction order. */
  function Place(f: Field): nat {
    match f
    case ConversationNotes => 0 case Failures => 1 case ToolState => 2 case CompletedItems => 3
    case Resources => 4 case Decisions => 5 case Facts => 6 case Skills => 7
    case Preferences => 8 case Entities => 9 case Constraints => 10 case OpenItems => 11
  }

  lemma OrderPlaces(f: Field)
    ensures f in ORDER <==> !f.OpenItems?
    ensures !f.OpenItems? ==> ORDER[Place(f)] == f
  {
    match f case _ => assert f == OpenItems || ORDER[Place(f)] == f;
  }

  function Rank(p: Priority): nat {
    match p case Low => 0 case Normal => 1 case High => 2 case Critical => 3
  }

  /** A candidate for eviction, compared as the tuple of its components. */
  datatype Candidate = Candidate(field: Field, rank: nat, turn: int, id: string)

  predicate TextLess(s: string, t: string) {
    t != "" && (s == "" || s[0] < t[0] || (s[0] == t[0] && TextLess(s[1..], t[1..])))
  }

  predicate Less(a: Candidate, b: Candidate) {
    if a.field != b.field then Place(a.field) < Place(b.field)
    else if a.rank != b.rank then a.rank < b.rank
    else if a.turn != b.turn then a.turn < b.turn
    else TextLess(a.id, b.id)
  }

  lemma {:induction false} TextLessOrder(s: string, t: string, u: string)
    ensures !TextLess(s, s)
    ensures s != t ==> TextLess(s, t) || TextLess(t, s)
    ensures TextLess(s, t) && TextLess(t, u) ==> TextLess(s, u)
  {
    if s != "" { TextLessOrder(s[1..], s[1..], s[1..]); }
    if s != "" && t != "" && s[0] == t[0] && s != t {
      assert s == [s[0]] + s[1..] && t == [t[0]] + t[1..];
      TextLessOrder(s[1..], t[1..], t[1..]);
    }
    if s != "" && t != "" && u != "" && s[0] == t[0] == u[0] {
      TextLessOrder(s[1..], t[1..], u[1..]);
    }
  }

  lemma LessOrder(a: Candidate, b: Candidate, c: Candidate)
    ensures !Less(a, a)
    ensures a != b ==> Less(a, b) || Less(b, a)
    ensures Less(a, b) && Less(b, c) ==> Less(a, c)
  {
    TextLessOrder(a.id, b.id, c.id);
  }

  function KeyOf(i: Item, f: Field): Candidate {
    Candidate(f, Rank(i.priority), i.updatedTurn, i.id)
  }

  function FieldCandidates(items: seq<Item>, f: Field, turn: int): seq<Candidate> {
    if items == [] then []
    else
      var last := items[|items| - 1];
      FieldCandidates(items[..|items| - 1], f, turn)
      + if Protected(last, f, turn) then [] else [KeyOf(last, f)]
  }

  function CandidatesIn(s: Summary, turn: int, fields: seq<Field>): seq<Candidate> {
    if fields == [] then []
    else
      var f := fields[|fields| - 1];
      CandidatesIn(s, turn, fields[..|fields| - 1]) + FieldCandidates(s.Get(f), f, turn)
  }

  function Candidates(s: Summary, turn: int): seq<Candidate> {
    CandidatesIn(s, turn, ORDER)
  }

  predicate Evictable(s: Summary, turn: int, f: Field, i: Item) {
    !f.OpenItems? && i in s.Get(f) && !Protected(i, f, turn)
  }

  lemma {:induction false} FieldCandidatesIff(items: seq<Item>, f: Field, turn: int, c: Candidate)
    ensures c in FieldCandidates(items, f, turn) <==>
            exists i :: i in items && !Protected(i, f, turn) && c == KeyOf(i, f)
  {
    if items != [] {
      var front, last := items[..|items| - 1], items[|items| - 1];
      assert items == front + [last];
      FieldCandidatesIff(front, f, turn, c);
    }
  }

  lemma {:induction false} CandidatesInIff(s: Summary, turn: int, fields: seq<Field>, c: Candidate)
    ensures c in CandidatesIn(s, turn, fields) <==>
            c.field in fields && exists i :: i in s.Get(c.field) && !Protected(i, c.field, turn) && c == KeyOf(i, c.field)
  {
    if fields != [] {
      var front, f := fields[..|fields| - 1], fields[|fields| - 1];
      assert fields == front + [f];
      CandidatesInIff(s, turn, front, c);
      FieldCandidatesIff(s.Get(f), f, turn, c);
    }
  }

  lemma CandidatesIff(s: Summary, turn: int, c: Candidate)
    ensures c in Candidates(s, turn) <==> exists i :: Evictable(s, turn, c.field, i) && c == KeyOf(i, c.field)
  {
    CandidatesInIff(s, turn, ORDER, c);
    OrderPlaces(c.field);
    assert forall i :: Evictable(s, turn, c.field, i) <==>
             !c.field.OpenItems? && i in s.Get(c.field) && !Protected(i, c.field, turn);
  }

  function Least(cs: seq<Candidate>): Candidate
    requires cs != []
  {
    if |cs| == 1 then cs[0]
    else
      var rest := Least(cs[..|cs| - 1]);
      if Less(cs[|cs| - 1], rest) then cs[|cs| - 1] else rest
  }

  lemma {:induction false} LeastIsLeast(cs: seq<Candidate>)
    requires cs != []
    ensures Least(cs) in cs
    ensures forall c | c in cs && c != Least(cs) :: Less(Least(cs), c)
  {
    if |cs| > 1 {
      var front, last := cs[..|cs| - 1], cs[|cs| - 1];
      LeastIsLeast(front);
      forall c | c in cs && c != Least(cs)
        ensures Less(Least(cs), c)
      {
        LessOrder(last, Least(front), c);
        LessOrder(Least(front), last, c);
      }
    }
  }

  function DropId(items: seq<Item>, id: string): seq<Item> {
    if items == [] then []
    else (if items[0].id == id then [] else [items[0]]) + DropId(items[1..], id)
  }

  lemma {:induction false} DropIdIff(items: seq<Item>, id: string)
    ensures forall i :: i in DropId(items, id) <==> i in items && i.id != id
    ensures |DropId(items, id)| <= |items|
    ensures (exists i :: i in items && i.id == id) ==> |DropId(items, id)| < |items|
    ensures Sub(DropId(items, id), items)
  {
    if items != [] {
      DropIdIff(items[1..], id);
      assert items == [items[0]] + items[1..];
      SubCons(items[0], items[0].id != id, DropId(items[1..], id), items[1..]);
    }
  }

  function Evict(s: Summary, c: Candidate): Summary {
    s.(items := s.items[c.field := DropId(s.Get(c.field), c.id)])
  }

  function Total(s: Summary, fields: seq<Field>): nat {
    if fields == [] then 0 else |s.Get(fields[0])| + Total(s, fields[1..])
  }

  /** The number of items that could still go. */
  function Size(s: Summary): nat {
    Total(s, ORDER)
  }

  lemma EvictGet(s: Summary, c: Candidate, f: Field)
    ensures Evict(s, c).Get(f) == if f == c.field then DropId(s.Get(f), c.id) else s.Get(f)
  {
  }

  lemma {:induction false} EvictTotal(s: Summary, c: Candidate, fields: seq<Field>)
    requires exists i :: i in s.Get(c.field) && i.id == c.id
    ensures Total(Evict(s, c), fields) + (if c.field in fields then 1 else 0) <= Total(s, fields)
  {
    if fields != [] {
      EvictTotal(s, c, fields[1..]);
      EvictGet(s, c, fields[0]);
      DropIdIff(s.Get(c.field), c.id);
    }
  }

  lemma EvictShrinks(s: Summary, turn: int, c: Candidate)
    requires c in Candidates(s, turn)
    ensures Size(Evict(s, c)) < Size(s)
  {
    CandidatesIff(s, turn, c);
    OrderPlaces(c.field);
    EvictTotal(s, c, ORDER);
  }

  function Victim(s: Summary, turn: int): (c: Candidate)
    requires Candidates(s, turn) != []
    ensures c in Candidates(s, turn)
  {
    LeastIsLeast(Candidates(s, turn));
    Least(Candidates(s, turn))
  }

  /** The eviction loop: one victim at a time until the text fits. */
  function Evicted(s: Summary, turn: int, budget: int): Summary
    decreases Size(s)
  {
    if Tokens(s) <= budget || Candidates(s, turn) == [] then s
    else
      EvictShrinks(s, turn, Victim(s, turn));
      Evicted(Evict(s, Victim(s, turn)), turn, budget)
  }

  function OnlyLive(items: seq<Item>): seq<Item> {
    if items == [] then [] else (if Live(items[0]) then [items[0]] else []) + OnlyLive(items[1..])
  }

  function LiveSummary(s: Summary): Summary {
    s.(items := map f: Field :: OnlyLive(s.Get(f)))
  }

  function Fit(live: Summary, turn: int, budget: int, dropNarrative: bool): Summary {
    if Tokens(live) <= budget then live
    else Evicted(if dropNarrative then live.(narrative := "") else live, turn, budget)
  }

  /** `shrink_summary_v2`. */
  function Shrunk(s: Summary, turn: int, budget: int, dropNarrative: bool): Summary {
    Fit(LiveSummary(s), turn, budget, dropNarrative)
  }

  // ------------------------------------------------- the loops of the source

  method CollectCandidates(s: Summary, turn: int) returns (found: seq<Candidate>)
    ensures found == Candidates(s, turn)
  {
    found := [];
    var order := ORDER;
    for n := 0 to |order|
      invariant found == CandidatesIn(s, turn, order[..n])
    {
      var f := order[n];
      var own := CollectField(s.Get(f), f, turn);
      assert order[..n + 1][..n] == order[..n];
      found := found + own;
    }
    assert order[..|order|] == order;
  }

  method CollectField(items: seq<Item>, f: Field, turn: int) returns (own: seq<Candidate>)
    ensures own == FieldCandidates(items, f, turn)
  {
    own := [];
    for k := 0 to |items|
      invariant own == FieldCandidates(items[..k], f, turn)
    {
      assert items[..k + 1][..k] == items[..k];
      if !Protected(items[k], f, turn) {
        own := own + [KeyOf(items[k], f)];
      }
    }
    assert items[..|items|] == items;
  }

  method MinCandidate(cs: seq<Candidate>) returns (c: Candidate)
    requires cs != []
    ensures c == Least(cs)
  {
    c := cs[0];
    for k := 1 to |cs|
      invariant c == Least(cs[..k])
    {
      assert cs[..k + 1][..k] == cs[..k];
      if Less(cs[k], c) {
        c := cs[k];
      }
    }
    assert cs[..|cs|] == cs;
  }

  method ShrinkSummary(s: Summary, turn: int, budget: int, dropNarrative: bool) returns (current: Summary)
    ensures current == Shrunk(s, turn, budget, dropNarrative)
  {
    current := LiveSummary(s);
    if Tokens(current) <= budget {
      return;
    }
    if dropNarrative {
      current := current.(narrative := "");
    }
    ghost var goal := Evicted(current, turn, budget);
    while Tokens(current) > budget
      invariant Evicted(current, turn, budget) == goal
      decreases Size(current)
    {
      var candidates := CollectCandidates(current, turn);
      if candidates == [] {
        break;
      }
      var victim := MinCandidate(candidates);
      EvictShrinks(current, turn, Victim(current, turn));
      current := Evict(current, victim);
    }
  }

  // -------------------------------------------------------------- theorems

  /** No unprotected candidate carries the id of a protected item of its field:
      what protection relies on, since a victim is removed by id. */
  ghost predicate NoSharedIds(s: Summary, turn: int) {
    forall g: Field, i, j | !g.OpenItems? && i in s.Get(g) && j in s.Get(g)
      && Protected(i, g, turn) && !Protected(j, g, turn) :: i.id != j.id
  }

  ghost predicate UniqueIds(s: Summary) {
    forall g: Field, i, j | !g.OpenItems? && i in s.Get(g) && j in s.Get(g) && i.id == j.id :: i == j
  }

  /** `r` is `s` with some items left out. */
  ghost predicate Within(r: Summary, s: Summary) {
    forall f :: Sub(r.Get(f), s.Get(f))
  }

  lemma EvictWithin(s: Summary, c: Candidate)
    ensures Within(Evict(s, c), s)
  {
    forall f
      ensures Sub(Evict(s, c).Get(f), s.Get(f))
    {
      EvictGet(s, c, f);
      DropIdIff(s.Get(f), c.id);
      SubRefl(s.Get(f));
    }
  }

  lemma WithinTrans(a: Summary, b: Summary, c: Summary)
    requires Within(a, b) && Within(b, c)
    ensures Within(a, c)
  {
    forall f { SubTrans(a.Get(f), b.Get(f), c.Get(f)); }
  }

  lemma {:induction false} EvictedWithin(s: Summary, turn: int, budget: int)
    ensures Within(Evicted(s, turn, budget), s)
    decreases Size(s)
  {
    forall f { SubRefl(s.Get(f)); }
    if Tokens(s) > budget && Candidates(s, turn) != [] {
      var v := Victim(s, turn);
      EvictShrinks(s, turn, v);
      EvictedWithin(Evict(s, v), turn, budget);
      EvictWithin(s, v);
      WithinTrans(Evicted(s, turn, budget), Evict(s, v), s);
    }
  }

  lemma {:induction false} OnlyLiveIff(items: seq<Item>)
    ensures Sub(OnlyLive(items), items)
    ensures forall i :: i in OnlyLive(items) <==> i in items && Live(i)
  {
    if items != [] {
      OnlyLiveIff(items[1..]);
      assert items == [items[0]] + items[1..];
      SubCons(items[0], Live(items[0]), OnlyLive(items[1..]), items[1..]);
    }
  }

  lemma LiveGet(s: Summary, f: Field)
    ensures LiveSummary(s).Get(f) == OnlyLive(s.Get(f))
  {
  }

  /** What a summary keeps when everything evictable is gone. */
  function Solid(items: seq<Item>, f: Field, turn: int): seq<Item> {
    if items == [] then []
    else (if f.OpenItems? || Protected(items[0], f, turn) then [items[0]] else []) + Solid(items[1..], f, turn)
  }

  lemma {:induction false} SolidSub(items: seq<Item>, f: Field, turn: int)
    ensures Sub(Solid(items, f, turn), items)
    ensures forall i :: i in Solid(items, f, turn) <==> i in items && (f.OpenItems? || Protected(i, f, turn))
    ensures (forall i | i in items :: f.OpenItems? || Protected(i, f, turn)) ==> Solid(items, f, turn) == items
  {
    if items != [] {
      SolidSub(items[1..], f, turn);
      assert items == [items[0]] + items[1..];
      SubCons(items[0], f.OpenItems? || Protected(items[0], f, turn), Solid(items[1..], f, turn), items[1..]);
    }
  }

  lemma {:induction false} SolidDropId(items: seq<Item>, f: Field, turn: int, id: string)
    requires forall i | i in items && (f.OpenItems? || Protected(i, f, turn)) :: i.id != id
    ensures Solid(DropId(items, id), f, turn) == Solid(items, f, turn)
  {
    if items != [] {
      SolidDropId(items[1..], f, turn, id);
      if items[0].id != id {
        assert DropId(items, id)[1..] == DropId(items[1..], id);
      } else {
        assert DropId(items, id) == DropId(items[1..], id);
      }
    }
  }

  function Core(s: Summary, turn: int): Summary {
    Summary(map f: Field :: Solid(s.Get(f), f, turn), "")
  }

  lemma CoreGet(s: Summary, turn: int, f: Field)
    ensures Core(s, turn).Get(f) == Solid(s.Get(f), f, turn)
  {
  }

  lemma VictimIs(s: Summary, turn: int) returns (i: Item)
    requires Candidates(s, turn) != []
    ensures var v := Victim(s, turn);
      Evictable(s, turn, v.field, i) && v == KeyOf(i, v.field)
  {
    var v := Victim(s, turn);
    CandidatesIff(s, turn, v);
    i :| Evictable(s, turn, v.field, i) && v == KeyOf(i, v.field);
  }

  lemma EvictKeepsCore(s: Summary, turn: int)
    requires NoSharedIds(s, turn) && Candidates(s, turn) != []
    ensures NoSharedIds(Evict(s, Victim(s, turn)), turn)
    ensures forall f :: Solid(Evict(s, Victim(s, turn)).Get(f), f, turn) == Solid(s.Get(f), f, turn)
  {
    var v := Victim(s, turn);
    var i := VictimIs(s, turn);
    forall f
      ensures Solid(Evict(s, v).Get(f), f, turn) == Solid(s.Get(f), f, turn)
      ensures forall j | j in Evict(s, v).Get(f) :: j in s.Get(f)
    {
      EvictGet(s, v, f);
      if f == v.field {
        SolidDropId(s.Get(f), f, turn, v.id);
        DropIdIff(s.Get(f), v.id);
      }
    }
  }

  lemma {:induction false} EvictedKeepsCore(s: Summary, turn: int, budget: int)
    requires NoSharedIds(s, turn)
    ensures forall f :: Solid(Evicted(s, turn, budget).Get(f), f, turn) == Solid(s.Get(f), f, turn)
    decreases Size(s)
  {
    if Tokens(s) > budget && Candidates(s, turn) != [] {
      EvictKeepsCore(s, turn);
      EvictShrinks(s, turn, Victim(s, turn));
      EvictedKeepsCore(Evict(s, Victim(s, turn)), turn, budget);
    }
  }

  lemma FitKeepsCore(live: Summary, turn: int, budget: int, dropNarrative: bool)
    requires NoSharedIds(live, turn)
    ensures forall f :: Solid(Fit(live, turn, budget, dropNarrative).Get(f), f, turn) == Solid(live.Get(f), f, turn)
  {
    var start := if dropNarrative then live.(narrative := "") else live;
    assert forall f :: start.Get(f) == live.Get(f);
    assert NoSharedIds(start, turn);
    EvictedKeepsCore(start, turn, budget);
  }

  /** An active protected item, and any open item, survives every budget. */
  lemma NeverDropsProtected(s: Summary, turn: int, budget: int, dropNarrative: bool, f: Field, i: Item)
    requires NoSharedIds(LiveSummary(s), turn)
    requires i in s.Get(f) && Live(i) && (f.OpenItems? || Protected(i, f, turn))
    ensures i in Shrunk(s, turn, budget, dropNarrative).Get(f)
  {
    LiveGet(s, f);
    OnlyLiveIff(s.Get(f));
    FitKeepsCore(LiveSummary(s), turn, budget, dropNarrative);
    SolidSub(LiveSummary(s).Get(f), f, turn);
    SolidSub(Shrunk(s, turn, budget, dropNarrative).Get(f), f, turn);
  }

  lemma {:induction false} DroppedTogether(s: Summary, turn: int, budget: int, f: Field, i: Item, j: Item)
    requires i in s.Get(f) && j in s.Get(f) && i.id == j.id
    ensures i in Evicted(s, turn, budget).Get(f) <==> j in Evicted(s, turn, budget).Get(f)
    decreases Size(s)
  {
    if Tokens(s) > budget && Candidates(s, turn) != [] {
      var v := Victim(s, turn);
      EvictShrinks(s, turn, v);
      EvictGet(s, v, f);
      DropIdIff(s.Get(f), v.id);
      EvictedWithin(Evict(s, v), turn, budget);
      SubIn(Evicted(s, turn, budget).Get(f), Evict(s, v).Get(f));
      if i in Evict(s, v).Get(f) && j in Evict(s, v).Get(f) {
        DroppedTogether(Evict(s, v), turn, budget, f, i, j);
      }
    }
  }

  /** Within the budget, or no candidate is left. */
  ghost predicate Stopped(s: Summary, turn: int, budget: int) {
    Tokens(s) <= budget || forall g: Field, i :: !Evictable(s, turn, g, i)
  }

  /** The loop ends so. */
  lemma {:induction false} EvictedStops(s: Summary, turn: int, budget: int)
    ensures Stopped(Evicted(s, turn, budget), turn, budget)
    decreases Size(s)
  {
    hide Tokens, Candidates, Victim, Evict, Size;
    if Tokens(s) > budget {
      if Candidates(s, turn) == [] {
        forall g, i
          ensures !Evictable(s, turn, g, i)
        {
          CandidatesIff(s, turn, KeyOf(i, g));
        }
      } else {
        EvictShrinks(s, turn, Victim(s, turn));
        EvictedStops(Evict(s, Victim(s, turn)), turn, budget);
        assert Evicted(s, turn, budget) == Evicted(Evict(s, Victim(s, turn)), turn, budget);
      }
    }
  }

  ghost predicate AlwaysProtects(s: Summary, turn: int) {
    forall budget: int, dropNarrative: bool, f: Field, i: Item |
      i in s.Get(f) && Live(i) && Protected(i, f, turn) ::
      i in Shrunk(s, turn, budget, dropNarrative).Get(f)
  }

  /** Protection holds for every budget exactly when no live candidate for eviction
      carries the id of a live protected item of its field. */
  lemma ProtectionIff(s: Summary, turn: int)
    ensures AlwaysProtects(s, turn) <==> NoSharedIds(LiveSummary(s), turn)
  {
    if NoSharedIds(LiveSummary(s), turn) {
      forall budget: int, dropNarrative: bool, f: Field, i: Item |
        i in s.Get(f) && Live(i) && Protected(i, f, turn)
        ensures i in Shrunk(s, turn, budget, dropNarrative).Get(f)
      {
        NeverDropsProtected(s, turn, budget, dropNarrative, f, i);
      }
    } else {
      SharedIdDropsProtected(s, turn);
    }
  }

  /** Otherwise the least budget that a caller passes, 1, already drops a protected item. */
  lemma SharedIdDropsProtected(s: Summary, turn: int)
    requires !NoSharedIds(LiveSummary(s), turn)
    ensures exists f: Field, i :: i in s.Get(f) && Live(i) && Protected(i, f, turn) && i !in Shrunk(s, turn, 1, false).Get(f)
    ensures !AlwaysProtects(s, turn)
  {
    var live := LiveSummary(s);
    var f: Field, i, j :| !f.OpenItems? && i in live.Get(f) && j in live.Get(f)
      && Protected(i, f, turn) && !Protected(j, f, turn) && i.id == j.id;
    SharedIdDrops(live, turn, 1, f, i, j);
    LiveGet(s, f);
    OnlyLiveIff(s.Get(f));
    assert i !in Shrunk(s, turn, 1, false).Get(f);
  }

  lemma SharedIdDrops(live: Summary, turn: int, budget: int, f: Field, i: Item, j: Item)
    requires budget <= 1 && !f.OpenItems? && i in live.Get(f) && j in live.Get(f) && i.id == j.id
    requires Protected(i, f, turn) && !Protected(j, f, turn)
    ensures i !in Fit(live, turn, budget, false).Get(f)
  {
    var r := Evicted(live, turn, budget);
    RenderSize.TokensPositive(live);
    assert Fit(live, turn, budget, false) == r;
    DroppedTogether(live, turn, budget, f, i, j);
    RenderSize.TokensPositive(r);
    EvictedStops(live, turn, budget);
    assert !Evictable(r, turn, f, j);
  }

  lemma CoreWithin(s: Summary, turn: int, budget: int, f: Field)
    requires NoSharedIds(s, turn)
    ensures Sub(Core(s, turn).Get(f), Evicted(s, turn, budget).Get(f))
  {
    var r := Evicted(s, turn, budget);
    CoreGet(s, turn, f);
    EvictedKeepsCore(s, turn, budget);
    SolidSub(r.Get(f), f, turn);
  }

  lemma ExhaustedIsCore(s: Summary, turn: int, budget: int, f: Field)
    requires NoSharedIds(s, turn) && Tokens(Evicted(s, turn, budget)) > budget
    ensures Evicted(s, turn, budget).Get(f) == Core(s, turn).Get(f)
  {
    var r := Evicted(s, turn, budget);
    CoreGet(s, turn, f);
    EvictedKeepsCore(s, turn, budget);
    EvictedStops(s, turn, budget);
    if !f.OpenItems? {
      assert forall i | i in r.Get(f) :: !Evictable(r, turn, f, i);
    }
    SolidSub(r.Get(f), f, turn);
  }

  lemma EvictedFitsIff(s: Summary, turn: int, budget: int)
    requires NoSharedIds(s, turn) && s.narrative == ""
    ensures Tokens(Evicted(s, turn, budget)) <= budget <==> Tokens(Core(s, turn)) <= budget
  {
    var r, core := Evicted(s, turn, budget), Core(s, turn);
    forall f { CoreWithin(s, turn, budget, f); }
    RenderSize.FewerItemsFewerTokens(core, r);
    if Tokens(r) > budget {
      NarrativeKept(s, turn, budget);
      forall f
        ensures Sub(r.Get(f), core.Get(f))
      {
        ExhaustedIsCore(s, turn, budget, f);
        SubRefl(r.Get(f));
      }
      RenderSize.FewerItemsFewerTokens(r, core);
    }
  }

  /** With the narrative given up, the result fits exactly when the items that
      may never be evicted fit on their own. */
  lemma FitsIff(s: Summary, turn: int, budget: int)
    requires NoSharedIds(LiveSummary(s), turn)
    ensures Tokens(Shrunk(s, turn, budget, true)) <= budget <==> Tokens(Core(LiveSummary(s), turn)) <= budget
  {
    var live := LiveSummary(s);
    var start := live.(narrative := "");
    assert forall f :: start.Get(f) == live.Get(f);
    assert NoSharedIds(start, turn);
    forall f
      ensures Core(start, turn).Get(f) == Core(live, turn).Get(f)
      ensures Sub(Core(live, turn).Get(f), Core(start, turn).Get(f)) && Sub(Core(live, turn).Get(f), live.Get(f))
    {
      CoreGet(start, turn, f);
      CoreGet(live, turn, f);
      SubRefl(Core(live, turn).Get(f));
      SolidSub(live.Get(f), f, turn);
    }
    RenderSize.FewerItemsFewerTokens(Core(live, turn), live);
    RenderSize.FewerItemsFewerTokens(Core(live, turn), Core(start, turn));
    RenderSize.FewerItemsFewerTokens(Core(start, turn), Core(live, turn));
    if Tokens(live) > budget {
      EvictedFitsIff(start, turn, budget);
    }
  }

  lemma {:induction false} NarrativeKept(s: Summary, turn: int, budget: int)
    ensures Evicted(s, turn, budget).narrative == s.narrative
    decreases Size(s)
  {
    if Tokens(s) > budget && Candidates(s, turn) != [] {
      EvictShrinks(s, turn, Victim(s, turn));
      NarrativeKept(Evict(s, Victim(s, turn)), turn, budget);
    }
  }

  /** `protected_summary_tokens`: the rendered size of the protected items alone. */
  function OnlyProtected(items: seq<Item>, f: Field, turn: int): seq<Item> {
    if items == [] then []
    else (if Protected(items[0], f, turn) then [items[0]] else []) + OnlyProtected(items[1..], f, turn)
  }

  function ProtectedOnly(s: Summary, turn: int): Summary {
    Summary(map f: Field :: OnlyProtected(s.Get(f), f, turn), "")
  }

  function ProtectedTokens(s: Summary, turn: int): nat {
    Tokens(ProtectedOnly(s, turn))
  }

  /** Comes before every candidate kept. */
  ghost predicate BeforeKept(c: Candidate, r: Summary, turn: int) {
    forall g: Field, x | Evictable(r, turn, g, x) :: Less(c, KeyOf(x, g))
  }

  /** The candidate of this id that was evicted: it comes before every candidate kept. */
  ghost predicate Evictee(v: Item, s: Summary, r: Summary, turn: int, f: Field, id: string) {
    Evictable(s, turn, f, v) && v.id == id && BeforeKept(KeyOf(v, f), r, turn)
  }

  ghost predicate HasEvictee(s: Summary, r: Summary, turn: int, f: Field, id: string) {
    exists v :: Evictee(v, s, r, turn, f, id)
  }

  /** The order of eviction: every item dropped went with a candidate of its id, itself
      if no other has the id, that comes before every candidate kept. */
  ghost predicate SmallestFirst(s: Summary, r: Summary, turn: int) {
    forall f: Field, d | d in s.Get(f) && d !in r.Get(f) :: HasEvictee(s, r, turn, f, d.id)
  }

  lemma {:induction false} EvictsSmallestFirst(s: Summary, turn: int, budget: int)
    ensures SmallestFirst(s, Evicted(s, turn, budget), turn)
    decreases Size(s)
  {
    hide Tokens, Candidates, Victim, Evict, Size, Evictable, Evictee;
    if Tokens(s) > budget && Candidates(s, turn) != [] {
      var r, s1 := Evicted(s, turn, budget), Evict(s, Victim(s, turn));
      EvictShrinks(s, turn, Victim(s, turn));
      EvictsSmallestFirst(s1, turn, budget);
      forall f: Field, d | d in s.Get(f) && d !in r.Get(f)
        ensures HasEvictee(s, r, turn, f, d.id)
      {
        if d in s1.Get(f) {
          assert HasEvictee(s1, r, turn, f, d.id);
          var v :| Evictee(v, s1, r, turn, f, d.id);
          EvicteeBefore(v, s, r, turn, f, d.id);
        } else {
          var v := VictimIsEvictee(s, turn, budget, f, d);
        }
      }
      assert SmallestFirst(s, r, turn);
    }
  }

  lemma EvicteeBefore(v: Item, s: Summary, r: Summary, turn: int, f: Field, id: string)
    requires Candidates(s, turn) != [] && Evictee(v, Evict(s, Victim(s, turn)), r, turn, f, id)
    ensures Evictee(v, s, r, turn, f, id)
  {
    hide BeforeKept, KeyOf, Candidates, Victim, Evict, DropId;
    EvictGet(s, Victim(s, turn), f);
    DropIdIff(s.Get(f), Victim(s, turn).id);
  }

  lemma VictimIsEvictee(s: Summary, turn: int, budget: int, f: Field, d: Item) returns (v: Item)
    requires Tokens(s) > budget && Candidates(s, turn) != []
    requires d in s.Get(f) && d !in Evict(s, Victim(s, turn)).Get(f)
    ensures Evictee(v, s, Evicted(s, turn, budget), turn, f, d.id)
  {
    hide Tokens, Candidates, Victim, Evict, Size;
    var c, r := Victim(s, turn), Evicted(s, turn, budget);
    EvictGet(s, c, f);
    DropIdIff(s.Get(f), c.id);
    v := VictimIs(s, turn);
    EvictShrinks(s, turn, c);
    EvictedWithin(Evict(s, c), turn, budget);
    forall g: Field, x | Evictable(r, turn, g, x)
      ensures Less(c, KeyOf(x, g))
    {
      SubIn(r.Get(g), Evict(s, c).Get(g));
      VictimFirst(s, turn, g, x);
    }
  }

  /** The victim comes before every candidate that stays. */
  lemma VictimFirst(s: Summary, turn: int, g: Field, x: Item)
    requires Candidates(s, turn) != [] && Evictable(Evict(s, Victim(s, turn)), turn, g, x)
    ensures Less(Victim(s, turn), KeyOf(x, g))
  {
    var c := Victim(s, turn);
    EvictGet(s, c, g);
    DropIdIff(s.Get(g), c.id);
    assert Evictable(s, turn, g, x);
    CandidatesIff(s, turn, KeyOf(x, g));
    LeastIsLeast(Candidates(s, turn));
  }

  lemma EvictUnique(s: Summary, c: Candidate)
    requires UniqueIds(s)
    ensures UniqueIds(Evict(s, c))
  {
    forall g: Field, i | i in Evict(s, c).Get(g)
      ensures i in s.Get(g)
    {
      EvictGet(s, c, g);
      DropIdIff(s.Get(g), c.id);
    }
  }

  /** A larger budget keeps at least as much. */
  lemma {:induction false} EvictedMonotone(s: Summary, turn: int, small: int, large: int)
    requires small <= large
    ensures Within(Evicted(s, turn, small), Evicted(s, turn, large))
    decreases Size(s)
  {
    EvictedWithin(s, turn, small);
    if Tokens(s) > large && Candidates(s, turn) != [] {
      EvictShrinks(s, turn, Victim(s, turn));
      EvictedMonotone(Evict(s, Victim(s, turn)), turn, small, large);
    }
  }

  lemma FitMonotone(live: Summary, turn: int, small: int, large: int, dropNarrative: bool)
    requires small <= large
    ensures Within(Fit(live, turn, small, dropNarrative), Fit(live, turn, large, dropNarrative))
  {
    var start := if dropNarrative then live.(narrative := "") else live;
    forall f { SubRefl(live.Get(f)); }
    if Tokens(live) > large {
      EvictedMonotone(start, turn, small, large);
    } else if Tokens(live) > small {
      EvictedWithin(start, turn, small);
      assert forall f :: start.Get(f) == live.Get(f);
    }
  }

  lemma ShrunkMonotone(s: Summary, turn: int, small: int, large: int, dropNarrative: bool)
    requires small <= large
    ensures Within(Shrunk(s, turn, small, dropNarrative), Shrunk(s, turn, large, dropNarrative))
  {
    FitMonotone(LiveSummary(s), turn, small, large, dropNarrative);
  }

  /** `t` is `s` without exactly the candidates that come before `c`. */
  ghost predicate From(t: Summary, s: Summary, turn: int, c: Candidate) {
    && Within(t, s)
    && (forall i :: i in t.Get(OpenItems) <==> i in s.Get(OpenItems))
    && (forall g: Field, i ::
          i in t.Get(g) <==> i in s.Get(g) && !(Evictable(s, turn, g, i) && Less(KeyOf(i, g), c)))
  }

  /** No item is dropped needlessly: with every earlier candidate gone and the item
      still there, the text is over the budget. */
  lemma {:induction false} DroppedOnlyWhenOver(s: Summary, turn: int, budget: int, f: Field, d: Item) returns (t: Summary)
    requires UniqueIds(s) && Evictable(s, turn, f, d) && d !in Evicted(s, turn, budget).Get(f)
    ensures From(t, s, turn, KeyOf(d, f)) && Tokens(t) > budget
    decreases Size(s)
  {
    CandidatesIff(s, turn, KeyOf(d, f));
    var v := Victim(s, turn);
    var s1 := Evict(s, v);
    EvictShrinks(s, turn, v);
    EvictUnique(s, v);
    LeastIsLeast(Candidates(s, turn));
    EvictWithin(s, v);
    EvictGet(s, v, f);
    DropIdIff(s.Get(v.field), v.id);
    var w := VictimIs(s, turn);
    if Evictable(s1, turn, f, d) {
      t := DroppedOnlyWhenOver(s1, turn, budget, f, d);
      WithinTrans(t, s1, s);
      FromEarlier(t, s, turn, f, d);
    } else {
      t := s;
      forall f { SubRefl(s.Get(f)); }
      forall g: Field, i | Evictable(s, turn, g, i)
        ensures !Less(KeyOf(i, g), v)
      {
        CandidatesIff(s, turn, KeyOf(i, g));
        LessOrder(KeyOf(i, g), v, KeyOf(i, g));
      }
    }
  }

  lemma FromEarlier(t: Summary, s: Summary, turn: int, f: Field, d: Item)
    requires UniqueIds(s) && Candidates(s, turn) != []
    requires Evictable(Evict(s, Victim(s, turn)), turn, f, d) && Within(t, s)
    requires From(t, Evict(s, Victim(s, turn)), turn, KeyOf(d, f))
    ensures From(t, s, turn, KeyOf(d, f))
  {
    var s1 := Evict(s, Victim(s, turn));
    EvictGet(s, Victim(s, turn), OpenItems);
    forall g: Field, i
      ensures i in t.Get(g) <==>
              i in s.Get(g) && !(Evictable(s, turn, g, i) && Less(KeyOf(i, g), KeyOf(d, f)))
    {
      var inT := i in t.Get(g);
      assert inT <==> i in s1.Get(g) && !(Evictable(s1, turn, g, i) && Less(KeyOf(i, g), KeyOf(d, f)));
      FromEarlierAt(s, turn, g, i, f, d, inT);
    }
  }

  lemma FromEarlierAt(s: Summary, turn: int, g: Field, i: Item, f: Field, d: Item, inT: bool)
    requires UniqueIds(s) && Candidates(s, turn) != []
    requires Evictable(Evict(s, Victim(s, turn)), turn, f, d)
    requires inT <==> i in Evict(s, Victim(s, turn)).Get(g)
                      && !(Evictable(Evict(s, Victim(s, turn)), turn, g, i) && Less(KeyOf(i, g), KeyOf(d, f)))
    ensures inT <==> i in s.Get(g) && !(Evictable(s, turn, g, i) && Less(KeyOf(i, g), KeyOf(d, f)))
  {
    EvictedMember(s, turn, g, i, f, d);
  }

  /** One eviction removes just the victim, which comes before every later candidate. */
  lemma EvictedMember(s: Summary, turn: int, g: Field, i: Item, f: Field, d: Item)
    requires UniqueIds(s) && Candidates(s, turn) != []
    requires Evictable(Evict(s, Victim(s, turn)), turn, f, d)
    ensures i in Evict(s, Victim(s, turn)).Get(g) ==> i in s.Get(g)
    ensures i in s.Get(g) && i !in Evict(s, Victim(s, turn)).Get(g) ==>
            Evictable(s, turn, g, i) && Less(KeyOf(i, g), KeyOf(d, f))
  {
    var v := Victim(s, turn);
    EvictGet(s, v, g);
    DropIdIff(s.Get(g), v.id);
    if i in s.Get(g) && i !in Evict(s, v).Get(g) {
      var w := VictimIs(s, turn);
      assert i == w;
      VictimFirst(s, turn, f, d);
    }
  }

  lemma {:induction false} OnlyProtectedSub(items: seq<Item>, f: Field, turn: int)
    ensures Sub(OnlyProtected(items, f, turn), Solid(items, f, turn))
  {
    if items != [] {
      OnlyProtectedSub(items[1..], f, turn);
      SubCons(items[0], Protected(items[0], f, turn),
              OnlyProtected(items[1..], f, turn), Solid(items[1..], f, turn));
      if !f.OpenItems? && !Protected(items[0], f, turn) {
        assert OnlyProtected(items, f, turn) == OnlyProtected(items[1..], f, turn);
        assert Solid(items, f, turn) == Solid(items[1..], f, turn);
      }
    }
  }

  lemma ProtectedGet(s: Summary, turn: int, f: Field)
    ensures ProtectedOnly(s, turn).Get(f) == OnlyProtected(s.Get(f), f, turn)
  {
  }

  /** The protected tokens of the live items that a budget violation reports are
      a lower bound for what any shrinking can reach. */
  lemma ProtectedIsLowerBound(s: Summary, turn: int, budget: int, dropNarrative: bool)
    requires NoSharedIds(LiveSummary(s), turn)
    ensures ProtectedTokens(LiveSummary(s), turn) <= Tokens(Shrunk(s, turn, budget, dropNarrative))
  {
    var live := LiveSummary(s);
    var r := Shrunk(s, turn, budget, dropNarrative);
    FitKeepsCore(live, turn, budget, dropNarrative);
    forall f
      ensures Sub(ProtectedOnly(live, turn).Get(f), r.Get(f))
    {
      ProtectedGet(live, turn, f);
      OnlyProtectedSub(live.Get(f), f, turn);
      SolidSub(r.Get(f), f, turn);
      SubTrans(OnlyProtected(live.Get(f), f, turn), Solid(live.Get(f), f, turn), r.Get(f));
    }
    RenderSize.FewerItemsFewerTokens(ProtectedOnly(live, turn), r);
  }

  lemma GetSame(live: Summary, f: Field)
    ensures live.(narrative := "").Get(f) == live.Get(f)
  {
  }

  /** What `shrink_summary_v2` drops of the live items is the start of its eviction order. */
  lemma ShrinkDropsSmallest(s: Summary, turn: int, budget: int, dropNarrative: bool)
    ensures SmallestFirst(LiveSummary(s), Shrunk(s, turn, budget, dropNarrative), turn)
  {
    hide Evictable, BeforeKept, Evictee, Evicted, Tokens, LiveSummary;
    var live, r := LiveSummary(s), Shrunk(s, turn, budget, dropNarrative);
    if Tokens(live) > budget {
      var start := if dropNarrative then live.(narrative := "") else live;
      assert r == Evicted(start, turn, budget);
      EvictsSmallestFirst(start, turn, budget);
      forall f: Field, d | d in live.Get(f) && d !in r.Get(f)
        ensures HasEvictee(live, r, turn, f, d.id)
      {
        GetSame(live, f);
        assert HasEvictee(start, r, turn, f, d.id);
        var v :| Evictee(v, start, r, turn, f, d.id);
        SameEvictee(v, live, r, turn, f, d.id);
      }
      assert SmallestFirst(live, r, turn);
    }
  }

  lemma SameEvictee(v: Item, live: Summary, r: Summary, turn: int, f: Field, id: string)
    requires Evictee(v, live, r, turn, f, id) || Evictee(v, live.(narrative := ""), r, turn, f, id)
    ensures Evictee(v, live, r, turn, f, id)
  {
    GetSame(live, f);
  }

  // ------------------------------------------------------ the order in words

  ghost predicate LessUrgent(p: Priority, q: Priority) {
    || (p.Low? && !q.Low?)
    || (p.Normal? && (q.High? || q.Critical?))
    || (p.High? && q.Critical?)
  }

  /** Notes go first, then failures, and so on; constraints go last. */
  ghost predicate GoesSooner(f: Field, g: Field) {
    match f
    case ConversationNotes => !g.ConversationNotes?
    case Failures => !g.ConversationNotes? && !g.Failures?
    case ToolState => !g.ConversationNotes? && !g.Failures? && !g.ToolState?
    case CompletedItems => g in {Resources, Decisions, Facts, Skills, Preferences, Entities, Constraints}
    case Resources => g in {Decisions, Facts, Skills, Preferences, Entities, Constraints}
    case Decisions => g in {Facts, Skills, Preferences, Entities, Constraints}
    case Facts => g in {Skills, Preferences, Entities, Constraints}
    case Skills => g in {Preferences, Entities, Constraints}
    case Preferences => g in {Entities, Constraints}
    case Entities => g.Constraints?
    case _ => false
  }

  /** Who is never evicted, field by field; open items are no candidates at all. */
  lemma ProtectedIs(i: Item, f: Field, turn: int)
    ensures Protected(i, f, turn) <==>
      || i.priority.Critical?
      || match f
         case OpenItems => i.status.Active? || i.updatedTurn == turn
         case CompletedItems => i.updatedTurn == turn
         case Constraints => i.status.Active? && i.priority.High?
         case Preferences => i.status.Active?
         case Entities => i.status.Active?
         case Resources => i.rebuildable.No?
         case Failures => i.status.Active? && i.retryable.No?
         case Facts => i.priority.High? || i.updatedTurn == turn
         case _ => false
  {
  }

  /** A candidate that comes before another is no more urgent, at the same urgency no
      younger, at the same age first by its id; across fields its field goes sooner. */
  ghost predicate ComesFirst(d: Item, f: Field, x: Item, g: Field) {
    && (f != g ==> GoesSooner(f, g))
    && (f == g ==> !LessUrgent(x.priority, d.priority))
    && (f == g && x.priority == d.priority ==> d.updatedTurn <= x.updatedTurn)
    && (f == g && x.priority == d.priority && d.updatedTurn == x.updatedTurn ==> TextLess(d.id, x.id))
  }

  lemma LessInWords(d: Item, f: Field, x: Item, g: Field)
    requires Less(KeyOf(d, f), KeyOf(x, g)) && !g.OpenItems?
    ensures ComesFirst(d, f, x, g)
  {
  }

  /** Whatever is dropped goes with a candidate of its id, which comes first, in the order
      of field, urgency and age, before every candidate kept; with unique ids that candidate
      is the item itself. */
  lemma DroppedInOrder(s: Summary, turn: int, budget: int, dropNarrative: bool, f: Field, d: Item) returns (v: Item)
    requires d in s.Get(f) && Live(d) && d !in Shrunk(s, turn, budget, dropNarrative).Get(f)
    ensures v in s.Get(f) && Live(v) && !f.OpenItems? && !Protected(v, f, turn) && v.id == d.id
    ensures forall g: Field, x | x in Shrunk(s, turn, budget, dropNarrative).Get(g) && !g.OpenItems? && !Protected(x, g, turn) ::
              ComesFirst(v, f, x, g)
    ensures UniqueIds(LiveSummary(s)) ==> v == d
  {
    hide Shrunk, Protected, ComesFirst, Less, KeyOf, LiveSummary, Live;
    var r := Shrunk(s, turn, budget, dropNarrative);
    OnlyLiveIff(s.Get(f));
    LiveGet(s, f);
    ShrinkDropsSmallest(s, turn, budget, dropNarrative);
    assert HasEvictee(LiveSummary(s), r, turn, f, d.id);
    v :| Evictee(v, LiveSummary(s), r, turn, f, d.id);
    forall g: Field, x | x in r.Get(g) && !g.OpenItems? && !Protected(x, g, turn)
      ensures ComesFirst(v, f, x, g)
    {
      assert Evictable(r, turn, g, x);
      LessInWords(v, f, x, g);
    }
  }
}
