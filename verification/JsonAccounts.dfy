/** Whether a projection accounts for every record: shown and omitted records against the
    reported total. */
module JsonAccounts {
  import opened Events
  import Schema
  import opened JsonLists
  import opened JsonProjection

  // ------------------------------------------------------ what is left of it

  /** A front part of a slimmed list; a list that is no longer found is left whole. */
  ghost predicate FrontOf(now: seq<Json>, slim: seq<Json>) {
    now <= slim && (AllRecords(slim) || now == slim)
  }

  /** `t` is `b` with each list found in `b` slimmed and cut down to a front part of it. */
  ghost predicate Pruned(b: Json, t: Json, inner: Json -> string)
    decreases b, 0
  {
    match b
    case List(items) => t.List? && PrunedItems(items, t.items, inner)
    case Dict(fields) => t.Dict? && PrunedFields(fields, t.fields, inner)
    case _ => t == b
  }

  ghost predicate PrunedItems(bs: seq<Json>, ts: seq<Json>, inner: Json -> string)
    decreases bs, 0
  {
    && |bs| == |ts|
    && (bs == [] || (Pruned(bs[0], ts[0], inner) && PrunedItems(bs[1..], ts[1..], inner)))
  }

  ghost predicate PrunedFields(bs: seq<Field>, ts: seq<Field>, inner: Json -> string)
    decreases bs, 0
  {
    && |bs| == |ts|
    && (bs == [] || (bs[0].key == ts[0].key && PrunedHere(bs[0].value, ts[0].value, inner)
                     && PrunedFields(bs[1..], ts[1..], inner)))
  }

  ghost predicate PrunedHere(b: Json, t: Json, inner: Json -> string)
    decreases b, 1
  {
    if Found(b) then t.List? && FrontOf(t.items, SlimList(b.items, inner)) else Pruned(b, t, inner)
  }

  /** The records of the lists of `b` that `t` still shows. */
  ghost function Shown(b: Json, t: Json, inner: Json -> string): nat
    requires Pruned(b, t, inner)
    decreases b, 0
  {
    match b
    case List(items) => ShownItems(items, t.items, inner)
    case Dict(fields) => ShownFields(fields, t.fields, inner)
    case _ => 0
  }

  ghost function ShownItems(bs: seq<Json>, ts: seq<Json>, inner: Json -> string): nat
    requires PrunedItems(bs, ts, inner)
    decreases bs, 0
  {
    if bs == [] then 0 else Shown(bs[0], ts[0], inner) + ShownItems(bs[1..], ts[1..], inner)
  }

  ghost function ShownFields(bs: seq<Field>, ts: seq<Field>, inner: Json -> string): nat
    requires PrunedFields(bs, ts, inner)
    decreases bs, 0
  {
    if bs == [] then 0 else ShownHere(bs[0].value, ts[0].value, inner) + ShownFields(bs[1..], ts[1..], inner)
  }

  ghost function ShownHere(b: Json, t: Json, inner: Json -> string): nat
    requires PrunedHere(b, t, inner)
    decreases b, 1
  {
    if Found(b) then |t.items| else Shown(b, t, inner)
  }

  /** Slimming drops nothing yet. */
  lemma {:induction false} SlimmedIsPruned(b: Json, inner: Json -> string)
    ensures Pruned(b, Slimmed(b, inner), inner) && Shown(b, Slimmed(b, inner), inner) == Total(Lists(b))
    decreases b, 0
  {
    match b
    case List(items) => SlimItemsPruned(items, inner);
    case Dict(fields) => SlimFieldsPruned(fields, inner);
    case _ =>
  }

  lemma {:induction false} SlimItemsPruned(bs: seq<Json>, inner: Json -> string)
    ensures PrunedItems(bs, SlimItems(bs, inner), inner)
    ensures ShownItems(bs, SlimItems(bs, inner), inner) == Total(ListsOfItems(bs))
    decreases bs, 0
  {
    if bs != [] {
      SlimmedIsPruned(bs[0], inner);
      SlimItemsPruned(bs[1..], inner);
      assert SlimItems(bs, inner)[1..] == SlimItems(bs[1..], inner);
      TotalAppend(Lists(bs[0]), ListsOfItems(bs[1..]));
    }
  }

  lemma {:induction false} SlimFieldsPruned(bs: seq<Field>, inner: Json -> string)
    ensures PrunedFields(bs, SlimFields(bs, inner), inner)
    ensures ShownFields(bs, SlimFields(bs, inner), inner) == Total(ListsOfFields(bs))
    decreases bs, 0
  {
    if bs != [] {
      SlimHerePruned(bs[0].value, inner);
      SlimFieldsPruned(bs[1..], inner);
      assert SlimFields(bs, inner)[1..] == SlimFields(bs[1..], inner);
      TotalAppend(ListsHere(bs[0].value), ListsOfFields(bs[1..]));
    }
  }

  lemma {:induction false} SlimHerePruned(b: Json, inner: Json -> string)
    ensures PrunedHere(b, SlimHere(b, inner), inner)
    ensures ShownHere(b, SlimHere(b, inner), inner) == Total(ListsHere(b))
    decreases b, 1
  {
    if Found(b) {
      assert Total([b.items]) == |b.items|;
    } else {
      SlimmedIsPruned(b, inner);
    }
  }

  // ------------------------------------------------- pops keep it that way

  /** Slimmed, the list is still found, or nothing is found in it. */
  ghost predicate Steady(l: seq<Json>, inner: Json -> string) {
    AllRecords(l) && (AllRecords(SlimList(l, inner)) || ListsOfItems(SlimList(l, inner)) == [])
  }

  ghost predicate AllSteady(lists: seq<seq<Json>>, inner: Json -> string) {
    forall l | l in lists :: Steady(l, inner)
  }

  lemma SameText(b: Json, t: Json, inner: Json -> string)
    requires PrunedHere(b, t, inner)
    ensures b.Str? || t.Str? ==> b == t
  {
  }

  lemma {:induction false} PrunedText(bs: seq<Field>, ts: seq<Field>, key: string, inner: Json -> string)
    requires PrunedFields(bs, ts, inner)
    ensures HasText(Dict(ts), key) <==> HasText(Dict(bs), key)
  {
    if bs != [] {
      if bs[0].key == key { SameText(bs[0].value, ts[0].value, inner); } else { PrunedText(bs[1..], ts[1..], key, inner); }
    }
  }

  lemma PrunedRecord(b: Json, t: Json, inner: Json -> string)
    requires Pruned(b, t, inner)
    ensures IsRecord(t) <==> IsRecord(b)
  {
    if b.Dict? {
      PrunedText(b.fields, t.fields, "title", inner);
      PrunedText(b.fields, t.fields, "summary", inner);
    }
  }

  lemma {:induction false} PrunedRecords(bs: seq<Json>, ts: seq<Json>, inner: Json -> string)
    requires PrunedItems(bs, ts, inner)
    ensures AllRecords(ts) <==> AllRecords(bs)
  {
    if bs != [] {
      RecordsCons(bs);
      RecordsCons(ts);
      PrunedRecord(bs[0], ts[0], inner);
      PrunedRecords(bs[1..], ts[1..], inner);
    }
  }

  /** A pop drops one record of one list. */
  lemma {:induction false} PopKeepsPruned(b: Json, t: Json, k: nat, inner: Json -> string)
    requires Pruned(b, t, inner) && AllSteady(Lists(b), inner) && k < |Lists(t)|
    ensures Pruned(b, Pop(t, k), inner) && Shown(b, Pop(t, k), inner) == Shown(b, t, inner) - 1
    decreases b, 0
  {
    match b
    case List(items) => PopKeepsItems(items, t.items, k, inner);
    case Dict(fields) => PopKeepsFields(fields, t.fields, k, inner);
  }

  lemma {:induction false} PopKeepsItems(bs: seq<Json>, ts: seq<Json>, k: nat, inner: Json -> string)
    requires PrunedItems(bs, ts, inner) && AllSteady(ListsOfItems(bs), inner) && k < |ListsOfItems(ts)|
    ensures PrunedItems(bs, PopItems(ts, k), inner)
    ensures ShownItems(bs, PopItems(ts, k), inner) == ShownItems(bs, ts, inner) - 1
    decreases bs, 0
  {
    var n, more := |Lists(ts[0])|, PopItems(ts, k);
    assert more[1..] == if k < n then ts[1..] else PopItems(ts[1..], k - n);
    if k < n { PopKeepsPruned(bs[0], ts[0], k, inner); } else { PopKeepsItems(bs[1..], ts[1..], k - n, inner); }
  }

  lemma {:induction false} PopKeepsFields(bs: seq<Field>, ts: seq<Field>, k: nat, inner: Json -> string)
    requires PrunedFields(bs, ts, inner) && AllSteady(ListsOfFields(bs), inner) && k < |ListsOfFields(ts)|
    ensures PrunedFields(bs, PopFields(ts, k), inner)
    ensures ShownFields(bs, PopFields(ts, k), inner) == ShownFields(bs, ts, inner) - 1
    decreases bs, 0
  {
    var n, more := |ListsHere(ts[0].value)|, PopFields(ts, k);
    assert more[1..] == if k < n then ts[1..] else PopFields(ts[1..], k - n);
    if k < n {
      PopKeepsHere(bs[0].value, ts[0].value, k, inner);
    } else {
      PopKeepsFields(bs[1..], ts[1..], k - n, inner);
    }
  }

  lemma {:induction false} PopKeepsHere(b: Json, t: Json, k: nat, inner: Json -> string)
    requires PrunedHere(b, t, inner) && AllSteady(ListsHere(b), inner) && k < |ListsHere(t)|
    ensures PrunedHere(b, PopHere(t, k), inner) && ShownHere(b, PopHere(t, k), inner) == ShownHere(b, t, inner) - 1
    decreases b, 1
  {
    if Found(b) {
      assert b.items in ListsHere(b) && Steady(b.items, inner);
      FoundStays(SlimList(b.items, inner), t.items);
    } else {
      if b.List? { PrunedRecords(b.items, t.items, inner); }
      PopKeepsPruned(b, t, k, inner);
    }
  }

  /** What is still found of a slimmed list is the list itself. */
  lemma FoundStays(slim: seq<Json>, now: seq<Json>)
    requires FrontOf(now, slim) && (AllRecords(slim) || ListsOfItems(slim) == []) && ListsHere(List(now)) != []
    ensures Found(List(now)) && AllRecords(slim)
  {
    NothingInEmpty();
    if AllRecords(slim) {
      assert forall i | 0 <= i < |now| :: now[i] == slim[i];
    }
  }

  lemma NothingInEmpty()
    ensures ListsHere(List([])) == []
  {
    assert ListsOfItems([]) == [];
  }

  // ------------------------------------------------------ where it does not

  /** The records of the lists that are still found once slimmed, and those that are then
      found within the others. */
  ghost function Movable(lists: seq<seq<Json>>, inner: Json -> string): nat
    requires forall l | l in lists :: AllRecords(l)
  {
    if lists == [] then 0
    else (if AllRecords(SlimList(lists[0], inner)) then |lists[0]| else 0) + Movable(lists[1..], inner)
  }

  ghost function Nested(lists: seq<seq<Json>>, inner: Json -> string): nat
    requires forall l | l in lists :: AllRecords(l)
  {
    if lists == [] then 0
    else (if AllRecords(SlimList(lists[0], inner)) then 0 else Total(ListsOfItems(SlimList(lists[0], inner))))
         + Nested(lists[1..], inner)
  }

  lemma {:induction false} MovableAppend(a: seq<seq<Json>>, b: seq<seq<Json>>, inner: Json -> string)
    requires forall l | l in a + b :: AllRecords(l)
    ensures (forall l | l in a :: AllRecords(l)) && (forall l | l in b :: AllRecords(l))
    ensures Movable(a + b, inner) == Movable(a, inner) + Movable(b, inner)
    ensures Nested(a + b, inner) == Nested(a, inner) + Nested(b, inner)
  {
    assert forall l | l in b :: l in a + b;
    assert forall l | l in a :: l in a + b;
    if a == [] {
      assert a + b == b;
    } else {
      assert (a + b)[1..] == a[1..] + b;
      MovableAppend(a[1..], b, inner);
    }
  }

  /** Found lists consist of records and are not empty. */
  ghost predicate Solid(lists: seq<seq<Json>>) {
    forall l | l in lists :: l != [] && AllRecords(l)
  }

  lemma {:induction false} ListsSolid(j: Json)
    ensures Solid(Lists(j))
    decreases j, 0
  {
    match j
    case List(items) => ItemsSolid(items);
    case Dict(fields) => FieldsSolid(fields);
    case _ =>
  }

  lemma {:induction false} ItemsSolid(items: seq<Json>)
    ensures Solid(ListsOfItems(items))
    decreases items, 0
  {
    if items != [] {
      ListsSolid(items[0]);
      ItemsSolid(items[1..]);
    }
  }

  lemma {:induction false} FieldsSolid(fields: seq<Field>)
    ensures Solid(ListsOfFields(fields))
    decreases fields, 0
  {
    if fields != [] {
      HereSolid(fields[0].value);
      FieldsSolid(fields[1..]);
    }
  }

  lemma {:induction false} HereSolid(j: Json)
    ensures Solid(ListsHere(j))
    decreases j, 1
  {
    if !Found(j) { ListsSolid(j); }
  }

  lemma {:induction false} NoneIffZero(lists: seq<seq<Json>>)
    requires Solid(lists)
    ensures Total(lists) == 0 <==> lists == []
  {
    if lists != [] { assert lists[0] in lists; }
  }

  /** How many pops a slimmed document allows. */
  lemma {:induction false} SlimmedTotal(b: Json, inner: Json -> string)
    ensures Solid(Lists(b))
    ensures Total(Lists(Slimmed(b, inner))) == Movable(Lists(b), inner) + Nested(Lists(b), inner)
    decreases b, 0
  {
    ListsSolid(b);
    match b
    case List(items) => SlimItemsTotal(items, inner);
    case Dict(fields) => SlimFieldsTotal(fields, inner);
    case _ =>
  }

  lemma {:induction false} SlimItemsTotal(bs: seq<Json>, inner: Json -> string)
    ensures Solid(ListsOfItems(bs))
    ensures Total(ListsOfItems(SlimItems(bs, inner))) == Movable(ListsOfItems(bs), inner) + Nested(ListsOfItems(bs), inner)
    decreases bs, 0
  {
    ItemsSolid(bs);
    if bs != [] {
      var more := SlimItems(bs, inner);
      SlimmedTotal(bs[0], inner);
      SlimItemsTotal(bs[1..], inner);
      assert more[1..] == SlimItems(bs[1..], inner);
      TotalAppend(Lists(more[0]), ListsOfItems(more[1..]));
      MovableAppend(Lists(bs[0]), ListsOfItems(bs[1..]), inner);
    }
  }

  lemma {:induction false} SlimFieldsTotal(bs: seq<Field>, inner: Json -> string)
    ensures Solid(ListsOfFields(bs))
    ensures Total(ListsOfFields(SlimFields(bs, inner))) == Movable(ListsOfFields(bs), inner) + Nested(ListsOfFields(bs), inner)
    decreases bs, 0
  {
    FieldsSolid(bs);
    if bs != [] {
      var more := SlimFields(bs, inner);
      SlimHereTotal(bs[0].value, inner);
      SlimFieldsTotal(bs[1..], inner);
      assert more[1..] == SlimFields(bs[1..], inner);
      TotalAppend(ListsHere(more[0].value), ListsOfFields(more[1..]));
      MovableAppend(ListsHere(bs[0].value), ListsOfFields(bs[1..]), inner);
    }
  }

  lemma {:induction false} SlimHereTotal(b: Json, inner: Json -> string)
    ensures Solid(ListsHere(b))
    ensures Total(ListsHere(SlimHere(b, inner))) == Movable(ListsHere(b), inner) + Nested(ListsHere(b), inner)
    decreases b, 1
  {
    HereSolid(b);
    if Found(b) {
      var slim := SlimList(b.items, inner);
      assert [b.items][1..] == [];
      assert Movable([], inner) == 0 && Nested([], inner) == 0;
      assert ListsHere(List(slim)) == if AllRecords(slim) then [slim] else ListsOfItems(slim);
      assert Total([slim]) == |slim|;
    } else {
      SlimmedTotal(b, inner);
      SlimmedIsPruned(b, inner);
      if b.List? { PrunedRecords(b.items, Slimmed(b, inner).items, inner); }
    }
  }

  /** Whatever was dropped, the lists that are no longer found are shown whole. */
  lemma {:induction false} ShownAtLeast(b: Json, t: Json, inner: Json -> string)
    requires Pruned(b, t, inner)
    ensures Solid(Lists(b)) && Shown(b, t, inner) + Movable(Lists(b), inner) >= Total(Lists(b))
    decreases b, 0
  {
    ListsSolid(b);
    match b
    case List(items) => ShownItemsAtLeast(items, t.items, inner);
    case Dict(fields) => ShownFieldsAtLeast(fields, t.fields, inner);
    case _ =>
  }

  lemma {:induction false} ShownItemsAtLeast(bs: seq<Json>, ts: seq<Json>, inner: Json -> string)
    requires PrunedItems(bs, ts, inner)
    ensures Solid(ListsOfItems(bs))
    ensures ShownItems(bs, ts, inner) + Movable(ListsOfItems(bs), inner) >= Total(ListsOfItems(bs))
    decreases bs, 0
  {
    ItemsSolid(bs);
    if bs != [] {
      ShownAtLeast(bs[0], ts[0], inner);
      ShownItemsAtLeast(bs[1..], ts[1..], inner);
      TotalAppend(Lists(bs[0]), ListsOfItems(bs[1..]));
      MovableAppend(Lists(bs[0]), ListsOfItems(bs[1..]), inner);
    }
  }

  lemma {:induction false} ShownFieldsAtLeast(bs: seq<Field>, ts: seq<Field>, inner: Json -> string)
    requires PrunedFields(bs, ts, inner)
    ensures Solid(ListsOfFields(bs))
    ensures ShownFields(bs, ts, inner) + Movable(ListsOfFields(bs), inner) >= Total(ListsOfFields(bs))
    decreases bs, 0
  {
    FieldsSolid(bs);
    if bs != [] {
      ShownHereAtLeast(bs[0].value, ts[0].value, inner);
      ShownFieldsAtLeast(bs[1..], ts[1..], inner);
      TotalAppend(ListsHere(bs[0].value), ListsOfFields(bs[1..]));
      MovableAppend(ListsHere(bs[0].value), ListsOfFields(bs[1..]), inner);
    }
  }

  lemma {:induction false} ShownHereAtLeast(b: Json, t: Json, inner: Json -> string)
    requires PrunedHere(b, t, inner)
    ensures Solid(ListsHere(b))
    ensures ShownHere(b, t, inner) + Movable(ListsHere(b), inner) >= Total(ListsHere(b))
    decreases b, 1
  {
    HereSolid(b);
    if Found(b) {
      assert [b.items][1..] == [];
      assert Total([b.items]) == |b.items|;
    } else {
      ShownAtLeast(b, t, inner);
    }
  }

  lemma {:induction false} SteadyIffNoneNested(lists: seq<seq<Json>>, inner: Json -> string)
    requires Solid(lists)
    ensures AllSteady(lists, inner) <==> Nested(lists, inner) == 0
  {
    hide Slim, IsRecord, ListsOfItems;
    if lists != [] {
      assert lists == [lists[0]] + lists[1..];
      assert forall l | l in lists[1..] :: l in lists;
      SteadyIffNoneNested(lists[1..], inner);
      SteadyIffZero(lists[0], inner);
    }
  }

  lemma SteadyIffZero(l: seq<Json>, inner: Json -> string)
    requires AllRecords(l)
    ensures Steady(l, inner) <==> AllRecords(SlimList(l, inner)) || Total(ListsOfItems(SlimList(l, inner))) == 0
  {
    ItemsSolid(SlimList(l, inner));
    NoneIffZero(ListsOfItems(SlimList(l, inner)));
  }

  // ---------------------------------------------------------------- theorems

  /** What is returned accounts for every record: each visible list is a front part of its
      slimmed form, and shown and omitted together are the reported total. */
  ghost predicate Accounts(parsed: Json, t: Json, omitted: nat, inner: Json -> string)
    requires parsed.Dict?
  {
    Pruned(Base(parsed), t, inner) && Shown(Base(parsed), t, inner) + omitted == Total(Lists(parsed))
  }

  ghost predicate AlwaysAccounts(parsed: Json, f: Frame, inner: Json -> string)
    requires parsed.Dict?
  {
    forall limit: nat :: var r := Projected(parsed, f.(limit := limit), inner);
      r.Some? ==> Accounts(parsed, r.value.0, r.value.1, inner)
  }

  /** No list is found under the name of the reference. */
  ghost predicate RefIsFree(parsed: Json)
    requires parsed.Dict?
  {
    var v := Get(parsed.fields, REF);
    v.Some? ==> ListsHere(v.value) == []
  }

  lemma {:induction false} SlimmedPut(fields: seq<Field>, inner: Json -> string)
    ensures Put(SlimFields(fields, inner), REF, NULL) == SlimFields(Put(fields, REF, NULL), inner)
  {
    var slim := SlimFields(fields, inner);
    assert SlimFields([Field(REF, NULL)], inner) == [Field(REF, NULL)] + SlimFields([], inner) by {
      assert [Field(REF, NULL)][1..] == [];
    }
    if fields != [] {
      assert slim[1..] == SlimFields(fields[1..], inner);
      var put := Put(fields, REF, NULL);
      if fields[0].key == REF {
        assert put[1..] == fields[1..];
      } else {
        assert put[1..] == Put(fields[1..], REF, NULL);
        SlimmedPut(fields[1..], inner);
      }
    }
  }

  /** The reference costs exactly the lists that stood under its name. */
  lemma {:induction false} PutTotal(fields: seq<Field>)
    ensures var v := Get(fields, REF);
      Total(ListsOfFields(fields)) ==
      Total(ListsOfFields(Put(fields, REF, NULL))) + if v.Some? then Total(ListsHere(v.value)) else 0
  {
    assert ListsHere(NULL) == [];
    if fields == [] {
      assert [Field(REF, NULL)][1..] == [];
    } else {
      var put := Put(fields, REF, NULL);
      TotalAppend(ListsHere(fields[0].value), ListsOfFields(fields[1..]));
      if fields[0].key == REF {
        assert put[1..] == fields[1..];
        assert [] + ListsOfFields(fields[1..]) == ListsOfFields(fields[1..]);
      } else {
        assert put[1..] == Put(fields[1..], REF, NULL);
        PutTotal(fields[1..]);
        TotalAppend(ListsHere(fields[0].value), ListsOfFields(put[1..]));
      }
    }
  }

  lemma BaseTotal(parsed: Json)
    requires parsed.Dict?
    ensures Total(Lists(Base(parsed))) <= Total(Lists(parsed))
    ensures RefIsFree(parsed) <==> Total(Lists(Base(parsed))) == Total(Lists(parsed))
  {
    PutTotal(parsed.fields);
    var v := Get(parsed.fields, REF);
    if v.Some? {
      HereSolid(v.value);
      NoneIffZero(ListsHere(v.value));
    }
  }

  /** Where dropping starts. */
  lemma StartOf(parsed: Json, inner: Json -> string)
    requires parsed.Dict?
    ensures var b, t := Base(parsed), Base(Slimmed(parsed, inner));
      && t == Slimmed(b, inner) && Placed(t.fields)
      && Pruned(b, t, inner) && Shown(b, t, inner) == Total(Lists(b))
  {
    SlimmedPut(parsed.fields, inner);
    PutPlaces(SlimFields(parsed.fields, inner));
    SlimmedIsPruned(Base(parsed), inner);
  }

  /** In a steady document shown and omitted records are balanced throughout. */
  lemma {:induction false} FitBalances(b: Json, t: Json, omitted: nat, f: Frame, inner: Json -> string)
    requires t.Dict? && Pruned(b, t, inner) && AllSteady(Lists(b), inner)
    ensures var r := Fit(t, omitted, f);
      r.Some? ==> Pruned(b, r.value.0, inner)
                  && Shown(b, r.value.0, inner) + r.value.1 == Shown(b, t, inner) + omitted
    decreases Total(Lists(t))
  {
    hide Text, Pruned;
    if |Text(t, omitted, f)| > f.limit && Lists(t) != [] {
      var k := LongestAt(Lists(t));
      PopTotal(t, k);
      PopKeepsPruned(b, t, k, inner);
      FitBalances(b, Pop(t, k), omitted + 1, f, inner);
    }
  }

  /** With the right limit every record that is found is dropped. */
  lemma {:induction false} FitDropsAll(t: Json, omitted: nat, f: Frame) returns (limit: nat, last: Json)
    requires t.Dict? && Placed(t.fields)
    ensures limit <= |Text(t, omitted, f)|
    ensures Fit(t, omitted, f.(limit := limit)) == Some((last, omitted + Total(Lists(t))))
    decreases Total(Lists(t))
  {
    if Lists(t) == [] {
      limit, last := |Text(t, omitted, f)|, t;
    } else {
      var k := LongestAt(Lists(t));
      PopTotal(t, k);
      TextShortens(t, k, omitted, f);
      limit, last := FitDropsAll(Pop(t, k), omitted + 1, f);
    }
  }

  /** Shown and omitted records make up the reported total under every limit if and only
      if no list stands under the name of the reference, and every list found is, once
      slimmed, still found or free of lists. */
  lemma AccountsIff(parsed: Json, f: Frame, inner: Json -> string)
    requires parsed.Dict? && Lists(parsed) != []
    ensures AlwaysAccounts(parsed, f, inner) <==> RefIsFree(parsed) && AllSteady(Lists(Base(parsed)), inner)
  {
    if RefIsFree(parsed) && AllSteady(Lists(Base(parsed)), inner) {
      SteadyAccounts(parsed, f, inner);
    } else if !RefIsFree(parsed) {
      var limit := HiddenIsLost(parsed, f, inner);
    } else {
      var limit, omitted := NestedIsDropped(parsed, f, inner);
    }
  }

  lemma SteadyAccounts(parsed: Json, f: Frame, inner: Json -> string)
    requires parsed.Dict? && Lists(parsed) != [] && RefIsFree(parsed) && AllSteady(Lists(Base(parsed)), inner)
    ensures AlwaysAccounts(parsed, f, inner)
  {
    hide Text, Pruned;
    StartOf(parsed, inner);
    BaseTotal(parsed);
    forall limit: nat
      ensures var r := Projected(parsed, f.(limit := limit), inner);
        r.Some? ==> Accounts(parsed, r.value.0, r.value.1, inner)
    {
      FitBalances(Base(parsed), Base(Slimmed(parsed, inner)), 0, f.(limit := limit, total := Total(Lists(parsed))), inner);
    }
  }

  /** A list under the name of the reference is overwritten, and its records are neither
      shown nor omitted. */
  lemma HiddenIsLost(parsed: Json, f: Frame, inner: Json -> string) returns (limit: nat)
    requires parsed.Dict? && Lists(parsed) != [] && !RefIsFree(parsed)
    ensures var r := Projected(parsed, f.(limit := limit), inner);
      r.Some? && r.value.1 == 0 && !Accounts(parsed, r.value.0, r.value.1, inner)
    ensures !AlwaysAccounts(parsed, f, inner)
  {
    hide Pruned;
    StartOf(parsed, inner);
    BaseTotal(parsed);
    limit := |Text(Base(Slimmed(parsed, inner)), 0, f.(total := Total(Lists(parsed))))|;
    var g := f.(limit := limit, total := Total(Lists(parsed)));
    assert g == f.(limit := limit).(total := Total(Lists(parsed)));
    assert Fit(Base(Slimmed(parsed, inner)), 0, g) == Some((Base(Slimmed(parsed, inner)), 0));
  }

  /** Records within a record that slimming made unrecognisable are dropped and counted as
      omitted, though the total does not count them. */
  lemma NestedIsDropped(parsed: Json, f: Frame, inner: Json -> string) returns (limit: nat, omitted: nat)
    requires parsed.Dict? && Lists(parsed) != [] && RefIsFree(parsed) && !AllSteady(Lists(Base(parsed)), inner)
    ensures var r := Projected(parsed, f.(limit := limit), inner);
      r.Some? && r.value.1 == omitted && !Accounts(parsed, r.value.0, r.value.1, inner)
    ensures Solid(Lists(Base(parsed)))
    ensures omitted == Movable(Lists(Base(parsed)), inner) + Nested(Lists(Base(parsed)), inner)
    ensures !AlwaysAccounts(parsed, f, inner)
  {
    hide Pruned, Text;
    var b, g := Base(parsed), f.(total := Total(Lists(parsed)));
    StartOf(parsed, inner);
    BaseTotal(parsed);
    SlimmedTotal(b, inner);
    var last;
    limit, last := FitDropsAll(Base(Slimmed(parsed, inner)), 0, g);
    omitted := Total(Lists(Slimmed(b, inner)));
    assert g.(limit := limit) == f.(limit := limit).(total := Total(Lists(parsed)));
    SteadyIffNoneNested(Lists(b), inner);
    if Pruned(b, last, inner) { ShownAtLeast(b, last, inner); }
  }

  // ---------------------------------------------------------------- examples

  function Titled(title: string): Json {
    Dict([Field("title", Str(title))])
  }

  lemma TitledIsRecord(title: string)
    requires title != ""
    ensures IsRecord(Titled(title))
  {
    assert Get(Titled(title).fields, "title") == Some(Str(title));
  }

  lemma OneOfField(x: Field)
    ensures ListsOfFields([x]) == ListsHere(x.value)
  {
    assert [x][1..] == [];
    assert ListsHere(x.value) + [] == ListsHere(x.value);
  }

  lemma TwoFields(x: Field, y: Field)
    ensures ListsOfFields([x, y]) == ListsHere(x.value) + ListsHere(y.value)
  {
    assert [x, y][1..] == [y];
    OneOfField(y);
  }

  lemma OneItem(x: Json)
    ensures ListsOfItems([x]) == Lists(x) && AllRecords([x]) == IsRecord(x)
  {
    assert [x][1..] == [];
    assert Lists(x) + [] == Lists(x);
  }

  /** A list of one record. */
  lemma FoundOne(r: Json)
    requires IsRecord(r)
    ensures ListsHere(List([r])) == [[r]] && Total([[r]]) == 1
  {
    OneItem(r);
    assert [[r]][1..] == [];
  }

  /** The record with a blank title: slimmed it is its entity only. */
  function Blank(entity: Json): Json {
    Dict([Field("title", Str(" ")), Field("entity", entity)])
  }

  lemma BlankSlims(entity: Json, inner: Json -> string)
    requires entity.List?
    ensures IsRecord(Blank(entity)) && Slim(Blank(entity), inner) == Dict([Field("entity", entity)])
    ensures !IsRecord(Dict([Field("entity", entity)]))
  {
    var fields := Blank(entity).fields;
    assert Get(fields, "title") == Some(Str(" "));
    assert fields[1..] == [Field("entity", entity)] && fields[1..][1..] == [];
    assert Get(fields[1..], "summary") == None && Get(fields[1..], "url") == None && Get(fields[1..], "id") == None;
    assert Get(fields, "entity") == Some(entity);
    assert Schema.IsSpace(' ') && " "[1..] == "" && Schema.LStrip(" ") == Schema.LStrip("") == "" && Schema.Strip(" ") == "";
    var slim := [Field("entity", entity)];
    assert slim[1..] == [] && Get(slim, "title") == None && Get(slim, "summary") == None;
  }

  lemma NestedShape(r: Json)
    requires IsRecord(r)
    ensures var parsed := Dict([Field("items", List([r]))]);
      Lists(parsed) == [[r]] && Lists(Base(parsed)) == [[r]] && Total([[r]]) == 1 && RefIsFree(parsed)
  {
    var items := Field("items", List([r]));
    FoundOne(r);
    OneOfField(items);
    assert [items][1..] == [];
    assert Get([items], REF) == None && Put([items], REF, NULL) == [items, Field(REF, NULL)];
    TwoFields(items, Field(REF, NULL));
    NoneInNull();
  }

  /** Slimmed, the record is no record any more, and its entity's list is found. */
  lemma NestedCounts(pair: seq<Json>, inner: Json -> string)
    requires AllRecords(pair) && pair != []
    ensures var r := Blank(List(pair));
      && IsRecord(r) && AllRecords([r]) && !Steady([r], inner)
      && Movable([[r]], inner) == 0 && Nested([[r]], inner) == |pair|
  {
    var r, slim := Blank(List(pair)), Dict([Field("entity", List(pair))]);
    BlankSlims(List(pair), inner);
    OneItem(r);
    assert SlimList([r], inner) == [slim];
    OneItem(slim);
    OneOfField(Field("entity", List(pair)));
    assert ListsOfItems([slim]) == [pair];
    assert [pair][1..] == [] && Total([pair]) == |pair|;
    assert [[r]][1..] == [];
    assert Movable([], inner) == 0 && Nested([], inner) == 0;
  }

  /** One record with a blank title and two records in its entity: the total is 1, and
      under some limit 2 are omitted. */
  lemma NestedExample(f: Frame, inner: Json -> string) returns (parsed: Json, limit: nat)
    ensures parsed == Dict([Field("items", List([Blank(List([Titled("A"), Titled("B")]))]))])
    ensures Total(Lists(parsed)) == 1
    ensures var r := Projected(parsed, f.(limit := limit), inner); r.Some? && r.value.1 == 2
  {
    hide Lists, ListsOfItems, Movable, Nested, Slim, Projected;
    TitledIsRecord("A");
    TitledIsRecord("B");
    var pair := [Titled("A"), Titled("B")];
    NestedCounts(pair, inner);
    var r := Blank(List(pair));
    NestedShape(r);
    parsed := Dict([Field("items", List([r]))]);
    assert [r] in Lists(Base(parsed));
    var omitted;
    limit, omitted := NestedIsDropped(parsed, f, inner);
  }

  /** A record under the name of the reference and one beside it: the total is 2, and
      under some limit one is shown and none is omitted. */
  lemma HiddenExample(f: Frame, inner: Json -> string) returns (parsed: Json, limit: nat)
    ensures parsed == Dict([Field(REF, List([Titled("A")])), Field("items", List([Titled("B")]))])
    ensures Total(Lists(parsed)) == 2 && Total(Lists(Base(parsed))) == 1
    ensures var r := Projected(parsed, f.(limit := limit), inner);
      r.Some? && r.value.1 == 0 && !Accounts(parsed, r.value.0, r.value.1, inner)
  {
    var hidden, items := Field(REF, List([Titled("A")])), Field("items", List([Titled("B")]));
    parsed := Dict([hidden, items]);
    TitledIsRecord("A");
    TitledIsRecord("B");
    FoundOne(Titled("A"));
    FoundOne(Titled("B"));
    TwoFields(hidden, items);
    TotalAppend([[Titled("A")]], [[Titled("B")]]);
    assert Put([hidden, items], REF, NULL) == [Field(REF, NULL), items];
    TwoFields(Field(REF, NULL), items);
    NoneInNull();
    assert [] + [[Titled("B")]] == [[Titled("B")]];
    limit := HiddenIsLost(parsed, f, inner);
  }
}
