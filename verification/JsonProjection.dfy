/** Projecting an over-long JSON tool result (`harness/compaction/project.py`): the records
    of its record lists are slimmed, then dropped one by one from the ends of the lists
    until the text fits. */
module JsonProjection {
  import opened Events
  import opened JsonLists
  import Schema

  /** The first of the longest lists. */
  ghost predicate IsLongest(lists: seq<seq<Json>>, k: nat) {
    && k < |lists|
    && forall j | 0 <= j < |lists| :: |lists[j]| <= |lists[k]| && (|lists[j]| == |lists[k]| ==> k <= j)
  }

  function LongestAt(lists: seq<seq<Json>>): (k: nat)
    requires lists != []
    ensures IsLongest(lists, k)
  {
    if |lists| == 1 then 0
    else
      var m := LongestAt(lists[1..]);
      assert forall j | 0 < j < |lists| :: lists[j] == lists[1..][j - 1];
      if |lists[0]| >= |lists[m + 1]| then 0 else m + 1
  }

  method Longest(lists: seq<seq<Json>>) returns (at: nat)
    requires lists != []
    ensures at == LongestAt(lists)
  {
    at := 0;
    for n := 1 to |lists|
      invariant at < n
      invariant forall j | 0 <= j < n :: |lists[j]| <= |lists[at]| && (|lists[j]| == |lists[at]| ==> at <= j)
    {
      if |lists[n]| > |lists[at]| {
        at := n;
      }
    }
    assert IsLongest(lists, at);
  }

  const REF := "log_ref"

  function Ref(source: Option<nat>, total: nat, omitted: nat): Json {
    Dict([Field("seq", if source.Some? then Atom(Schema.Digits(source.value)) else NULL),
          Field("total", Atom(Schema.Digits(total))), Field("omitted", Atom(Schema.Digits(omitted)))])
  }

  /** The document with its place for the reference emptied. */
  function Base(j: Json): (b: Json)
    requires j.Dict?
    ensures b.Dict?
  {
    Dict(Put(j.fields, REF, NULL))
  }

  /** What stays fixed while records are dropped. */
  datatype Frame = Frame(source: Option<nat>, total: nat, limit: nat, quote: string -> string)

  /** The text with this many records reported as omitted. */
  function Text(t: Json, omitted: nat, f: Frame): string
    requires t.Dict?
  {
    Dump(Dict(Put(t.fields, REF, Ref(f.source, f.total, omitted))), f.quote)
  }

  /** Records are dropped until the text fits; none: it never does. */
  function Fit(t: Json, omitted: nat, f: Frame): (r: Option<(Json, nat)>)
    requires t.Dict?
    ensures r.Some? ==> r.value.0.Dict? && |Text(r.value.0, r.value.1, f)| <= f.limit
    decreases Total(Lists(t))
  {
    if |Text(t, omitted, f)| <= f.limit then Some((t, omitted))
    else if Lists(t) == [] then None
    else
      PopTotal(t, LongestAt(Lists(t)));
      Fit(Pop(t, LongestAt(Lists(t))), omitted + 1, f)
  }

  /** The projection of a document before it is written out. */
  function Projected(parsed: Json, f: Frame, inner: Json -> string): Option<(Json, nat)> {
    if parsed.Dict? && Lists(parsed) != [] then Fit(Base(Slimmed(parsed, inner)), 0, f.(total := Total(Lists(parsed)))) else None
  }

  /** `project_tool_json`, from the parsed document on. */
  method ProjectToolJson(parsed: Json, f: Frame, inner: Json -> string) returns (projected: Option<string>)
    ensures projected.Some? <==> Projected(parsed, f, inner).Some?
    ensures projected.Some? ==>
      var (t, omitted) := Projected(parsed, f, inner).value;
      projected.value == Text(t, omitted, f.(total := Total(Lists(parsed)))) && |projected.value| <= f.limit
  {
    if !parsed.Dict? || Lists(parsed) == [] {
      return None;
    }
    var g := f.(total := Total(Lists(parsed)));
    var t := Base(Slimmed(parsed, inner));
    var omitted := 0;
    while |Text(t, omitted, g)| > g.limit
      invariant t.Dict? && Fit(t, omitted, g) == Projected(parsed, f, inner)
      decreases Total(Lists(t))
    {
      var lists := Lists(t);
      if lists == [] {
        return None;
      }
      var at := Longest(lists);
      PopTotal(t, at);
      t := Pop(t, at);
      omitted := omitted + 1;
    }
    projected := Some(Text(t, omitted, g));
  }

  // ----------------------------------------------------- pops make it shorter

  lemma {:induction false} PopShortens(j: Json, k: nat, quote: string -> string)
    requires k < |Lists(j)|
    ensures |Dump(Pop(j, k), quote)| + 2 <= |Dump(j, quote)|
    decreases j, 0
  {
    match j
    case List(items) => PopItemsShortens(items, k, quote);
    case Dict(fields) => PopFieldsShortens(fields, k, quote);
  }

  lemma {:induction false} PopItemsShortens(items: seq<Json>, k: nat, quote: string -> string)
    requires k < |ListsOfItems(items)|
    ensures |PopItems(items, k)| == |items|
    ensures |DumpItems(PopItems(items, k), quote)| + 2 <= |DumpItems(items, quote)|
    decreases items, 0
  {
    var n, more := |Lists(items[0])|, PopItems(items, k);
    assert more[1..] == if k < n then items[1..] else PopItems(items[1..], k - n);
    if k < n { PopShortens(items[0], k, quote); } else { PopItemsShortens(items[1..], k - n, quote); }
  }

  lemma {:induction false} PopFieldsShortens(fields: seq<Field>, k: nat, quote: string -> string)
    requires k < |ListsOfFields(fields)|
    ensures |PopFields(fields, k)| == |fields|
    ensures |DumpFields(PopFields(fields, k), quote)| + 2 <= |DumpFields(fields, quote)|
    decreases fields, 0
  {
    var n, more := |ListsHere(fields[0].value)|, PopFields(fields, k);
    assert more[1..] == if k < n then fields[1..] else PopFields(fields[1..], k - n);
    if k < n { PopHereShortens(fields[0].value, k, quote); } else { PopFieldsShortens(fields[1..], k - n, quote); }
  }

  lemma {:induction false} PopHereShortens(j: Json, k: nat, quote: string -> string)
    requires k < |ListsHere(j)|
    ensures |Dump(PopHere(j, k), quote)| + 2 <= |Dump(j, quote)|
    decreases j, 1
  {
    if Found(j) { LastShortens(j.items, quote); } else { PopShortens(j, k, quote); }
  }

  lemma {:induction false} LastShortens(items: seq<Json>, quote: string -> string)
    requires items != [] && items[|items| - 1].Dict?
    ensures |DumpItems(items[..|items| - 1], quote)| + 2 <= |DumpItems(items, quote)|
  {
    if |items| > 1 {
      var front := items[..|items| - 1];
      assert front[1..] == items[1..][..|items| - 2];
      LastShortens(items[1..], quote);
    }
  }

  /** The place for the reference is there and empty. */
  ghost predicate Placed(fields: seq<Field>) {
    Get(fields, REF) == Some(NULL)
  }

  lemma {:induction false} PutPlaces(fields: seq<Field>)
    ensures Placed(Put(fields, REF, NULL))
  {
    if fields != [] && fields[0].key != REF { PutPlaces(fields[1..]); }
  }

  /** A pop and one more omitted record make the text shorter. */
  lemma {:induction false} PutPopShortens(fields: seq<Field>, k: nat, one: Json, two: Json, quote: string -> string)
    requires Placed(fields) && k < |ListsOfFields(fields)| && |Dump(two, quote)| <= |Dump(one, quote)| + 1
    ensures Placed(PopFields(fields, k)) && |PopFields(fields, k)| == |fields|
    ensures |Put(PopFields(fields, k), REF, two)| == |Put(fields, REF, one)|
    ensures |DumpFields(Put(PopFields(fields, k), REF, two), quote)| < |DumpFields(Put(fields, REF, one), quote)|
  {
    hide Dump, DumpFields, Found, Pop;
    var n, more := |ListsHere(fields[0].value)|, PopFields(fields, k);
    PopCons(fields, k);
    if fields[0].key == REF {
      assert Lists(NULL) == [] && ListsHere(NULL) == [] by { NoneInNull(); }
      PopFieldsShortens(fields[1..], k, quote);
      DumpCons(Field(REF, one), fields[1..], quote);
      DumpCons(Field(REF, two), more[1..], quote);
    } else if k < n {
      PopHereShortens(fields[0].value, k, quote);
      PutLonger(fields[1..], one, two, quote);
      DumpCons(fields[0], Put(fields[1..], REF, one), quote);
      DumpCons(more[0], Put(fields[1..], REF, two), quote);
    } else {
      PutPopShortens(fields[1..], k - n, one, two, quote);
      DumpCons(fields[0], Put(fields[1..], REF, one), quote);
      DumpCons(fields[0], Put(more[1..], REF, two), quote);
    }
  }

  lemma NoneInNull()
    ensures Lists(NULL) == [] && ListsHere(NULL) == []
  {
  }

  lemma PopCons(fields: seq<Field>, k: nat)
    requires k < |ListsOfFields(fields)|
    ensures var n, more := |ListsHere(fields[0].value)|, PopFields(fields, k);
      && more[0].key == fields[0].key
      && (if k < n then more[0].value == PopHere(fields[0].value, k) && more[1..] == fields[1..]
          else more[0] == fields[0] && more[1..] == PopFields(fields[1..], k - n))
  {
    hide Found, Pop;
  }

  lemma DumpCons(x: Field, rest: seq<Field>, quote: string -> string)
    ensures |DumpFields([x] + rest, quote)| ==
            |quote(x.key)| + 2 + |Dump(x.value, quote)| + if rest == [] then 0 else 2 + |DumpFields(rest, quote)|
  {
    hide Dump;
    var all := [x] + rest;
    assert all[1..] == rest;
  }

  lemma {:induction false} PutLonger(fields: seq<Field>, one: Json, two: Json, quote: string -> string)
    requires Placed(fields) && |Dump(two, quote)| <= |Dump(one, quote)| + 1
    ensures |Put(fields, REF, two)| == |Put(fields, REF, one)|
    ensures |DumpFields(Put(fields, REF, two), quote)| <= |DumpFields(Put(fields, REF, one), quote)| + 1
  {
    var was, now := Put(fields, REF, one), Put(fields, REF, two);
    if fields[0].key == REF {
      assert was[1..] == fields[1..] == now[1..];
    } else {
      assert was[1..] == Put(fields[1..], REF, one) && now[1..] == Put(fields[1..], REF, two);
      PutLonger(fields[1..], one, two, quote);
    }
  }

  lemma OneField(x: Field, quote: string -> string)
    ensures DumpFields([x], quote) == quote(x.key) + ": " + Dump(x.value, quote)
  {
    var fields := [x];
    assert fields[0] == x;
    assert quote(x.key) + ": " + Dump(x.value, quote) + "" == quote(x.key) + ": " + Dump(x.value, quote);
  }

  lemma RefNext(source: Option<nat>, total: nat, omitted: nat, quote: string -> string)
    ensures |Dump(Ref(source, total, omitted + 1), quote)| <= |Dump(Ref(source, total, omitted), quote)| + 1
  {
    DigitsNext(omitted);
    var one, two := Ref(source, total, omitted).fields, Ref(source, total, omitted + 1).fields;
    assert one[1..][1..] == [one[2]] && two[1..][1..] == [two[2]];
    assert one[0] == two[0] && one[1] == two[1] && one[1..][0] == one[1] && two[1..][0] == two[1];
    var lastOne, lastTwo := DumpFields([one[2]], quote), DumpFields([two[2]], quote);
    OneField(one[2], quote);
    OneField(two[2], quote);
    assert DumpFields(one[1..], quote) == quote(one[1].key) + ": " + Dump(one[1].value, quote) + (", " + lastOne);
    assert DumpFields(two[1..], quote) == quote(two[1].key) + ": " + Dump(two[1].value, quote) + (", " + lastTwo);
  }

  lemma TextShortens(t: Json, k: nat, omitted: nat, f: Frame)
    requires t.Dict? && Placed(t.fields) && k < |Lists(t)|
    ensures Placed(Pop(t, k).fields) && |Text(Pop(t, k), omitted + 1, f)| < |Text(t, omitted, f)|
  {
    RefNext(f.source, f.total, omitted, f.quote);
    PutPopShortens(t.fields, k, Ref(f.source, f.total, omitted), Ref(f.source, f.total, omitted + 1), f.quote);
  }

  /** A projection is declined exactly when the text is too long even with every record
      dropped that can be. */
  lemma {:induction false} FitIff(t: Json, omitted: nat, f: Frame) returns (last: Json)
    requires t.Dict? && Placed(t.fields)
    ensures last.Dict? && Lists(last) == []
    ensures |Text(last, omitted + Total(Lists(t)), f)| <= |Text(t, omitted, f)|
    ensures Fit(t, omitted, f).Some? <==> |Text(last, omitted + Total(Lists(t)), f)| <= f.limit
    decreases Total(Lists(t))
  {
    hide Text;
    if Lists(t) == [] {
      last := t;
    } else {
      var k := LongestAt(Lists(t));
      PopTotal(t, k);
      TextShortens(t, k, omitted, f);
      last := FitIff(Pop(t, k), omitted + 1, f);
    }
  }
}
