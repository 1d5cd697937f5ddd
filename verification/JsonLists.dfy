/** JSON documents and their record lists (`harness/compaction/project.py`): how the lists
    are found, slimmed, and lose their last records. */
module JsonLists {
  import opened Schema
  import opened Events

  /** A parsed document; `Atom` is a number, true, false or null as it is written. */
  datatype Json = Atom(text: string) | Str(value: string) | List(items: seq<Json>) | Dict(fields: seq<Field>)
  datatype Field = Field(key: string, value: Json)

  const NULL := Atom("null")

  function Get(fields: seq<Field>, key: string): Option<Json> {
    if fields == [] then None
    else if fields[0].key == key then Some(fields[0].value) else Get(fields[1..], key)
  }

  /** Assignment to a key: in place, or at the end for a new key. */
  function Put(fields: seq<Field>, key: string, value: Json): seq<Field> {
    if fields == [] then [Field(key, value)]
    else if fields[0].key == key then [Field(key, value)] + fields[1..]
    else [fields[0]] + Put(fields[1..], key, value)
  }

  // ------------------------------------------------------------------ text

  lemma {:induction false} DigitsNext(n: nat)
    ensures |Digits(n)| <= |Digits(n + 1)| <= |Digits(n)| + 1
  {
    if n >= 9 {
      if (n + 1) / 10 == n / 10 {
      } else {
        assert (n + 1) / 10 == n / 10 + 1;
        if n >= 10 { DigitsNext(n / 10); }
      }
    }
  }

  /** `json.dumps` without escapes for other alphabets; `quote` writes a string. */
  function Dump(j: Json, quote: string -> string): string {
    match j
    case Atom(text) => text
    case Str(value) => quote(value)
    case List(items) => "[" + DumpItems(items, quote) + "]"
    case Dict(fields) => "{" + DumpFields(fields, quote) + "}"
  }

  function DumpItems(items: seq<Json>, quote: string -> string): string {
    if items == [] then ""
    else Dump(items[0], quote) + if |items| == 1 then "" else ", " + DumpItems(items[1..], quote)
  }

  function DumpFields(fields: seq<Field>, quote: string -> string): string {
    if fields == [] then ""
    else quote(fields[0].key) + ": " + Dump(fields[0].value, quote)
         + if |fields| == 1 then "" else ", " + DumpFields(fields[1..], quote)
  }

  // ---------------------------------------------------------- record lists

  predicate HasText(j: Json, key: string) {
    j.Dict? && var v := Get(j.fields, key); v.Some? && v.value.Str? && v.value.value != ""
  }

  predicate IsRecord(j: Json) {
    HasText(j, "title") || HasText(j, "summary")
  }

  predicate AllRecords(items: seq<Json>) {
    forall i | 0 <= i < |items| :: IsRecord(items[i])
  }

  /** A list that `_record_lists` finds: not empty, all records. */
  predicate Found(j: Json) {
    j.List? && j.items != [] && AllRecords(j.items)
  }

  /** `_record_lists`, the lists found in document order; a found list is not searched. */
  function Lists(j: Json): seq<seq<Json>>
    decreases j, 0
  {
    match j
    case List(items) => ListsOfItems(items)
    case Dict(fields) => ListsOfFields(fields)
    case _ => []
  }

  function ListsOfItems(items: seq<Json>): seq<seq<Json>>
    decreases items, 0
  {
    if items == [] then [] else Lists(items[0]) + ListsOfItems(items[1..])
  }

  function ListsOfFields(fields: seq<Field>): seq<seq<Json>>
    decreases fields, 0
  {
    if fields == [] then [] else ListsHere(fields[0].value) + ListsOfFields(fields[1..])
  }

  /** What is found in the value of a field. */
  function ListsHere(j: Json): seq<seq<Json>>
    decreases j, 1
  {
    if Found(j) then [j.items] else Lists(j)
  }

  function Total(lists: seq<seq<Json>>): nat {
    if lists == [] then 0 else |lists[0]| + Total(lists[1..])
  }

  lemma {:induction false} TotalAppend(a: seq<seq<Json>>, b: seq<seq<Json>>)
    ensures Total(a + b) == Total(a) + Total(b)
  {
    if a == [] {
      assert a + b == b;
    } else {
      assert (a + b)[1..] == a[1..] + b;
      TotalAppend(a[1..], b);
    }
  }

  // -------------------------------------------------------------- slimming

  const TITLE_CHARS: nat := 200
  const SUMMARY_CHARS: nat := 120

  function SlimText(j: Json, key: string, chars: nat): seq<Field>
    requires j.Dict?
  {
    var v := Get(j.fields, key);
    if v.Some? && v.value.Str? && Strip(v.value.value) != "" then [Field(key, Str(Front(Strip(v.value.value), chars)))] else []
  }

  function Kept(j: Json, key: string): seq<Field>
    requires j.Dict?
  {
    var v := Get(j.fields, key);
    if v.Some? && v.value != NULL && v.value != Str("") then [Field(key, v.value)] else []
  }

  /** `slim_record`; `inner` is what Python shows between the braces of the record. */
  function Slim(j: Json, inner: Json -> string): Json
    requires j.Dict?
  {
    var fields := SlimText(j, "title", TITLE_CHARS) + SlimText(j, "summary", SUMMARY_CHARS)
                  + Kept(j, "url") + Kept(j, "id") + Kept(j, "entity");
    Dict(if fields != [] then fields else [Field("title", Str(Front("{" + inner(j) + "}", TITLE_CHARS)))])
  }

  function SlimList(items: seq<Json>, inner: Json -> string): (r: seq<Json>)
    requires AllRecords(items)
    ensures |r| == |items| && forall i | 0 <= i < |r| :: r[i].Dict?
  {
    seq(|items|, i requires 0 <= i < |items| => Slim(items[i], inner))
  }

  /** Every list found, slimmed in its place. */
  function Slimmed(j: Json, inner: Json -> string): Json
    decreases j, 0
  {
    match j
    case List(items) => List(SlimItems(items, inner))
    case Dict(fields) => Dict(SlimFields(fields, inner))
    case _ => j
  }

  function SlimItems(items: seq<Json>, inner: Json -> string): seq<Json>
    decreases items, 0
  {
    if items == [] then [] else [Slimmed(items[0], inner)] + SlimItems(items[1..], inner)
  }

  function SlimFields(fields: seq<Field>, inner: Json -> string): seq<Field>
    decreases fields, 0
  {
    if fields == [] then [] else [Field(fields[0].key, SlimHere(fields[0].value, inner))] + SlimFields(fields[1..], inner)
  }

  function SlimHere(j: Json, inner: Json -> string): Json
    decreases j, 1
  {
    if Found(j) then List(SlimList(j.items, inner)) else Slimmed(j, inner)
  }

  // --------------------------------------------------------------- popping

  /** The `k`-th list found loses its last record. */
  function Pop(j: Json, k: nat): Json
    requires k < |Lists(j)|
    decreases j, 0
  {
    match j
    case List(items) => List(PopItems(items, k))
    case Dict(fields) => Dict(PopFields(fields, k))
  }

  function PopItems(items: seq<Json>, k: nat): seq<Json>
    requires k < |ListsOfItems(items)|
    decreases items, 0
  {
    var n := |Lists(items[0])|;
    if k < n then [Pop(items[0], k)] + items[1..] else [items[0]] + PopItems(items[1..], k - n)
  }

  function PopFields(fields: seq<Field>, k: nat): seq<Field>
    requires k < |ListsOfFields(fields)|
    decreases fields, 0
  {
    var n := |ListsHere(fields[0].value)|;
    if k < n then [Field(fields[0].key, PopHere(fields[0].value, k))] + fields[1..]
    else [fields[0]] + PopFields(fields[1..], k - n)
  }

  function PopHere(j: Json, k: nat): Json
    requires k < |ListsHere(j)|
    decreases j, 1
  {
    if Found(j) then List(j.items[..|j.items| - 1]) else Pop(j, k)
  }

  /** One record less is found. */
  lemma {:induction false} PopTotal(j: Json, k: nat)
    requires k < |Lists(j)|
    ensures Total(Lists(Pop(j, k))) == Total(Lists(j)) - 1
    decreases j, 0
  {
    match j
    case List(items) => PopItemsTotal(items, k);
    case Dict(fields) => PopFieldsTotal(fields, k);
  }

  lemma {:induction false} PopItemsTotal(items: seq<Json>, k: nat)
    requires k < |ListsOfItems(items)|
    ensures Total(ListsOfItems(PopItems(items, k))) == Total(ListsOfItems(items)) - 1
    decreases items, 0
  {
    var more, n := PopItems(items, k), |Lists(items[0])|;
    assert more[1..] == if k < n then items[1..] else PopItems(items[1..], k - n);
    TotalAppend(Lists(items[0]), ListsOfItems(items[1..]));
    TotalAppend(Lists(more[0]), ListsOfItems(more[1..]));
    if k < n { PopTotal(items[0], k); } else { PopItemsTotal(items[1..], k - n); }
  }

  lemma {:induction false} PopFieldsTotal(fields: seq<Field>, k: nat)
    requires k < |ListsOfFields(fields)|
    ensures Total(ListsOfFields(PopFields(fields, k))) == Total(ListsOfFields(fields)) - 1
    decreases fields, 0
  {
    var more, n := PopFields(fields, k), |ListsHere(fields[0].value)|;
    assert more[1..] == if k < n then fields[1..] else PopFields(fields[1..], k - n);
    TotalAppend(ListsHere(fields[0].value), ListsOfFields(fields[1..]));
    TotalAppend(ListsHere(more[0].value), ListsOfFields(more[1..]));
    if k < n { PopHereTotal(fields[0].value, k); } else { PopFieldsTotal(fields[1..], k - n); }
  }

  lemma {:induction false} PopHereTotal(j: Json, k: nat)
    requires k < |ListsHere(j)|
    ensures Total(ListsHere(PopHere(j, k))) == Total(ListsHere(j)) - 1
    decreases j, 1
  {
    if Found(j) {
      var front := j.items[..|j.items| - 1];
      assert AllRecords(front);
      if front == [] {
        assert Lists(List(front)) == ListsOfItems([]) == [];
      }
      assert ListsHere(List(front)) == if front == [] then [] else [front];
      assert Total([j.items]) == |j.items| && Total([front]) == |front|;
    } else {
      PopTotal(j, k);
      PopNeverFinds(j, k);
    }
  }

  /** A list that was not found is not found after a pop within it. */
  lemma PopNeverFinds(j: Json, k: nat)
    requires k < |Lists(j)| && !Found(j)
    ensures !Found(Pop(j, k))
  {
    if j.List? { PopItemsRecords(j.items, k); }
  }

  lemma {:induction false} PopItemsRecords(items: seq<Json>, k: nat)
    requires k < |ListsOfItems(items)|
    ensures |PopItems(items, k)| == |items| && (AllRecords(PopItems(items, k)) <==> AllRecords(items))
  {
    var more, n := PopItems(items, k), |Lists(items[0])|;
    assert more[1..] == if k < n then items[1..] else PopItems(items[1..], k - n);
    if k < n { PopRecord(items[0], k); } else { PopItemsRecords(items[1..], k - n); }
    RecordsCons(items);
    RecordsCons(more);
  }

  lemma RecordsCons(items: seq<Json>)
    requires items != []
    ensures AllRecords(items) <==> IsRecord(items[0]) && AllRecords(items[1..])
  {
    assert items == [items[0]] + items[1..];
  }

  lemma PopRecord(j: Json, k: nat)
    requires k < |Lists(j)|
    ensures IsRecord(Pop(j, k)) <==> IsRecord(j)
  {
    if j.Dict? {
      PopText(j.fields, k, "title");
      PopText(j.fields, k, "summary");
    }
  }

  lemma PopNoText(j: Json, k: nat)
    requires k < |ListsHere(j)|
    ensures !j.Str? && !PopHere(j, k).Str?
  {
    if !Found(j) { assert Lists(j) != []; }
  }

  /** A pop changes no text. */
  lemma {:induction false} PopText(fields: seq<Field>, k: nat, key: string)
    requires k < |ListsOfFields(fields)|
    ensures HasText(Dict(PopFields(fields, k)), key) <==> HasText(Dict(fields), key)
  {
    var more, n := PopFields(fields, k), |ListsHere(fields[0].value)|;
    assert more[1..] == if k < n then fields[1..] else PopFields(fields[1..], k - n);
    if fields[0].key != key && k >= n { PopText(fields[1..], k - n, key); }
    if k < n { PopNoText(fields[0].value, k); }
  }
}
