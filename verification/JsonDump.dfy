/** A projection is written as JSON: the text of `json.dumps` read by the grammar of
    section 2 of RFC 8259. */
module JsonDump {
  import opened JsonLists
  import opened Events
  import R = JsonRepair
  import Schema

  /** How `quote` writes a string: as these pieces between quotation marks. */
  type Pieces = string -> seq<R.Piece>

  ghost predicate Writes(quote: string -> string, pieces: Pieces) {
    forall s :: quote(s) == R.Quoted(pieces(s), false) && R.Proper(pieces(s))
  }

  /** The document in the grammar: the same values, items and fields in the same order, a
      space behind each comma and colon. */
  ghost predicate IsTree(j: Json, t: R.Json, pieces: Pieces)
    decreases j, 0
  {
    match j
    case Atom(text) => t == R.Literal(text)
    case Str(value) => t == R.Text(pieces(value))
    case List(items) => t.List? && t.pad == "" && AreElements(items, t.elements, "", pieces)
    case Dict(fields) => t.Object? && t.pad == "" && AreMembers(fields, t.members, "", pieces)
  }

  ghost predicate AreElements(items: seq<Json>, es: seq<R.Element>, before: string, pieces: Pieces)
    decreases items, 0
  {
    && |es| == |items|
    && (items != [] ==> es[0].before == before && es[0].after == "" && IsTree(items[0], es[0].value, pieces)
                        && AreElements(items[1..], es[1..], " ", pieces))
  }

  ghost predicate AreMembers(fields: seq<Field>, ms: seq<R.Member>, before: string, pieces: Pieces)
    decreases fields, 0
  {
    && |ms| == |fields|
    && (fields != [] ==> ms[0].before == before && ms[0].key == pieces(fields[0].key) && ms[0].afterKey == ""
                         && ms[0].element.before == " " && ms[0].element.after == ""
                         && IsTree(fields[0].value, ms[0].element.value, pieces)
                         && AreMembers(fields[1..], ms[1..], " ", pieces))
  }

  /** What is written for a document is that document. */
  lemma {:induction false} DumpIsDocument(j: Json, t: R.Json, quote: string -> string, pieces: Pieces)
    requires Writes(quote, pieces) && IsTree(j, t, pieces)
    ensures R.Print(t, false) == Dump(j, quote)
    decreases j, 0
  {
    hide Writes, R.Quoted, IsTree;
    Unfold(j, t, pieces);
    match j
    case Atom(_) =>
    case Str(value) => WritesOne(quote, pieces, value);
    case List(items) => if items != [] { ElementsAre(items, t.elements, "", quote, pieces); }
    case Dict(fields) => if fields != [] { MembersAre(fields, t.members, "", quote, pieces); }
  }

  lemma Unfold(j: Json, t: R.Json, pieces: Pieces)
    requires IsTree(j, t, pieces)
    ensures match j
      case Atom(text) => t == R.Literal(text)
      case Str(value) => t == R.Text(pieces(value))
      case List(items) => t.List? && t.pad == "" && |t.elements| == |items| && AreElements(items, t.elements, "", pieces)
      case Dict(fields) => t.Object? && t.pad == "" && |t.members| == |fields| && AreMembers(fields, t.members, "", pieces)
  {
  }

  lemma WritesOne(quote: string -> string, pieces: Pieces, s: string)
    requires Writes(quote, pieces)
    ensures quote(s) == R.Quoted(pieces(s), false) && R.Proper(pieces(s))
  {
  }

  lemma {:induction false} ElementsAre(items: seq<Json>, es: seq<R.Element>, before: string, quote: string -> string, pieces: Pieces)
    requires Writes(quote, pieces) && AreElements(items, es, before, pieces) && items != []
    ensures R.PrintElements(es, false) == before + DumpItems(items, quote)
    decreases items, 0
  {
    DumpIsDocument(items[0], es[0].value, quote, pieces);
    if |items| > 1 {
      ElementsAre(items[1..], es[1..], " ", quote, pieces);
      Regroup(before, Dump(items[0], quote), DumpItems(items[1..], quote));
    }
  }

  lemma Regroup(a: string, b: string, c: string)
    ensures a + b + "" + ([','] + (" " + c)) == a + (b + (", " + c))
  {
    assert ", " + c == [','] + (" " + c);
  }

  lemma {:induction false} MembersAre(fields: seq<Field>, ms: seq<R.Member>, before: string, quote: string -> string, pieces: Pieces)
    requires Writes(quote, pieces) && AreMembers(fields, ms, before, pieces) && fields != []
    ensures R.PrintMembers(ms, false) == before + DumpFields(fields, quote)
    decreases fields, 0
  {
    hide R.Quoted, R.Proper, R.PrintMember;
    DumpIsDocument(fields[0].value, ms[0].element.value, quote, pieces);
    var key, value := quote(fields[0].key), Dump(fields[0].value, quote);
    OneField(ms[0], before, key, value);
    if |fields| > 1 {
      MembersAre(fields[1..], ms[1..], " ", quote, pieces);
      Regroup(before, key + ": " + value, DumpFields(fields[1..], quote));
    }
  }

  lemma OneField(m: R.Member, before: string, key: string, value: string)
    requires m.before == before && R.Quoted(m.key, false) == key && m.afterKey == ""
    requires m.element.before == " " && m.element.after == "" && R.Print(m.element.value, false) == value
    ensures R.PrintMember(m, false) == before + (key + ": " + value)
  {
    hide R.Quoted, R.Print;
    assert ": " == [':'] + " ";
    assert before + key + "" + [':'] + (" " + value + "") == before + (key + ([':'] + " ") + value);
  }

  ghost predicate PlainAtoms(j: Json)
    decreases j
  {
    match j
    case Atom(text) => R.Neutral(text)
    case Str(_) => true
    case List(items) => forall i | 0 <= i < |items| :: PlainAtoms(items[i])
    case Dict(fields) => forall i | 0 <= i < |fields| :: PlainAtoms(fields[i].value)
  }

  /** So a projection is well-formed JSON, and repairing it changes nothing. */
  lemma DumpIsKept(j: Json, t: R.Json, quote: string -> string, pieces: Pieces)
    requires Writes(quote, pieces) && IsTree(j, t, pieces) && PlainAtoms(j)
    ensures R.WellFormed(t) && R.Repaired(Dump(j, quote), false, false) == Dump(j, quote)
  {
    hide R.Repaired;
    TreeIsWellFormed(j, t, quote, pieces);
    DumpIsDocument(j, t, quote, pieces);
    R.WellFormedIsKept("", t, "");
    assert "" + R.Print(t, false) + "" == R.Print(t, false);
  }

  lemma {:induction false} TreeIsWellFormed(j: Json, t: R.Json, quote: string -> string, pieces: Pieces)
    requires Writes(quote, pieces) && IsTree(j, t, pieces) && PlainAtoms(j)
    ensures R.WellFormed(t)
    decreases j, 0
  {
    match j
    case Atom(_) =>
    case Str(value) => assert quote(value) == R.Quoted(pieces(value), false);
    case List(items) =>
      forall e | e in t.elements
        ensures R.IsPad(e.before) && R.WellFormed(e.value) && R.IsPad(e.after)
      {
        var i :| 0 <= i < |t.elements| && t.elements[i] == e;
        ElementAt(items, t.elements, "", pieces, i);
        TreeIsWellFormed(items[i], e.value, quote, pieces);
      }
    case Dict(fields) =>
      forall m | m in t.members
        ensures R.IsPad(m.before) && R.Proper(m.key) && R.IsPad(m.afterKey)
        ensures R.IsPad(m.element.before) && R.WellFormed(m.element.value) && R.IsPad(m.element.after)
      {
        var i :| 0 <= i < |t.members| && t.members[i] == m;
        MemberAt(fields, t.members, "", pieces, i);
        assert quote(fields[i].key) == R.Quoted(m.key, false);
        TreeIsWellFormed(fields[i].value, m.element.value, quote, pieces);
      }
  }

  lemma {:induction false} ElementAt(items: seq<Json>, es: seq<R.Element>, before: string, pieces: Pieces, i: nat)
    requires AreElements(items, es, before, pieces) && i < |items|
    ensures es[i].before in {before, " "} && es[i].after == "" && IsTree(items[i], es[i].value, pieces)
  {
    if i > 0 { ElementAt(items[1..], es[1..], " ", pieces, i - 1); }
  }

  lemma {:induction false} MemberAt(fields: seq<Field>, ms: seq<R.Member>, before: string, pieces: Pieces, i: nat)
    requires AreMembers(fields, ms, before, pieces) && i < |fields|
    ensures ms[i].before in {before, " "} && ms[i].key == pieces(fields[i].key) && ms[i].afterKey == ""
    ensures ms[i].element.before == " " && ms[i].element.after == "" && IsTree(fields[i].value, ms[i].element.value, pieces)
  {
    if i > 0 { MemberAt(fields[1..], ms[1..], " ", pieces, i - 1); }
  }

  /** Every document has such a tree. */
  lemma {:induction false} HasTree(j: Json, pieces: Pieces) returns (t: R.Json)
    ensures IsTree(j, t, pieces)
    decreases j, 0
  {
    match j
    case Atom(text) => t := R.Literal(text);
    case Str(value) => t := R.Text(pieces(value));
    case List(items) =>
      var es := HasElements(items, "", pieces);
      t := R.List(es, "");
    case Dict(fields) =>
      var ms := HasMembers(fields, "", pieces);
      t := R.Object(ms, "");
  }

  lemma {:induction false} HasElements(items: seq<Json>, before: string, pieces: Pieces) returns (es: seq<R.Element>)
    ensures AreElements(items, es, before, pieces)
    decreases items, 0
  {
    es := [];
    if items != [] {
      var v := HasTree(items[0], pieces);
      var rest := HasElements(items[1..], " ", pieces);
      es := [R.Element(before, v, "")] + rest;
      assert es[1..] == rest;
    }
  }

  lemma {:induction false} HasMembers(fields: seq<Field>, before: string, pieces: Pieces) returns (ms: seq<R.Member>)
    ensures AreMembers(fields, ms, before, pieces)
    decreases fields, 0
  {
    ms := [];
    if fields != [] {
      var v := HasTree(fields[0].value, pieces);
      var rest := HasMembers(fields[1..], " ", pieces);
      ms := [R.Member(before, pieces(fields[0].key), "", R.Element(" ", v, ""))] + rest;
      assert ms[1..] == rest;
    }
  }

  // ------------------------------------------------------------ one record

  /** A text field of a slimmed record: the first characters of the stripped text, and only
      when that is not empty. */
  ghost predicate ShortText(r: Json, j: Json, key: string, chars: nat)
    requires r.Dict? && j.Dict?
  {
    var v := Get(j.fields, key);
    if v.Some? && v.value.Str? && !Schema.IsBlank(v.value.value) then
      exists text :: Get(r.fields, key) == Some(Str(text)) && text <= Schema.Strip(v.value.value)
                     && |text| == if |Schema.Strip(v.value.value)| < chars then |Schema.Strip(v.value.value)| else chars
    else Get(r.fields, key) == None
  }

  ghost predicate SameField(r: Json, j: Json, key: string)
    requires r.Dict? && j.Dict?
  {
    var v := Get(j.fields, key);
    Get(r.fields, key) == if v.Some? && v.value != NULL && v.value != Str("") then v else None
  }

  /** Every field as it is to be kept. */
  ghost predicate KeepsFields(r: Json, j: Json)
    requires r.Dict? && j.Dict?
  {
    ShortText(r, j, "title", 200) && ShortText(r, j, "summary", 120) && SameField(r, j, "url") && SameField(r, j, "id")
    && SameField(r, j, "entity")
  }

  /** A slimmed record keeps a short title and summary, and url, id and entity as they are,
      and has nothing else; a record that would keep none of these, and only such a one, is
      shown in its raw form. */
  lemma SlimIs(j: Json, inner: Json -> string)
    requires j.Dict?
    ensures var r := Slim(j, inner);
      && r.Dict?
      && (forall k | 0 <= k < |r.fields| :: r.fields[k].key in {"title", "summary", "url", "id", "entity"})
      && (KeepsFields(r, j) || r == Dict([Field("title", Str(Schema.Front("{" + inner(j) + "}", 200)))]))
      && (!KeepsFields(r, j) ==> KeepsFields(Dict([]), j))
      && (KeepsFields(Dict([]), j) ==> r == Dict([Field("title", Str(Schema.Front("{" + inner(j) + "}", 200)))]))
  {
    hide Schema.Strip, Schema.IsBlank;
    var title, summary := SlimText(j, "title", TITLE_CHARS), SlimText(j, "summary", SUMMARY_CHARS);
    SlimTextIs(j, "title", TITLE_CHARS);
    SlimTextIs(j, "summary", SUMMARY_CHARS);
    KeptIs(j, "url");
    KeptIs(j, "id");
    KeptIs(j, "entity");
    FiveParts(title, summary, Kept(j, "url"), Kept(j, "id"), Kept(j, "entity"));
  }

  /** At most one field, with this key. */
  ghost predicate AtMost(fields: seq<Field>, key: string) {
    fields == [] || (|fields| == 1 && fields[0].key == key)
  }

  lemma FiveParts(title: seq<Field>, summary: seq<Field>, url: seq<Field>, id: seq<Field>, entity: seq<Field>)
    requires AtMost(title, "title") && AtMost(summary, "summary") && AtMost(url, "url") && AtMost(id, "id") && AtMost(entity, "entity")
    ensures var all := title + summary + url + id + entity;
      && Get(all, "title") == Get(title, "title") && Get(all, "summary") == Get(summary, "summary")
      && Get(all, "url") == Get(url, "url") && Get(all, "id") == Get(id, "id") && Get(all, "entity") == Get(entity, "entity")
      && forall k | 0 <= k < |all| :: all[k].key in {"title", "summary", "url", "id", "entity"}
  {
    hide Get;
    GetAppend(title + summary + url + id, entity);
    GetAppend(title + summary + url, id);
    GetAppend(title + summary, url);
    GetAppend(title, summary);
    OtherKeys(title, "title");
    OtherKeys(summary, "summary");
    OtherKeys(url, "url");
    OtherKeys(id, "id");
    OtherKeys(entity, "entity");
  }

  lemma KeptIs(j: Json, key: string)
    requires j.Dict?
    ensures SameField(Dict(Kept(j, key)), j, key)
  {
  }

  lemma OtherKeys(fields: seq<Field>, key: string)
    requires AtMost(fields, key)
    ensures forall k | k != key :: Get(fields, k) == None
  {
  }

  lemma SlimTextIs(j: Json, key: string, chars: nat)
    requires j.Dict?
    ensures ShortText(Dict(SlimText(j, key, chars)), j, key, chars)
  {
    var v := Get(j.fields, key);
    if v.Some? && v.value.Str? {
      Schema.StripBlank(v.value.value);
      hide Schema.Strip, Schema.IsBlank;
      var text := Schema.Front(Schema.Strip(v.value.value), chars);
      assert text <= Schema.Strip(v.value.value);
    }
  }

  lemma {:induction false} GetAppend(a: seq<Field>, b: seq<Field>)
    ensures forall key :: Get(a + b, key) == if Get(a, key).Some? then Get(a, key) else Get(b, key)
  {
    if a == [] {
      assert a + b == b;
    } else {
      assert (a + b)[1..] == a[1..] + b;
      GetAppend(a[1..], b);
    }
  }
}
