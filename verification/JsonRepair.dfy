/** Repairing unescaped quotes in a model's JSON (`retrieval/retrievers/json_utils.py`). */
module JsonRepair {
  import opened Schema

  predicate Follows(c: char) {
    c == ',' || c == ':' || c == '}' || c == ']'
  }

  /** A quote before `rest` is taken to close its string. */
  predicate Closes(rest: string) {
    var r := LStrip(rest);
    r == "" || Follows(r[0])
  }

  /** What is written for the text from here on, given the two flags. */
  function Repaired(s: string, inString: bool, escaped: bool): string {
    if s == "" then ""
    else
      var c, rest := s[0], s[1..];
      if c == '"' && !escaped then
        if !inString then ['"'] + Repaired(rest, true, false)
        else if Closes(rest) then ['"'] + Repaired(rest, false, false)
        else ['\\', '"'] + Repaired(rest, true, false)
      else [c] + Repaired(rest, inString, c == '\\' && !escaped)
  }

  /** `_repair_unescaped_quotes`. */
  method RepairUnescapedQuotes(value: string) returns (result: string)
    ensures result == Repaired(value, false, false)
  {
    result := "";
    var inString, escaped := false, false;
    for index := 0 to |value|
      invariant result + Repaired(value[index..], inString, escaped) == Repaired(value, false, false)
    {
      var c := value[index];
      Next(value, index, result, inString, escaped);
      if c == '"' && !escaped {
        if !inString {
          inString := true;
          result := result + [c];
        } else if Closes(value[index + 1..]) {
          inString := false;
          result := result + [c];
        } else {
          result := result + ['\\', '"'];
        }
      } else {
        result := result + [c];
      }
      escaped := c == '\\' && !escaped;
    }
  }

  lemma Next(value: string, index: nat, result: string, inString: bool, escaped: bool)
    requires index < |value|
    ensures value[index..][0] == value[index] && value[index..][1..] == value[index + 1..]
    ensures forall head: string, tail: string :: result + (head + tail) == (result + head) + tail
  {
  }

  // ------------------------------------------------------- JSON documents

  /** A character of a string: plain, a backslash and the character behind it (the hex
      digits of a `\\u` escape are plain), or a quote that should have been escaped. */
  datatype Piece = Plain(c: char) | Escape(c: char) | Raw

  /** A JSON document with all its insignificant whitespace (sections 2 and 7 of RFC 8259).
      Literals are the three names and the numbers: text without quote and backslash. */
  datatype Json =
    | Literal(text: string)
    | Text(pieces: seq<Piece>)
    | List(elements: seq<Element>, pad: string)
    | Object(members: seq<Member>, pad: string)

  datatype Element = Element(before: string, value: Json, after: string)

  datatype Member = Member(before: string, key: seq<Piece>, afterKey: string, element: Element)

  predicate IsPad(s: string) {
    forall i | 0 <= i < |s| :: s[i] == ' ' || s[i] == '\t' || s[i] == '\n' || s[i] == '\r'
  }

  predicate Neutral(s: string) {
    forall i | 0 <= i < |s| :: s[i] != '"' && s[i] != '\\'
  }

  /** The text of a document: as the model wrote it, or `fixed`, with raw quotes escaped. */
  function PrintPieces(pieces: seq<Piece>, fixed: bool): string {
    if pieces == [] then "" else PrintPiece(pieces[0], fixed) + PrintPieces(pieces[1..], fixed)
  }

  function PrintPiece(p: Piece, fixed: bool): string {
    match p case Plain(c) => [c] case Escape(c) => ['\\', c] case Raw => if fixed then ['\\', '"'] else ['"']
  }

  function Quoted(pieces: seq<Piece>, fixed: bool): string {
    ['"'] + PrintPieces(pieces, fixed) + ['"']
  }

  function Print(v: Json, fixed: bool): string {
    match v
    case Literal(text) => text
    case Text(pieces) => Quoted(pieces, fixed)
    case List(elements, pad) => ['['] + (if elements == [] then pad else PrintElements(elements, fixed)) + [']']
    case Object(members, pad) => ['{'] + (if members == [] then pad else PrintMembers(members, fixed)) + ['}']
  }

  function PrintElement(e: Element, fixed: bool): string {
    e.before + Print(e.value, fixed) + e.after
  }

  function PrintMember(m: Member, fixed: bool): string {
    m.before + Quoted(m.key, fixed) + m.afterKey + [':'] + PrintElement(m.element, fixed)
  }

  function PrintElements(es: seq<Element>, fixed: bool): string
    requires es != []
  {
    PrintElement(es[0], fixed) + if |es| == 1 then "" else [','] + PrintElements(es[1..], fixed)
  }

  function PrintMembers(ms: seq<Member>, fixed: bool): string
    requires ms != []
  {
    PrintMember(ms[0], fixed) + if |ms| == 1 then "" else [','] + PrintMembers(ms[1..], fixed)
  }

  /** A raw quote can be told from a closing one: what stands behind it in its string is not
      a comma, a colon or a closing bracket. */
  predicate PiecesOk(pieces: seq<Piece>) {
    pieces != [] ==>
      && (pieces[0].Plain? ==> pieces[0].c != '"' && pieces[0].c != '\\')
      && (pieces[0].Raw? ==> !Closes(PrintPieces(pieces[1..], false) + ['"']))
      && PiecesOk(pieces[1..])
  }

  predicate Readable(v: Json) {
    match v
    case Literal(text) => Neutral(text)
    case Text(pieces) => PiecesOk(pieces)
    case List(elements, pad) => IsPad(pad) && forall e | e in elements :: ElementOk(e)
    case Object(members, pad) => IsPad(pad) && forall m | m in members :: MemberOk(m)
  }

  predicate ElementOk(e: Element) {
    IsPad(e.before) && Readable(e.value) && IsPad(e.after)
  }

  predicate MemberOk(m: Member) {
    IsPad(m.before) && PiecesOk(m.key) && IsPad(m.afterKey) && ElementOk(m.element)
  }

  // --------------------------------------------------------------- repair

  /** Outside of strings the text `x` is written as `y`, whatever follows. */
  ghost predicate Becomes(x: string, y: string, rest: string) {
    Repaired(x + rest, false, false) == y + Repaired(rest, false, false)
  }

  lemma Chain(x: string, x': string, y: string, y': string, rest: string)
    requires Becomes(x, x', y + rest) && Becomes(y, y', rest)
    ensures Becomes(x + y, x' + y', rest)
  {
    assert (x + y) + rest == x + (y + rest);
    assert (x' + y') + Repaired(rest, false, false) == x' + (y' + Repaired(rest, false, false));
  }

  lemma {:induction false} NeutralStays(x: string, rest: string)
    requires Neutral(x)
    ensures Becomes(x, x, rest)
  {
    if x == "" {
      assert x + rest == rest;
    } else {
      assert (x + rest)[1..] == x[1..] + rest;
      NeutralStays(x[1..], rest);
    }
  }

  lemma SpaceNeutral(s: string)
    requires IsPad(s)
    ensures Neutral(s)
  {
  }

  /** What follows a quote is decided by the first character that is no whitespace. */
  lemma {:induction false} ClosesLocal(s: string, rest: string)
    requires !Closes(s)
    ensures !Closes(s + rest)
  {
    if IsSpace(s[0]) {
      assert (s + rest)[1..] == s[1..] + rest;
      ClosesLocal(s[1..], rest);
    }
  }

  lemma EscapeStep(c: char, tail: string)
    ensures Repaired(['\\', c] + tail, true, false) == ['\\', c] + Repaired(tail, true, false)
  {
    assert ['\\', c] + tail == ['\\'] + ([c] + tail);
    assert (['\\'] + ([c] + tail))[1..] == [c] + tail && ([c] + tail)[1..] == tail;
    assert Repaired([c] + tail, true, true) == [c] + Repaired(tail, true, false);
  }

  lemma PlainStep(c: char, tail: string)
    ensures c != '"' && c != '\\' ==> Repaired([c] + tail, true, false) == [c] + Repaired(tail, true, false)
    ensures c == '"' && !Closes(tail) ==> Repaired([c] + tail, true, false) == ['\\', '"'] + Repaired(tail, true, false)
  {
    assert ([c] + tail)[1..] == tail;
  }

  lemma OnePiece(pieces: seq<Piece>, rest: string)
    requires PiecesOk(pieces) && pieces != []
    ensures var tail := PrintPieces(pieces[1..], false) + (['"'] + rest);
      Repaired(PrintPiece(pieces[0], false) + tail, true, false) == PrintPiece(pieces[0], true) + Repaired(tail, true, false)
  {
    hide Repaired;
    var inner := PrintPieces(pieces[1..], false);
    var tail := inner + (['"'] + rest);
    match pieces[0]
    case Plain(c) => PlainStep(c, tail);
    case Escape(c) => EscapeStep(c, tail);
    case Raw =>
      ClosesLocal(inner + ['"'], rest);
      assert (inner + ['"']) + rest == tail;
      PlainStep('"', tail);
  }

  /** Inside a string exactly the raw quotes are escaped. */
  lemma {:induction false} PiecesBecome(pieces: seq<Piece>, rest: string)
    requires PiecesOk(pieces)
    ensures Repaired(PrintPieces(pieces, false) + (['"'] + rest), true, false) ==
            PrintPieces(pieces, true) + Repaired(['"'] + rest, true, false)
  {
    var end := ['"'] + rest;
    if pieces == [] {
      assert "" + end == end;
    } else {
      var head, tail := PrintPiece(pieces[0], false), PrintPieces(pieces[1..], false);
      var head', tail' := PrintPiece(pieces[0], true), PrintPieces(pieces[1..], true);
      PiecesBecome(pieces[1..], rest);
      OnePiece(pieces, rest);
      hide Repaired;
      assert (head + tail) + end == head + (tail + end);
      assert (head' + tail') + Repaired(end, true, false) == head' + (tail' + Repaired(end, true, false));
    }
  }

  lemma Opening(x: string)
    ensures Repaired(['"'] + x, false, false) == ['"'] + Repaired(x, true, false)
    ensures Closes(x) ==> Repaired(['"'] + x, true, false) == ['"'] + Repaired(x, false, false)
  {
    assert (['"'] + x)[1..] == x;
  }

  lemma QuotedBecomes(pieces: seq<Piece>, rest: string)
    requires PiecesOk(pieces) && Closes(rest)
    ensures Becomes(Quoted(pieces, false), Quoted(pieces, true), rest)
  {
    hide Repaired, PrintPieces, Closes;
    var inner, inner' := PrintPieces(pieces, false), PrintPieces(pieces, true);
    Opening(inner + (['"'] + rest));
    PiecesBecome(pieces, rest);
    Opening(rest);
    Nested(inner, rest);
    Nested(inner', Repaired(rest, false, false));
  }

  lemma Nested(inner: string, rest: string)
    ensures (['"'] + inner + ['"']) + rest == ['"'] + (inner + (['"'] + rest))
  {
  }

  lemma {:induction false} SpaceThen(s: string, rest: string)
    requires IsPad(s)
    ensures Closes(s + rest) <==> Closes(rest)
  {
    if s == "" {
      assert s + rest == rest;
    } else {
      assert (s + rest)[1..] == s[1..] + rest;
      SpaceThen(s[1..], rest);
    }
  }

  lemma MarkCloses(c: char, rest: string)
    requires Follows(c)
    ensures Closes([c] + rest)
  {
    assert ([c] + rest)[0] == c;
  }

  lemma {:induction false} ValueBecomes(v: Json, rest: string)
    requires Readable(v) && Closes(rest)
    ensures Becomes(Print(v, false), Print(v, true), rest)
    decreases v, 0
  {
    hide Becomes;
    match v
    case Literal(text) => NeutralStays(text, rest);
    case Text(pieces) => QuotedBecomes(pieces, rest);
    case List(elements, pad) =>
      MarkCloses(']', rest);
      NeutralStays([']'], rest);
      if elements == [] {
        SpaceNeutral(pad);
        NeutralStays(pad, [']'] + rest);
        Framed(['['], pad, pad, [']'], rest);
      } else {
        ElementsBecome(elements, [']'] + rest);
        Framed(['['], PrintElements(elements, false), PrintElements(elements, true), [']'], rest);
      }
    case Object(members, pad) =>
      MarkCloses('}', rest);
      NeutralStays(['}'], rest);
      if members == [] {
        SpaceNeutral(pad);
        NeutralStays(pad, ['}'] + rest);
        Framed(['{'], pad, pad, ['}'], rest);
      } else {
        MembersBecome(members, ['}'] + rest);
        Framed(['{'], PrintMembers(members, false), PrintMembers(members, true), ['}'], rest);
      }
  }

  lemma Framed(open: string, inner: string, inner': string, close: string, rest: string)
    requires Neutral(open) && Becomes(inner, inner', close + rest) && Becomes(close, close, rest)
    ensures Becomes(open + inner + close, open + inner' + close, rest)
  {
    hide Becomes;
    Chain(inner, inner', close, close, rest);
    NeutralStays(open, (inner + close) + rest);
    Chain(open, open, inner + close, inner' + close, rest);
    assert open + inner + close == open + (inner + close);
    assert open + inner' + close == open + (inner' + close);
  }

  lemma {:induction false} ElementBecomes(e: Element, rest: string)
    requires ElementOk(e) && Closes(rest)
    ensures Becomes(PrintElement(e, false), PrintElement(e, true), rest)
    decreases e, 1
  {
    hide Becomes;
    SpaceNeutral(e.before);
    SpaceNeutral(e.after);
    SpaceThen(e.after, rest);
    ValueBecomes(e.value, e.after + rest);
    NeutralStays(e.after, rest);
    Framed(e.before, Print(e.value, false), Print(e.value, true), e.after, rest);
  }

  /** A first item, a comma and the others. */
  lemma Listed(x: string, x': string, y: string, y': string, rest: string)
    requires Becomes(x, x', ([','] + y) + rest) && Becomes(y, y', rest)
    ensures Becomes(x + ([','] + y), x' + ([','] + y'), rest)
  {
    hide Becomes;
    NeutralStays([','], y + rest);
    Chain([','], [','], y, y', rest);
    Chain(x, x', [','] + y, [','] + y', rest);
  }

  lemma {:induction false} ElementsBecome(es: seq<Element>, rest: string)
    requires es != [] && (forall e | e in es :: ElementOk(e)) && Closes(rest)
    ensures Becomes(PrintElements(es, false), PrintElements(es, true), rest)
    decreases es, 2
  {
    hide Becomes;
    assert es[0] in es;
    if |es| == 1 {
      ElementBecomes(es[0], rest);
      Alone(PrintElement(es[0], false), PrintElement(es[0], true));
    } else {
      var more, more' := PrintElements(es[1..], false), PrintElements(es[1..], true);
      ElementsBecome(es[1..], rest);
      Comma(more, rest);
      ElementBecomes(es[0], ([','] + more) + rest);
      Listed(PrintElement(es[0], false), PrintElement(es[0], true), more, more', rest);
    }
  }

  lemma Alone(x: string, y: string)
    ensures x + "" == x && y + "" == y
  {
  }

  lemma Comma(more: string, rest: string)
    ensures Closes(([','] + more) + rest)
  {
    MarkCloses(',', more + rest);
    assert ([','] + more) + rest == [','] + (more + rest);
  }

  lemma {:induction false} MemberBecomes(m: Member, rest: string)
    requires MemberOk(m) && Closes(rest)
    ensures Becomes(PrintMember(m, false), PrintMember(m, true), rest)
    decreases m, 1
  {
    hide Becomes;
    var value, value' := PrintElement(m.element, false), PrintElement(m.element, true);
    ElementBecomes(m.element, rest);
    NeutralStays([':'], value + rest);
    Chain([':'], [':'], value, value', rest);
    MarkCloses(':', value + rest);
    assert ([':'] + value) + rest == [':'] + (value + rest);
    KeyBecomes(m, [':'] + value, [':'] + value', rest);
    Grouped(m, false);
    Grouped(m, true);
  }

  lemma Grouped(m: Member, fixed: bool)
    ensures PrintMember(m, fixed) == m.before + Quoted(m.key, fixed) + m.afterKey + ([':'] + PrintElement(m.element, fixed))
  {
  }

  lemma KeyBecomes(m: Member, colon: string, colon': string, rest: string)
    requires IsPad(m.before) && PiecesOk(m.key) && IsPad(m.afterKey)
    requires Closes(colon + rest) && Becomes(colon, colon', rest)
    ensures Becomes(m.before + Quoted(m.key, false) + m.afterKey + colon, m.before + Quoted(m.key, true) + m.afterKey + colon', rest)
  {
    hide Becomes;
    SpaceThen(m.afterKey, colon + rest);
    SpaceNeutral(m.afterKey);
    SpaceNeutral(m.before);
    NeutralStays(m.afterKey, colon + rest);
    QuotedBecomes(m.key, m.afterKey + (colon + rest));
    Framed(m.before, Quoted(m.key, false), Quoted(m.key, true), m.afterKey, colon + rest);
    Chain(m.before + Quoted(m.key, false) + m.afterKey, m.before + Quoted(m.key, true) + m.afterKey, colon, colon', rest);
  }

  lemma {:induction false} MembersBecome(ms: seq<Member>, rest: string)
    requires ms != [] && (forall m | m in ms :: MemberOk(m)) && Closes(rest)
    ensures Becomes(PrintMembers(ms, false), PrintMembers(ms, true), rest)
    decreases ms, 2
  {
    hide Becomes;
    assert ms[0] in ms;
    if |ms| == 1 {
      MemberBecomes(ms[0], rest);
      Alone(PrintMember(ms[0], false), PrintMember(ms[0], true));
    } else {
      var more, more' := PrintMembers(ms[1..], false), PrintMembers(ms[1..], true);
      MembersBecome(ms[1..], rest);
      Comma(more, rest);
      MemberBecomes(ms[0], ([','] + more) + rest);
      Listed(PrintMember(ms[0], false), PrintMember(ms[0], true), more, more', rest);
    }
  }

  /** In a document whose raw quotes can be told from closing ones exactly the raw quotes
      are escaped, whatever its nesting, whitespace and escapes. */
  lemma RepairEscapesRawQuotes(before: string, v: Json, after: string)
    requires IsPad(before) && Readable(v) && IsPad(after)
    ensures Repaired(before + Print(v, false) + after, false, false) == before + Print(v, true) + after
  {
    var e := Element(before, v, after);
    assert Closes("");
    ElementBecomes(e, "");
    Alone(PrintElement(e, false), PrintElement(e, true));
    assert Repaired("", false, false) == "";
  }

  /** A document without raw quotes: well-formed JSON. */
  predicate WellFormed(v: Json) {
    match v
    case Literal(text) => Neutral(text)
    case Text(pieces) => Proper(pieces)
    case List(elements, pad) => IsPad(pad) && forall e | e in elements :: IsPad(e.before) && WellFormed(e.value) && IsPad(e.after)
    case Object(members, pad) =>
      IsPad(pad) && forall m | m in members ::
        && IsPad(m.before) && Proper(m.key) && IsPad(m.afterKey)
        && IsPad(m.element.before) && WellFormed(m.element.value) && IsPad(m.element.after)
  }

  predicate Proper(pieces: seq<Piece>) {
    forall i | 0 <= i < |pieces| :: !pieces[i].Raw? && (pieces[i].Plain? ==> pieces[i].c != '"' && pieces[i].c != '\\')
  }

  lemma {:induction false} ProperPieces(pieces: seq<Piece>)
    requires Proper(pieces)
    ensures PiecesOk(pieces) && PrintPieces(pieces, true) == PrintPieces(pieces, false)
  {
    if pieces != [] { ProperPieces(pieces[1..]); }
  }

  lemma {:induction false} WellFormedReadable(v: Json)
    requires WellFormed(v)
    ensures Readable(v) && Print(v, true) == Print(v, false)
    decreases v, 0
  {
    match v
    case Literal(text) =>
    case Text(pieces) => ProperPieces(pieces);
    case List(elements, pad) =>
      forall e | e in elements
        ensures ElementOk(e) && PrintElement(e, true) == PrintElement(e, false)
      {
        WellFormedReadable(e.value);
      }
      if elements != [] { SameElements(elements); }
    case Object(members, pad) =>
      forall m | m in members
        ensures MemberOk(m) && PrintMember(m, true) == PrintMember(m, false)
      {
        ProperPieces(m.key);
        WellFormedReadable(m.element.value);
      }
      if members != [] { SameMembers(members); }
  }

  lemma {:induction false} SameElements(es: seq<Element>)
    requires es != [] && forall e | e in es :: PrintElement(e, true) == PrintElement(e, false)
    ensures PrintElements(es, true) == PrintElements(es, false)
  {
    assert es[0] in es;
    if |es| > 1 { SameElements(es[1..]); }
  }

  lemma {:induction false} SameMembers(ms: seq<Member>)
    requires ms != [] && forall m | m in ms :: PrintMember(m, true) == PrintMember(m, false)
    ensures PrintMembers(ms, true) == PrintMembers(ms, false)
  {
    assert ms[0] in ms;
    if |ms| > 1 { SameMembers(ms[1..]); }
  }

  /** Every well-formed document is left as it is. */
  lemma WellFormedIsKept(before: string, v: Json, after: string)
    requires IsPad(before) && WellFormed(v) && IsPad(after)
    ensures Repaired(before + Print(v, false) + after, false, false) == before + Print(v, false) + after
  {
    WellFormedReadable(v);
    RepairEscapesRawQuotes(before, v, after);
  }

  // ----------------------------------------------------------- idempotence

  /** What stands behind a quote looks the same before and after a repair. */
  lemma {:induction false} RepairedCloses(s: string, inString: bool, escaped: bool)
    ensures Closes(Repaired(s, inString, escaped)) <==> Closes(s)
  {
    if s != "" && IsSpace(s[0]) {
      RepairedCloses(s[1..], inString, false);
      assert Repaired(s, inString, escaped) == [s[0]] + Repaired(s[1..], inString, false);
      assert ([s[0]] + Repaired(s[1..], inString, false))[1..] == Repaired(s[1..], inString, false);
    } else if s != "" {
      var r := Repaired(s, inString, escaped);
      assert r[0] == s[0] || (s[0] == '"' && r[0] == '\\');
    }
  }

  /** A second repair changes nothing, on any input. */
  lemma {:induction false} RepairTwice(s: string, inString: bool, escaped: bool)
    ensures Repaired(Repaired(s, inString, escaped), inString, escaped) == Repaired(s, inString, escaped)
  {
    if s != "" {
      var c, rest := s[0], s[1..];
      if c == '"' && !escaped {
        var opens := !inString;
        if opens || Closes(rest) {
          var tail := Repaired(rest, opens, false);
          RepairTwice(rest, opens, false);
          RepairedCloses(rest, opens, false);
          assert (['"'] + tail)[1..] == tail;
        } else {
          var tail := Repaired(rest, true, false);
          RepairTwice(rest, true, false);
          assert ['\\', '"'] + tail == ['\\'] + (['"'] + tail);
          assert (['\\'] + (['"'] + tail))[1..] == ['"'] + tail && (['"'] + tail)[1..] == tail;
          assert Repaired(['"'] + tail, true, true) == ['"'] + Repaired(tail, true, false);
        }
      } else {
        var tail := Repaired(rest, inString, c == '\\' && !escaped);
        RepairTwice(rest, inString, c == '\\' && !escaped);
        assert ([c] + tail)[1..] == tail;
      }
    }
  }
}
