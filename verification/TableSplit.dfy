/** Splitting a markdown table by rows (`retrieval/indexing/ingest_pdf.py`). */
module TableSplit {
  import opened Schema
  import opened Events
  import Chunking

  // ------------------------------------------------------------------- lines

  function FirstBreak(s: string): (n: nat)
    ensures n <= |s| && (forall i | 0 <= i < n :: !IsBreak(s[i])) && (n < |s| ==> IsBreak(s[n]))
  {
    if s == "" || IsBreak(s[0]) then 0 else 1 + FirstBreak(s[1..])
  }

  /** `str.splitlines`; a break of two characters only adds an empty line, which counts for
      nothing here. */
  function Lines(s: string): (r: seq<string>)
    ensures forall l | l in r :: OneLine(l)
    decreases |s|
  {
    if s == "" then []
    else
      var n := FirstBreak(s);
      [s[..n]] + if n < |s| then Lines(s[n + 1..]) else []
  }

  predicate OneLine(l: string) {
    forall i | 0 <= i < |l| :: !IsBreak(l[i])
  }

  function SplitBars(s: string): (r: seq<string>)
    ensures r != []
  {
    if s == "" then [""]
    else
      var rest := SplitBars(s[1..]);
      if s[0] == '|' then [""] + rest else [[s[0]] + rest[0]] + rest[1..]
  }

  /** `_markdown_row_cells`; none: the line is no table row. */
  function Cells(line: string): Option<seq<string>> {
    var s := Strip(line);
    if s == "" || s[0] != '|' || '|' !in s[1..] then None
    else
      var t := if s[|s| - 1] == '|' then s[1..|s| - 1] else s[1..];
      var cells := SplitBars(t);
      Some(seq(|cells|, i requires 0 <= i < |cells| => Strip(cells[i])))
  }

  predicate IsRow(line: string) {
    Cells(line).Some?
  }

  function Width(line: string): nat {
    if Cells(line).Some? then |Cells(line).value| else 0
  }

  function NoSpaces(s: string): string {
    if s == "" then "" else (if s[0] == ' ' then "" else [s[0]]) + NoSpaces(s[1..])
  }

  /** Three dashes or more, with a colon at either end or none. */
  predicate IsRule(cell: string) {
    var s := NoSpaces(cell);
    var t := if s != "" && s[0] == ':' then s[1..] else s;
    var u := if t != "" && t[|t| - 1] == ':' then t[..|t| - 1] else t;
    |u| >= 3 && forall i | 0 <= i < |u| :: u[i] == '-'
  }

  /** `_is_markdown_separator`. */
  predicate IsSeparator(line: string) {
    Cells(line).Some? && forall c | c in Cells(line).value :: IsRule(c)
  }

  // ------------------------------------------------------ what a table text is

  /** The rows among the lines, or the other lines. */
  function Kept(lines: seq<string>, rows: bool): seq<string> {
    if lines == [] then []
    else Kept(lines[..|lines| - 1], rows) + if IsRow(lines[|lines| - 1]) == rows then [RStrip(lines[|lines| - 1])] else []
  }

  function TableLines(text: string): seq<string> {
    Kept(Lines(text), true)
  }

  /** The lines beside the table that are not blank. */
  function Notes(text: string): seq<string> {
    NonEmpty(Kept(Lines(text), false))
  }

  function Detected(text: string): Option<seq<string>> {
    var t := TableLines(text);
    if |t| >= 2 && IsSeparator(t[1]) then Some(t[..2]) else None
  }

  function BodyRows(text: string): seq<string> {
    var t := TableLines(text);
    if Detected(text).Some? then t[2..] else t
  }

  /** A header as it is detected: a row and a separator, stripped at the end. */
  predicate IsHeader(h: seq<string>) {
    && |h| == 2 && IsRow(h[0]) && IsSeparator(h[1])
    && forall l | l in h :: OneLine(l) && RStrip(l) == l
  }

  function HeaderOf(text: string, inherited: Option<seq<string>>): Option<seq<string>> {
    if Detected(text).Some? then Detected(text) else inherited
  }

  /** The guards: there are rows and a header, and the rows are as wide as an inherited one. */
  predicate ByRows(text: string, inherited: Option<seq<string>>) {
    && BodyRows(text) != [] && HeaderOf(text, inherited).Some?
    && (Detected(text).None? ==>
          inherited.value != [] && forall r | r in BodyRows(text) :: Width(r) == Width(inherited.value[0]) || Width(r) == 0)
  }

  /** The lines that every piece repeats. */
  function Fixed(text: string, header: seq<string>): seq<string> {
    Notes(text) + header
  }

  /** `_split_markdown_table_text`. */
  method SplitMarkdown(text: string)
    returns (preamble: seq<string>, header: Option<seq<string>>, body: seq<string>, had: bool)
    ensures NonEmpty(preamble) == Notes(text)
    ensures header == Detected(text) && had == header.Some? && body == BodyRows(text)
  {
    hide IsRow, IsSeparator, Lines, NonEmpty, RStrip, IsBlank;
    var lines := Lines(text);
    var table: seq<string> := [];
    preamble := [];
    var inTable := false;
    for n := 0 to |lines|
      invariant table == Kept(lines[..n], true) && NonEmpty(preamble) == NonEmpty(Kept(lines[..n], false))
    {
      assert lines[..n + 1][..n] == lines[..n];
      NonEmptySnoc(preamble, RStrip(lines[n]));
      NonEmptySnoc(Kept(lines[..n], false), RStrip(lines[n]));
      assert Kept(lines[..n], false) + [] == Kept(lines[..n], false);
      if IsRow(lines[n]) {
        inTable := true;
        table := table + [RStrip(lines[n])];
      } else if !inTable || !IsBlank(lines[n]) {
        preamble := preamble + [RStrip(lines[n])];
      } else {
        RStripBlank(lines[n]);
      }
    }
    assert lines[..|lines|] == lines;
    if table == [] {
      return preamble, None, [], false;
    }
    if |table| >= 2 && IsSeparator(table[1]) {
      return preamble, Some(table[..2]), table[2..], true;
    }
    return preamble, None, table, false;
  }

  lemma {:induction false} NonEmptySnoc(lines: seq<string>, x: string)
    ensures NonEmpty(lines + [x]) == NonEmpty(lines) + if x == "" then [] else [x]
  {
    if lines == [] {
      assert lines + [x] == [x] && [x][1..] == [];
    } else {
      assert (lines + [x])[1..] == lines[1..] + [x];
      NonEmptySnoc(lines[1..], x);
    }
  }

  // ----------------------------------------------------------------- the rows

  function PieceOf(fixed: seq<string>, rows: seq<string>): string {
    Strip(Join(fixed + rows, "\n"))
  }

  function Flat(groups: seq<seq<string>>): seq<string> {
    if groups == [] then [] else Flat(groups[..|groups| - 1]) + groups[|groups| - 1]
  }

  function Pieces(fixed: seq<string>, groups: seq<seq<string>>): seq<string> {
    seq(|groups|, k requires 0 <= k < |groups| => PieceOf(fixed, groups[k]))
  }

  /** A piece is not empty of rows, and fits unless it has a single row. */
  predicate Fits(fixed: seq<string>, rows: seq<string>, maxChars: nat) {
    rows != [] && (|rows| > 1 ==> |PieceOf(fixed, rows)| <= maxChars)
  }

  /** The pieces show the rows in groups: every row in exactly one piece, in order, under
      the same fixed lines, and a piece of two rows or more fits. */
  ghost predicate ShowsRows(pieces: seq<string>, fixed: seq<string>, rows: seq<string>, maxChars: nat) {
    exists groups :: pieces == Pieces(fixed, groups) && Flat(groups) == rows
                     && forall k | 0 <= k < |groups| :: Fits(fixed, groups[k], maxChars)
  }

  /** The row loop. */
  method SplitRows(fixed: seq<string>, rows: seq<string>, maxChars: nat) returns (pieces: seq<string>)
    ensures ShowsRows(pieces, fixed, rows, maxChars)
  {
    hide Flat, PieceOf, Fits;
    pieces := [];
    ghost var groups: seq<seq<string>> := [];
    NoRows();
    var current: seq<string> := [];
    for n := 0 to |rows|
      invariant pieces == Pieces(fixed, groups) && Flat(groups) + current == rows[..n]
      invariant forall k | 0 <= k < |groups| :: Fits(fixed, groups[k], maxChars)
      invariant current != [] ==> Fits(fixed, current, maxChars)
      invariant n > 0 ==> current != []
    {
      var candidate := PieceOf(fixed, current + [rows[n]]);
      OneMoreFits(fixed, current, rows[n], maxChars);
      assert [] + [rows[n]] == [rows[n]];
      assert rows[..n + 1] == rows[..n] + [rows[n]];
      if current != [] && |candidate| > maxChars {
        pieces := pieces + [PieceOf(fixed, current)];
        FlatSnoc(groups, current);
        groups := groups + [current];
        current := [];
      }
      current := current + [rows[n]];
    }
    assert rows[..|rows|] == rows;
    if current != [] {
      pieces := pieces + [PieceOf(fixed, current)];
      FlatSnoc(groups, current);
      groups := groups + [current];
    } else {
      assert Flat(groups) + [] == Flat(groups);
    }
    assert Flat(groups) == rows;
  }

  lemma OneMoreFits(fixed: seq<string>, rows: seq<string>, row: string, maxChars: nat)
    ensures Fits(fixed, [row], maxChars)
    ensures |PieceOf(fixed, rows + [row])| <= maxChars ==> Fits(fixed, rows + [row], maxChars)
  {
  }

  lemma NoRows()
    ensures Flat([]) == []
  {
  }

  lemma FlatSnoc(groups: seq<seq<string>>, g: seq<string>)
    ensures Flat(groups + [g]) == Flat(groups) + g
  {
    assert (groups + [g])[..|groups|] == groups;
  }

  /** `_split_table_text_by_rows`. */
  method SplitTable(text: string, maxChars: nat, inherited: Option<seq<string>>)
    returns (pieces: seq<string>, carried: Option<seq<string>>, had: bool)
    ensures had == Detected(text).Some? && carried == HeaderOf(text, inherited)
    ensures !ByRows(text, inherited) ==> pieces == Chunking.LongPieces(text, maxChars, 0)
    ensures ByRows(text, inherited) ==> ShowsRows(pieces, Fixed(text, carried.value), BodyRows(text), maxChars)
  {
    hide Cells, Kept, Lines, IsSeparator, NonEmpty, ShowsRows;
    var preamble, detected, body, hadHeader := SplitMarkdown(text);
    carried := if detected.Some? then detected else inherited;
    had := hadHeader;
    if body == [] || carried.None? || carried.value == [] {
      pieces := Chunking.SplitLongText(text, maxChars, 0);
      return;
    }
    var width := Width(carried.value[0]);
    var compatible := forall i | 0 <= i < |body| :: Width(body[i]) == width || Width(body[i]) == 0;
    if !compatible && detected.None? {
      pieces := Chunking.SplitLongText(text, maxChars, 0);
      return;
    }
    pieces := SplitRows(NonEmpty(preamble) + carried.value, body, maxChars);
  }

  // ------------------------------------------------------------ stripped lines

  lemma {:induction false} LStripBefore(a: string, b: string)
    requires !IsBlank(a)
    ensures LStrip(a + b) == LStrip(a) + b && LStrip(a) != ""
  {
    hide IsSpace;
    if IsSpace(a[0]) {
      assert (a + b)[1..] == a[1..] + b;
      LStripBefore(a[1..], b);
    }
  }

  lemma {:induction false} RStripBehind(a: string, b: string)
    requires !IsBlank(b)
    ensures RStrip(a + b) == a + RStrip(b)
  {
    hide IsSpace;
    if IsSpace(b[|b| - 1]) {
      assert (a + b)[..|a + b| - 1] == a + b[..|b| - 1];
      RStripBehind(a, b[..|b| - 1]);
    }
  }

  lemma {:induction false} StripOfRStrip(s: string)
    ensures Strip(RStrip(s)) == Strip(s)
  {
    hide IsSpace;
    if s != "" && IsSpace(s[|s| - 1]) {
      var front := s[..|s| - 1];
      StripOfRStrip(front);
      assert s == front + [s[|s| - 1]];
      if IsBlank(front) {
        LStripTwice(front);
        LStripTwice(s);
      } else {
        LStripBefore(front, [s[|s| - 1]]);
      }
    }
  }

  /** Stripping at either end makes no row and breaks none. */
  lemma SameRow(line: string)
    ensures IsRow(RStrip(line)) == IsRow(line) == IsRow(LStrip(line))
    ensures IsRow(line) ==> !IsBlank(line)
  {
    hide SplitBars;
    StripOfRStrip(line);
    LStripTwice(line);
    assert Strip(LStrip(line)) == Strip(line);
    if IsBlank(line) { assert Strip(line) == RStrip("") == ""; }
  }

  lemma {:induction false} OneLineStrips(l: string)
    requires OneLine(l)
    ensures OneLine(RStrip(l)) && OneLine(LStrip(l))
    decreases |l|
  {
    hide IsSpace, IsBreak;
    if l != "" {
      OneLineStrips(l[1..]);
      OneLineStrips(l[..|l| - 1]);
    }
  }

  // --------------------------------------------------------------- joined lines

  lemma LinesCons(l: string, rest: string)
    requires OneLine(l)
    ensures Lines(l + ("\n" + rest)) == [l] + Lines(rest)
  {
    var s := l + ("\n" + rest);
    assert s[|l|] == '\n' && forall i | 0 <= i < |l| :: s[i] == l[i];
    assert FirstBreak(s) == |l|;
    assert s[..|l|] == l && s[|l| + 1..] == rest;
  }

  lemma {:induction false} LinesOf(ls: seq<string>, rest: string)
    requires ls != [] && forall l | l in ls :: OneLine(l)
    ensures Lines(Join(ls, "\n") + ("\n" + rest)) == ls + Lines(rest)
  {
    hide Lines, OneLine;
    JoinStep(ls);
    if |ls| == 1 {
      LinesCons(ls[0], rest);
      assert ls == [ls[0]] && ls[0] + "" == ls[0];
    } else {
      hide Join;
      var tail := Join(ls[1..], "\n") + ("\n" + rest);
      LinesOf(ls[1..], rest);
      LinesCons(ls[0], tail);
      assert Join(ls, "\n") + ("\n" + rest) == ls[0] + ("\n" + tail);
      assert ls == [ls[0]] + ls[1..];
    }
  }

  lemma Associates(a: string, b: string, c: string)
    ensures a + b + c == a + (b + c)
  {
  }

  lemma JoinStep(a: seq<string>)
    requires a != []
    ensures Join(a, "\n") == a[0] + if |a| == 1 then "" else "\n" + Join(a[1..], "\n")
  {
    if |a| > 1 {
      hide Join;
      Associates(a[0], "\n", Join(a[1..], "\n"));
    }
  }

  lemma {:induction false} JoinAppend(a: seq<string>, b: seq<string>)
    requires a != [] && b != []
    ensures Join(a + b, "\n") == Join(a, "\n") + ("\n" + Join(b, "\n"))
  {
    if |a| == 1 {
      assert (a + b)[1..] == b;
    } else {
      assert (a + b)[1..] == a[1..] + b;
      JoinAppend(a[1..], b);
    }
  }

  lemma JoinFirst(a: seq<string>, x: string)
    requires a != []
    ensures var tail := if |a| == 1 then "" else "\n" + Join(a[1..], "\n");
      Join(a, "\n") == a[0] + tail && Join([x] + a[1..], "\n") == x + tail
  {
    hide Join;
    var b := [x] + a[1..];
    assert b[1..] == a[1..] && b[0] == x && |b| == |a|;
    JoinStep(a);
    JoinStep(b);
  }

  lemma {:induction false} JoinNotBlank(a: seq<string>)
    requires a != [] && !IsBlank(a[0])
    ensures !IsBlank(Join(a, "\n"))
  {
    JoinFirst(a, a[0]);
    var i :| 0 <= i < |a[0]| && !IsSpace(a[0][i]);
    assert Join(a, "\n")[i] == a[0][i];
  }

  /** A text that begins with a piece begins with the lines that the piece repeats. */
  lemma PieceLines(fixed: seq<string>, rows: seq<string>, rest: string) returns (tail: seq<string>)
    requires fixed != [] && rows != [] && (forall l | l in fixed :: OneLine(l)) && !IsBlank(fixed[0]) && !IsBlank(rows[0])
    ensures Lines(PieceOf(fixed, rows) + rest) == ([LStrip(fixed[0])] + fixed[1..]) + tail
  {
    hide Lines, LStrip, RStrip, Join;
    var ls := [LStrip(fixed[0])] + fixed[1..];
    var behind := "\n" + Join(rows, "\n");
    JoinAppend(fixed, rows);
    JoinFirst(fixed, LStrip(fixed[0]));
    JoinNotBlank(rows);
    var more := if |fixed| == 1 then "" else "\n" + Join(fixed[1..], "\n");
    LStripBefore(fixed[0], more + behind);
    assert Join(fixed + rows, "\n") == fixed[0] + (more + behind);
    assert LStrip(Join(fixed + rows, "\n")) == LStrip(fixed[0]) + (more + behind) == Join(ls, "\n") + "\n" + Join(rows, "\n");
    RStripBehind(Join(ls, "\n") + "\n", Join(rows, "\n"));
    var end := RStrip(Join(rows, "\n")) + rest;
    assert PieceOf(fixed, rows) + rest == Join(ls, "\n") + ("\n" + end);
    assert fixed[0] in fixed;
    OneLineStrips(fixed[0]);
    LinesOf(ls, end);
    tail := Lines(end);
  }

  // -------------------------------------------------------------- the theorems

  lemma {:induction false} KeptAppend(a: seq<string>, b: seq<string>, rows: bool)
    ensures Kept(a + b, rows) == Kept(a, rows) + Kept(b, rows)
  {
    hide IsRow, RStrip;
    if b == [] {
      assert a + b == a;
    } else {
      assert (a + b)[..|a + b| - 1] == a + b[..|b| - 1];
      KeptAppend(a, b[..|b| - 1], rows);
    }
  }

  lemma {:induction false} NoneKept(lines: seq<string>)
    requires forall l | l in lines :: !IsRow(l)
    ensures Kept(lines, true) == []
  {
    if lines != [] { NoneKept(lines[..|lines| - 1]); }
  }

  lemma {:induction false} KeptNotes(lines: seq<string>)
    requires forall l | l in lines :: OneLine(l)
    ensures forall l | l in Kept(lines, false) :: !IsRow(l) && OneLine(l) && (IsBlank(l) ==> l == "")
  {
    hide IsRow;
    if lines != [] {
      var last := lines[|lines| - 1];
      assert last in lines;
      KeptNotes(lines[..|lines| - 1]);
      SameRow(last);
      OneLineStrips(last);
      if IsBlank(RStrip(last)) {
        RStripBlank(RStrip(last));
        RStripTwice(last);
      }
    }
  }

  lemma {:induction false} RStripTwice(s: string)
    ensures RStrip(RStrip(s)) == RStrip(s)
  {
    if s != "" && IsSpace(s[|s| - 1]) { RStripTwice(s[..|s| - 1]); }
  }

  lemma {:induction false} NonEmptyAre(lines: seq<string>)
    ensures forall l | l in NonEmpty(lines) :: l != "" && l in lines
  {
    if lines != [] { NonEmptyAre(lines[1..]); }
  }

  lemma {:induction false} KeptRows(lines: seq<string>)
    ensures forall l | l in Kept(lines, true) :: IsRow(l)
  {
    hide IsRow;
    if lines != [] {
      KeptRows(lines[..|lines| - 1]);
      SameRow(lines[|lines| - 1]);
    }
  }

  /** A text whose first row is followed by a separator has a header. */
  lemma TopDetects(text: string, before: seq<string>, top: string, rule: string, tail: seq<string>)
    requires Lines(text) == before + ([top] + ([rule] + tail)) && forall l | l in before :: !IsRow(l)
    requires IsRow(top) && IsSeparator(rule) && RStrip(rule) == rule
    ensures Detected(text).Some?
  {
    hide Lines, Cells, IsSeparator, RStrip;
    SeparatorIsRow(rule);
    NoneKept(before);
    KeptAppend(before, [top] + ([rule] + tail), true);
    KeptAppend([top], [rule] + tail, true);
    KeptAppend([rule], tail, true);
    KeptOne(top);
    KeptOne(rule);
    assert TableLines(text) == [RStrip(top)] + ([rule] + Kept(tail, true));
    assert TableLines(text)[1] == rule;
  }

  /** The lines beside a table are no rows and not blank. */
  lemma NotesAre(text: string)
    ensures forall l | l in Notes(text) :: !IsRow(l) && OneLine(l) && !IsBlank(l)
  {
    hide Lines, IsRow, OneLine, IsBlank;
    KeptNotes(Lines(text));
    NonEmptyAre(Kept(Lines(text), false));
  }

  /** A text that begins with a piece under a header has that header itself. */
  lemma PieceDetects(text: string, header: seq<string>, rows: seq<string>, rest: string)
    requires IsHeader(header) && rows != [] && IsRow(rows[0])
    requires text == PieceOf(Fixed(text, header), rows) + rest
    ensures Detected(text).Some?
  {
    hide Lines, IsRow, IsSeparator, PieceOf, Notes, RStrip, LStrip, OneLine, IsBlank, Detected;
    var notes, fixed := Notes(text), Fixed(text, header);
    NotesAre(text);
    SameRow(header[0]);
    SameRow(rows[0]);
    FixedLines(notes, header);
    var tail := PieceLines(fixed, rows, rest);
    SameRow(fixed[0]);
    if notes == [] {
      assert [LStrip(fixed[0])] + fixed[1..] + tail == [] + ([LStrip(header[0])] + ([header[1]] + tail));
      TopDetects(text, [], LStrip(header[0]), header[1], tail);
    } else {
      var before := [LStrip(notes[0])] + notes[1..];
      assert notes[0] in notes && forall i | 1 <= i < |notes| :: notes[i] in notes;
      assert [LStrip(fixed[0])] + fixed[1..] + tail == before + ([header[0]] + ([header[1]] + tail));
      TopDetects(text, before, header[0], header[1], tail);
    }
  }

  lemma FixedLines(notes: seq<string>, header: seq<string>)
    requires IsHeader(header) && (forall l | l in notes :: OneLine(l) && !IsBlank(l)) && !IsBlank(header[0])
    ensures var fixed := notes + header;
      (forall l | l in fixed :: OneLine(l)) && !IsBlank(fixed[0])
  {
    if notes != [] { assert notes[0] in notes; }
  }

  lemma SeparatorIsRow(line: string)
    requires IsSeparator(line)
    ensures IsRow(line)
  {
  }

  lemma KeptOne(line: string)
    requires IsRow(line)
    ensures Kept([line], true) == [RStrip(line)]
  {
    assert [line][..0] == [];
  }

  lemma LongStarts(text: string, maxChars: nat)
    ensures var pieces := Chunking.LongPieces(text, maxChars, 0); pieces != [] && pieces[0] <= text
  {
  }

  lemma {:induction false} FirstOfFlat(groups: seq<seq<string>>)
    requires groups != [] && groups[0] != []
    ensures groups[0] <= Flat(groups)
  {
    if |groups| == 1 {
      assert groups[..0] == [] && [] + groups[0] == groups[0];
    } else {
      FirstOfFlat(groups[..|groups| - 1]);
    }
  }

  /** The pieces show every row, whole and in order, under the detected or inherited
      header, if and only if the guards pass; a text cut into windows never does. */
  lemma ShownIff(text: string, maxChars: nat, inherited: Option<seq<string>>, pieces: seq<string>)
    requires inherited.Some? ==> IsHeader(inherited.value)
    requires !ByRows(text, inherited) ==> pieces == Chunking.LongPieces(text, maxChars, 0)
    requires ByRows(text, inherited) ==>
               ShowsRows(pieces, Fixed(text, HeaderOf(text, inherited).value), BodyRows(text), maxChars)
    ensures ByRows(text, inherited) <==>
            && HeaderOf(text, inherited).Some?
            && ShowsRows(pieces, Fixed(text, HeaderOf(text, inherited).value), BodyRows(text), maxChars)
  {
    hide Lines, Kept, Notes, Cells, IsSeparator, PieceOf, NonEmpty, Chunking.LongPieces, Flat;
    var header, body := HeaderOf(text, inherited), BodyRows(text);
    if !ByRows(text, inherited) && header.Some? && ShowsRows(pieces, Fixed(text, header.value), body, maxChars) {
      var fixed := Fixed(text, header.value);
      var groups :| pieces == Pieces(fixed, groups) && Flat(groups) == body
                    && forall k | 0 <= k < |groups| :: Fits(fixed, groups[k], maxChars);
      LongStarts(text, maxChars);
      assert pieces[0] == PieceOf(fixed, groups[0]) && Fits(fixed, groups[0], maxChars);
      FirstOfFlat(groups);
      assert groups[0][0] == body[0] && body[0] in body;
      assert Detected(text).None?;
      KeptRows(Lines(text));
      PieceDetects(text, header.value, groups[0], text[|pieces[0]|..]);
    }
  }

  /** What is carried on is a header again. */
  lemma CarriedIsHeader(text: string, inherited: Option<seq<string>>)
    requires inherited.Some? ==> IsHeader(inherited.value)
    ensures HeaderOf(text, inherited).Some? ==> IsHeader(HeaderOf(text, inherited).value)
  {
    KeptRows(Lines(text));
    KeptStripped(Lines(text));
    if Detected(text).Some? { assert TableLines(text)[0] in TableLines(text); }
  }

  lemma {:induction false} KeptStripped(lines: seq<string>)
    requires forall l | l in lines :: OneLine(l)
    ensures forall l | l in Kept(lines, true) :: OneLine(l) && RStrip(l) == l
  {
    hide IsRow;
    if lines != [] {
      assert lines[|lines| - 1] in lines;
      KeptStripped(lines[..|lines| - 1]);
      OneLineStrips(lines[|lines| - 1]);
      RStripTwice(lines[|lines| - 1]);
    }
  }

  // -------------------------------------------------------------- the fallback

  /** Without overlap the windows start at the multiples of their size. */
  lemma {:induction false} WindowsAtMultiples(length: nat, maxChars: nat, start: nat, k: nat)
    requires start < length && maxChars > 0 && k < |Chunking.Starts(length, maxChars, 0, start)|
    ensures Chunking.Starts(length, maxChars, 0, start)[k] == start + k * maxChars
    decreases length - start
  {
    if k > 0 { WindowsAtMultiples(length, maxChars, start + maxChars, k - 1); }
  }

  /** Cut into windows, a span stays whole in one of them if and only if no multiple of the
      window size falls inside it. */
  lemma SpanWholeIff(length: nat, maxChars: nat, from: nat, upTo: nat)
    requires maxChars > 0 && from < upTo <= length
    ensures var starts := Chunking.Starts(length, maxChars, 0, 0);
      (exists k :: 0 <= k < |starts| && starts[k] <= from && upTo <= Chunking.End(length, maxChars, starts[k]))
      <==> !exists m: nat :: from < m * maxChars < upTo
  {
    var starts := Chunking.Starts(length, maxChars, 0, 0);
    if k :| 0 <= k < |starts| && starts[k] <= from && upTo <= Chunking.End(length, maxChars, starts[k]) {
      WindowsAtMultiples(length, maxChars, 0, k);
      forall m: nat
        ensures !(from < m * maxChars < upTo)
      {
        Between(k, m, maxChars);
      }
    } else {
      var k := WindowOf(length, maxChars, from);
      WindowsAtMultiples(length, maxChars, 0, k);
      assert from < (k + 1) * maxChars < upTo by { assert (k + 1) * maxChars == k * maxChars + maxChars; }
    }
  }

  lemma {:induction false} Between(k: nat, m: nat, size: nat)
    ensures m <= k ==> m * size <= k * size
    ensures m > k ==> m * size >= k * size + size
    decreases if m <= k then k - m else m - k
  {
    if m < k {
      Between(k - 1, m, size);
      assert k * size == (k - 1) * size + size;
    } else if m > k {
      Between(k, m - 1, size);
      assert m * size == (m - 1) * size + size;
    }
  }

  /** The window that a position falls into. */
  lemma {:induction false} WindowOf(length: nat, maxChars: nat, at: nat) returns (k: nat)
    requires maxChars > 0 && at < length
    ensures var starts := Chunking.Starts(length, maxChars, 0, 0);
      k < |starts| && starts[k] <= at < Chunking.End(length, maxChars, starts[k])
  {
    var starts := Chunking.Starts(length, maxChars, 0, 0);
    Chunking.LastWindowEnds(length, maxChars, 0, 0);
    k := |starts| - 1;
    while starts[k] > at
      invariant k < |starts| && at < Chunking.End(length, maxChars, starts[k])
    {
      Chunking.WindowsFollow(length, maxChars, 0, 0, k - 1);
      k := k - 1;
    }
  }

  /** The text behind the first line. */
  function Behind(s: string): (more: string)
    ensures s != "" ==> |more| < |s|
  {
    if FirstBreak(s) < |s| then s[FirstBreak(s) + 1..] else ""
  }

  /** Where the rows of the text start, counted from `offset`. */
  function RowStarts(s: string, offset: nat): seq<nat>
    decreases |s|
  {
    if s == "" then []
    else if IsRow(s[..FirstBreak(s)]) then [offset] + RowStarts(Behind(s), offset + FirstBreak(s) + 1)
    else RowStarts(Behind(s), offset + FirstBreak(s) + 1)
  }

  /** The row starts at this place of the text. */
  predicate StandsAt(s: string, offset: nat, at: nat, row: string) {
    row != "" && offset <= at && at - offset + |row| <= |s| && s[at - offset..at - offset + |row|] == row
  }

  lemma StandsBehind(s: string, offset: nat, at: nat, row: string)
    requires s != "" && StandsAt(Behind(s), offset + FirstBreak(s) + 1, at, row)
    ensures StandsAt(s, offset, at, row)
  {
    hide FirstBreak;
    var n := FirstBreak(s) + 1;
    assert n <= |s| && Behind(s) == s[n..];
    CutOfRest(s, n, at - offset, at - offset + |row|);
  }

  lemma CutOfRest(s: string, n: nat, i: nat, j: nat)
    requires n <= i <= j <= |s|
    ensures s[n..][i - n..j - n] == s[i..j]
  {
  }

  lemma FirstStands(s: string, offset: nat, line: string)
    requires line <= s && IsRow(line)
    ensures StandsAt(s, offset, offset, RStrip(line))
  {
    hide Cells, RStrip;
    RStripFront(line);
    SameRow(line);
    SameRow(RStrip(line));
    assert !IsBlank(RStrip(line)) && RStrip(line) != "";
  }

  lemma FirstOfTable(s: string)
    requires s != ""
    ensures var line, rows := s[..FirstBreak(s)], TableLines(Behind(s));
      TableLines(s) == if IsRow(line) then [RStrip(line)] + rows else rows
  {
    hide IsRow, RStrip, FirstBreak;
    var line, more := s[..FirstBreak(s)], Behind(s);
    assert Lines(s) == [line] + Lines(more);
    KeptAppend([line], Lines(more), true);
    KeptFirst(line);
    assert [] + TableLines(more) == TableLines(more);
  }

  lemma KeptFirst(line: string)
    ensures Kept([line], true) == if IsRow(line) then [RStrip(line)] else []
  {
    assert [line][..0] == [];
  }

  predicate AllStand(s: string, offset: nat, starts: seq<nat>, rows: seq<string>) {
    |starts| == |rows| && forall k | 0 <= k < |rows| :: StandsAt(s, offset, starts[k], rows[k])
  }

  lemma AllStandBehind(s: string, offset: nat, starts: seq<nat>, rows: seq<string>)
    requires s != "" && AllStand(Behind(s), offset + FirstBreak(s) + 1, starts, rows)
    ensures AllStand(s, offset, starts, rows)
  {
    hide StandsAt, Behind, FirstBreak;
    forall k | 0 <= k < |rows|
      ensures StandsAt(s, offset, starts[k], rows[k])
    {
      StandsBehind(s, offset, starts[k], rows[k]);
    }
  }

  lemma AllStandMore(s: string, offset: nat, at: nat, row: string, starts: seq<nat>, rows: seq<string>)
    requires StandsAt(s, offset, at, row) && AllStand(s, offset, starts, rows)
    ensures AllStand(s, offset, [at] + starts, [row] + rows)
  {
    hide StandsAt;
  }

  lemma StartsStep(s: string, offset: nat)
    requires s != ""
    ensures var n := FirstBreak(s); var starts := RowStarts(Behind(s), offset + n + 1);
      RowStarts(s, offset) == if IsRow(s[..n]) then [offset] + starts else starts
  {
    hide IsRow, FirstBreak, Behind;
  }

  lemma NoneStand(offset: nat)
    ensures AllStand("", offset, RowStarts("", offset), TableLines(""))
  {
  }

  /** Every row of the text stands where it starts. */
  lemma {:induction false} RowsStand(s: string, offset: nat)
    ensures AllStand(s, offset, RowStarts(s, offset), TableLines(s))
    decreases |s|
  {
    hide IsRow, RStrip, TableLines, FirstBreak, StandsAt, Behind, AllStand, RowStarts;
    if s == "" {
      NoneStand(offset);
    } else {
      var line, more, next := s[..FirstBreak(s)], Behind(s), offset + FirstBreak(s) + 1;
      FirstOfTable(s);
      StartsStep(s, offset);
      RowsStand(more, next);
      AllStandBehind(s, offset, RowStarts(more, next), TableLines(more));
      if IsRow(line) {
        FirstStands(s, offset, line);
        AllStandMore(s, offset, offset, RStrip(line), RowStarts(more, next), TableLines(more));
      }
    }
  }

  /** Piece `j`, a window of the text, holds the whole row that starts at `from`. */
  predicate Holds(pieces: seq<string>, maxChars: nat, j: nat, from: nat, row: string) {
    j < |pieces| && j * maxChars <= from && from + |row| <= j * maxChars + |pieces[j]|
  }

  /** Without overlap the pieces are the windows at the multiples of their size. */
  lemma PieceAt(text: string, maxChars: nat, j: nat)
    requires text != "" && maxChars > 0
    ensures var pieces, starts := Chunking.LongPieces(text, maxChars, 0), Chunking.Starts(|text|, maxChars, 0, 0);
      && |pieces| == |starts|
      && (j < |pieces| ==>
            && starts[j] == j * maxChars < |text| && Chunking.End(|text|, maxChars, starts[j]) == j * maxChars + |pieces[j]|
            && j * maxChars + |pieces[j]| <= |text| && pieces[j] == text[j * maxChars..j * maxChars + |pieces[j]|])
  {
    Chunking.PiecesAreWindows(text, maxChars, 0, 0);
    if j < |Chunking.Starts(|text|, maxChars, 0, 0)| { WindowsAtMultiples(|text|, maxChars, 0, j); }
    if |text| <= maxChars { assert text[0..|text|] == text; }
  }

  /** A row of a table that is cut into windows stays whole in one of the pieces if and only
      if no multiple of the window size falls inside the place where it stands. */
  lemma WholeIff(text: string, maxChars: nat, inherited: Option<seq<string>>, k: nat)
    requires maxChars > 0 && !ByRows(text, inherited) && k < |BodyRows(text)|
    ensures |RowStarts(text, 0)| == |BodyRows(text)| && StandsAt(text, 0, RowStarts(text, 0)[k], BodyRows(text)[k])
    ensures var pieces, from, row := Chunking.LongPieces(text, maxChars, 0), RowStarts(text, 0)[k], BodyRows(text)[k];
      && ((exists j: nat :: Holds(pieces, maxChars, j, from, row)) <==> !exists m: nat :: from < m * maxChars < from + |row|)
      && forall j: nat | Holds(pieces, maxChars, j, from, row) ::
           pieces[j][from - j * maxChars..from - j * maxChars + |row|] == row
  {
    hide Lines, Kept, IsSeparator, Cells, RowStarts, IsRow;
    RowsStand(text, 0);
    assert Detected(text).None?;
    StandsWholeIff(text, maxChars, RowStarts(text, 0)[k], BodyRows(text)[k]);
  }

  lemma StandsWholeIff(text: string, maxChars: nat, from: nat, row: string)
    requires maxChars > 0 && StandsAt(text, 0, from, row)
    ensures var pieces := Chunking.LongPieces(text, maxChars, 0);
      && ((exists j: nat :: Holds(pieces, maxChars, j, from, row)) <==> !exists m: nat :: from < m * maxChars < from + |row|)
      && forall j: nat | Holds(pieces, maxChars, j, from, row) ::
           pieces[j][from - j * maxChars..from - j * maxChars + |row|] == row
  {
    hide Chunking.LongPieces, Chunking.Starts, Chunking.End;
    var pieces, starts := Chunking.LongPieces(text, maxChars, 0), Chunking.Starts(|text|, maxChars, 0, 0);
    var upTo := from + |row|;
    SpanWholeIff(|text|, maxChars, from, upTo);
    if j: nat :| Holds(pieces, maxChars, j, from, row) {
      PieceAt(text, maxChars, j);
      assert starts[j] <= from;
    }
    if j: nat :| j < |starts| && starts[j] <= from && upTo <= Chunking.End(|text|, maxChars, starts[j]) {
      PieceAt(text, maxChars, j);
      assert Holds(pieces, maxChars, j, from, row);
    }
    forall j: nat | Holds(pieces, maxChars, j, from, row)
      ensures pieces[j][from - j * maxChars..from - j * maxChars + |row|] == row
    {
      PieceAt(text, maxChars, j);
      CutOfCut(text, j * maxChars, |pieces[j]|, from, upTo);
    }
  }

  lemma CutOfCut(text: string, start: nat, size: nat, from: nat, upTo: nat)
    requires start <= from <= upTo <= start + size <= |text|
    ensures text[start..start + size][from - start..upTo - start] == text[from..upTo]
  {
    var a, b := text[start..start + size][from - start..upTo - start], text[from..upTo];
    assert |a| == |b| && forall i | 0 <= i < |a| :: a[i] == text[from + i] == b[i];
  }

  /** The row of one cell that is two characters longer than a window. */
  function LongRow(maxChars: nat): string {
    "|" + seq(maxChars, i => 'x') + "|"
  }

  /** A row without a header that is longer than a window is cut, whatever the window. */
  lemma RowIsCut(maxChars: nat)
    requires maxChars > 0
    ensures var text := LongRow(maxChars);
      && BodyRows(text) == [text] && !ByRows(text, None)
      && !exists j: nat :: Holds(Chunking.LongPieces(text, maxChars, 0), maxChars, j, 0, text)
  {
    hide Lines, Kept, IsSeparator, Cells, RowStarts, IsRow, Chunking.LongPieces, LongRow, Holds;
    var text := LongRow(maxChars);
    LongRowIs(maxChars);
    OneRow(text);
    WholeIff(text, maxChars, None, 0);
    assert RowStarts(text, 0)[0] == 0;
    assert 0 < 1 * maxChars < |text|;
  }

  lemma LongRowIs(maxChars: nat)
    ensures var text := LongRow(maxChars);
      |text| == maxChars + 2 && text[0] == text[|text| - 1] == '|' && forall i | 0 < i < |text| - 1 :: text[i] == 'x'
  {
  }

  lemma OneRow(text: string)
    requires |text| > 2 && text[0] == text[|text| - 1] == '|' && forall i | 0 < i < |text| - 1 :: text[i] == 'x'
    ensures TableLines(text) == [text]
  {
    hide SplitBars;
    assert OneLine(text) && FirstBreak(text) == |text| && text[..|text|] == text;
    var lines := [text];
    assert Lines(text) == lines && lines[..0] == [] && Kept(lines[..0], true) == [];
    assert !IsSpace('|') && LStrip(text) == text && RStrip(text) == text;
    assert Strip(text) == text && text[1..][|text| - 2] == '|' && IsRow(text);
    assert Kept(lines, true) == [] + [text];
  }
}
