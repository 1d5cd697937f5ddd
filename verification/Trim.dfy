/** Cutting an over-long tool result down (`_trim`) and reading the cut-out span
    back from the log page by page (`read_tool_log`, character slices). */
module Trim {
  import opened Schema
  import opened Events

  const MAX_CHARS: nat := 2000

  datatype Span = Span(start: nat, end: nat)

  function Back(text: string, n: nat): string {
    if n < |text| then text[|text| - n..] else text
  }

  /** The span recorded in `log_ref`. */
  function CutSpan(text: string, head: nat, tail: nat): (s: Span)
    ensures s.start <= s.end <= |text|
  {
    var start := if head < |text| then head else |text|;
    var end := |text| - tail;
    Span(start, if end < start then start else if end > |text| then |text| else end)
  }

  function LogRef(text: string, head: nat, tail: nat, source: nat): string {
    var s := CutSpan(text, head, tail);
    "{\"log_ref\": {\"seq\": " + Digits(source) + ", \"chars\": " + Digits(|text|)
    + ", \"span\": [" + Digits(s.start) + ", " + Digits(s.end) + "]}}"
  }

  const MARK := "\n…[truncated]…\n"

  function Shown(front: string, back: string, ref: string): string {
    front + MARK + back + "\n" + ref
  }

  /** `_trim`; `project` stands for the JSON projection, which may decline. */
  function Trimmed(text: string, prune: nat, head: nat, tail: nat, source: nat, project: string -> Option<string>): string {
    if |text| <= prune then text
    else if project(text).Some? && project(text).value != "" then project(text).value
    else Shown(Front(text, head), if tail > 0 then Back(text, tail) else "", LogRef(text, head, tail, source))
  }

  /** One answer of `read_tool_log`. */
  datatype Page = Page(content: string, nextOffset: Option<nat>)

  function Clamp(limit: Option<int>): nat {
    match limit
    case None => MAX_CHARS
    case Some(n) => if n < 1 then 1 else if n > MAX_CHARS then MAX_CHARS else n
  }

  function ReadPage(content: string, offset: int, limit: Option<int>): Page {
    var from := if offset < 0 then 0 else offset;
    var lo := if from < |content| then from else |content|;
    var hi := if from + Clamp(limit) < |content| then from + Clamp(limit) else |content|;
    var chunk := if lo <= hi then content[lo..hi] else "";
    Page(chunk, if from + |chunk| < |content| then Some(from + |chunk|) else None)
  }

  /** A page is what is asked for, between 1 and 2000 characters (2000 when nothing is asked
      for), or what is left. */
  lemma PageIs(content: string, offset: int, limit: Option<int>)
    ensures var page, from := ReadPage(content, offset, limit), if offset < 0 then 0 else offset;
      var wanted := if limit == None || limit.value > 2000 then 2000 else if limit.value < 1 then 1 else limit.value;
      && (from + wanted < |content| ==> page == Page(content[from..from + wanted], Some(from + wanted)))
      && (from <= |content| <= from + wanted ==> page == Page(content[from..], None))
      && (from > |content| ==> page == Page("", None))
  {
  }

  /** Following `next_offset` until there is none, with whatever page sizes are
      asked for, reads exactly the rest of the text; and it ends. */
  method ReadOn(content: string, offset: nat, limits: nat -> Option<int>) returns (read: string, pages: nat)
    ensures read == if offset <= |content| then content[offset..] else ""
    ensures pages <= 1 + (if offset <= |content| then |content| - offset else 0)
  {
    var page := ReadPage(content, offset, limits(0));
    read := page.content;
    pages := 1;
    while page.nextOffset.Some?
      invariant page.nextOffset.Some? ==>
        offset < page.nextOffset.value < |content| && read == content[offset..page.nextOffset.value]
        && pages <= page.nextOffset.value - offset
      invariant page.nextOffset.None? ==> read == if offset <= |content| then content[offset..] else ""
      invariant page.nextOffset.None? ==> pages <= 1 + (if offset <= |content| then |content| - offset else 0)
      decreases if page.nextOffset.Some? then |content| - page.nextOffset.value else -1
    {
      page := ReadPage(content, page.nextOffset.value, limits(pages));
      read := read + page.content;
      pages := pages + 1;
    }
  }

  // --------------------------------------------------- reading the reference

  /** What the last line of a trimmed text records. */
  datatype Ref = Ref(seqNo: nat, chars: nat, start: nat, end: nat)

  predicate IsDigit(c: char) {
    '0' <= c <= '9'
  }

  function DigitRun(s: string): (n: nat)
    ensures n <= |s|
  {
    if s != "" && IsDigit(s[0]) then 1 + DigitRun(s[1..]) else 0
  }

  predicate AllDigits(s: string) {
    forall i | 0 <= i < |s| :: IsDigit(s[i])
  }

  function DigitOf(c: char): nat
    requires IsDigit(c)
  {
    c as int - '0' as int
  }

  function Number(digits: string): nat
    requires AllDigits(digits)
  {
    if digits == "" then 0 else 10 * Number(digits[..|digits| - 1]) + DigitOf(digits[|digits| - 1])
  }

  lemma {:induction false} RunIsDigits(s: string)
    ensures AllDigits(s[..DigitRun(s)])
  {
    if s != "" && IsDigit(s[0]) {
      RunIsDigits(s[1..]);
      assert s[..DigitRun(s)] == [s[0]] + s[1..][..DigitRun(s[1..])];
    }
  }

  /** A number behind a fixed text, and what follows it. */
  function ReadField(s: string, before: string): Option<(nat, string)> {
    if !(before <= s) then None
    else
      var t := s[|before|..];
      var n := DigitRun(t);
      RunIsDigits(t);
      if n == 0 then None else Some((Number(t[..n]), t[n..]))
  }

  function ReadRef(line: string): Option<Ref> {
    var a := ReadField(line, "{\"log_ref\": {\"seq\": ");
    if a.None? then None
    else
      var b := ReadField(a.value.1, ", \"chars\": ");
      if b.None? then None
      else
        var c := ReadField(b.value.1, ", \"span\": [");
        if c.None? then None
        else
          var d := ReadField(c.value.1, ", ");
          if d.None? || d.value.1 != "]}}" then None
          else Some(Ref(a.value.0, b.value.0, c.value.0, d.value.0))
  }

  /** The text up to its last line break, and the line behind it. */
  function LineStart(s: string): (n: nat)
    ensures n <= |s|
  {
    if s == "" then 0 else if s[|s| - 1] == '\n' then |s| else LineStart(s[..|s| - 1])
  }

  lemma {:induction false} DigitsRead(n: nat)
    ensures AllDigits(Digits(n))
    ensures Number(Digits(n)) == n
  {
    if n < 10 {
      OneDigit(n);
    } else {
      DigitsRead(n / 10);
      var front, last := Digits(n / 10), ('0' as int + n % 10) as char;
      assert (front + [last])[..|front|] == front;
    }
  }

  lemma OneDigit(n: nat)
    requires n < 10
    ensures Digits(n) == [('0' as int + n) as char] && IsDigit(Digits(n)[0]) && Number(Digits(n)) == n
  {
    var d := Digits(n);
    assert d[..0] == "";
  }

  lemma {:induction false} RunOf(digits: string, rest: string)
    requires AllDigits(digits) && (rest == "" || !IsDigit(rest[0]))
    ensures DigitRun(digits + rest) == |digits|
  {
    if digits == "" {
      assert digits + rest == rest;
    } else {
      assert (digits + rest)[1..] == digits[1..] + rest;
      RunOf(digits[1..], rest);
    }
  }

  lemma FieldRead(before: string, n: nat, rest: string)
    requires rest == "" || !IsDigit(rest[0])
    ensures ReadField(before + (Digits(n) + rest), before) == Some((n, rest))
  {
    hide Digits, Number, DigitRun;
    var t := Digits(n) + rest;
    assert (before + t)[|before|..] == t;
    DigitsRead(n);
    RunOf(Digits(n), rest);
    assert t[..|Digits(n)|] == Digits(n) && t[|Digits(n)|..] == rest;
  }

  /** The reference says what it was written for. */
  lemma RefIsRead(text: string, head: nat, tail: nat, source: nat)
    ensures var s := CutSpan(text, head, tail);
      ReadRef(LogRef(text, head, tail, source)) == Some(Ref(source, |text|, s.start, s.end))
  {
    hide Digits, ReadField, CutSpan;
    var s := CutSpan(text, head, tail);
    var four := "]}}";
    var three := ", " + (Digits(s.end) + four);
    var two := ", \"span\": [" + (Digits(s.start) + three);
    var one := ", \"chars\": " + (Digits(|text|) + two);
    FieldRead("{\"log_ref\": {\"seq\": ", source, one);
    FieldRead(", \"chars\": ", |text|, two);
    FieldRead(", \"span\": [", s.start, three);
    FieldRead(", ", s.end, four);
    assert LogRef(text, head, tail, source) == "{\"log_ref\": {\"seq\": " + (Digits(source) + one);
  }

  lemma {:induction false} LineStartIs(front: string, line: string)
    requires '\n' !in line
    ensures LineStart(front + "\n" + line) == |front| + 1
  {
    var s := front + "\n" + line;
    if line == "" {
      assert s[|s| - 1] == '\n';
    } else {
      assert s[..|s| - 1] == front + "\n" + line[..|line| - 1];
      LineStartIs(front, line[..|line| - 1]);
    }
  }

  lemma RefIsOneLine(text: string, head: nat, tail: nat, source: nat)
    ensures '\n' !in LogRef(text, head, tail, source)
  {
    hide Digits;
    var s := CutSpan(text, head, tail);
    DigitsRead(source);
    DigitsRead(|text|);
    DigitsRead(s.start);
    DigitsRead(s.end);
  }

  /** What a trimmed text gives away without the original: the reference of its last line,
      and what it shows in front of that line. */
  function RefOf(trimmed: string): Option<Ref> {
    ReadRef(trimmed[LineStart(trimmed)..])
  }

  function ShownText(trimmed: string): string {
    if LineStart(trimmed) == 0 then "" else trimmed[..LineStart(trimmed) - 1]
  }

  /** Nothing is lost: a trimmed text records where the cut was made, starts with everything
      before it and shows everything after it; head and tail show a part twice only when
      they are longer than the text. */
  ghost predicate Records(trimmed: string, text: string, source: nat) {
    && RefOf(trimmed).Some?
    && var ref := RefOf(trimmed).value;
    && ref.seqNo == source && ref.chars == |text| && ref.start <= ref.end <= |text|
    && text[..ref.start] <= ShownText(trimmed)
    && |text| - ref.end <= |ShownText(trimmed)|
    && ShownText(trimmed)[|ShownText(trimmed)| - (|text| - ref.end)..] == text[ref.end..]
  }

  lemma TrimIsLossless(text: string, prune: nat, head: nat, tail: nat, source: nat, project: string -> Option<string>)
    requires |text| > prune && (project(text).None? || project(text).value == "")
    ensures var trimmed := Trimmed(text, prune, head, tail, source, project);
      && Records(trimmed, text, source)
      && (head + tail <= |text| ==>
            var ref := RefOf(trimmed).value;
            ref.start == head && ref.end == |text| - tail && ShownText(trimmed) == text[..head] + (MARK + text[|text| - tail..]))
  {
    hide RefOf, ShownText, Trimmed;
    var s := CutSpan(text, head, tail);
    var overlap := BackCovers(text, head, tail);
    TrimmedIs(text, prune, head, tail, source, project, overlap);
    ShownAround(text[..s.start], MARK + overlap, text[s.end..], ShownText(Trimmed(text, prune, head, tail, source, project)));
    if head + tail <= |text| {
      assert overlap == "" && MARK + "" + text[s.end..] == MARK + text[s.end..];
    }
  }

  /** The text in front of the last line, and the reference in it. */
  lemma TrimmedIs(text: string, prune: nat, head: nat, tail: nat, source: nat, project: string -> Option<string>, overlap: string)
    requires |text| > prune && (project(text).None? || project(text).value == "")
    requires (if tail > 0 then Back(text, tail) else "") == overlap + text[CutSpan(text, head, tail).end..]
    ensures var s, trimmed := CutSpan(text, head, tail), Trimmed(text, prune, head, tail, source, project);
      && RefOf(trimmed) == Some(Ref(source, |text|, s.start, s.end))
      && ShownText(trimmed) == text[..s.start] + (MARK + overlap + text[s.end..])
  {
    hide LogRef, ReadRef, CutSpan, LineStart, Back;
    var s := CutSpan(text, head, tail);
    var ref := LogRef(text, head, tail, source);
    var shown := text[..s.start] + (MARK + overlap + text[s.end..]);
    FrontIs(text, head, tail);
    RefIsOneLine(text, head, tail, source);
    LineStartIs(shown, ref);
    RefIsRead(text, head, tail, source);
    var trimmed := Trimmed(text, prune, head, tail, source, project);
    assert trimmed == shown + "\n" + ref by { Associates(text[..s.start], MARK, overlap, text[s.end..]); }
    LastLine(shown, ref, trimmed);
  }

  lemma Associates(a: string, b: string, c: string, d: string)
    ensures a + b + (c + d) == a + (b + c + d)
  {
  }

  lemma LastLine(shown: string, ref: string, trimmed: string)
    requires trimmed == shown + "\n" + ref
    ensures trimmed[..|shown|] == shown && trimmed[|shown| + 1..] == ref
  {
  }

  lemma ShownAround(front: string, middle: string, back: string, shown: string)
    requires shown == front + (middle + back)
    ensures front <= shown && |back| <= |shown| && shown[|shown| - |back|..] == back
  {
  }

  lemma FrontIs(text: string, head: nat, tail: nat)
    ensures Front(text, head) == text[..CutSpan(text, head, tail).start]
  {
  }

  lemma BackCovers(text: string, head: nat, tail: nat) returns (overlap: string)
    ensures (if tail > 0 then Back(text, tail) else "") == overlap + text[CutSpan(text, head, tail).end..]
    ensures head + tail <= |text| ==> overlap == ""
  {
    var back := if tail > 0 then Back(text, tail) else "";
    overlap := back[..|back| - |text[CutSpan(text, head, tail).end..]|];
  }

  /** Reading the pages from `start` up to `end`, in whatever sizes are asked for. */
  method ReadSpan(content: string, start: nat, end: nat, limits: nat -> int) returns (read: string)
    requires start <= end <= |content|
    ensures read == content[start..end]
  {
    read := "";
    var offset, n := start, 0;
    while offset < end
      invariant start <= offset <= end && read == content[start..offset]
      decreases end - offset
    {
      var wanted := if limits(n) < end - offset then limits(n) else end - offset;
      var page := ReadPage(content, offset, Some(wanted));
      read := read + page.content;
      offset := offset + |page.content|;
      n := n + 1;
    }
  }

  /** From a trimmed text and pages of the log alone: what is shown in front of the cut, the
      pages that the reference names, and what is shown behind it are the original. */
  method ReassembleFromPages(trimmed: string, content: string, source: nat, limits: nat -> int) returns (whole: string)
    requires Records(trimmed, content, source)
    ensures whole == content
  {
    hide RefOf, ShownText;
    var ref, shown := RefOf(trimmed).value, ShownText(trimmed);
    var read := ReadSpan(content, ref.start, ref.end, limits);
    var back := |shown| - (ref.chars - ref.end);
    whole := shown[..ref.start] + read + shown[back..];
    ThreeParts(content, shown, ref.start, ref.end);
  }

  lemma ThreeParts(content: string, shown: string, start: nat, end: nat)
    requires start <= end <= |content| && content[..start] <= shown
    ensures shown[..start] == content[..start] && content[..start] + content[start..end] + content[end..] == content
  {
  }
}
