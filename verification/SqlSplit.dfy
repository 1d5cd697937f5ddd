/** Splitting a migration into statements (`scripts/migrate.py`). */
module SqlSplit {
  import opened Schema

  /** Where the scanner is: in code, within quotes, or in a line comment. */
  datatype State = Code | Quote(mark: char) | Comment

  /** One step of the scanner: how many characters it takes, where it gets to, and whether
      the character is a cut. */
  datatype Move = Move(width: nat, next: State, cut: bool)

  predicate IsMark(c: char) {
    c == '\'' || c == '"'
  }

  function Step(s: string, st: State): (m: Move)
    requires s != ""
    ensures 1 <= m.width <= |s| && (m.cut ==> m.width == 1 && s[0] == ';')
  {
    var c := s[0];
    if st.Comment? then Move(1, if c == '\n' then Code else Comment, false)
    else if st.Code? && c == '-' && |s| > 1 && s[1] == '-' then Move(2, Comment, false)
    else if IsMark(c) then
      if st == Quote(c) then
        if |s| > 1 && s[1] == c then Move(2, st, false) else Move(1, Code, false)
      else Move(1, if st.Code? then Quote(c) else st, false)
    else Move(1, st, c == ';' && st.Code?)
  }

  datatype Scanned = Scanned(segments: seq<string>, end: State)

  /** The raw segments between cuts, and the final state. */
  function Scan(s: string, st: State): (r: Scanned)
    ensures r.segments != []
    decreases |s|
  {
    if s == "" then Scanned([""], st)
    else
      var m := Step(s, st);
      var r := Scan(s[m.width..], m.next);
      if m.cut then Scanned([""] + r.segments, r.end)
      else Scanned([s[..m.width] + r.segments[0]] + r.segments[1..], r.end)
  }

  /** Some line is neither blank nor a comment; `line` is the line read so far.  (A line
      break of two characters only adds an empty line, which counts for nothing here.) */
  predicate HasSqlFrom(line: string, s: string)
    decreases |s|
  {
    if s == "" then IsSql(line)
    else if IsBreak(s[0]) then IsSql(line) || HasSqlFrom("", s[1..])
    else HasSqlFrom(line + [s[0]], s[1..])
  }

  predicate IsSql(line: string) {
    LStrip(line) != "" && !("--" <= LStrip(line))
  }

  predicate HasSql(statement: string) {
    statement != "" && HasSqlFrom("", statement)
  }

  /** Single and double quotes are the marks, and nothing else is. */
  lemma MarksAre(c: char)
    ensures IsMark(c) <==> c in {'\'', '"'}
  {
  }

  /** The text runs over a line of its own, from `from` up to `upTo`. */
  ghost predicate IsLine(s: string, from: nat, upTo: nat) {
    && from <= upTo <= |s| && (from == 0 || IsBreak(s[from - 1])) && (upTo == |s| || IsBreak(s[upTo]))
    && forall i | from <= i < upTo :: !IsBreak(s[i])
  }

  /** A statement holds SQL if and only if one of its lines is neither blank nor a comment. */
  lemma HasSqlIff(s: string)
    ensures HasSql(s) <==> exists from: nat, upTo: nat :: IsLine(s, from, upTo) && IsSql(s[from..upTo])
  {
    if s == "" {
      assert forall from: nat, upTo: nat | IsLine(s, from, upTo) :: s[from..upTo] == "";
    } else {
      HasSqlFromIff(s, 0, 0);
      assert s[0..0] == "" && s[0..] == s;
    }
  }

  lemma {:induction false} HasSqlFromIff(s: string, from: nat, at: nat)
    requires from <= at <= |s| && (from == 0 || IsBreak(s[from - 1])) && forall i | from <= i < at :: !IsBreak(s[i])
    ensures HasSqlFrom(s[from..at], s[at..]) <==>
            exists start: nat, upTo: nat :: start >= from && IsLine(s, start, upTo) && IsSql(s[start..upTo])
    decreases |s| - at
  {
    hide IsSql, IsBreak;
    if at == |s| {
      assert IsLine(s, from, at);
    } else if IsBreak(s[at]) {
      assert s[at..][0] == s[at] && s[at..][1..] == s[at + 1..] && s[at + 1..at + 1] == "";
      HasSqlFromIff(s, at + 1, at + 1);
      assert IsLine(s, from, at);
      forall start: nat, upTo: nat | start >= from && IsLine(s, start, upTo)
        ensures (start == from && upTo == at) || start >= at + 1
      {
        assert start > 0 ==> IsBreak(s[start - 1]);
      }
    } else {
      assert s[at..][0] == s[at] && s[at..][1..] == s[at + 1..] && s[from..at] + [s[at]] == s[from..at + 1];
      HasSqlFromIff(s, from, at + 1);
    }
  }

  /** `append_statement` over all segments. */
  function Statements(segments: seq<string>): seq<string> {
    if segments == [] then []
    else (if HasSql(Strip(segments[0])) then [Strip(segments[0])] else []) + Statements(segments[1..])
  }

  function Added(statements: seq<string>, buffer: string): seq<string> {
    if HasSql(Strip(buffer)) then statements + [Strip(buffer)] else statements
  }

  /** `split_sql_statements`. */
  method SplitSqlStatements(sql: string) returns (statements: seq<string>)
    ensures statements == Statements(Scan(sql, Code).segments)
  {
    hide Scan, Step, Rest, Statements, HasSql, Added;
    statements := [];
    var current := "";
    var st := Code;
    var index := 0;
    RestStart(sql);
    while index < |sql|
      invariant 0 <= index <= |sql|
      invariant Rest(statements, current, sql[index..], st) == Statements(Scan(sql, Code).segments)
    {
      var m := Step(sql[index..], st);
      RestNext(statements, current, sql[index..], st);
      assert sql[index..][..m.width] == sql[index..index + m.width] && sql[index..][m.width..] == sql[index + m.width..];
      if m.cut {
        statements := Added(statements, current);
        current := "";
      } else {
        current := current + sql[index..index + m.width];
      }
      st := m.next;
      index := index + m.width;
    }
    assert sql[index..] == "";
    RestEnd(statements, current, st);
    statements := Added(statements, current);
  }

  /** What the scan comes to from here on. */
  function Rest(statements: seq<string>, current: string, s: string, st: State): seq<string> {
    var r := Scan(s, st).segments;
    statements + Statements([current + r[0]] + r[1..])
  }

  lemma RestStart(sql: string)
    ensures Rest([], "", sql[0..], Code) == Statements(Scan(sql, Code).segments)
  {
    var r := Scan(sql, Code).segments;
    assert sql[0..] == sql && "" + r[0] == r[0] && [r[0]] + r[1..] == r;
    assert [] + Statements(r) == Statements(r);
  }

  lemma RestEnd(statements: seq<string>, current: string, st: State)
    ensures Rest(statements, current, "", st) == Added(statements, current)
  {
    var last := [current];
    assert current + "" == current && [""][1..] == [] && [current] + [] == last && last[1..] == [];
    assert Statements([]) == [];
  }

  lemma RestNext(statements: seq<string>, current: string, s: string, st: State)
    requires s != ""
    ensures var m := Step(s, st);
      Rest(statements, current, s, st) ==
      if m.cut then Rest(Added(statements, current), "", s[m.width..], m.next)
      else Rest(statements, current + s[..m.width], s[m.width..], m.next)
  {
    var m := Step(s, st);
    var r := Scan(s[m.width..], m.next).segments;
    ScanStep(s, st);
    hide Scan, Step;
    if m.cut {
      CutStatements(statements, current, r);
    } else {
      GrowStatements(current, s[..m.width], r);
    }
  }

  lemma ScanStep(s: string, st: State)
    requires s != ""
    ensures var m := Step(s, st); var r := Scan(s[m.width..], m.next).segments;
      Scan(s, st).segments == if m.cut then [""] + r else [s[..m.width] + r[0]] + r[1..]
  {
  }

  lemma CutStatements(statements: seq<string>, current: string, r: seq<string>)
    requires r != []
    ensures statements + Statements([current + ([""] + r)[0]] + ([""] + r)[1..]) ==
            Added(statements, current) + Statements(["" + r[0]] + r[1..])
  {
    assert current + "" == current && "" + r[0] == r[0] && [r[0]] + r[1..] == r && ([""] + r)[1..] == r;
    assert ([current] + r)[1..] == r;
  }

  lemma GrowStatements(current: string, more: string, r: seq<string>)
    requires r != []
    ensures var all := [more + r[0]] + r[1..];
      [current + all[0]] + all[1..] == [(current + more) + r[0]] + r[1..]
  {
    assert current + (more + r[0]) == (current + more) + r[0];
  }

  // ---------------------------------------------------------------- theorems

  /** Joined by semicolons the raw segments are the text again. */
  lemma {:induction false} JoinSegments(s: string, st: State)
    ensures Join(Scan(s, st).segments, ";") == s
    decreases |s|
  {
    if s != "" {
      var m := Step(s, st);
      var r := Scan(s[m.width..], m.next).segments;
      JoinSegments(s[m.width..], m.next);
      assert s == s[..m.width] + s[m.width..];
      if m.cut {
        assert ([""] + r)[1..] == r;
        assert s[..1] == ";";
      } else {
        JoinFirst(s[..m.width], r);
      }
    }
  }

  lemma JoinFirst(head: string, r: seq<string>)
    requires r != []
    ensures Join([head + r[0]] + r[1..], ";") == head + Join(r, ";")
  {
    var all := [head + r[0]] + r[1..];
    assert all[1..] == r[1..];
    if |r| > 1 {
      assert head + (r[0] + ";" + Join(r[1..], ";")) == (head + r[0]) + ";" + Join(r[1..], ";");
    }
  }

  /** Scanned on its own the text has no cut. */
  predicate Whole(s: string) {
    Scan(s, Code).segments == [s]
  }

  /** ... and ends in code: its quotes and comments are closed. */
  predicate Clean(s: string) {
    Whole(s) && Scan(s, Code).end == Code
  }

  /** The two texts do not run together into one token. */
  predicate Apart(a: string, b: string) {
    a != "" && b != "" ==> !(a[|a| - 1] == b[0] && (b[0] == '-' || IsMark(b[0])))
  }

  function Merged(p: seq<string>, q: seq<string>): seq<string>
    requires p != [] && q != []
  {
    p[..|p| - 1] + [p[|p| - 1] + q[0]] + q[1..]
  }

  /** Scanning two texts one after the other. */
  lemma {:induction false} ScanAppend(a: string, b: string, st: State)
    requires Apart(a, b)
    ensures var p := Scan(a, st); var q := Scan(b, p.end);
      Scan(a + b, st) == Scanned(Merged(p.segments, q.segments), q.end)
    decreases |a|
  {
    if a == "" {
      assert a + b == b;
      MergedEmpty(Scan(b, st).segments);
    } else {
      var m := Step(a, st);
      StepAppend(a, b, st);
      assert (a + b)[m.width..] == a[m.width..] + b && (a + b)[..m.width] == a[..m.width];
      ScanAppend(a[m.width..], b, m.next);
      var p := Scan(a[m.width..], m.next);
      MergedCons(a[..m.width], p.segments, Scan(b, p.end).segments);
    }
  }

  lemma MergedEmpty(q: seq<string>)
    requires q != []
    ensures Merged([""], q) == q
  {
    assert "" + q[0] == q[0];
  }

  lemma MergedCons(x: string, p: seq<string>, q: seq<string>)
    requires p != [] && q != []
    ensures Merged([""] + p, q) == [""] + Merged(p, q)
    ensures Merged([x + p[0]] + p[1..], q) == [x + Merged(p, q)[0]] + Merged(p, q)[1..]
  {
    var y := [x + p[0]] + p[1..];
    if |p| == 1 {
      assert y == [x + p[0]];
      assert (x + p[0]) + q[0] == x + (p[0] + q[0]);
    } else {
      assert y[..|y| - 1] == [x + p[0]] + p[1..|p| - 1];
    }
  }

  lemma StepAppend(a: string, b: string, st: State)
    requires a != "" && Apart(a, b)
    ensures Step(a + b, st) == Step(a, st)
  {
    if |a| > 1 { assert (a + b)[1] == a[1]; } else if b != "" { assert (a + b)[1] == b[0]; }
  }

  /** Every raw segment is closed in itself: no cut falls inside a quoted text, a doubled
      quote or a line comment. */
  lemma {:induction false} SegmentsClosed(s: string, st: State, k: nat)
    requires k < |Scan(s, st).segments|
    ensures var r := Scan(s, st);
      && Scan(r.segments[k], if k == 0 then st else Code).segments == [r.segments[k]]
      && Scan(r.segments[k], if k == 0 then st else Code).end == (if k == |r.segments| - 1 then r.end else Code)
    decreases |s|
  {
    if s != "" {
      var m := Step(s, st);
      var r := Scan(s[m.width..], m.next);
      if m.cut {
        assert st == Code;
        if k > 0 { SegmentsClosed(s[1..], Code, k - 1); }
      } else {
        SegmentsClosed(s[m.width..], m.next, k);
        if k == 0 { LongerSegment(s, st); }
      }
    }
  }

  /** The first segment is scanned like the text it begins. */
  lemma LongerSegment(s: string, st: State)
    requires s != "" && !Step(s, st).cut
    ensures var m := Step(s, st); var r := Scan(s[m.width..], m.next); var x := Scan(r.segments[0], m.next);
      Scan(s[..m.width] + r.segments[0], st) == Scanned([s[..m.width] + x.segments[0]] + x.segments[1..], x.end)
  {
    var m := Step(s, st);
    var first := Scan(s[m.width..], m.next).segments[0];
    FirstSegment(s[m.width..], m.next);
    StepSame(s, st, first);
    hide Step;
    var x := s[..m.width] + first;
    assert x[m.width..] == first && x[..m.width] == s[..m.width];
  }

  /** The first segment is a prefix of the text, and what follows it is a semicolon. */
  lemma {:induction false} FirstSegment(s: string, st: State)
    ensures var x := Scan(s, st).segments[0];
      x <= s && (|x| < |s| ==> s[|x|] == ';')
    decreases |s|
  {
    if s != "" {
      var m := Step(s, st);
      FirstSegment(s[m.width..], m.next);
      assert s == s[..m.width] + s[m.width..];
    }
  }

  lemma StepSame(s: string, st: State, x: string)
    requires s != "" && !Step(s, st).cut
    requires var rest := s[Step(s, st).width..]; x <= rest && (|x| < |rest| ==> rest[|x|] == ';')
    ensures Step(s[..Step(s, st).width] + x, st) == Step(s, st)
  {
    var m := Step(s, st);
    var y := s[..m.width] + x;
    if m.width == 1 && |x| > 0 { assert y[1] == s[1]; }
    if m.width == 1 && |x| == 0 && |s| > 1 { assert s[1..][0] == s[1] == ';'; }
  }

  /** Statements that are closed in themselves, the last at least without a cut, are found
      again in their join. */
  lemma {:induction false} SplitUndoesJoin(parts: seq<string>)
    requires parts != [] && Whole(parts[|parts| - 1])
    requires forall k | 0 <= k < |parts| - 1 :: Clean(parts[k])
    ensures Scan(Join(parts, ";"), Code).segments == parts
  {
    hide Scan, Step;
    if |parts| > 1 {
      SplitUndoesJoin(parts[1..]);
      CutBetween(parts[0], Join(parts[1..], ";"));
      assert [parts[0]] + parts[1..] == parts;
    }
  }

  lemma CutBetween(first: string, rest: string)
    requires Clean(first)
    ensures Scan(first + ";" + rest, Code).segments == [first] + Scan(rest, Code).segments
  {
    hide Scan, Step;
    var tail := ";" + rest;
    CutFirst(rest);
    ScanAppend(first, tail, Code);
    assert first + tail == first + ";" + rest;
    MergedOne(first, Scan(rest, Code).segments);
  }

  lemma CutFirst(rest: string)
    ensures Scan(";" + rest, Code) == Scanned([""] + Scan(rest, Code).segments, Scan(rest, Code).end)
  {
    var tail := ";" + rest;
    assert tail[0] == ';' && tail[1..] == rest;
    assert Step(tail, Code) == Move(1, Code, true);
  }

  lemma MergedOne(first: string, q: seq<string>)
    ensures Merged([first], [""] + q) == [first] + q
  {
    assert first + "" == first && ([""] + q)[1..] == q;
  }

  /** When each of them contains SQL, splitting returns them all, stripped. */
  lemma {:induction false} SplitReturnsStatements(parts: seq<string>)
    requires parts != [] && Whole(parts[|parts| - 1])
    requires forall k | 0 <= k < |parts| - 1 :: Clean(parts[k])
    requires forall k | 0 <= k < |parts| :: HasSql(Strip(parts[k]))
    ensures |Statements(Scan(Join(parts, ";"), Code).segments)| == |parts|
    ensures forall k | 0 <= k < |parts| :: Statements(Scan(Join(parts, ";"), Code).segments)[k] == Strip(parts[k])
  {
    SplitUndoesJoin(parts);
    AllStatements(parts);
  }

  lemma {:induction false} AllStatements(parts: seq<string>)
    requires forall k | 0 <= k < |parts| :: HasSql(Strip(parts[k]))
    ensures |Statements(parts)| == |parts| && forall k | 0 <= k < |parts| :: Statements(parts)[k] == Strip(parts[k])
  {
    if parts != [] { AllStatements(parts[1..]); }
  }

  // --------------------------------------------- quoted texts and comments

  function Doubled(body: string, mark: char): string {
    if body == "" then "" else (if body[0] == mark then [mark, mark] else [body[0]]) + Doubled(body[1..], mark)
  }

  /** The scan of a text that starts with one move. */
  lemma ScanMove(head: string, tail: string, st: State, next: State)
    requires head != "" && Step(head + tail, st) == Move(|head|, next, false)
    ensures var r := Scan(tail, next);
      Scan(head + tail, st) == Scanned([head + r.segments[0]] + r.segments[1..], r.end)
  {
    assert (head + tail)[|head|..] == tail && (head + tail)[..|head|] == head;
  }

  lemma {:induction false} QuotedScan(body: string, mark: char, rest: string)
    requires IsMark(mark) && (rest == "" || rest[0] != mark)
    ensures var r := Scan(rest, Code);
      Scan(Doubled(body, mark) + ([mark] + rest), Quote(mark)) ==
      Scanned([Doubled(body, mark) + ([mark] + r.segments[0])] + r.segments[1..], r.end)
  {
    var r := Scan(rest, Code);
    if body == "" {
      var all := [mark] + rest;
      assert all[0] == mark && (|all| > 1 ==> all[1] == rest[0]);
      ScanMove([mark], rest, Quote(mark), Code);
      assert "" + all == all && "" + ([mark] + r.segments[0]) == [mark] + r.segments[0];
    } else {
      var head := if body[0] == mark then [mark, mark] else [body[0]];
      var tail := Doubled(body[1..], mark) + ([mark] + rest);
      QuotedScan(body[1..], mark, rest);
      HeadMove(body[0], mark, tail);
      ScanMove(head, tail, Quote(mark), Quote(mark));
      Regroup(head, Doubled(body[1..], mark), [mark] + rest);
      Regroup(head, Doubled(body[1..], mark), [mark] + r.segments[0]);
    }
  }

  lemma Regroup(a: string, b: string, c: string)
    ensures (a + b) + c == a + (b + c)
  {
  }

  lemma HeadMove(c: char, mark: char, tail: string)
    requires IsMark(mark)
    ensures var head := if c == mark then [mark, mark] else [c];
      Step(head + tail, Quote(mark)) == Move(|head|, Quote(mark), false)
  {
    var head := if c == mark then [mark, mark] else [c];
    assert (head + tail)[0] == c;
    if c == mark { assert (head + tail)[1] == mark; }
  }

  /** A quoted text with its marks doubled is closed, whatever it contains: semicolons,
      dashes and the other mark included. */
  lemma QuotedIsClean(body: string, mark: char)
    requires IsMark(mark)
    ensures Clean([mark] + Doubled(body, mark) + [mark])
  {
    var inner := Doubled(body, mark) + [mark];
    QuotedScan(body, mark, "");
    assert Doubled(body, mark) + ([mark] + "") == inner;
    assert [mark] + Doubled(body, mark) + [mark] == [mark] + inner;
    assert ([mark] + inner)[1..] == inner && ([mark] + inner)[..1] == [mark];
  }

  lemma {:induction false} CommentScan(text: string)
    requires '\n' !in text
    ensures Scan(text + ['\n'], Comment) == Scanned([text + ['\n']], Code)
  {
    if text == "" {
      assert text + ['\n'] == ['\n'] + "" == ['\n'];
      ScanMove(['\n'], "", Comment, Code);
    } else {
      var tail := text[1..] + ['\n'];
      CommentScan(text[1..]);
      assert text[0] in text && text + ['\n'] == [text[0]] + tail;
      assert ([text[0]] + tail)[0] == text[0];
      ScanMove([text[0]], tail, Comment, Comment);
    }
  }

  /** So is a line comment with its line break. */
  lemma CommentIsClean(text: string)
    requires '\n' !in text
    ensures Clean("--" + text + ['\n'])
  {
    CommentScan(text);
    var tail := text + ['\n'];
    assert "--" + text + ['\n'] == "--" + tail && ("--" + tail)[0] == ("--" + tail)[1] == '-';
    ScanMove("--", tail, Code, Comment);
  }

  /** Closed texts that do not run together make a closed text. */
  lemma CleanAppend(a: string, b: string)
    requires Clean(a) && Clean(b) && Apart(a, b)
    ensures Clean(a + b)
  {
    ScanAppend(a, b, Code);
  }
}
