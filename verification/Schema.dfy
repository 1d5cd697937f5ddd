/** Structured compaction summaries (`harness/compaction/schema.py`), their
    rendering, and the token estimate of `harness/compaction/meter.py`. */
module Schema {

  datatype Priority = Low | Normal | High | Critical
  datatype Status = Active | Done | Resolved | Superseded | Expired

  /** The extra fields of a `CompactionFactV2`. */
  datatype Fact = Fact(
    company: string, period: string, metric: string, value: string, unit: string,
    evidenceId: string, sourceTool: string, note: string)

  datatype Part = Plain | OfFact(fact: Fact)

  /** A metadata flag: absent, True or False. */
  datatype Flag = Absent | Yes | No

  /** `key` is the metadata key (or canonical name), empty when there is none. */
  datatype Item = Item(
    id: string, content: string, createdTurn: int, updatedTurn: int,
    status: Status, priority: Priority, rebuildable: Flag, retryable: Flag, key: string, part: Part)

  datatype Field =
    | Facts | Decisions | Constraints | Preferences | Entities | Skills
    | Resources | ToolState | CompletedItems | OpenItems | Failures | ConversationNotes

  const FIELDS: seq<Field> :=
    [Facts, Decisions, Constraints, Preferences, Entities, Skills,
     Resources, ToolState, CompletedItems, OpenItems, Failures, ConversationNotes]

  datatype Summary = Summary(items: map<Field, seq<Item>>, narrative: string) {
    function Get(f: Field): seq<Item> {
      if f in items then items[f] else []
    }
  }

  datatype Todo = Todo(content: string, status: string)

  // ------------------------------------------------------------------ text

  /** The whitespace of Python's `str.strip`. */
  predicate IsSpace(c: char) {
    || '\t' <= c <= '\r' || '\U{1c}' <= c <= ' ' || c == '\U{85}' || c == '\U{a0}' || c == '\U{1680}'
    || '\U{2000}' <= c <= '\U{200a}' || c == '\U{2028}' || c == '\U{2029}' || c == '\U{202f}' || c == '\U{205f}'
    || c == '\U{3000}'
  }

  /** The line breaks of Python's `str.splitlines`. */
  predicate IsBreak(c: char) {
    '\n' <= c <= '\r' || '\U{1c}' <= c <= '\U{1e}' || c == '\U{85}' || c == '\U{2028}' || c == '\U{2029}'
  }

  predicate IsBlank(s: string) {
    forall i | 0 <= i < |s| :: IsSpace(s[i])
  }

  function LStrip(s: string): string {
    if s != "" && IsSpace(s[0]) then LStrip(s[1..]) else s
  }

  function RStrip(s: string): string {
    if s != "" && IsSpace(s[|s| - 1]) then RStrip(s[..|s| - 1]) else s
  }

  function Strip(s: string): string {
    RStrip(LStrip(s))
  }

  lemma {:induction false} LStripBlank(s: string)
    ensures IsBlank(s) <==> LStrip(s) == ""
  {
    hide IsSpace;
    if s != "" { LStripBlank(s[1..]); }
  }

  lemma {:induction false} RStripBlank(s: string)
    ensures IsBlank(s) <==> RStrip(s) == ""
  {
    hide IsSpace;
    if s != "" { RStripBlank(s[..|s| - 1]); }
  }

  lemma {:induction false} LStripTwice(s: string)
    ensures LStrip(LStrip(s)) == LStrip(s)
    ensures IsBlank(s) ==> LStrip(s) == ""
  {
    hide IsSpace;
    if s != "" && IsSpace(s[0]) { LStripTwice(s[1..]); }
  }

  lemma {:induction false} RStripFront(s: string)
    ensures RStrip(s) <= s
  {
    if s != "" && IsSpace(s[|s| - 1]) { RStripFront(s[..|s| - 1]); }
  }

  lemma StripBlank(s: string)
    ensures IsBlank(s) <==> Strip(s) == ""
  {
    hide IsBlank;
    LStripBlank(s);
    LStripBlank(LStrip(s));
    LStripTwice(s);
    RStripBlank(LStrip(s));
  }

  function Join(lines: seq<string>, sep: string): string {
    if lines == [] then ""
    else if |lines| == 1 then lines[0]
    else lines[0] + sep + Join(lines[1..], sep)
  }

  lemma JoinCons(x: string, rest: seq<string>, sep: string)
    requires rest != []
    ensures Join([x] + rest, sep) == x + sep + Join(rest, sep)
  {
    assert ([x] + rest)[1..] == rest;
  }

  lemma JoinOfThree(a: string, b: string, c: string, sep: string)
    ensures Join([a, b, c], sep) == a + sep + (b + sep + c)
  {
    JoinCons(a, [b, c], sep);
    JoinCons(b, [c], sep);
    assert [a, b, c] == [a] + [b, c] && [b, c] == [b] + [c];
  }

  /** The first characters of a text. */
  function Front(text: string, n: nat): string {
    if n < |text| then text[..n] else text
  }

  function Digits(n: nat): (s: string)
    ensures s != ""
  {
    if n < 10 then [('0' as int + n) as char] else Digits(n / 10) + [('0' as int + n % 10) as char]
  }

  predicate Contains(s: string, part: string) {
    part <= s || (s != "" && Contains(s[1..], part))
  }

  // ---------------------------------------------------------------- tokens

  predicate IsCjk(c: char) {
    '\U{4e00}' <= c <= '\U{9fff}'
  }

  function Cjk(s: string): nat {
    if s == "" then 0 else (if IsCjk(s[0]) then 1 else 0) + Cjk(s[1..])
  }

  lemma {:induction false} CjkAppend(s: string, t: string)
    ensures Cjk(s + t) == Cjk(s) + Cjk(t)
  {
    if s == "" {
      assert s + t == t;
    } else {
      assert (s + t)[1..] == s[1..] + t;
      CjkAppend(s[1..], t);
    }
  }

  lemma {:induction false} CjkBound(s: string)
    ensures Cjk(s) <= |s|
  {
    if s != "" { CjkBound(s[1..]); }
  }

  /** `estimate_tokens`: one token per CJK character, one per four others. */
  function Estimate(s: string): nat {
    CjkBound(s);
    Cjk(s) + (|s| - Cjk(s)) / 4
  }

  // ------------------------------------------------------------- rendering

  function Label(f: Field): string {
    match f
    case Facts => "已确认事实"
    case Decisions => "已定决策"
    case Constraints => "有效约束"
    case Preferences => "用户偏好"
    case Entities => "实体与消歧"
    case Skills => "技能状态"
    case Resources => "资源"
    case ToolState => "工具状态"
    case CompletedItems => "已完成"
    case OpenItems => "未完成"
    case Failures => "未解决失败"
    case ConversationNotes => "对话说明"
  }

  function NonEmpty(parts: seq<string>): seq<string> {
    if parts == [] then []
    else (if parts[0] == "" then [] else [parts[0]]) + NonEmpty(parts[1..])
  }

  function FactLine(f: Fact): string {
    var head := Strip(Join(NonEmpty([f.company, f.period, f.metric]), " "));
    var value := Strip(f.value + f.unit);
    var body :=
      if head != "" && value != "" then head + "=" + value
      else if head != "" then head
      else if value != "" then value
      else Strip(f.note);
    var extras :=
      (if f.evidenceId != "" then ["evidence_id=" + f.evidenceId] else [])
      + (if f.sourceTool != "" then ["来源=" + f.sourceTool] else [])
      + (if f.note != "" && !Contains(body, Strip(f.note)) then [Strip(f.note)] else []);
    if extras == [] then body else body + "（" + Join(extras, "，") + "）"
  }

  function ItemText(i: Item): string {
    match i.part
    case Plain => i.content
    case OfFact(f) => FactLine(f.(note := if f.note != "" then f.note else i.content))
  }

  predicate Live(i: Item) {
    !i.status.Resolved? && !i.status.Superseded? && !i.status.Expired?
  }

  function ItemLines(items: seq<Item>): seq<string> {
    if items == [] then []
    else (if Live(items[0]) && ItemText(items[0]) != "" then ["- " + ItemText(items[0])] else [])
         + ItemLines(items[1..])
  }

  function FieldLines(f: Field, items: seq<Item>): seq<string> {
    var lines := ItemLines(items);
    if lines == [] then [] else [Label(f) + "："] + lines
  }

  function AllLines(s: Summary, fields: seq<Field>): seq<string> {
    if fields == [] then [] else FieldLines(fields[0], s.Get(fields[0])) + AllLines(s, fields[1..])
  }

  const HEADER := "[压缩摘要 v2]"

  function Lines(s: Summary): seq<string> {
    [HEADER] + AllLines(s, FIELDS)
    + (if Strip(s.narrative) != "" then ["补充：" + Strip(s.narrative)] else [])
  }

  /** `render_summary_text_v2`. */
  function Render(s: Summary): string {
    Strip(Join(Lines(s), "\n"))
  }

  /** Tokens of the rendered summary. */
  function Tokens(s: Summary): nat {
    Estimate(Render(s))
  }
}
