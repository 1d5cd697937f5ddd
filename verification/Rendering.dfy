/** What a rendered summary shows (`render_summary_text_v2`), and what it is estimated to
    cost. */
module Rendering {
  import opened Schema

  /** The line that heads the items of a field. */
  ghost predicate Heads(line: string, f: Field) {
    match f
    case Facts => line == "已确认事实："
    case Decisions => line == "已定决策："
    case Constraints => line == "有效约束："
    case Preferences => line == "用户偏好："
    case Entities => line == "实体与消歧："
    case Skills => line == "技能状态："
    case Resources => line == "资源："
    case ToolState => line == "工具状态："
    case CompletedItems => line == "已完成："
    case OpenItems => line == "未完成："
    case Failures => line == "未解决失败："
    case ConversationNotes => line == "对话说明："
  }

  /** The line shows one of the items: one that is not over and has something to say. */
  ghost predicate ShowsOne(line: string, items: seq<Item>) {
    exists i :: i in items && !(i.status in {Resolved, Superseded, Expired}) && ItemText(i) != "" && line == "- " + ItemText(i)
  }

  lemma {:induction false} ItemLinesIff(items: seq<Item>, line: string)
    ensures line in ItemLines(items) <==> ShowsOne(line, items)
  {
    hide ItemText;
    if items != [] {
      assert items == [items[0]] + items[1..];
      ItemLinesIff(items[1..], line);
    }
  }

  /** The lines of a field: its heading, then a line for each of its items; none when it has
      nothing to show. */
  ghost predicate IsSection(lines: seq<string>, f: Field, items: seq<Item>) {
    if lines == [] then forall line :: !ShowsOne(line, items)
    else Heads(lines[0], f) && |lines| > 1 && forall line :: line in lines[1..] <==> ShowsOne(line, items)
  }

  lemma SectionIs(f: Field, items: seq<Item>)
    ensures IsSection(FieldLines(f, items), f, items)
  {
    hide ItemLines, ShowsOne;
    forall line: string { ItemLinesIff(items, line); }
    var lines := ItemLines(items);
    if lines != [] { assert ([Label(f) + "："] + lines)[1..] == lines; }
  }

  function Flat(sections: seq<seq<string>>): seq<string> {
    if sections == [] then [] else sections[0] + Flat(sections[1..])
  }

  lemma {:induction false} AllSections(s: Summary, fields: seq<Field>) returns (sections: seq<seq<string>>)
    ensures |sections| == |fields| && Flat(sections) == AllLines(s, fields)
    ensures forall k | 0 <= k < |fields| :: IsSection(sections[k], fields[k], s.Get(fields[k]))
  {
    hide IsSection, FieldLines;
    if fields == [] {
      sections := [];
    } else {
      var rest := AllSections(s, fields[1..]);
      SectionIs(fields[0], s.Get(fields[0]));
      sections := [FieldLines(fields[0], s.Get(fields[0]))] + rest;
    }
  }

  /** A rendered summary is its title, a section for each field from facts to notes, and the
      narrative if there is one. */
  lemma RenderedIs(s: Summary) returns (sections: seq<seq<string>>, narrative: seq<string>)
    ensures Render(s) == Strip(Join(["[压缩摘要 v2]"] + Flat(sections) + narrative, "\n"))
    ensures narrative == if Strip(s.narrative) == "" then [] else ["补充：" + Strip(s.narrative)]
    ensures |sections| == 12 && IsSection(sections[0], Facts, s.Get(Facts)) && IsSection(sections[1], Decisions, s.Get(Decisions))
    ensures IsSection(sections[2], Constraints, s.Get(Constraints)) && IsSection(sections[3], Preferences, s.Get(Preferences))
    ensures IsSection(sections[4], Entities, s.Get(Entities)) && IsSection(sections[5], Skills, s.Get(Skills))
    ensures IsSection(sections[6], Resources, s.Get(Resources)) && IsSection(sections[7], ToolState, s.Get(ToolState))
    ensures IsSection(sections[8], CompletedItems, s.Get(CompletedItems)) && IsSection(sections[9], OpenItems, s.Get(OpenItems))
    ensures IsSection(sections[10], Failures, s.Get(Failures)) && IsSection(sections[11], ConversationNotes, s.Get(ConversationNotes))
  {
    hide IsSection, Strip, Join, Flat, AllLines;
    sections := AllSections(s, FIELDS);
    narrative := if Strip(s.narrative) == "" then [] else ["补充：" + Strip(s.narrative)];
    var fields := FIELDS;
    forall k: nat | k < 12
      ensures IsSection(sections[k], fields[k], s.Get(fields[k]))
    {
    }
  }

  const NO_FACT := Fact("", "", "", "", "", "", "", "")

  /** The note of a fact is its own or, when it has none, the item's text; without company,
      period, metric and value the line of the fact is the note. */
  lemma NoteIsShown(i: Item, note: string)
    requires i.part == OfFact(NO_FACT.(note := note))
    ensures ItemText(i) == Strip(if note == "" then i.content else note)
  {
    var text := if note == "" then i.content else note;
    assert NonEmpty(["", "", ""]) == [] by { assert ["", "", ""][1..] == ["", ""] && ["", ""][1..] == [""] && [""][1..] == []; }
    StripNothing();
    PartOfItself(Strip(text));
  }

  lemma StripNothing()
    ensures Strip("" + "") == "" && Strip(Join([], " ")) == ""
  {
  }

  lemma PartOfItself(s: string)
    ensures Contains(s, s)
  {
  }

  ghost predicate Tight(s: string) {
    s != "" && !IsSpace(s[0]) && !IsSpace(s[|s| - 1])
  }

  lemma TightStays(s: string)
    requires Tight(s)
    ensures Strip(s) == s
  {
  }

  /** The line of a fact that has everything: what it is of, its value, and in brackets where
      it comes from and what is noted beside it. */
  lemma FactInFull(f: Fact)
    requires Tight(f.company) && f.period != "" && Tight(f.metric) && Tight(f.value) && Tight(f.unit) && Tight(f.note)
    requires f.evidenceId != "" && f.sourceTool != ""
    requires !Contains(f.company + " " + (f.period + " " + f.metric) + "=" + (f.value + f.unit), f.note)
    ensures FactLine(f) ==
            f.company + " " + (f.period + " " + f.metric) + "=" + (f.value + f.unit)
            + "（" + ("evidence_id=" + f.evidenceId + "，" + ("来源=" + f.sourceTool + "，" + f.note)) + "）"
  {
    hide Contains;
    var head, value := f.company + " " + (f.period + " " + f.metric), f.value + f.unit;
    AllThree(f.company, f.period, f.metric);
    JoinOfThree(f.company, f.period, f.metric, " ");
    TightStays(head);
    TightStays(value);
    TightStays(f.note);
    JoinOfThree("evidence_id=" + f.evidenceId, "来源=" + f.sourceTool, f.note, "，");
    hide Strip, Join, NonEmpty;
    assert ["evidence_id=" + f.evidenceId] + ["来源=" + f.sourceTool] + [f.note] ==
           ["evidence_id=" + f.evidenceId, "来源=" + f.sourceTool, f.note];
  }

  lemma AllThree(a: string, b: string, c: string)
    requires a != "" && b != "" && c != ""
    ensures NonEmpty([a, b, c]) == [a, b, c]
  {
    assert [c][1..] == [] && NonEmpty([c]) == [c];
    assert [b, c][1..] == [c] && NonEmpty([b, c]) == [b, c];
    assert [a, b, c][1..] == [b, c];
  }

  // ---------------------------------------------------------------- the cost

  ghost predicate Ideograph(c: char) {
    0x4e00 <= c as int <= 0x9fff
  }

  /** A text costs a token for each ideograph and one for every four other characters. */
  lemma {:induction false} EstimateIs(s: string, ideographs: nat)
    requires |set i | 0 <= i < |s| && Ideograph(s[i])| == ideographs
    ensures Cjk(s) == ideographs && Estimate(s) == ideographs + (|s| - ideographs) / 4
  {
    CjkCounts(s);
  }

  lemma {:induction false} CjkCounts(s: string)
    ensures Cjk(s) == |set i | 0 <= i < |s| && Ideograph(s[i])|
  {
    var all := set i | 0 <= i < |s| && Ideograph(s[i]);
    if s == "" {
      assert all == {};
    } else {
      var front, last := s[..|s| - 1], s[|s| - 1];
      assert s == front + [last];
      CjkCounts(front);
      CjkAppend(front, [last]);
      assert [last][1..] == "";
      var before := set i | 0 <= i < |front| && Ideograph(front[i]);
      assert all == before + if Ideograph(last) then {|s| - 1} else {};
    }
  }
}
