/** Leaving items out of a summary never makes its rendered text cost more tokens. */
module RenderSize {
  import opened Schema
  import opened Subsequence

  /** The CJK characters (`cjk`) or the other characters of a text. */
  function Count(s: string, cjk: bool): nat {
    CjkBound(s);
    if cjk then Cjk(s) else |s| - Cjk(s)
  }

  lemma CountAppend(s: string, t: string, cjk: bool)
    ensures Count(s + t, cjk) == Count(s, cjk) + Count(t, cjk)
  {
    CjkAppend(s, t);
  }

  lemma {:induction false} CountRStrip(s: string, cjk: bool)
    ensures Count(RStrip(s), cjk) <= Count(s, cjk)
  {
    if s != "" && IsSpace(s[|s| - 1]) {
      CountRStrip(s[..|s| - 1], cjk);
      CountAppend(s[..|s| - 1], [s[|s| - 1]], cjk);
      assert s == s[..|s| - 1] + [s[|s| - 1]];
    }
  }

  predicate Solid(s: string) {
    s != "" && !IsSpace(s[0])
  }

  predicate AllSolid(lines: seq<string>) {
    forall l | l in lines :: Solid(l)
  }

  lemma {:induction false} RStripAfter(a: string, b: string)
    requires Solid(b)
    ensures RStrip(a + b) == a + RStrip(b)
  {
    if IsSpace(b[|b| - 1]) {
      assert (a + b)[..|a + b| - 1] == a + b[..|b| - 1];
      RStripAfter(a, b[..|b| - 1]);
    }
  }

  lemma {:induction false} JoinSolid(lines: seq<string>)
    requires lines != [] && AllSolid(lines)
    ensures Solid(Join(lines, "\n")) && LStrip(Join(lines, "\n")) == Join(lines, "\n")
  {
    assert Solid(lines[0]);
  }

  /** The size of the stripped join, line by line. */
  function Weight(lines: seq<string>, cjk: bool): nat
    requires lines != []
  {
    if |lines| == 1 then Count(RStrip(lines[0]), cjk)
    else Count(lines[0], cjk) + Count("\n", cjk) + Weight(lines[1..], cjk)
  }

  lemma {:induction false} JoinWeight(lines: seq<string>, cjk: bool)
    requires lines != [] && AllSolid(lines)
    ensures Count(RStrip(Join(lines, "\n")), cjk) == Weight(lines, cjk)
  {
    if |lines| > 1 {
      var rest := Join(lines[1..], "\n");
      JoinSolid(lines[1..]);
      JoinWeight(lines[1..], cjk);
      RStripAfter(lines[0] + "\n", rest);
      assert Join(lines, "\n") == (lines[0] + "\n") + rest;
      CountAppend(lines[0] + "\n", RStrip(rest), cjk);
      CountAppend(lines[0], "\n", cjk);
    }
  }

  lemma {:induction false} SubWeight(a: seq<string>, b: seq<string>, cjk: bool)
    requires a != [] && Sub(a, b)
    ensures Weight(a, cjk) <= Weight(b, cjk)
  {
    CountRStrip(b[0], cjk);
    if a[0] == b[0] && Sub(a[1..], b[1..]) {
      if |a| > 1 { SubWeight(a[1..], b[1..], cjk); }
    } else {
      SubWeight(a, b[1..], cjk);
    }
  }

  lemma {:induction false} ItemLinesSolid(items: seq<Item>)
    ensures AllSolid(ItemLines(items))
  {
    if items != [] {
      ItemLinesSolid(items[1..]);
      assert Solid("- " + ItemText(items[0]));
    }
  }

  lemma FieldLinesSolid(f: Field, items: seq<Item>)
    ensures AllSolid(FieldLines(f, items))
  {
    ItemLinesSolid(items);
    assert Solid(Label(f) + "：");
  }

  lemma {:induction false} AllLinesSolid(s: Summary, fields: seq<Field>)
    ensures AllSolid(AllLines(s, fields))
  {
    if fields != [] {
      AllLinesSolid(s, fields[1..]);
      FieldLinesSolid(fields[0], s.Get(fields[0]));
    }
  }

  lemma {:induction false} ItemLinesSub(a: seq<Item>, b: seq<Item>)
    requires Sub(a, b)
    ensures Sub(ItemLines(a), ItemLines(b))
  {
    if a != [] {
      var shown := Live(b[0]) && ItemText(b[0]) != "";
      if a[0] == b[0] && Sub(a[1..], b[1..]) {
        ItemLinesSub(a[1..], b[1..]);
        SubRefl(if shown then ["- " + ItemText(b[0])] else []);
        SubAppend(if shown then ["- " + ItemText(b[0])] else [], if shown then ["- " + ItemText(b[0])] else [],
                  ItemLines(a[1..]), ItemLines(b[1..]));
      } else {
        ItemLinesSub(a, b[1..]);
        SubAppend([], if shown then ["- " + ItemText(b[0])] else [], ItemLines(a), ItemLines(b[1..]));
        assert [] + ItemLines(a) == ItemLines(a);
      }
    }
  }

  lemma FieldLinesSub(f: Field, a: seq<Item>, b: seq<Item>)
    requires Sub(a, b)
    ensures Sub(FieldLines(f, a), FieldLines(f, b))
  {
    ItemLinesSub(a, b);
    SubCons(Label(f) + "：", true, ItemLines(a), ItemLines(b));
  }

  lemma {:induction false} AllLinesSub(s: Summary, t: Summary, fields: seq<Field>)
    requires forall f :: Sub(s.Get(f), t.Get(f))
    ensures Sub(AllLines(s, fields), AllLines(t, fields))
  {
    if fields != [] {
      var f := fields[0];
      FieldLinesSub(f, s.Get(f), t.Get(f));
      AllLinesSub(s, t, fields[1..]);
      SubAppend(FieldLines(f, s.Get(f)), FieldLines(f, t.Get(f)),
                AllLines(s, fields[1..]), AllLines(t, fields[1..]));
    }
  }

  lemma LinesSolid(s: Summary)
    ensures AllSolid(Lines(s))
  {
    AllLinesSolid(s, FIELDS);
  }

  lemma TokensWeight(s: Summary)
    ensures Tokens(s) == Weight(Lines(s), true) + Weight(Lines(s), false) / 4
  {
    LinesSolid(s);
    JoinSolid(Lines(s));
    JoinWeight(Lines(s), true);
    JoinWeight(Lines(s), false);
  }

  /** Fewer items, and the same narrative or none, never cost more tokens. */
  lemma FewerItemsFewerTokens(s: Summary, t: Summary)
    requires forall f :: Sub(s.Get(f), t.Get(f))
    requires s.narrative == "" || s.narrative == t.narrative
    ensures Tokens(s) <= Tokens(t)
  {
    var tailS := if Strip(s.narrative) != "" then ["补充：" + Strip(s.narrative)] else [];
    var tailT := if Strip(t.narrative) != "" then ["补充：" + Strip(t.narrative)] else [];
    AllLinesSub(s, t, FIELDS);
    SubRefl(tailT);
    SubCons(HEADER, true, AllLines(s, FIELDS), AllLines(t, FIELDS));
    SubAppend([HEADER] + AllLines(s, FIELDS), [HEADER] + AllLines(t, FIELDS), tailS, tailT);
    TokensWeight(s);
    TokensWeight(t);
    SubWeight(Lines(s), Lines(t), true);
    SubWeight(Lines(s), Lines(t), false);
  }

  lemma HeaderCount(h: string)
    requires h == HEADER
    ensures Cjk(h) >= 2 && RStrip(h) == h
  {
    assert |h| == 9 && h[1] == '压' && h[2] == '缩' && h[8] == ']';
    assert h[1..][0] == '压' && h[1..][1..][0] == '缩';
    assert Cjk(h) >= Cjk(h[1..]) >= 1 + Cjk(h[1..][1..]) >= 2;
  }

  /** The header alone costs more than one token. */
  lemma TokensPositive(s: Summary)
    ensures Tokens(s) > 1
  {
    var lines := Lines(s);
    TokensWeight(s);
    HeaderCount(lines[0]);
  }

  lemma {:induction false} SolidRStrip(b: string)
    requires Solid(b)
    ensures Solid(RStrip(b))
  {
    if IsSpace(b[|b| - 1]) { SolidRStrip(b[..|b| - 1]); }
  }

  /** Every summary shows something, its header at least. */
  lemma RenderIsNotBlank(s: Summary)
    ensures !IsBlank(Render(s))
  {
    LinesSolid(s);
    JoinSolid(Lines(s));
    SolidRStrip(Join(Lines(s), "\n"));
  }
}
