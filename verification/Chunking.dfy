/** Cutting parsed documents into chunks (`retrieval/indexing/ingest_pdf.py`). */
module Chunking {
  import opened Schema

  // ------------------------------------------------------------ text windows

  function End(length: nat, maxChars: nat, start: nat): nat {
    if start + maxChars < length then start + maxChars else length
  }

  function NextStart(end: nat, overlap: nat, start: nat): nat {
    if end > start + overlap then end - overlap else start + 1
  }

  /** The starts of the windows from `start` on. */
  function Starts(length: nat, maxChars: nat, overlap: nat, start: nat): (r: seq<nat>)
    requires start < length
    ensures r != [] && r[0] == start
    decreases length - start
  {
    var end := End(length, maxChars, start);
    if end >= length then [start]
    else if NextStart(end, overlap, start) >= length then [start]
    else [start] + Starts(length, maxChars, overlap, NextStart(end, overlap, start))
  }

  function Windows(text: string, maxChars: nat, starts: seq<nat>): seq<string>
    requires forall k | 0 <= k < |starts| :: starts[k] < |text|
  {
    seq(|starts|, k requires 0 <= k < |starts| => text[starts[k]..End(|text|, maxChars, starts[k])])
  }

  lemma {:induction false} StartsBelow(length: nat, maxChars: nat, overlap: nat, start: nat)
    requires start < length
    ensures forall k | 0 <= k < |Starts(length, maxChars, overlap, start)| :: Starts(length, maxChars, overlap, start)[k] < length
    decreases length - start
  {
    var end := End(length, maxChars, start);
    if end < length && NextStart(end, overlap, start) < length {
      StartsBelow(length, maxChars, overlap, NextStart(end, overlap, start));
    }
  }

  /** The pieces from `start` on. */
  function SplitFrom(text: string, maxChars: nat, overlap: nat, start: nat): seq<string>
    decreases if start < |text| then |text| - start else 0
  {
    if start >= |text| then []
    else
      var end := End(|text|, maxChars, start);
      [text[start..end]] + if end >= |text| then [] else SplitFrom(text, maxChars, overlap, NextStart(end, overlap, start))
  }

  function LongPieces(text: string, maxChars: nat, overlap: nat): seq<string> {
    if |text| <= maxChars then [text] else SplitFrom(text, maxChars, overlap, 0)
  }

  /** `_split_long_text`. */
  method SplitLongText(text: string, maxChars: nat, overlap: nat) returns (pieces: seq<string>)
    ensures pieces == LongPieces(text, maxChars, overlap)
  {
    if |text| <= maxChars {
      return [text];
    }
    pieces := [];
    var start := 0;
    while start < |text|
      invariant pieces + SplitFrom(text, maxChars, overlap, start) == SplitFrom(text, maxChars, overlap, 0)
      decreases |text| - start
    {
      var end := End(|text|, maxChars, start);
      ghost var rest := SplitFrom(text, maxChars, overlap, start);
      assert pieces + rest == (pieces + [rest[0]]) + rest[1..];
      pieces := pieces + [text[start..end]];
      if end >= |text| {
        assert pieces + [] == pieces;
        return;
      }
      start := NextStart(end, overlap, start);
    }
    assert pieces + [] == pieces;
  }

  /** The pieces are the windows at the starts. */
  lemma {:induction false} PiecesAreWindows(text: string, maxChars: nat, overlap: nat, start: nat)
    requires start < |text|
    ensures forall k | 0 <= k < |Starts(|text|, maxChars, overlap, start)| :: Starts(|text|, maxChars, overlap, start)[k] < |text|
    ensures SplitFrom(text, maxChars, overlap, start) == Windows(text, maxChars, Starts(|text|, maxChars, overlap, start))
    decreases |text| - start
  {
    StartsBelow(|text|, maxChars, overlap, start);
    var end := End(|text|, maxChars, start);
    if end < |text| && NextStart(end, overlap, start) < |text| {
      PiecesAreWindows(text, maxChars, overlap, NextStart(end, overlap, start));
    }
  }

  /** The last window ends with the text. */
  lemma {:induction false} LastWindowEnds(length: nat, maxChars: nat, overlap: nat, start: nat)
    requires start < length && maxChars > 0
    ensures var s := Starts(length, maxChars, overlap, start); End(length, maxChars, s[|s| - 1]) == length
    decreases length - start
  {
    var end := End(length, maxChars, start);
    if end < length { LastWindowEnds(length, maxChars, overlap, NextStart(end, overlap, start)); }
  }

  /** Windows move forward without a gap, and overlap by exactly what is asked when that is
      less than a window. */
  lemma {:induction false} WindowsFollow(length: nat, maxChars: nat, overlap: nat, start: nat, k: nat)
    requires start < length && maxChars > 0 && k + 1 < |Starts(length, maxChars, overlap, start)|
    ensures var s := Starts(length, maxChars, overlap, start);
      && s[k] < s[k + 1] <= End(length, maxChars, s[k]) == s[k] + maxChars
      && (overlap < maxChars ==> s[k + 1] == End(length, maxChars, s[k]) - overlap)
    decreases length - start
  {
    var end := End(length, maxChars, start);
    var next := NextStart(end, overlap, start);
    var rest := Starts(length, maxChars, overlap, next);
    assert Starts(length, maxChars, overlap, start) == [start] + rest;
    if k > 0 { WindowsFollow(length, maxChars, overlap, next, k - 1); }
  }

  /** The first piece and of each later piece what it adds. */
  function Rebuilt(pieces: seq<string>, overlap: nat): string {
    if pieces == [] then ""
    else if |pieces| == 1 then pieces[0]
    else Rebuilt(pieces[..|pieces| - 1], overlap)
         + if overlap <= |pieces[|pieces| - 1]| then pieces[|pieces| - 1][overlap..] else ""
  }

  lemma {:induction false} RebuiltFrom(text: string, maxChars: nat, overlap: nat, starts: seq<nat>, n: nat)
    requires overlap < maxChars < |text| && starts == Starts(|text|, maxChars, overlap, 0) && 0 < n <= |starts|
    requires forall k | 0 <= k < |starts| :: starts[k] < |text|
    ensures Rebuilt(Windows(text, maxChars, starts)[..n], overlap) == text[..End(|text|, maxChars, starts[n - 1])]
  {
    hide Starts;
    var all := Windows(text, maxChars, starts);
    if n == 1 {
      assert all[..1] == [all[0]];
    } else {
      RebuiltFrom(text, maxChars, overlap, starts, n - 1);
      WindowsFollow(|text|, maxChars, overlap, 0, n - 2);
      assert all[..n][..n - 1] == all[..n - 1];
      var before, end := End(|text|, maxChars, starts[n - 2]), End(|text|, maxChars, starts[n - 1]);
      assert starts[n - 2 + 1] == before - overlap;
      assert all[n - 1] == text[starts[n - 1]..end] && all[n - 1][overlap..] == text[before..end];
    }
  }

  /** Nothing is lost: with an overlap smaller than a window the pieces give back the text,
      and none is longer than a window. */
  lemma SplitLosesNothing(text: string, maxChars: nat, overlap: nat)
    requires overlap < maxChars < |text|
    ensures Rebuilt(SplitFrom(text, maxChars, overlap, 0), overlap) == text
    ensures forall p | p in SplitFrom(text, maxChars, overlap, 0) :: |p| <= maxChars
  {
    var starts := Starts(|text|, maxChars, overlap, 0);
    PiecesAreWindows(text, maxChars, overlap, 0);
    RebuiltFrom(text, maxChars, overlap, starts, |starts|);
    LastWindowEnds(|text|, maxChars, overlap, 0);
    var all := Windows(text, maxChars, starts);
    assert all[..|starts|] == all && text[..|text|] == text;
  }

  // ----------------------------------------------------------- chunk numbers

  class ChunkRecord {
    const text: string
    var index: nat

    constructor (text: string, index: nat)
      ensures this.text == text && this.index == index
    {
      this.text, this.index := text, index;
    }
  }

  function Chunks(parts: seq<seq<ChunkRecord>>): seq<ChunkRecord> {
    if parts == [] then [] else Chunks(parts[..|parts| - 1]) + parts[|parts| - 1]
  }

  /** The renumbering in `process_job`: over all parts the chunks count from 0. */
  method Renumber(parts: seq<seq<ChunkRecord>>) returns (all: seq<ChunkRecord>)
    requires forall i, j | 0 <= i < j < |Chunks(parts)| :: Chunks(parts)[i] != Chunks(parts)[j]
    modifies set c | c in Chunks(parts)
    ensures all == Chunks(parts)
    ensures forall k | 0 <= k < |all| :: all[k].index == k
  {
    all := [];
    for n := 0 to |parts|
      invariant all == Chunks(parts[..n]) && all <= Chunks(parts)
      invariant forall k | 0 <= k < |all| :: all[k].index == k
    {
      assert parts[..n + 1][..n] == parts[..n];
      ChunksPrefix(parts, n + 1);
      var offset := |all|;
      ghost var upTo := all + parts[n];
      for i := 0 to |parts[n]|
        invariant all == upTo[..offset] && upTo <= Chunks(parts)
        invariant forall k | 0 <= k < offset + i :: upTo[k].index == k
      {
        assert parts[n][i] == upTo[offset + i] == Chunks(parts)[offset + i];
        parts[n][i].index := offset + i;
      }
      all := all + parts[n];
    }
    assert parts[..|parts|] == parts;
  }

  lemma {:induction false} ChunksPrefix(parts: seq<seq<ChunkRecord>>, n: nat)
    requires n <= |parts|
    ensures Chunks(parts[..n]) <= Chunks(parts)
    decreases |parts|
  {
    if n == |parts| {
      assert parts[..n] == parts;
    } else {
      ChunksPrefix(parts[..|parts| - 1], n);
      assert parts[..|parts| - 1][..n] == parts[..n];
    }
  }
}
