/** The two scanners that find tables and fenced code before chunking, and how their spans tile a text. */
module Spans {
  import opened Results
  import opened Text
  import opened Lines
  import opened Blocks
  import opened Sectioner

  /** Lines `start` up to but not including `end`. */
  datatype Span = Span(start: nat, end: nat)

  // ----- Recognising tables -----

  /** `_markdown_cells`: one pipe is dropped at each end, and the cells are stripped. */
  function Cells(line: string): (cells: seq<string>)
    ensures cells != []
  {
    var s := Strip(line);
    var t := if s != "" && s[0] == '|' then s[1..] else s;
    SplitPipes(false, if t != "" && t[|t| - 1] == '|' then t[..|t| - 1] else t)
  }

  predicate HasPipe(line: string) {
    exists i :: 0 <= i < |line| && line[i] == '|'
  }

  predicate IsRow(line: string) {
    var cells := Cells(line);
    HasPipe(line) && |cells| >= 2 && exists i :: 0 <= i < |cells| && Strip(cells[i]) != ""
  }

  predicate IsSeparator(line: string) {
    var cells := Cells(line);
    |cells| >= 2 && forall i :: 0 <= i < |cells| ==> SeparatorCell(cells[i])
  }

  // ----- Fenced code -----

  /** Whether a line closes a fence opened with `mark`: its character, at least as long, whatever follows. */
  predicate Closes(mark: FenceMark, line: string) {
    FenceOf(line).Some? && FenceOf(line).value.character == mark.character && FenceOf(line).value.length >= mark.length
  }

  /** The line after the one that closes the fence, or the end of the text. */
  function CodeEnd(lines: seq<string>, mark: FenceMark, at: nat): (end: nat)
    requires at <= |lines|
    ensures at <= end <= |lines|
    decreases |lines| - at
  {
    if at == |lines| then at
    else if Closes(mark, lines[at]) then at + 1
    else CodeEnd(lines, mark, at + 1)
  }

  function CodeSpansFrom(lines: seq<string>, index: nat): seq<Span>
    requires index <= |lines|
    decreases |lines| - index
  {
    if index == |lines| then []
    else if FenceOf(lines[index]).None? then CodeSpansFrom(lines, index + 1)
    else
      var end := CodeEnd(lines, FenceOf(lines[index]).value, index + 1);
      [Span(index, end)] + CodeSpansFrom(lines, end)
  }

  /** `_markdown_code_spans`, without the language names. */
  method MarkdownCodeSpans(text: string) returns (spans: seq<Span>)
    ensures spans == CodeSpansFrom(SplitKeep(text), 0)
  {
    hide FenceOf, Closes, SplitKeep;
    var lines := SplitKeep(text);
    spans := [];
    assert [] + CodeSpansFrom(lines, 0) == CodeSpansFrom(lines, 0);
    var index := 0;
    while index < |lines|
      invariant 0 <= index <= |lines|
      invariant CodeSpansFrom(lines, 0) == spans + CodeSpansFrom(lines, index)
    {
      var opening := FenceOf(lines[index]);
      if opening.None? {
        index := index + 1;
        continue;
      }
      var end := index + 1;
      while end < |lines|
        invariant index < end <= |lines|
        invariant CodeEnd(lines, opening.value, index + 1) == CodeEnd(lines, opening.value, end)
      {
        if Closes(opening.value, lines[end]) {
          end := end + 1;
          break;
        }
        end := end + 1;
      }
      assert end == CodeEnd(lines, opening.value, index + 1);
      assert spans + ([Span(index, end)] + CodeSpansFrom(lines, end))
             == (spans + [Span(index, end)]) + CodeSpansFrom(lines, end);
      spans := spans + [Span(index, end)];
      index := end;
    }
  }

  // ----- Tables outside fences -----

  function RowsEnd(lines: seq<string>, at: nat): (end: nat)
    requires at <= |lines|
    ensures at <= end <= |lines| && forall i :: at <= i < end ==> IsRow(lines[i])
    decreases |lines| - at
  {
    if at < |lines| && IsRow(lines[at]) then RowsEnd(lines, at + 1) else at
  }

  predicate TableStarts(lines: seq<string>, index: nat) {
    index + 1 < |lines| && IsRow(lines[index]) && IsSeparator(lines[index + 1])
  }

  /** The fence character after a fence line, which this scanner opens and closes whatever its length. */
  function Toggle(fence: Option<char>, mark: FenceMark): Option<char> {
    if fence.None? then Some(mark.character)
    else if fence.value == mark.character then None
    else fence
  }

  function TableSpansFrom(lines: seq<string>, index: nat, fence: Option<char>): seq<Span>
    requires index <= |lines|
    decreases |lines| - index
  {
    if index == |lines| then []
    else if FenceOf(lines[index]).Some? then
      TableSpansFrom(lines, index + 1, Toggle(fence, FenceOf(lines[index]).value))
    else if fence.None? && TableStarts(lines, index) then
      var end := RowsEnd(lines, index + 2);
      [Span(index, end)] + TableSpansFrom(lines, end, fence)
    else TableSpansFrom(lines, index + 1, fence)
  }

  /** `_markdown_table_spans`. */
  method MarkdownTableSpans(text: string) returns (spans: seq<Span>)
    ensures spans == TableSpansFrom(SplitKeep(text), 0, None)
  {
    hide FenceOf, IsRow, IsSeparator, SplitKeep;
    var lines := SplitKeep(text);
    spans := [];
    assert [] + TableSpansFrom(lines, 0, None) == TableSpansFrom(lines, 0, None);
    var fence: Option<char> := None;
    var index := 0;
    while index < |lines|
      invariant 0 <= index <= |lines|
      invariant TableSpansFrom(lines, 0, None) == spans + TableSpansFrom(lines, index, fence)
    {
      var mark := FenceOf(lines[index]);
      if mark.Some? {
        fence := Toggle(fence, mark.value);
        index := index + 1;
        continue;
      }
      if fence.None? && TableStarts(lines, index) {
        var end := index + 2;
        while end < |lines| && IsRow(lines[end])
          invariant index + 2 <= end <= |lines|
          invariant RowsEnd(lines, index + 2) == RowsEnd(lines, end)
        {
          end := end + 1;
        }
        assert spans + ([Span(index, end)] + TableSpansFrom(lines, end, fence))
            == (spans + [Span(index, end)]) + TableSpansFrom(lines, end, fence);
        spans := spans + [Span(index, end)];
        index := end;
        continue;
      }
      index := index + 1;
    }
  }

  // ----- When the scanners agree -----

  /** Fence runs of one character have one length, and no fence line holds a pipe. */
  predicate EvenFences(lines: seq<string>) {
    && (forall i, j :: 0 <= i < |lines| && 0 <= j < |lines| && FenceOf(lines[i]).Some? && FenceOf(lines[j]).Some?
                       && FenceOf(lines[i]).value.character == FenceOf(lines[j]).value.character
                       ==> FenceOf(lines[i]).value.length == FenceOf(lines[j]).value.length)
    && (forall i :: 0 <= i < |lines| && FenceOf(lines[i]).Some? ==> !HasPipe(lines[i]))
  }

  /** The spans are nonempty, in order, without overlap, from `low` up to `high`. */
  predicate Ordered(spans: seq<Span>, low: nat, high: nat) {
    if spans == [] then low <= high
    else low <= spans[0].start < spans[0].end <= high && Ordered(spans[1..], spans[0].end, high)
  }

  predicate Apart(a: Span, b: Span) {
    a.end <= b.start || b.end <= a.start
  }

  predicate AllApart(xs: seq<Span>, ys: seq<Span>) {
    forall i, j :: 0 <= i < |xs| && 0 <= j < |ys| ==> Apart(xs[i], ys[j])
  }

  predicate AllFrom(spans: seq<Span>, low: nat) {
    forall i :: 0 <= i < |spans| ==> low <= spans[i].start < spans[i].end
  }

  lemma {:induction false} OrderedFrom(spans: seq<Span>, low: nat, high: nat)
    requires Ordered(spans, low, high)
    ensures AllFrom(spans, low)
  {
    if spans != [] {
      OrderedFrom(spans[1..], spans[0].end, high);
      assert forall i :: 1 <= i < |spans| ==> spans[i] == spans[1..][i - 1];
    }
  }

  lemma {:induction false} CodeSpansOrdered(lines: seq<string>, index: nat)
    requires index <= |lines|
    ensures Ordered(CodeSpansFrom(lines, index), index, |lines|)
    decreases |lines| - index
  {
    hide FenceOf, Closes;
    if index < |lines| {
      if FenceOf(lines[index]).None? {
        CodeSpansOrdered(lines, index + 1);
        OrderedLower(CodeSpansFrom(lines, index + 1), index, index + 1, |lines|);
      } else {
        CodeSpansOrdered(lines, CodeEnd(lines, FenceOf(lines[index]).value, index + 1));
      }
    }
  }

  lemma OrderedLower(spans: seq<Span>, lower: nat, low: nat, high: nat)
    requires lower <= low && Ordered(spans, low, high)
    ensures Ordered(spans, lower, high)
  {
  }

  lemma {:induction false} TableSpansOrdered(lines: seq<string>, index: nat, fence: Option<char>)
    requires index <= |lines|
    ensures Ordered(TableSpansFrom(lines, index, fence), index, |lines|)
    decreases |lines| - index
  {
    hide FenceOf, IsRow, IsSeparator;
    if index < |lines| {
      if FenceOf(lines[index]).Some? {
        var after := Toggle(fence, FenceOf(lines[index]).value);
        TableSpansOrdered(lines, index + 1, after);
        OrderedLower(TableSpansFrom(lines, index + 1, after), index, index + 1, |lines|);
      } else if fence.None? && TableStarts(lines, index) {
        TableSpansOrdered(lines, RowsEnd(lines, index + 2), fence);
      } else {
        TableSpansOrdered(lines, index + 1, fence);
        OrderedLower(TableSpansFrom(lines, index + 1, fence), index, index + 1, |lines|);
      }
    }
  }

  lemma {:induction false} PipeSplits(escaped: bool, s: string)
    requires |SplitPipes(escaped, s)| >= 2
    ensures HasPipe(s)
    decreases s
  {
    if s[0] == '|' {
      assert HasPipe(s);
    } else {
      PipeSplits(s[0] == '\\', s[1..]);
      var i :| 0 <= i < |s[1..]| && s[1..][i] == '|';
      assert s[i + 1] == '|';
    }
  }

  lemma PipeWithin(a: string, b: string, c: string)
    requires HasPipe(b)
    ensures HasPipe(a + b + c)
  {
    var i :| 0 <= i < |b| && b[i] == '|';
    assert (a + b + c)[|a| + i] == '|';
  }

  lemma SeparatorHasPipe(line: string)
    requires IsSeparator(line)
    ensures HasPipe(line)
  {
    hide StripLeft, StripRight, Strip;
    var lead, trail := StripParts(line);
    var s := Strip(line);
    var t := if s != "" && s[0] == '|' then s[1..] else s;
    var inner := if t != "" && t[|t| - 1] == '|' then t[..|t| - 1] else t;
    PipeSplits(false, inner);
    PipeWithin("", inner, t[|inner|..]);
    assert t == "" + inner + t[|inner|..];
    PipeWithin(s[..|s| - |t|], t, "");
    assert s == s[..|s| - |t|] + t + "";
    PipeWithin(lead, s, trail);
  }

  /** No line of a table is a fence, when fence lines hold no pipe. */
  lemma TableLinesAreNoFences(lines: seq<string>, index: nat)
    requires EvenFences(lines) && TableStarts(lines, index)
    ensures forall i :: index <= i < RowsEnd(lines, index + 2) ==> FenceOf(lines[i]).None?
  {
    hide FenceOf, IsSeparator, Cells;
    SeparatorHasPipe(lines[index + 1]);
    forall i | index <= i < RowsEnd(lines, index + 2) ensures HasPipe(lines[i]) {
    }
  }

  lemma {:induction false} CodeSkips(lines: seq<string>, index: nat, end: nat)
    requires index <= end <= |lines| && forall i :: index <= i < end ==> FenceOf(lines[i]).None?
    ensures CodeSpansFrom(lines, index) == CodeSpansFrom(lines, end)
    decreases end - index
  {
    hide FenceOf;
    if index < end {
      CodeSkips(lines, index + 1, end);
    }
  }

  /** Inside a fence both scanners wait for the same closing line, and the table scanner finds nothing. */
  lemma {:induction false} TablesSkipCode(lines: seq<string>, open: nat, at: nat)
    requires EvenFences(lines) && open < at <= |lines| && FenceOf(lines[open]).Some?
    ensures var mark := FenceOf(lines[open]).value;
            TableSpansFrom(lines, at, Some(mark.character))
            == TableSpansFrom(lines, CodeEnd(lines, mark, at),
                              if ClosedFrom(lines, mark, at) then None else Some(mark.character))
    ensures !ClosedFrom(lines, FenceOf(lines[open]).value, at)
            ==> CodeEnd(lines, FenceOf(lines[open]).value, at) == |lines|
    decreases |lines| - at
  {
    hide FenceOf, IsRow, IsSeparator;
    if at < |lines| {
      if !Closes(FenceOf(lines[open]).value, lines[at]) {
        TablesSkipCode(lines, open, at + 1);
      }
    }
  }

  predicate ClosedFrom(lines: seq<string>, mark: FenceMark, at: nat)
    requires at <= |lines|
    decreases |lines| - at
  {
    at < |lines| && (Closes(mark, lines[at]) || ClosedFrom(lines, mark, at + 1))
  }

  lemma ApartCons(first: Span, xs: seq<Span>, ys: seq<Span>)
    requires AllApart(xs, ys) && AllFrom(ys, first.end)
    ensures AllApart([first] + xs, ys) && AllApart(ys, [first] + xs)
  {
  }

  lemma ApartSwap(xs: seq<Span>, ys: seq<Span>)
    requires AllApart(xs, ys)
    ensures AllApart(ys, xs)
  {
  }

  lemma {:induction false} ScannersAgree(lines: seq<string>, index: nat)
    requires EvenFences(lines) && index <= |lines|
    ensures AllApart(TableSpansFrom(lines, index, None), CodeSpansFrom(lines, index))
    decreases |lines| - index
  {
    hide FenceOf, IsRow, IsSeparator, EvenFences, AllApart;
    if index == |lines| {
      assert AllApart([], []) by { NothingMeets(); }
    } else if FenceOf(lines[index]).Some? {
      var mark := FenceOf(lines[index]).value;
      var end := CodeEnd(lines, mark, index + 1);
      TablesSkipCode(lines, index, index + 1);
      var tables, codes := TableSpansFrom(lines, index, None), CodeSpansFrom(lines, end);
      if ClosedFrom(lines, mark, index + 1) {
        ScannersAgree(lines, end);
        assert tables == TableSpansFrom(lines, end, None);
      } else {
        assert tables == [] && codes == [];
        assert AllApart(tables, codes) by { NothingMeets(); }
      }
      TableSpansOrdered(lines, end, if ClosedFrom(lines, mark, index + 1) then None else Some(mark.character));
      OrderedFrom(tables, end, |lines|);
      ApartSwap(tables, codes);
      ApartCons(Span(index, end), codes, tables);
    } else if TableStarts(lines, index) {
      var end := RowsEnd(lines, index + 2);
      TableLinesAreNoFences(lines, index);
      CodeSkips(lines, index, end);
      ScannersAgree(lines, end);
      CodeSpansOrdered(lines, end);
      OrderedFrom(CodeSpansFrom(lines, end), end, |lines|);
      ApartCons(Span(index, end), TableSpansFrom(lines, end, None), CodeSpansFrom(lines, end));
    } else {
      ScannersAgree(lines, index + 1);
    }
  }

  lemma NothingMeets()
    ensures AllApart([], [])
  {
  }

  // ----- Tiling -----

  function Interval(low: nat, high: nat): seq<nat>
    decreases high - low
  {
    if low >= high then [] else [low] + Interval(low + 1, high)
  }

  /**
   The line numbers that `_chunk_structured_blocks` takes, in order: what lies before each block, the
   block, and what is left after the last.
   */
  function Taken(blocks: seq<Span>, cursor: nat, count: nat): seq<nat> {
    if blocks == [] then Interval(cursor, count)
    else Interval(cursor, blocks[0].start) + Interval(blocks[0].start, blocks[0].end)
         + Taken(blocks[1..], blocks[0].end, count)
  }

  lemma {:induction false} IntervalSplit(low: nat, mid: nat, high: nat)
    requires low <= mid <= high
    ensures Interval(low, high) == Interval(low, mid) + Interval(mid, high)
    decreases mid - low
  {
    if low < mid {
      IntervalSplit(low + 1, mid, high);
    } else {
      assert [] + Interval(mid, high) == Interval(mid, high);
    }
  }

  lemma IntervalPrefix(low: nat, mid: nat, high: nat, rest: seq<nat>)
    requires low <= mid <= high
    ensures Interval(low, mid) + rest == Interval(low, high) <==> rest == Interval(mid, high)
  {
    hide Interval;
    IntervalSplit(low, mid, high);
    if Interval(low, mid) + rest == Interval(low, mid) + Interval(mid, high) {
      assert (Interval(low, mid) + rest)[|Interval(low, mid)|..] == rest;
      assert (Interval(low, mid) + Interval(mid, high))[|Interval(low, mid)|..] == Interval(mid, high);
    }
  }

  predicate Within(blocks: seq<Span>, count: nat) {
    forall i :: 0 <= i < |blocks| ==> blocks[i].start < blocks[i].end <= count
  }

  /** Every line is taken exactly once and in order if and only if no block begins before the last one ended. */
  lemma {:induction false} TilesIff(blocks: seq<Span>, cursor: nat, count: nat)
    requires cursor <= count && Within(blocks, count)
    ensures Taken(blocks, cursor, count) == Interval(cursor, count) <==> Ordered(blocks, cursor, count)
    decreases blocks
  {
    if blocks != [] {
      var block, rest := blocks[0], blocks[1..];
      assert forall i :: 0 <= i < |rest| ==> rest[i] == blocks[i + 1];
      TilesIff(rest, block.end, count);
      var later := Taken(rest, block.end, count);
      if cursor <= block.start {
        IntervalSplit(cursor, block.start, block.end);
        IntervalPrefix(cursor, block.end, count, later);
      } else {
        // The block starts over a line already taken, and its first line comes out again.
        assert Interval(cursor, block.start) == [];
        assert Taken(blocks, cursor, count)[0] == block.start;
        assert cursor < count ==> Interval(cursor, count)[0] == cursor;
      }
    }
  }

  /** Whether `a` sorts before `b`. */
  predicate Precedes(a: Span, b: Span) {
    a.start < b.start || (a.start == b.start && a.end <= b.end)
  }

  /** The blocks of both kinds, sorted; each list is sorted already. */
  function Merged(xs: seq<Span>, ys: seq<Span>): seq<Span>
    decreases |xs| + |ys|
  {
    if xs == [] then ys
    else if ys == [] then xs
    else if Precedes(xs[0], ys[0]) then [xs[0]] + Merged(xs[1..], ys)
    else [ys[0]] + Merged(xs, ys[1..])
  }

  lemma {:induction false} MergedOrdered(xs: seq<Span>, ys: seq<Span>, low: nat, high: nat)
    requires Ordered(xs, low, high) && Ordered(ys, low, high) && AllApart(xs, ys)
    ensures Ordered(Merged(xs, ys), low, high)
    decreases |xs| + |ys|
  {
    if xs != [] && ys != [] {
      assert Apart(xs[0], ys[0]);
      if Precedes(xs[0], ys[0]) {
        assert AllApart(xs[1..], ys) by { assert forall i :: 0 <= i < |xs[1..]| ==> xs[1..][i] == xs[i + 1]; }
        MergedOrdered(xs[1..], ys, xs[0].end, high);
      } else {
        assert AllApart(xs, ys[1..]) by { assert forall i :: 0 <= i < |ys[1..]| ==> ys[1..][i] == ys[i + 1]; }
        MergedOrdered(xs, ys[1..], ys[0].end, high);
      }
    }
  }

  /** Spans that follow one another after sorting did not overlap before. */
  lemma {:induction false} MergedApart(xs: seq<Span>, ys: seq<Span>, low: nat, high: nat)
    requires Ordered(Merged(xs, ys), low, high)
    ensures AllApart(xs, ys)
    decreases |xs| + |ys|
  {
    if xs != [] && ys != [] {
      MergedFrom(xs, ys, low, high);
      if Precedes(xs[0], ys[0]) {
        MergedApart(xs[1..], ys, xs[0].end, high);
        MergedFrom(xs[1..], ys, xs[0].end, high);
        assert xs == [xs[0]] + xs[1..];
        ApartCons(xs[0], xs[1..], ys);
      } else {
        MergedApart(xs, ys[1..], ys[0].end, high);
        MergedFrom(xs, ys[1..], ys[0].end, high);
        assert ys == [ys[0]] + ys[1..];
        ApartSwap(xs, ys[1..]);
        ApartCons(ys[0], ys[1..], xs);
      }
    }
  }

  lemma {:induction false} MergedFrom(xs: seq<Span>, ys: seq<Span>, low: nat, high: nat)
    requires Ordered(Merged(xs, ys), low, high)
    ensures AllFrom(xs, low) && AllFrom(ys, low)
    decreases |xs| + |ys|
  {
    if xs == [] || ys == [] {
      OrderedFrom(Merged(xs, ys), low, high);
    } else if Precedes(xs[0], ys[0]) {
      MergedFrom(xs[1..], ys, xs[0].end, high);
      assert xs == [xs[0]] + xs[1..];
    } else {
      MergedFrom(xs, ys[1..], ys[0].end, high);
      assert ys == [ys[0]] + ys[1..];
    }
  }

  lemma {:induction false} OrderedWithin(spans: seq<Span>, low: nat, high: nat)
    requires Ordered(spans, low, high)
    ensures Within(spans, high)
  {
    if spans != [] {
      OrderedWithin(spans[1..], spans[0].end, high);
      assert forall i :: 1 <= i < |spans| ==> spans[i] == spans[1..][i - 1];
    }
  }

  lemma {:induction false} MergedWithin(xs: seq<Span>, ys: seq<Span>, high: nat)
    requires Within(xs, high) && Within(ys, high)
    ensures Within(Merged(xs, ys), high)
    decreases |xs| + |ys|
  {
    if xs != [] && ys != [] {
      assert xs == [xs[0]] + xs[1..] && ys == [ys[0]] + ys[1..];
      if Precedes(xs[0], ys[0]) {
        MergedWithin(xs[1..], ys, high);
      } else {
        MergedWithin(xs, ys[1..], high);
      }
    }
  }

  predicate EveryLineOnce(lines: seq<string>) {
    Taken(Merged(TableSpansFrom(lines, 0, None), CodeSpansFrom(lines, 0)), 0, |lines|) == Interval(0, |lines|)
  }

  /** Sorted together, the spans follow one another exactly when no table meets a code block. */
  lemma OrderedIffApart(lines: seq<string>)
    ensures Ordered(Merged(TableSpansFrom(lines, 0, None), CodeSpansFrom(lines, 0)), 0, |lines|)
            <==> AllApart(TableSpansFrom(lines, 0, None), CodeSpansFrom(lines, 0))
  {
    hide FenceOf, AllApart;
    TableSpansOrdered(lines, 0, None);
    CodeSpansOrdered(lines, 0);
    var tables, codes := TableSpansFrom(lines, 0, None), CodeSpansFrom(lines, 0);
    if AllApart(tables, codes) {
      MergedOrdered(tables, codes, 0, |lines|);
    }
    if Ordered(Merged(tables, codes), 0, |lines|) {
      MergedApart(tables, codes, 0, |lines|);
    }
  }

  /** Prefixes, blocks and suffix take every line once, in order, exactly when no table meets a code block. */
  lemma TilesIffApart(lines: seq<string>)
    ensures EveryLineOnce(lines) <==> AllApart(TableSpansFrom(lines, 0, None), CodeSpansFrom(lines, 0))
  {
    hide FenceOf, AllApart, Ordered, Taken, Interval, Within;
    TableSpansOrdered(lines, 0, None);
    CodeSpansOrdered(lines, 0);
    var tables, codes := TableSpansFrom(lines, 0, None), CodeSpansFrom(lines, 0);
    OrderedWithin(tables, 0, |lines|);
    OrderedWithin(codes, 0, |lines|);
    MergedWithin(tables, codes, |lines|);
    TilesIff(Merged(tables, codes), 0, |lines|);
    OrderedIffApart(lines);
  }

  lemma EvenFencesTile(lines: seq<string>)
    requires EvenFences(lines)
    ensures EveryLineOnce(lines)
  {
    hide EvenFences, AllApart, EveryLineOnce;
    ScannersAgree(lines, 0);
    TilesIffApart(lines);
  }

  // ----- Without even fences -----

  const UNEVEN_TEXT := "````\n```\na|b\n---|---\n````"

  const UNEVEN := ["````\n", "```\n", "a|b\n", "---|---\n", "````"]

  lemma UnevenIsText()
    ensures SplitKeep(UNEVEN_TEXT) == UNEVEN
  {
    hide KeptLine, Ended, SplitKeep;
    FeedIsKept("````");
    FeedIsKept("```");
    FeedIsKept("a|b");
    FeedIsKept("---|---");
    assert "````" + "\n" == "````\n" && "```" + "\n" == "```\n";
    assert "a|b" + "\n" == "a|b\n" && "---|---" + "\n" == "---|---\n";
    assert KeptLines(UNEVEN);
    UnevenConcat();
    SplitKeepConcat(UNEVEN);
  }

  lemma UnevenConcat()
    ensures Concat(UNEVEN) == UNEVEN_TEXT
  {
    hide Concat;
    var last := ["````"];
    assert ["````"] + [] == last;
    ConcatCons("````", []);
    assert Concat([]) == "" by { NothingConcat(); }
    ConcatCons("---|---\n", last);
    ConcatCons("a|b\n", ["---|---\n"] + last);
    ConcatCons("```\n", ["a|b\n"] + (["---|---\n"] + last));
    ConcatCons("````\n", ["```\n"] + (["a|b\n"] + (["---|---\n"] + last)));
    assert UNEVEN == ["````\n"] + (["```\n"] + (["a|b\n"] + (["---|---\n"] + last)));
  }

  /** A line break at its end changes nothing about how the scanners read a line. */
  lemma ReadsTrailing(line: string)
    ensures Cells(line + "\n") == Cells(line) && (HasPipe(line) ==> HasPipe(line + "\n"))
    ensures FenceOf(line + "\n").Some? <==> FenceOf(line).Some?
    ensures FenceOf(line).Some? ==> FenceOf(line + "\n").value.character == FenceOf(line).value.character
                                    && FenceOf(line + "\n").value.length == FenceOf(line).value.length
  {
    hide Strip, FenceOf;
    var lead, trail := StripParts(line);
    assert line + "\n" == lead + Strip(line) + (trail + "\n");
    StripOf(lead, Strip(line), trail + "\n");
    FenceOfTrailing(line, "\n");
    if HasPipe(line) {
      var i :| 0 <= i < |line| && line[i] == '|';
      assert (line + "\n")[i] == '|';
    }
  }

  lemma UnevenFences()
    ensures FenceOf("````") == Some(FenceMark('`', 4, "")) && FenceOf("```") == Some(FenceMark('`', 3, ""))
    ensures FenceOf("a|b").None? && FenceOf("---|---").None?
  {
    assert "````"[1..] == "```" && "```"[1..] == "``" && "``"[1..] == "`" && "`"[1..] == "";
    assert RunLength("", '`') == 0;
    assert RunLength("`", '`') == 1;
    assert RunLength("``", '`') == 2;
    assert RunLength("```", '`') == 3;
    assert RunLength("````", '`') == 4;
    assert "````"[4..] == "" && "```"[3..] == "";
  }

  predicate Plain(s: string) {
    forall i :: 0 <= i < |s| ==> s[i] != '|' && s[i] != '\\'
  }

  lemma {:induction false} PlainCell(s: string)
    requires Plain(s)
    ensures SplitPipes(false, s) == [s]
    decreases s
  {
    if s != "" {
      PlainCell(s[1..]);
      assert [s[0]] + s[1..] == s;
    }
  }

  lemma {:induction false} PlainBeforePipe(s: string, rest: string)
    requires Plain(s) && Plain(rest)
    ensures SplitPipes(false, s + "|" + rest) == [s, rest]
    decreases s
  {
    var line := s + "|" + rest;
    if s == "" {
      assert line[1..] == rest;
      PlainCell(rest);
    } else {
      assert line[1..] == s[1..] + "|" + rest;
      PlainBeforePipe(s[1..], rest);
      assert [s[0]] + s[1..] == s;
    }
  }

  lemma PlainStrip(s: string)
    requires s != "" && !IsSpace(s[0]) && !IsSpace(s[|s| - 1])
    ensures Strip(s) == s
  {
    StripTrimmed(s);
  }

  lemma RowAB()
    ensures IsRow("a|b")
  {
    hide Strip;
    PlainStrip("a|b");
    PlainStrip("a");
    PlainBeforePipe("a", "b");
    assert "a|b" == "a" + "|" + "b";
    assert Cells("a|b") == ["a", "b"];
    assert "a|b"[1] == '|';
    assert Strip(Cells("a|b")[0]) != "";
  }

  lemma SeparatorDashes()
    ensures IsSeparator("---|---")
  {
    hide Strip;
    PlainStrip("---|---");
    PlainStrip("---");
    PlainBeforePipe("---", "---");
    assert "---|---" == "---" + "|" + "---";
    assert Cells("---|---") == ["---", "---"];
    assert "---"[1..] == "--" && "--"[1..] == "-" && "-"[1..] == "";
    assert RemoveSpaces("-") == "-";
    assert RemoveSpaces("--") == "--";
    assert RemoveSpaces("---") == "---";
    assert SeparatorCell("---");
  }

  lemma FenceIsNoRow()
    ensures !IsRow("````")
  {
    hide Cells;
    assert !HasPipe("````");
  }

  /** How the scanners read the lines of the text below. */
  lemma UnevenLines()
    ensures FenceOf(UNEVEN[0]).Some?
    ensures FenceOf(UNEVEN[0]).value.character == '`' && FenceOf(UNEVEN[0]).value.length == 4
    ensures FenceOf(UNEVEN[1]).Some?
    ensures FenceOf(UNEVEN[1]).value.character == '`' && FenceOf(UNEVEN[1]).value.length == 3
    ensures FenceOf(UNEVEN[2]).None? && FenceOf(UNEVEN[3]).None?
    ensures FenceOf(UNEVEN[4]) == Some(FenceMark('`', 4, ""))
    ensures IsRow(UNEVEN[2]) && IsSeparator(UNEVEN[3]) && !IsRow(UNEVEN[4])
  {
    hide FenceOf, Cells, HasPipe, SeparatorCell;
    UnevenFences();
    RowAB();
    SeparatorDashes();
    FenceIsNoRow();
    ReadsTrailing("````");
    ReadsTrailing("```");
    ReadsTrailing("a|b");
    ReadsTrailing("---|---");
    assert "````" + "\n" == UNEVEN[0] && "```" + "\n" == UNEVEN[1];
    assert "a|b" + "\n" == UNEVEN[2] && "---|---" + "\n" == UNEVEN[3];
  }

  /** A shorter fence inside a longer one: the table scanner takes it for a close and finds a table in the code. */
  lemma UnevenFencesOverlap()
    ensures CodeSpansFrom(SplitKeep(UNEVEN_TEXT), 0) == [Span(0, 5)]
    ensures TableSpansFrom(SplitKeep(UNEVEN_TEXT), 0, None) == [Span(2, 4)]
    ensures !Apart(Span(2, 4), Span(0, 5))
  {
    hide FenceOf, IsRow, IsSeparator, SplitKeep;
    UnevenIsText();
    UnevenLines();
    var mark := FenceOf(UNEVEN[0]).value;
    assert CodeEnd(UNEVEN, mark, 4) == 5;
    assert CodeEnd(UNEVEN, mark, 3) == 5;
    assert CodeEnd(UNEVEN, mark, 2) == 5;
    assert CodeEnd(UNEVEN, mark, 1) == 5;
    assert CodeSpansFrom(UNEVEN, 5) == [];
    assert RowsEnd(UNEVEN, 4) == 4;
    assert TableSpansFrom(UNEVEN, 5, Some('`')) == [];
    assert TableSpansFrom(UNEVEN, 4, None) == [];
    assert TableSpansFrom(UNEVEN, 2, None) == [Span(2, 4)];
    assert TableSpansFrom(UNEVEN, 1, Some('`')) == [Span(2, 4)];
  }
}
