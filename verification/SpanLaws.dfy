/** Exactly which lines the scanners take, and exactly which pieces the chunker makes of them. */
module SpanLaws {
  import opened Results
  import opened Text
  import opened Lines
  import opened Blocks
  import opened Spans
  import opened Chunks

  predicate InSpan(span: Span, k: nat) {
    span.start <= k < span.end
  }

  predicate InSome(spans: seq<Span>, k: nat) {
    exists i :: 0 <= i < |spans| && InSpan(spans[i], k)
  }

  lemma InSomeConcat(xs: seq<Span>, ys: seq<Span>, k: nat)
    ensures InSome(xs + ys, k) <==> InSome(xs, k) || InSome(ys, k)
  {
    assert forall i :: 0 <= i < |xs| ==> (xs + ys)[i] == xs[i];
    assert forall i :: 0 <= i < |ys| ==> (xs + ys)[|xs| + i] == ys[i];
  }

  // ----- Code spans -----

  /** The line is a fence of the same character as the line that opens the span, and at least as long. */
  predicate EndsFence(lines: seq<string>, open: nat, k: nat)
    requires open < |lines| && k < |lines|
  {
    && FenceOf(lines[open]).Some? && FenceOf(lines[k]).Some?
    && FenceOf(lines[k]).value.character == FenceOf(lines[open]).value.character
    && FenceOf(lines[k]).value.length >= FenceOf(lines[open]).value.length
  }

  /** A code span starts at a fence and ends after the first line that closes it, or with the text. */
  predicate CodeSpanOk(lines: seq<string>, span: Span) {
    && span.start < span.end <= |lines|
    && FenceOf(lines[span.start]).Some?
    && (forall k :: span.start < k < span.end - 1 ==> !EndsFence(lines, span.start, k))
    && (span.end < |lines| ==> span.end - 1 > span.start && EndsFence(lines, span.start, span.end - 1))
  }

  lemma {:induction false} CodeEndIsFirst(lines: seq<string>, open: nat, at: nat)
    requires open < at <= |lines| && FenceOf(lines[open]).Some?
    ensures var end := CodeEnd(lines, FenceOf(lines[open]).value, at);
            && (forall k :: at <= k < end - 1 ==> !EndsFence(lines, open, k))
            && (end < |lines| ==> end > at && EndsFence(lines, open, end - 1))
    decreases |lines| - at
  {
    hide FenceOf;
    if at < |lines| && !Closes(FenceOf(lines[open]).value, lines[at]) {
      CodeEndIsFirst(lines, open, at + 1);
    }
  }

  /** All code spans are such, and every fence line is in one. */
  lemma {:induction false} CodeSpansExact(lines: seq<string>, index: nat)
    requires index <= |lines|
    ensures forall i :: 0 <= i < |CodeSpansFrom(lines, index)| ==> CodeSpanOk(lines, CodeSpansFrom(lines, index)[i])
    ensures forall k :: index <= k < |lines| && FenceOf(lines[k]).Some? ==> InSome(CodeSpansFrom(lines, index), k)
    decreases |lines| - index
  {
    hide FenceOf, EndsFence, InSome;
    if index < |lines| {
      if FenceOf(lines[index]).None? {
        CodeSpansExact(lines, index + 1);
      } else {
        var end := CodeEnd(lines, FenceOf(lines[index]).value, index + 1);
        CodeEndIsFirst(lines, index, index + 1);
        CodeSpansExact(lines, end);
        forall k | index <= k < |lines| && FenceOf(lines[k]).Some?
          ensures InSome([Span(index, end)] + CodeSpansFrom(lines, end), k)
        {
          InSomeConcat([Span(index, end)], CodeSpansFrom(lines, end), k);
          if k < end { OneSpan(Span(index, end), k); }
        }
      }
    }
  }

  lemma OneSpan(span: Span, k: nat)
    requires InSpan(span, k)
    ensures InSome([span], k)
  {
    assert InSpan([span][0], k);
  }

  // ----- Table spans -----

  /** The fence that is open before line `k`, when every fence line outside the spans opens one or closes its like. */
  function OpenBefore(lines: seq<string>, spans: seq<Span>, k: nat): Option<char>
    requires k <= |lines|
  {
    if k == 0 then None
    else if InSome(spans, k - 1) || FenceOf(lines[k - 1]).None? then OpenBefore(lines, spans, k - 1)
    else Toggle(OpenBefore(lines, spans, k - 1), FenceOf(lines[k - 1]).value)
  }

  /** A table starts outside fences, with a row over a separator, and ends before the first line that is no row. */
  predicate TableSpanOk(lines: seq<string>, spans: seq<Span>, span: Span) {
    && span.start + 2 <= span.end <= |lines|
    && FenceOf(lines[span.start]).None? && OpenBefore(lines, spans, span.start) == None
    && IsRow(lines[span.start]) && IsSeparator(lines[span.start + 1])
    && (forall k :: span.start + 2 <= k < span.end ==> IsRow(lines[k]))
    && (span.end < |lines| ==> !IsRow(lines[span.end]))
  }

  /** Outside the spans and outside fences, no row stands over a separator. */
  predicate NoTableAt(lines: seq<string>, spans: seq<Span>, k: nat)
    requires k < |lines|
  {
    (!InSome(spans, k) && FenceOf(lines[k]).None? && OpenBefore(lines, spans, k) == None) ==> !TableStarts(lines, k)
  }

  lemma {:induction false} OpenBeforeSame(lines: seq<string>, xs: seq<Span>, ys: seq<Span>, k: nat)
    requires k <= |lines| && forall j :: 0 <= j < k ==> (InSome(xs, j) <==> InSome(ys, j))
    ensures OpenBefore(lines, xs, k) == OpenBefore(lines, ys, k)
  {
    hide FenceOf, InSome;
    if k > 0 { OpenBeforeSame(lines, xs, ys, k - 1); }
  }

  lemma {:induction false} OpenThroughSpan(lines: seq<string>, spans: seq<Span>, start: nat, k: nat)
    requires start <= k <= |lines| && forall j :: start <= j < k ==> InSome(spans, j)
    ensures OpenBefore(lines, spans, k) == OpenBefore(lines, spans, start)
    decreases k
  {
    hide FenceOf, InSome;
    if start < k { OpenThroughSpan(lines, spans, start, k - 1); }
  }

  predicate EndBy(spans: seq<Span>, index: nat) {
    forall i :: 0 <= i < |spans| ==> spans[i].end <= index
  }

  lemma LaterSpans(lines: seq<string>, before: seq<Span>, later: seq<Span>, index: nat, k: nat)
    requires k <= index <= |lines| && AllFrom(later, index)
    ensures OpenBefore(lines, before + later, k) == OpenBefore(lines, before, k)
  {
    forall j | 0 <= j < k ensures InSome(before + later, j) <==> InSome(before, j) {
      InSomeConcat(before, later, j);
    }
    OpenBeforeSame(lines, before + later, before, k);
  }

  lemma RowsEndIsFirst(lines: seq<string>, at: nat)
    requires at <= |lines|
    ensures RowsEnd(lines, at) < |lines| ==> !IsRow(lines[RowsEnd(lines, at)])
    decreases |lines| - at
  {
    hide IsRow;
    if at < |lines| && IsRow(lines[at]) { RowsEndIsFirst(lines, at + 1); }
  }

  /** The later spans are tables, and from `index` on there are no others. */
  predicate TablesOk(lines: seq<string>, all: seq<Span>, later: seq<Span>, index: nat) {
    && (forall i :: 0 <= i < |later| ==> TableSpanOk(lines, all, later[i]))
    && (forall k :: index <= k < |lines| ==> NoTableAt(lines, all, k))
  }

  lemma TablesOkLine(lines: seq<string>, all: seq<Span>, later: seq<Span>, index: nat)
    requires index < |lines| && NoTableAt(lines, all, index) && TablesOk(lines, all, later, index + 1)
    ensures TablesOk(lines, all, later, index)
  {
    hide TableSpanOk, NoTableAt;
  }

  lemma TablesOkSpan(lines: seq<string>, all: seq<Span>, span: Span, rest: seq<Span>)
    requires TableSpanOk(lines, all, span) && TablesOk(lines, all, rest, span.end)
    requires forall k :: span.start <= k < span.end ==> NoTableAt(lines, all, k)
    ensures TablesOk(lines, all, [span] + rest, span.start)
  {
    hide TableSpanOk, NoTableAt;
    assert forall i :: 1 <= i < |[span] + rest| ==> ([span] + rest)[i] == rest[i - 1];
  }

  /** From any point of the scan on, given the spans before it. */
  lemma {:induction false} TablesExactFrom(lines: seq<string>, before: seq<Span>, index: nat, fence: Option<char>)
    requires index <= |lines| && EndBy(before, index) && OpenBefore(lines, before, index) == fence
    ensures TablesOk(lines, before + TableSpansFrom(lines, index, fence), TableSpansFrom(lines, index, fence), index)
    decreases |lines| - index
  {
    hide FenceOf, IsRow, IsSeparator, InSome, TableStarts, EndBy, NoTableAt, TablesOk, TableSpanOk;
    var later := TableSpansFrom(lines, index, fence);
    var all := before + later;
    TableSpansOrdered(lines, index, fence);
    OrderedFrom(later, index, |lines|);
    LaterSpans(lines, before, later, index, index);
    if index == |lines| {
      assert TablesOk(lines, all, [], index) by { NoTables(lines, all); }
    } else {
      NotWithin(before, index);
      EndLater(before, index, index + 1);
      OpenStep(lines, before, index);
      if FenceOf(lines[index]).Some? {
        TablesExactFrom(lines, before, index + 1, Toggle(fence, FenceOf(lines[index]).value));
        FencedLine(lines, all, index);
        TablesOkLine(lines, all, later, index);
      } else if fence.None? && TableStarts(lines, index) {
        TableStep(lines, before, index);
        var end := RowsEnd(lines, index + 2);
        var span, rest := Span(index, end), TableSpansFrom(lines, end, fence);
        TablesExactFrom(lines, before + [span], end, fence);
        assert before + [span] + rest == all && later == [span] + rest;
        forall k | index <= k < end ensures NoTableAt(lines, all, k) {
          InSomeConcat(before, later, k);
          InSomeConcat([span], rest, k);
          OneSpan(span, k);
          CoveredLine(lines, all, k);
        }
        TableHere(lines, all, span);
        TablesOkSpan(lines, all, span, rest);
      } else {
        TablesExactFrom(lines, before, index + 1, fence);
        PlainLineHere(lines, all, index);
        TablesOkLine(lines, all, later, index);
      }
    }
  }

  lemma NoTables(lines: seq<string>, all: seq<Span>)
    ensures TablesOk(lines, all, [], |lines|)
  {
  }

  lemma NotWithin(spans: seq<Span>, index: nat)
    requires EndBy(spans, index)
    ensures !InSome(spans, index)
  {
  }

  lemma EndLater(spans: seq<Span>, index: nat, later: nat)
    requires EndBy(spans, index) && index <= later
    ensures EndBy(spans, later)
  {
  }

  lemma OpenStep(lines: seq<string>, spans: seq<Span>, index: nat)
    requires index < |lines| && !InSome(spans, index)
    ensures OpenBefore(lines, spans, index + 1)
         == if FenceOf(lines[index]).Some? then Toggle(OpenBefore(lines, spans, index), FenceOf(lines[index]).value)
            else OpenBefore(lines, spans, index)
  {
    hide FenceOf, InSome;
  }

  lemma FencedLine(lines: seq<string>, spans: seq<Span>, k: nat)
    requires k < |lines| && FenceOf(lines[k]).Some?
    ensures NoTableAt(lines, spans, k)
  {
  }

  lemma CoveredLine(lines: seq<string>, spans: seq<Span>, k: nat)
    requires k < |lines| && InSome(spans, k)
    ensures NoTableAt(lines, spans, k)
  {
  }

  lemma PlainLineHere(lines: seq<string>, spans: seq<Span>, k: nat)
    requires k < |lines| && (OpenBefore(lines, spans, k) != None || !TableStarts(lines, k))
    ensures NoTableAt(lines, spans, k)
  {
  }

  lemma TableStep(lines: seq<string>, before: seq<Span>, index: nat)
    requires EndBy(before, index) && TableStarts(lines, index)
    ensures var end := RowsEnd(lines, index + 2);
            EndBy(before + [Span(index, end)], end)
            && OpenBefore(lines, before + [Span(index, end)], end) == OpenBefore(lines, before, index)
  {
    hide FenceOf, IsRow, IsSeparator, InSome, OpenBefore;
    var end := RowsEnd(lines, index + 2);
    var span := Span(index, end);
    LaterSpans(lines, before, [span], index, index);
    forall j | index <= j < end ensures InSome(before + [span], j) {
      InSomeConcat(before, [span], j);
      OneSpan(span, j);
    }
    OpenThroughSpan(lines, before + [span], index, end);
  }

  lemma TableHere(lines: seq<string>, spans: seq<Span>, span: Span)
    requires span.start < |lines| && FenceOf(lines[span.start]).None? && TableStarts(lines, span.start)
    requires OpenBefore(lines, spans, span.start) == None && span.end == RowsEnd(lines, span.start + 2)
    ensures TableSpanOk(lines, spans, span)
  {
    hide FenceOf, IsRow, IsSeparator, InSome, OpenBefore;
    RowsEndIsFirst(lines, span.start + 2);
  }

  /** All table spans are tables outside fences, and there is no table outside fences besides them. */
  lemma TableSpansExact(lines: seq<string>)
    ensures TablesOk(lines, TableSpansFrom(lines, 0, None), TableSpansFrom(lines, 0, None), 0)
  {
    hide TablesOk;
    TablesExactFrom(lines, [], 0, None);
    assert [] + TableSpansFrom(lines, 0, None) == TableSpansFrom(lines, 0, None);
  }

  // ----- Both kinds together -----

  predicate Sorted(spans: seq<Span>) {
    forall i, j :: 0 <= i < j < |spans| ==> Precedes(spans[i], spans[j])
  }

  predicate AllAfter(first: Span, spans: seq<Span>) {
    forall i :: 0 <= i < |spans| ==> Precedes(first, spans[i])
  }

  lemma {:induction false} MergedAfter(first: Span, xs: seq<Span>, ys: seq<Span>)
    requires AllAfter(first, xs) && AllAfter(first, ys)
    ensures AllAfter(first, Merged(xs, ys))
    decreases |xs| + |ys|
  {
    if xs != [] && ys != [] {
      assert xs == [xs[0]] + xs[1..] && ys == [ys[0]] + ys[1..];
      if Precedes(xs[0], ys[0]) { MergedAfter(first, xs[1..], ys); } else { MergedAfter(first, xs, ys[1..]); }
    }
  }

  lemma SortedFirst(spans: seq<Span>)
    requires Sorted(spans) && spans != []
    ensures AllAfter(spans[0], spans[1..]) && Sorted(spans[1..])
  {
    assert forall i :: 0 <= i < |spans[1..]| ==> spans[1..][i] == spans[i + 1];
  }

  lemma SortedCons(first: Span, rest: seq<Span>)
    requires AllAfter(first, rest) && Sorted(rest)
    ensures Sorted([first] + rest)
  {
    assert forall i :: 1 <= i < |[first] + rest| ==> ([first] + rest)[i] == rest[i - 1];
  }

  lemma AfterAll(first: Span, second: Span, spans: seq<Span>)
    requires Precedes(first, second) && AllAfter(second, spans)
    ensures AllAfter(first, [second] + spans)
  {
    assert forall i :: 1 <= i < |[second] + spans| ==> ([second] + spans)[i] == spans[i - 1];
  }

  /** The blocks are the spans of both kinds, no more and no fewer, sorted by where they start and then end. */
  lemma {:induction false} MergedExact(xs: seq<Span>, ys: seq<Span>)
    requires Sorted(xs) && Sorted(ys)
    ensures multiset(Merged(xs, ys)) == multiset(xs) + multiset(ys) && Sorted(Merged(xs, ys))
    decreases |xs| + |ys|
  {
    hide Sorted, AllAfter;
    if xs != [] && ys != [] {
      assert xs == [xs[0]] + xs[1..] && ys == [ys[0]] + ys[1..];
      SortedFirst(xs);
      SortedFirst(ys);
      if Precedes(xs[0], ys[0]) {
        MergedExact(xs[1..], ys);
        AfterAll(xs[0], ys[0], ys[1..]);
        MergedAfter(xs[0], xs[1..], ys);
        SortedCons(xs[0], Merged(xs[1..], ys));
      } else {
        MergedExact(xs, ys[1..]);
        assert Precedes(ys[0], xs[0]);
        AfterAll(ys[0], xs[0], xs[1..]);
        MergedAfter(ys[0], xs, ys[1..]);
        SortedCons(ys[0], Merged(xs, ys[1..]));
      }
    }
  }

  lemma {:induction false} OrderedIsSorted(spans: seq<Span>, low: nat, high: nat)
    requires Ordered(spans, low, high)
    ensures Sorted(spans)
  {
    hide Sorted, AllAfter;
    if spans == [] {
      assert Sorted([]) by { NothingSorted(); }
    } else {
      OrderedIsSorted(spans[1..], spans[0].end, high);
      OrderedFrom(spans[1..], spans[0].end, high);
      FromIsAfter(spans[0], spans[1..]);
      assert spans == [spans[0]] + spans[1..];
      SortedCons(spans[0], spans[1..]);
    }
  }

  lemma NothingSorted()
    ensures Sorted([])
  {
  }

  lemma FromIsAfter(first: Span, spans: seq<Span>)
    requires first.start < first.end && AllFrom(spans, first.end)
    ensures AllAfter(first, spans)
  {
  }

  lemma MergedSpansExact(lines: seq<string>)
    ensures Sorted(MergedSpans(lines))
    ensures multiset(MergedSpans(lines))
         == multiset(TableSpansFrom(lines, 0, None)) + multiset(CodeSpansFrom(lines, 0))
  {
    hide Sorted, TableSpansFrom, CodeSpansFrom;
    TableSpansOrdered(lines, 0, None);
    CodeSpansOrdered(lines, 0);
    OrderedIsSorted(TableSpansFrom(lines, 0, None), 0, |lines|);
    OrderedIsSorted(CodeSpansFrom(lines, 0), 0, |lines|);
    MergedExact(TableSpansFrom(lines, 0, None), CodeSpansFrom(lines, 0));
  }

  // ----- The pieces of a text -----

  /** The text is that of the lines, without whitespace at its ends. */
  ghost predicate Spells(text: string, lines: seq<string>) {
    Trimmed(text) && exists lead, trail :: Blank(lead) && Blank(trail) && lead + text + trail == Concat(lines)
  }

  lemma {:induction false} JoinedIsConcat(lines: seq<string>)
    ensures Join(lines, "") == Concat(lines)
  {
    if |lines| == 1 {
      assert lines[1..] == [] && lines[0] + "" == lines[0];
    } else if |lines| > 1 {
      JoinedIsConcat(lines[1..]);
      assert lines[0] + "" + Join(lines[1..], "") == lines[0] + Join(lines[1..], "");
    }
  }

  lemma GatherSpells(lines: seq<string>)
    ensures Spells(Gather(lines), lines)
  {
    hide Join, Strip, Concat;
    JoinedIsConcat(lines);
    var lead, trail := StripParts(Join(lines, ""));
  }

  /** The lines before block `i`, after the block before it. */
  function LinesBefore(lines: seq<string>, blocks: seq<Span>, cursor: nat, i: nat): seq<string>
    requires cursor <= |lines| && Within(blocks, |lines|) && i < |blocks|
  {
    Slice(lines, if i == 0 then cursor else blocks[i - 1].end, blocks[i].start)
  }

  /** The piece of a block alone goes to the splitter of its kind. */
  predicate OfKind(piece: Piece, table: bool, text: string) {
    piece == if table then TableBlock(text) else CodeBlock(text)
  }

  /**
   The piece at `p` is that of a block whose introduction starts at `from`: both combined when there is an
   introduction and they fit together; the block alone after its introduction when they do not; and the block
   alone when there is none.
   */
  predicate PiecesAt(pieces: seq<Piece>, from: nat, p: nat, prefix: string, block: string, table: bool,
                     fits: string -> bool)
  {
    && p < |pieces|
    && var combined := Strip(prefix + "\n\n" + block);
       if prefix == "" then p == from && OfKind(pieces[p], table, block)
       else if fits(combined) then p == from && pieces[p] == Combined(combined)
       else p == from + 1 && pieces[from] == Prose(prefix) && OfKind(pieces[p], table, block)
  }

  predicate BlockPlaced(lines: seq<string>, tables: seq<Span>, blocks: seq<Span>, cursor: nat, fits: string -> bool,
                        pieces: seq<Piece>, places: seq<nat>, i: nat)
    requires cursor <= |lines| && Within(blocks, |lines|) && i < |blocks| == |places|
  {
    PiecesAt(pieces, if i == 0 then 0 else places[i - 1] + 1, places[i],
             Gather(LinesBefore(lines, blocks, cursor, i)), Gather(lines[blocks[i].start..blocks[i].end]),
             blocks[i] in tables, fits)
  }

  /** After the last block comes what is left, if it shows anything, and nothing else. */
  predicate TailPlaced(lines: seq<string>, blocks: seq<Span>, cursor: nat, pieces: seq<Piece>, places: seq<nat>)
    requires cursor <= |lines| && Within(blocks, |lines|) && |blocks| == |places|
  {
    var from := if places == [] then 0 else places[|places| - 1] + 1;
    var suffix := Gather(lines[if blocks == [] then cursor else blocks[|blocks| - 1].end..]);
    if suffix == "" then |pieces| == from else |pieces| == from + 1 && pieces[from] == Prose(suffix)
  }

  ghost predicate AllPlaced(lines: seq<string>, tables: seq<Span>, blocks: seq<Span>, cursor: nat, fits: string -> bool,
                            pieces: seq<Piece>, places: seq<nat>)
    requires cursor <= |lines| && Within(blocks, |lines|)
  {
    && |places| == |blocks|
    && (forall i: nat :: i < |blocks| ==> BlockPlaced(lines, tables, blocks, cursor, fits, pieces, places, i))
    && TailPlaced(lines, blocks, cursor, pieces, places)
  }

  lemma FirstPieces(prefix: string, block: string, table: bool, fits: string -> bool, later: seq<Piece>)
    returns (p: nat)
    ensures var first := BlockPieces(prefix, block, table, fits);
            |first| == p + 1 && PiecesAt(first + later, 0, p, prefix, block, table, fits)
  {
    hide Strip;
    p := |BlockPieces(prefix, block, table, fits)| - 1;
  }

  lemma LaterPieces(first: seq<Piece>, pieces: seq<Piece>, from: nat, p: nat, prefix: string, block: string,
                    table: bool, fits: string -> bool)
    requires PiecesAt(pieces, from, p, prefix, block, table, fits)
    ensures PiecesAt(first + pieces, |first| + from, |first| + p, prefix, block, table, fits)
  {
    hide Strip;
    assert forall i :: 0 <= i < |pieces| ==> (first + pieces)[|first| + i] == pieces[i];
  }

  function ShiftBy(places: seq<nat>, n: nat): (shifted: seq<nat>)
    ensures |shifted| == |places| && forall i :: 0 <= i < |places| ==> shifted[i] == places[i] + n
  {
    seq(|places|, i requires 0 <= i < |places| => places[i] + n)
  }

  lemma {:induction false} PiecesExact(lines: seq<string>, tables: seq<Span>, blocks: seq<Span>, cursor: nat,
                                       fits: string -> bool) returns (places: seq<nat>)
    requires cursor <= |lines| && Within(blocks, |lines|)
    ensures AllPlaced(lines, tables, blocks, cursor, fits, PiecesFrom(lines, tables, blocks, cursor, fits), places)
    decreases blocks
  {
    hide Gather, Slice, BlockPieces, PiecesAt;
    if blocks == [] {
      places := [];
    } else {
      WithinRest(blocks, |lines|);
      var block, rest := blocks[0], blocks[1..];
      assert Within([], |lines|);
      var prefix, text := Gather(Slice(lines, cursor, block.start)), Gather(lines[block.start..block.end]);
      var first := BlockPieces(prefix, text, block in tables, fits);
      var later := PiecesFrom(lines, tables, rest, block.end, fits);
      var before := PiecesExact(lines, tables, rest, block.end, fits);
      var p := FirstPieces(prefix, text, block in tables, fits, later);
      places := [p] + ShiftBy(before, p + 1);
      var pieces := first + later;
      assert pieces == PiecesFrom(lines, tables, blocks, cursor, fits);
      forall i: nat | i < |blocks| ensures BlockPlaced(lines, tables, blocks, cursor, fits, pieces, places, i) {
        if i > 0 {
          assert BlockPlaced(lines, tables, rest, block.end, fits, later, before, i - 1);
          assert blocks[i] == rest[i - 1] && (i > 1 ==> blocks[i - 1] == rest[i - 2]);
          LaterPieces(first, later, if i == 1 then 0 else before[i - 2] + 1, before[i - 1],
                      Gather(LinesBefore(lines, rest, block.end, i - 1)),
                      Gather(lines[blocks[i].start..blocks[i].end]), blocks[i] in tables, fits);
        }
      }
      TailLater(lines, block, rest, cursor, first, later, before, places);
    }
  }

  lemma TailLater(lines: seq<string>, block: Span, rest: seq<Span>, cursor: nat, first: seq<Piece>, later: seq<Piece>,
                  before: seq<nat>, places: seq<nat>)
    requires cursor <= |lines| && Within([block] + rest, |lines|) && Within(rest, |lines|) && block.end <= |lines|
    requires |before| == |rest| && first != [] && places == [|first| - 1] + ShiftBy(before, |first|)
    requires TailPlaced(lines, rest, block.end, later, before)
    ensures TailPlaced(lines, [block] + rest, cursor, first + later, places)
  {
    hide Gather;
    assert forall i :: 0 <= i < |later| ==> (first + later)[|first| + i] == later[i];
  }

  /** What the chunker makes of a text, block by block. */
  lemma StructuredPiecesExact(text: string, fits: string -> bool) returns (places: seq<nat>)
    ensures var lines := SplitKeep(text);
            && Within(MergedSpans(lines), |lines|)
            && AllPlaced(lines, TableSpansFrom(lines, 0, None), MergedSpans(lines), 0, fits,
                         StructuredPieces(lines, fits), places)
  {
    hide SplitKeep, AllPlaced, Within, PiecesFrom, MergedSpans, TableSpansFrom;
    var lines := SplitKeep(text);
    MergedSpansWithin(lines);
    places := PiecesExact(lines, TableSpansFrom(lines, 0, None), MergedSpans(lines), 0, fits);
  }

  // ----- The text of a table chunk -----

  /** A chunk of rows reads as the header, the separator and the rows, a line each. */
  lemma TableTextLines(header: string, separator: string, rows: seq<string>)
    requires NoBreak(header) && NoBreak(separator) && separator != ""
    requires forall i :: 0 <= i < |rows| ==> NoBreak(rows[i]) && rows[i] != ""
    ensures SplitLines(TableText(header + "\n" + separator, rows)) == [header, separator] + rows
  {
    hide SplitLines;
    var lines := [header, separator] + rows;
    var head := [header, separator];
    assert head[1..] == [separator];
    assert Join(head, "\n") == header + "\n" + separator;
    if rows == [] {
      assert lines == head && [header + "\n" + separator] + rows == [header + "\n" + separator];
    } else {
      JoinConcat(head, rows, "\n");
      JoinConcat([header + "\n" + separator], rows, "\n");
    }
    assert TableText(header + "\n" + separator, rows) == Join(lines, "\n");
    SplitLinesJoin(lines);
  }
}
