/** Cutting a text around its tables and code blocks, and a table that is too large between its rows. */
module Chunks {
  import opened Results
  import opened Text
  import opened Lines
  import opened Blocks
  import opened Sectioner
  import opened SectionerLaws
  import opened Spans

  /** One text handed on: as a chunk of its own, or to the splitter of its kind. */
  datatype Piece =
    | Combined(text: string)
    | Prose(text: string)
    | TableBlock(text: string)
    | CodeBlock(text: string)

  /** `"".join(lines).strip()`. */
  function Gather(lines: seq<string>): string {
    Strip(Join(lines, ""))
  }

  /** A Python slice, which is empty when it ends before it begins. */
  function Slice(lines: seq<string>, low: nat, high: nat): seq<string>
    requires high <= |lines|
  {
    if low <= high then lines[low..high] else []
  }

  // ----- Structured blocks -----

  /** What one block adds: with its introduction if they fit together, and after it if not. */
  function BlockPieces(prefix: string, block: string, table: bool, fits: string -> bool): seq<Piece> {
    var combined := Strip(prefix + "\n\n" + block);
    if prefix != "" && fits(combined) then [Combined(combined)]
    else (if prefix != "" then [Prose(prefix)] else []) + [if table then TableBlock(block) else CodeBlock(block)]
  }

  function SuffixPieces(suffix: string): seq<Piece> {
    if suffix != "" then [Prose(suffix)] else []
  }

  function PiecesFrom(lines: seq<string>, tables: seq<Span>, blocks: seq<Span>, cursor: nat,
                      fits: string -> bool): seq<Piece>
    requires cursor <= |lines| && Within(blocks, |lines|)
    decreases blocks
  {
    if blocks == [] then SuffixPieces(Gather(lines[cursor..]))
    else
      var block := blocks[0];
      assert Within(blocks[1..], |lines|) by { WithinRest(blocks, |lines|); }
      BlockPieces(Gather(Slice(lines, cursor, block.start)), Gather(lines[block.start..block.end]),
                  block in tables, fits)
      + PiecesFrom(lines, tables, blocks[1..], block.end, fits)
  }

  lemma WithinRest(blocks: seq<Span>, count: nat)
    requires Within(blocks, count) && blocks != []
    ensures Within(blocks[1..], count)
  {
    assert forall i :: 0 <= i < |blocks[1..]| ==> blocks[1..][i] == blocks[i + 1];
  }

  /** `_chunk_structured_blocks` with the spans of its text, where `fits` bounds the tokens of a chunk. */
  function StructuredPieces(lines: seq<string>, fits: string -> bool): seq<Piece> {
    MergedSpansWithin(lines);
    PiecesFrom(lines, TableSpansFrom(lines, 0, None), MergedSpans(lines), 0, fits)
  }

  function MergedSpans(lines: seq<string>): seq<Span> {
    Merged(TableSpansFrom(lines, 0, None), CodeSpansFrom(lines, 0))
  }

  lemma MergedSpansWithin(lines: seq<string>)
    ensures Within(MergedSpans(lines), |lines|)
  {
    hide Within, Ordered;
    TableSpansOrdered(lines, 0, None);
    CodeSpansOrdered(lines, 0);
    OrderedWithin(TableSpansFrom(lines, 0, None), 0, |lines|);
    OrderedWithin(CodeSpansFrom(lines, 0), 0, |lines|);
    MergedWithin(TableSpansFrom(lines, 0, None), CodeSpansFrom(lines, 0), |lines|);
  }

  lemma PiecesStep(lines: seq<string>, tables: seq<Span>, blocks: seq<Span>, next: nat, cursor: nat,
                   fits: string -> bool)
    requires next < |blocks| && cursor <= |lines| && Within(blocks[next..], |lines|)
    ensures blocks[next].start < blocks[next].end <= |lines| && Within(blocks[next + 1..], |lines|)
    ensures PiecesFrom(lines, tables, blocks[next..], cursor, fits)
            == BlockPieces(Gather(Slice(lines, cursor, blocks[next].start)),
                           Gather(lines[blocks[next].start..blocks[next].end]), blocks[next] in tables, fits)
               + PiecesFrom(lines, tables, blocks[next + 1..], blocks[next].end, fits)
  {
    hide Gather, Slice, BlockPieces;
    assert blocks[next] == blocks[next..][0] && blocks[next..][1..] == blocks[next + 1..];
    WithinRest(blocks[next..], |lines|);
  }

  lemma PiecesStart(lines: seq<string>, blocks: seq<Span>, fits: string -> bool)
    requires blocks == Merged(TableSpansFrom(lines, 0, None), CodeSpansFrom(lines, 0))
    ensures Within(blocks, |lines|)
    ensures StructuredPieces(lines, fits) == [] + PiecesFrom(lines, TableSpansFrom(lines, 0, None), blocks, 0, fits)
  {
    hide Within, PiecesFrom;
    MergedSpansWithin(lines);
  }

  lemma PiecesEnd(lines: seq<string>, tables: seq<Span>, cursor: nat, fits: string -> bool)
    requires cursor <= |lines|
    ensures Within([], |lines|)
    ensures PiecesFrom(lines, tables, [], cursor, fits) == SuffixPieces(Gather(lines[cursor..]))
  {
  }

  method ChunkStructuredBlocks(text: string, fits: string -> bool) returns (output: seq<Piece>)
    ensures output == StructuredPieces(SplitKeep(text), fits)
  {
    hide Gather, Slice, Merged, TableSpansFrom, CodeSpansFrom, StructuredPieces, Within, PiecesFrom, Strip,
         SplitKeep;
    var lines := SplitKeep(text);
    var tables := MarkdownTableSpans(text);
    var codes := MarkdownCodeSpans(text);
    var blocks := Merged(tables, codes);
    PiecesStart(lines, blocks, fits);
    output := [];
    var cursor: nat, next := 0, 0;
    assert blocks[0..] == blocks;
    while next < |blocks|
      invariant 0 <= next <= |blocks| && cursor <= |lines|
      invariant Within(blocks[next..], |lines|)
      invariant StructuredPieces(lines, fits) == output + PiecesFrom(lines, tables, blocks[next..], cursor, fits)
    {
      var block := blocks[next];
      PiecesStep(lines, tables, blocks, next, cursor, fits);
      var prefix := Gather(Slice(lines, cursor, block.start));
      var inner := Gather(lines[block.start..block.end]);
      var combined := Strip(prefix + "\n\n" + inner);
      ghost var before, rest := output, PiecesFrom(lines, tables, blocks[next + 1..], block.end, fits);
      if prefix != "" && fits(combined) {
        output := output + [Combined(combined)];
      } else {
        if prefix != "" {
          output := output + [Prose(prefix)];
        }
        output := output + [if block in tables then TableBlock(inner) else CodeBlock(inner)];
      }
      assert output == before + BlockPieces(prefix, inner, block in tables, fits);
      Regroup(before, BlockPieces(prefix, inner, block in tables, fits), rest);
      cursor := block.end;
      next := next + 1;
    }
    PiecesEnd(lines, tables, cursor, fits);
    assert blocks[next..] == [];
    var suffix := Gather(lines[cursor..]);
    if suffix != "" {
      output := output + [Prose(suffix)];
    }
  }

  // ----- What the pieces hold -----

  function Texts(pieces: seq<Piece>): seq<string> {
    if pieces == [] then [] else [pieces[0].text] + Texts(pieces[1..])
  }

  lemma {:induction false} TextsConcat(a: seq<Piece>, b: seq<Piece>)
    ensures Texts(a + b) == Texts(a) + Texts(b)
  {
    if a == [] {
      assert a + b == b;
    } else {
      assert (a + b)[1..] == a[1..] + b;
      TextsConcat(a[1..], b);
    }
  }

  lemma InkGather(lines: seq<string>)
    ensures Ink(Gather(lines)) == InkAll(lines)
  {
    InkStrip(Join(lines, ""));
    InkJoin(lines, "");
  }

  lemma BlockPiecesConserve(prefix: string, block: string, table: bool, fits: string -> bool)
    ensures InkAll(Texts(BlockPieces(prefix, block, table, fits))) == Ink(prefix) + Ink(block)
  {
    var pieces := BlockPieces(prefix, block, table, fits);
    if prefix != "" && fits(Strip(prefix + "\n\n" + block)) {
      InkStrip(prefix + "\n\n" + block);
      InkAroundBlank(prefix, "\n\n", block);
      assert Texts(pieces) == [pieces[0].text];
    } else if prefix != "" {
      TextsConcat([Prose(prefix)], [if table then TableBlock(block) else CodeBlock(block)]);
      assert Texts(pieces) == [prefix, block];
      assert InkAll([prefix, block][1..]) == Ink(block);
    } else {
      assert Texts(pieces) == [block];
    }
  }

  lemma SuffixPiecesConserve(suffix: string)
    ensures InkAll(Texts(SuffixPieces(suffix))) == Ink(suffix)
  {
  }

  lemma InkAllSplit(lines: seq<string>, low: nat, mid: nat, high: nat)
    requires low <= mid <= high <= |lines|
    ensures InkAll(lines[low..high]) == InkAll(lines[low..mid]) + InkAll(lines[mid..high])
  {
    InkAllConcat(lines[low..mid], lines[mid..high]);
    assert lines[low..high] == lines[low..mid] + lines[mid..high];
  }

  /** The visible characters of one block's pieces and of those after it. */
  lemma PiecesInk(lines: seq<string>, tables: seq<Span>, blocks: seq<Span>, cursor: nat, fits: string -> bool)
    requires cursor <= |lines| && Within(blocks, |lines|) && blocks != []
    ensures Within(blocks[1..], |lines|)
    ensures InkAll(Texts(PiecesFrom(lines, tables, blocks, cursor, fits)))
            == InkAll(Slice(lines, cursor, blocks[0].start)) + InkAll(lines[blocks[0].start..blocks[0].end])
               + InkAll(Texts(PiecesFrom(lines, tables, blocks[1..], blocks[0].end, fits)))
  {
    hide BlockPieces, Gather, Slice, InkAll, Texts;
    WithinRest(blocks, |lines|);
    var block := blocks[0];
    var prefix, text := Gather(Slice(lines, cursor, block.start)), Gather(lines[block.start..block.end]);
    var first := BlockPieces(prefix, text, block in tables, fits);
    var rest := PiecesFrom(lines, tables, blocks[1..], block.end, fits);
    TextsConcat(first, rest);
    InkAllConcat(Texts(first), Texts(rest));
    BlockPiecesConserve(prefix, text, block in tables, fits);
    InkGather(Slice(lines, cursor, block.start));
    InkGather(lines[block.start..block.end]);
  }

  predicate StartsVisibly(lines: seq<string>, block: Span) {
    block.start < |lines| && !Blank(lines[block.start])
  }

  predicate AllStartVisibly(lines: seq<string>, blocks: seq<Span>) {
    forall i :: 0 <= i < |blocks| ==> StartsVisibly(lines, blocks[i])
  }

  lemma InkOfVisible(lines: seq<string>, low: nat, high: nat)
    requires low < high <= |lines| && !Blank(lines[low])
    ensures InkAll(lines[low..high]) != ""
  {
    InkBlank(lines[low]);
    assert lines[low..high][0] == lines[low];
  }

  /**
   Blocks in order hold exactly the visible characters from `cursor` on. Otherwise a block starts over lines
   already taken and its first line comes out twice, so that there are too many; none is ever lost.
   */
  lemma {:induction false} PiecesConserveIff(lines: seq<string>, tables: seq<Span>, blocks: seq<Span>, cursor: nat,
                                             fits: string -> bool)
    requires cursor <= |lines| && Within(blocks, |lines|) && AllStartVisibly(lines, blocks)
    ensures var ink := InkAll(Texts(PiecesFrom(lines, tables, blocks, cursor, fits)));
            if Ordered(blocks, cursor, |lines|) then ink == InkAll(lines[cursor..])
            else |ink| > |InkAll(lines[cursor..])|
    decreases blocks
  {
    hide InkAll, Texts, Within, AllStartVisibly, StartsVisibly, Gather, Slice;
    if blocks == [] {
      SuffixPiecesConserve(Gather(lines[cursor..]));
      InkGather(lines[cursor..]);
    } else {
      PiecesInk(lines, tables, blocks, cursor, fits);
      FirstStarts(lines, blocks);
      PiecesConserveIff(lines, tables, blocks[1..], blocks[0].end, fits);
      BlockInk(lines, cursor, blocks[0]);
    }
  }

  /** A block that starts at or after `cursor` completes the lines from there; one that starts before takes more. */
  lemma BlockInk(lines: seq<string>, cursor: nat, block: Span)
    requires cursor <= |lines| && block.start < block.end <= |lines| && StartsVisibly(lines, block)
    ensures var taken := InkAll(Slice(lines, cursor, block.start)) + InkAll(lines[block.start..block.end]);
            if cursor <= block.start then taken + InkAll(lines[block.end..]) == InkAll(lines[cursor..])
            else |taken + InkAll(lines[block.end..])| > |InkAll(lines[cursor..])|
  {
    hide InkAll;
    var start, end, count := block.start, block.end, |lines|;
    assert lines[cursor..] == lines[cursor..count] && lines[end..] == lines[end..count];
    InkAllSplit(lines, start, end, count);
    if cursor <= start {
      InkAllSplit(lines, cursor, start, count);
    } else {
      InkAllSplit(lines, start, cursor, count);
      InkOfVisible(lines, start, cursor);
    }
  }

  lemma FirstStarts(lines: seq<string>, blocks: seq<Span>)
    requires AllStartVisibly(lines, blocks) && Within(blocks, |lines|) && blocks != []
    ensures AllStartVisibly(lines, blocks[1..]) && StartsVisibly(lines, blocks[0])
    ensures blocks[0].start < blocks[0].end <= |lines|
  {
    assert forall i :: 0 <= i < |blocks[1..]| ==> blocks[1..][i] == blocks[i + 1];
  }

  // ----- Blocks begin with a visible line -----

  lemma RowIsVisible(line: string)
    requires IsRow(line)
    ensures !Blank(line)
  {
    hide Cells;
    var i :| 0 <= i < |line| && line[i] == '|';
    assert !IsSpace(line[i]);
  }

  lemma StartsCons(lines: seq<string>, block: Span, rest: seq<Span>)
    requires StartsVisibly(lines, block) && AllStartVisibly(lines, rest)
    ensures AllStartVisibly(lines, [block] + rest)
  {
  }

  lemma NothingStarts(lines: seq<string>)
    ensures AllStartVisibly(lines, [])
  {
  }

  lemma {:induction false} CodeStartsVisibly(lines: seq<string>, index: nat)
    requires index <= |lines|
    ensures AllStartVisibly(lines, CodeSpansFrom(lines, index))
    decreases |lines| - index
  {
    hide FenceOf, Closes, AllStartVisibly;
    if index == |lines| {
      NothingStarts(lines);
    } else if FenceOf(lines[index]).None? {
      CodeStartsVisibly(lines, index + 1);
    } else {
      var end := CodeEnd(lines, FenceOf(lines[index]).value, index + 1);
      CodeStartsVisibly(lines, end);
      StartsCons(lines, Span(index, end), CodeSpansFrom(lines, end));
    }
  }

  lemma {:induction false} TableStartsVisibly(lines: seq<string>, index: nat, fence: Option<char>)
    requires index <= |lines|
    ensures AllStartVisibly(lines, TableSpansFrom(lines, index, fence))
    decreases |lines| - index
  {
    hide FenceOf, IsRow, IsSeparator, AllStartVisibly;
    if index == |lines| {
      NothingStarts(lines);
    } else if FenceOf(lines[index]).Some? {
      TableStartsVisibly(lines, index + 1, Toggle(fence, FenceOf(lines[index]).value));
    } else if fence.None? && TableStarts(lines, index) {
      var end := RowsEnd(lines, index + 2);
      TableStartsVisibly(lines, end, fence);
      RowIsVisible(lines[index]);
      StartsCons(lines, Span(index, end), TableSpansFrom(lines, end, fence));
    } else {
      TableStartsVisibly(lines, index + 1, fence);
    }
  }

  lemma {:induction false} MergedStartsVisibly(lines: seq<string>, xs: seq<Span>, ys: seq<Span>)
    requires AllStartVisibly(lines, xs) && AllStartVisibly(lines, ys)
    ensures AllStartVisibly(lines, Merged(xs, ys))
    decreases |xs| + |ys|
  {
    if xs != [] && ys != [] {
      assert xs == [xs[0]] + xs[1..] && ys == [ys[0]] + ys[1..];
      if Precedes(xs[0], ys[0]) {
        MergedStartsVisibly(lines, xs[1..], ys);
      } else {
        MergedStartsVisibly(lines, xs, ys[1..]);
      }
    }
  }

  predicate TablesAvoidCode(lines: seq<string>) {
    AllApart(TableSpansFrom(lines, 0, None), CodeSpansFrom(lines, 0))
  }

  /**
   Cutting a text around its blocks keeps every visible character once and in order exactly when no table
   that one scanner found meets a code block that the other found.
   */
  lemma TextConservesIff(text: string, fits: string -> bool)
    ensures InkAll(Texts(StructuredPieces(SplitKeep(text), fits))) == Ink(text) <==> TablesAvoidCode(SplitKeep(text))
  {
    hide SplitKeep, StructuredPieces, TablesAvoidCode;
    InkSplitKeep(text);
    StructuredConserveIff(SplitKeep(text), fits);
  }

  /** The same for any lines. */
  lemma StructuredConserveIff(lines: seq<string>, fits: string -> bool)
    ensures InkAll(Texts(StructuredPieces(lines, fits))) == InkAll(lines) <==> TablesAvoidCode(lines)
  {
    hide AllApart, Ordered, Within, AllStartVisibly, InkAll, Texts, PiecesFrom;
    var tables, codes := TableSpansFrom(lines, 0, None), CodeSpansFrom(lines, 0);
    TableStartsVisibly(lines, 0, None);
    CodeStartsVisibly(lines, 0);
    MergedStartsVisibly(lines, tables, codes);
    MergedSpansWithin(lines);
    PiecesConserveIff(lines, tables, MergedSpans(lines), 0, fits);
    assert lines[0..] == lines;
    OrderedIffApart(lines);
  }

  lemma EvenFencesConserve(text: string, fits: string -> bool)
    requires EvenFences(SplitKeep(text))
    ensures InkAll(Texts(StructuredPieces(SplitKeep(text), fits))) == Ink(text)
  {
    hide EvenFences, AllApart, StructuredPieces, SplitKeep;
    ScannersAgree(SplitKeep(text), 0);
    TextConservesIff(text, fits);
  }

  /** The scanners disagree on this text, so two of its lines are handed on twice. */
  lemma UnevenFencesDuplicate(fits: string -> bool)
    ensures InkAll(Texts(StructuredPieces(SplitKeep(UNEVEN_TEXT), fits))) != Ink(UNEVEN_TEXT)
  {
    hide AllApart, StructuredPieces, InkAll, SplitKeep;
    UnevenFencesOverlap();
    TextConservesIff(UNEVEN_TEXT, fits);
    assert !AllApart([Span(2, 4)], [Span(0, 5)]) by { SpansMeet(Span(2, 4), Span(0, 5)); }
  }

  lemma SpansMeet(a: Span, b: Span)
    requires !Apart(a, b)
    ensures !AllApart([a], [b])
  {
    assert !Apart([a][0], [b][0]);
  }

  // ----- Tables that are too large -----

  /** What `_chunk_table` makes of a table; `Guarded` and `Oversized` texts go on to the size guard. */
  datatype TableChunk =
    | Guarded(text: string)
    | Whole(text: string)
    | Rows(rows: seq<string>)
    | Oversized(row: string)

  /** The header and separator repeated above some rows. */
  function TableText(head: string, rows: seq<string>): string {
    Join([head] + rows, "\n")
  }

  function FlushRows(current: seq<string>): seq<TableChunk> {
    if current == [] then [] else [Rows(current)]
  }

  function RowChunks(head: string, rows: seq<string>, current: seq<string>, fits: string -> bool): seq<TableChunk>
    decreases rows
  {
    if rows == [] then FlushRows(current)
    else if fits(TableText(head, current + [rows[0]])) then RowChunks(head, rows[1..], current + [rows[0]], fits)
    else if fits(TableText(head, [rows[0]])) then FlushRows(current) + RowChunks(head, rows[1..], [rows[0]], fits)
    else FlushRows(current) + [Oversized(rows[0])] + RowChunks(head, rows[1..], [], fits)
  }

  /** One turn of the row loop, with the chunks made so far. */
  lemma RowStep(chunks: seq<TableChunk>, head: string, rows: seq<string>, next: nat, current: seq<string>,
                fits: string -> bool)
    requires next < |rows|
    ensures var row, after := rows[next], rows[next + 1..];
            chunks + RowChunks(head, rows[next..], current, fits)
            == if fits(TableText(head, current + [row])) then chunks + RowChunks(head, after, current + [row], fits)
               else if fits(TableText(head, [row])) then
                 chunks + FlushRows(current) + RowChunks(head, after, [row], fits)
               else chunks + FlushRows(current) + [Oversized(row)] + RowChunks(head, after, [], fits)
  {
    hide TableText, FlushRows;
    var row, after, flushed := rows[next], rows[next + 1..], FlushRows(current);
    assert rows[next..][0] == row && rows[next..][1..] == after;
    Regroup(chunks, flushed, RowChunks(head, after, [row], fits));
    Regroup(chunks, flushed + [Oversized(row)], RowChunks(head, after, [], fits));
    Regroup(chunks, flushed, [Oversized(row)]);
  }

  lemma RowsLeft(head: string, current: seq<string>, fits: string -> bool)
    ensures RowChunks(head, [], current, fits) == FlushRows(current)
  {
  }

  method ChunkTable(table: string, fits: string -> bool) returns (chunks: seq<TableChunk>)
    ensures var lines := VisibleRows(SplitLines(table));
            chunks == if |lines| < 2 || !IsSeparator(lines[1]) then [Guarded(table)]
                      else if fits(table) then [Whole(table)]
                      else if |lines| == 2 then [Guarded(table)]
                      else RowChunks(lines[0] + "\n" + lines[1], lines[2..], [], fits)
  {
    hide IsSeparator, TableText, VisibleRows, SplitLines, Strip, RowChunks;
    var lines := VisibleRows(SplitLines(table));
    if |lines| < 2 || !IsSeparator(lines[1]) {
      return [Guarded(table)];
    }
    if fits(table) {
      return [Whole(table)];
    }
    var head, rows := lines[0] + "\n" + lines[1], lines[2..];
    chunks := [];
    var current: seq<string>, next := [], 0;
    assert rows[0..] == rows && chunks + RowChunks(head, rows, [], fits) == RowChunks(head, rows, [], fits);
    while next < |rows|
      invariant 0 <= next <= |rows|
      invariant next == 0 ==> chunks == [] && current == []
      invariant next > 0 ==> chunks != [] || current != []
      invariant RowChunks(head, rows, [], fits) == chunks + RowChunks(head, rows[next..], current, fits)
    {
      var row := rows[next];
      RowStep(chunks, head, rows, next, current, fits);
      next := next + 1;
      if fits(TableText(head, current + [row])) {
        current := current + [row];
        continue;
      }
      assert chunks + FlushRows([]) == chunks;
      if current != [] {
        chunks := chunks + [Rows(current)];
        current := [];
      }
      if fits(TableText(head, [row])) {
        current := [row];
      } else {
        chunks := chunks + [Oversized(row)];
      }
    }
    RowsLeft(head, current, fits);
    assert rows[next..] == [] && chunks + FlushRows([]) == chunks;
    if current != [] {
      chunks := chunks + [Rows(current)];
    }
    if chunks == [] {
      chunks := [Guarded(table)];
    }
  }

  /** The rows in the chunks, in order. */
  function RowsOf(chunks: seq<TableChunk>): seq<string> {
    if chunks == [] then []
    else (match chunks[0] { case Rows(rows) => rows case Oversized(row) => [row] case _ => [] }) + RowsOf(chunks[1..])
  }

  /** A chunk of rows is within the size, and a row goes to the size guard only if it does not fit alone. */
  predicate Sized(head: string, chunk: TableChunk, fits: string -> bool) {
    match chunk
    case Rows(rows) => rows != [] && fits(TableText(head, rows))
    case Oversized(row) => !fits(TableText(head, [row]))
    case _ => false
  }

  predicate AllSized(head: string, chunks: seq<TableChunk>, fits: string -> bool) {
    forall i :: 0 <= i < |chunks| ==> Sized(head, chunks[i], fits)
  }

  function FirstRow(chunk: TableChunk): Option<string> {
    match chunk
    case Rows(rows) => if rows == [] then None else Some(rows[0])
    case Oversized(row) => Some(row)
    case _ => None
  }

  /** The first chunk had no room for the first row of the second. */
  predicate Full(head: string, first: TableChunk, second: TableChunk, fits: string -> bool) {
    first.Rows? && FirstRow(second).Some? ==> !fits(TableText(head, first.rows + [FirstRow(second).value]))
  }

  predicate AllFull(head: string, chunks: seq<TableChunk>, fits: string -> bool) {
    |chunks| < 2 || (Full(head, chunks[0], chunks[1], fits) && AllFull(head, chunks[1..], fits))
  }

  lemma FlushSized(head: string, current: seq<string>, tail: seq<TableChunk>, fits: string -> bool)
    requires current != [] ==> fits(TableText(head, current))
    requires AllSized(head, tail, fits)
    ensures RowsOf(FlushRows(current) + tail) == current + RowsOf(tail)
    ensures AllSized(head, FlushRows(current) + tail, fits)
  {
    hide TableText;
    if current == [] {
      assert [] + tail == tail;
    } else {
      assert ([Rows(current)] + tail)[1..] == tail;
    }
  }

  lemma OversizedSized(head: string, row: string, tail: seq<TableChunk>, fits: string -> bool)
    requires !fits(TableText(head, [row])) && AllSized(head, tail, fits)
    ensures RowsOf([Oversized(row)] + tail) == [row] + RowsOf(tail)
    ensures AllSized(head, [Oversized(row)] + tail, fits)
  {
    hide TableText;
    assert ([Oversized(row)] + tail)[1..] == tail;
  }

  /** Every row comes out once, in order, in chunks that fit. */
  lemma {:induction false} RowChunksConserve(head: string, rows: seq<string>, current: seq<string>,
                                             fits: string -> bool)
    requires current != [] ==> fits(TableText(head, current))
    ensures RowsOf(RowChunks(head, rows, current, fits)) == current + rows
    ensures AllSized(head, RowChunks(head, rows, current, fits), fits)
    decreases rows
  {
    hide TableText, FlushRows, AllSized;
    if rows == [] {
      assert AllSized(head, [], fits) by { NothingSized(head, fits); }
      FlushSized(head, current, [], fits);
      assert FlushRows(current) + [] == FlushRows(current);
    } else {
      var row, rest := rows[0], rows[1..];
      Regroup(current, [row], rest);
      assert rows == [row] + rest;
      if fits(TableText(head, current + [row])) {
        RowChunksConserve(head, rest, current + [row], fits);
      } else if fits(TableText(head, [row])) {
        RowChunksConserve(head, rest, [row], fits);
        FlushSized(head, current, RowChunks(head, rest, [row], fits), fits);
      } else {
        var after := RowChunks(head, rest, [], fits);
        RowChunksConserve(head, rest, [], fits);
        assert [] + rest == rest;
        OversizedSized(head, row, after, fits);
        FlushSized(head, current, [Oversized(row)] + after, fits);
        Regroup(FlushRows(current), [Oversized(row)], after);
      }
    }
  }

  lemma NothingSized(head: string, fits: string -> bool)
    ensures AllSized(head, [], fits)
  {
  }

  /** Header, separator and the rows in the chunks hold every visible character of the table. */
  lemma TableRowsConserve(table: string, fits: string -> bool)
    requires |VisibleRows(SplitLines(table))| >= 2
    ensures var lines := VisibleRows(SplitLines(table));
            var chunks := RowChunks(lines[0] + "\n" + lines[1], lines[2..], [], fits);
            Ink(lines[0]) + Ink(lines[1]) + InkAll(RowsOf(chunks)) == Ink(table)
  {
    hide VisibleRows, SplitLines, Ink, RowChunks, RowsOf;
    var lines := VisibleRows(SplitLines(table));
    InkSplitLines(table);
    InkVisibleRows(SplitLines(table));
    RowChunksConserve(lines[0] + "\n" + lines[1], lines[2..], [], fits);
    assert lines[1..][1..] == lines[2..];
    assert [] + lines[2..] == lines[2..];
  }

  /** The chunks begin with `row`, and none could have taken the row after it. */
  predicate FullFrom(head: string, chunks: seq<TableChunk>, row: string, fits: string -> bool) {
    chunks != [] && FirstRow(chunks[0]) == Some(row) && AllFull(head, chunks, fits)
  }

  lemma FlushFull(head: string, current: seq<string>, tail: seq<TableChunk>, row: string, fits: string -> bool)
    requires !fits(TableText(head, current + [row])) && FullFrom(head, tail, row, fits)
    ensures FullFrom(head, FlushRows(current) + tail, (current + [row])[0], fits)
  {
    hide TableText;
    if current == [] {
      assert [] + tail == tail;
    } else {
      assert ([Rows(current)] + tail)[1..] == tail;
    }
  }

  lemma OversizedFull(head: string, row: string, tail: seq<TableChunk>, fits: string -> bool)
    requires AllFull(head, tail, fits)
    ensures FullFrom(head, [Oversized(row)] + tail, row, fits)
  {
    assert ([Oversized(row)] + tail)[1..] == tail;
  }

  /** No chunk could have taken the row after it. */
  lemma {:induction false} RowChunksAreFull(head: string, rows: seq<string>, current: seq<string>, fits: string -> bool)
    ensures AllFull(head, RowChunks(head, rows, current, fits), fits)
    ensures current + rows != [] ==> FullFrom(head, RowChunks(head, rows, current, fits), (current + rows)[0], fits)
    decreases rows
  {
    hide TableText, Full;
    if rows != [] {
      hide FlushRows, AllFull;
      var row, rest := rows[0], rows[1..];
      assert rows == [row] + rest;
      Regroup(current, [row], rest);
      assert (current + rows)[0] == (current + [row])[0];
      if fits(TableText(head, current + [row])) {
        RowChunksAreFull(head, rest, current + [row], fits);
      } else if fits(TableText(head, [row])) {
        RowChunksAreFull(head, rest, [row], fits);
        FlushFull(head, current, RowChunks(head, rest, [row], fits), row, fits);
      } else {
        var after := RowChunks(head, rest, [], fits);
        RowChunksAreFull(head, rest, [], fits);
        OversizedFull(head, row, after, fits);
        FlushFull(head, current, [Oversized(row)] + after, row, fits);
        Regroup(FlushRows(current), [Oversized(row)], after);
      }
    }
  }
}
