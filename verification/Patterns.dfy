/** What the line patterns match: each recogniser against the shape of the lines it accepts. */
module Patterns {
  import opened Results
  import opened Text
  import opened Blocks
  import opened Sectioner
  import opened Headings

  // ----- Runs of one character -----

  lemma {:induction false} RunLengthOf(c: char, n: nat, tail: string)
    requires tail != "" ==> tail[0] != c
    ensures RunLength(Repeat(c, n) + tail, c) == n
  {
    if n == 0 {
      assert Repeat(c, n) + tail == tail;
    } else {
      RunLengthOf(c, n - 1, tail);
      assert (Repeat(c, n) + tail)[1..] == Repeat(c, n - 1) + tail;
    }
  }

  lemma {:induction false} RunParts(s: string, c: char)
    ensures var n := RunLength(s, c);
            s == Repeat(c, n) + s[n..] && (n < |s| ==> s[n] != c)
  {
    if s != "" && s[0] == c {
      RunParts(s[1..], c);
      var n := RunLength(s, c);
      assert s[1..][n - 1..] == s[n..];
      assert Repeat(c, n) == [c] + Repeat(c, n - 1);
      assert s == [s[0]] + s[1..];
    } else {
      assert s == Repeat(c, 0) + s[0..];
    }
  }

  // ----- Fences -----

  /** Whitespace, a run of three or more backticks or tildes, and a tail that does not go on with it. */
  ghost predicate FenceShape(line: string, mark: FenceMark) {
    && mark.character in {'`', '~'} && mark.length >= 3
    && (mark.tail != "" ==> mark.tail[0] != mark.character)
    && exists lead :: Blank(lead) && line == lead + Repeat(mark.character, mark.length) + mark.tail
  }

  lemma FenceIff(line: string, mark: FenceMark)
    ensures FenceOf(line) == Some(mark) <==> FenceShape(line, mark)
  {
    hide RunLength, StripLeft, Blank;
    var lead := StripLeftParts(line);
    var rest := StripLeft(line);
    if FenceOf(line) == Some(mark) {
      RunParts(rest, mark.character);
      assert line == lead + Repeat(mark.character, mark.length) + mark.tail;
    }
    if FenceShape(line, mark) {
      var before :| Blank(before) && line == before + Repeat(mark.character, mark.length) + mark.tail;
      var body := Repeat(mark.character, mark.length) + mark.tail;
      assert line == before + body && body[0] == mark.character;
      StripLeftOf(before, body);
      RunLengthOf(mark.character, mark.length, mark.tail);
      assert body[mark.length..] == mark.tail;
    }
  }

  /** A line closes a fence when, but for whitespace, it is a run of the same character at least as long. */
  lemma ClosesIff(character: char, length: nat, line: string)
    requires character in {'`', '~'} && length >= 3
    ensures NextFence(Inside(character, length), line) == Outside
       <==> exists n: nat, lead, trail :: n >= length && Blank(lead) && Blank(trail)
                                          && line == lead + Repeat(character, n) + trail
  {
    hide FenceOf, Blank, Repeat;
    if NextFence(Inside(character, length), line) == Outside {
      var mark := FenceOf(line).value;
      FenceIff(line, mark);
      var lead :| Blank(lead) && line == lead + Repeat(mark.character, mark.length) + mark.tail;
      assert mark.length >= length && Blank(lead) && Blank(mark.tail)
          && line == lead + Repeat(character, mark.length) + mark.tail;
    }
    if n: nat, lead, trail :| n >= length && Blank(lead) && Blank(trail)
                              && line == lead + Repeat(character, n) + trail
    {
      assert trail != "" ==> trail[0] != character by { BlankStart(trail); }
      FenceIff(line, FenceMark(character, n, trail));
    }
  }

  lemma BlankStart(s: string)
    requires Blank(s)
    ensures s != "" ==> IsSpace(s[0])
  {
  }

  /** Only a fence opens a fence, and it gives its own character and length. */
  lemma OpensIff(line: string, character: char, length: nat)
    ensures NextFence(Outside, line) == Inside(character, length)
       <==> exists tail :: FenceShape(line, FenceMark(character, length, tail))
  {
    hide FenceOf, FenceShape;
    if NextFence(Outside, line) == Inside(character, length) {
      FenceIff(line, FenceOf(line).value);
    }
    if tail :| FenceShape(line, FenceMark(character, length, tail)) {
      FenceIff(line, FenceMark(character, length, tail));
    }
  }

  // ----- List items -----

  /** A bullet, or a number with a point or parenthesis. */
  predicate ItemMark(mark: string) {
    || mark in {"-", "+", "*"}
    || (|mark| > 1 && AllDigits(mark[..|mark| - 1]) && mark[|mark| - 1] in {'.', ')'})
  }

  ghost predicate ItemShape(line: string, lead: string, mark: string, rest: string) {
    Blank(lead) && ItemMark(mark) && rest != "" && Indents(rest[0]) && line == lead + mark + rest
  }

  lemma {:induction false} DigitRunOf(digits: string, rest: string)
    requires AllDigits(digits) && (rest != "" ==> !IsDigit(rest[0]))
    ensures DigitRun(digits + rest) == |digits|
  {
    if digits == "" {
      assert digits + rest == rest;
    } else {
      assert (digits + rest)[1..] == digits[1..] + rest;
      DigitRunOf(digits[1..], rest);
    }
  }

  lemma ItemIff(line: string)
    ensures ListItem(line) <==> exists lead, mark, rest :: ItemShape(line, lead, mark, rest)
  {
    hide StripLeft, DigitRun;
    var lead := StripLeftParts(line);
    var body := StripLeft(line);
    if ListItem(line) {
      var n := DigitRun(body);
      var width := if body[0] in {'-', '+', '*'} then 1 else n + 1;
      assert body == body[..width] + body[width..];
      assert body[0] in {'-', '+', '*'} ==> body[..width] == [body[0]];
      assert body[..width][..width - 1] == body[..width - 1];
      assert ItemMark(body[..width]);
      assert line == lead + body[..width] + body[width..];
      assert ItemShape(line, lead, body[..width], body[width..]);
    }
    if before, mark, rest :| ItemShape(line, before, mark, rest) {
      var all := mark + rest;
      assert line == before + all && all[0] == mark[0];
      StripLeftOf(before, all);
      if mark !in {"-", "+", "*"} {
        var digits := mark[..|mark| - 1];
        assert all == digits + ([mark[|mark| - 1]] + rest);
        DigitRunOf(digits, [mark[|mark| - 1]] + rest);
        assert all[|digits|] == mark[|mark| - 1] && all[|mark|] == rest[0];
      }
    }
  }

  /** A list goes on when, after blank lines only, a line is an item or indented. */
  lemma {:induction false} ListContinuesIff(lines: seq<string>)
    ensures ListContinues(lines)
       <==> exists k :: 0 <= k < |lines| && !Blank(lines[k]) && Continues(lines[k])
                        && forall i :: 0 <= i < k ==> Blank(lines[i])
  {
    hide Blank, ListItem;
    if lines != [] {
      var rest := lines[1..];
      assert forall i :: 0 <= i < |rest| ==> rest[i] == lines[i + 1];
      ListContinuesIff(rest);
      if Blank(lines[0]) {
        if k :| 0 <= k < |rest| && !Blank(rest[k]) && Continues(rest[k]) && forall i :: 0 <= i < k ==> Blank(rest[i]) {
          assert !Blank(lines[k + 1]) && Continues(lines[k + 1]);
          assert forall i :: 0 <= i < k + 1 ==> Blank(lines[i]) by {
            assert forall i :: 1 <= i < k + 1 ==> lines[i] == rest[i - 1];
          }
        }
        if k :| && 0 <= k < |lines| && !Blank(lines[k]) && Continues(lines[k])
                && forall i :: 0 <= i < k ==> Blank(lines[i]) {
          assert !Blank(rest[k - 1]) && Continues(rest[k - 1]);
          assert forall i :: 0 <= i < k - 1 ==> Blank(rest[i]);
        }
      } else if Continues(lines[0]) {
        assert !Blank(lines[0]) && Continues(lines[0]);
      }
    }
  }

  // ----- Headings -----

  /** A heading of a level is that many hashes, one to six, and then a space or tab. */
  lemma HeadingIff(line: string, level: nat)
    ensures (HeadingOf(line).Some? && HeadingOf(line).value.level == level)
       <==> 1 <= level <= 6 && level < |line| && Indents(line[level]) && line[..level] == Repeat('#', level)
  {
    hide TitleOf, RunLength;
    RunParts(line, '#');
    var n := RunLength(line, '#');
    assert line[..n] == Repeat('#', n);
    if 1 <= level <= 6 && level < |line| && Indents(line[level]) && line[..level] == Repeat('#', level) {
      assert line == Repeat('#', level) + line[level..];
      RunLengthOf('#', level, line[level..]);
    }
  }

  predicate AllIndents(s: string) {
    forall i :: 0 <= i < |s| ==> Indents(s[i])
  }

  predicate AllHashes(s: string) {
    forall i :: 0 <= i < |s| ==> s[i] == '#'
  }

  /** From `i` on the text is a closing run of hashes, set off by spaces or tabs. */
  predicate ClosedAt(s: string, i: nat, j: nat, k: nat) {
    i < j < k <= |s| && AllIndents(s[i..j]) && AllHashes(s[j..k]) && AllIndents(s[k..])
  }

  lemma {:induction false} DropIndentRightOf(body: string, trail: string)
    requires AllIndents(trail) && (body != "" ==> !Indents(body[|body| - 1]))
    ensures DropIndentRight(body + trail) == body
  {
    if trail == "" {
      assert body + trail == body;
    } else {
      var s := body + trail;
      assert s[..|s| - 1] == body + trail[..|trail| - 1];
      DropIndentRightOf(body, trail[..|trail| - 1]);
    }
  }

  lemma {:induction false} DropHashesRightOf(body: string, trail: string)
    requires AllHashes(trail) && (body != "" ==> body[|body| - 1] != '#')
    ensures DropHashesRight(body + trail) == body
  {
    if trail == "" {
      assert body + trail == body;
    } else {
      var s := body + trail;
      assert s[..|s| - 1] == body + trail[..|trail| - 1];
      DropHashesRightOf(body, trail[..|trail| - 1]);
    }
  }

  lemma {:induction false} DropIndentRightParts(s: string) returns (trail: string)
    ensures s == DropIndentRight(s) + trail && AllIndents(trail)
    ensures DropIndentRight(s) != "" ==> !Indents(DropIndentRight(s)[|DropIndentRight(s)| - 1])
  {
    trail := "";
    if s != "" && Indents(s[|s| - 1]) {
      var rest := DropIndentRightParts(s[..|s| - 1]);
      trail := rest + [s[|s| - 1]];
      assert s == s[..|s| - 1] + [s[|s| - 1]];
    }
  }

  lemma {:induction false} DropHashesRightParts(s: string) returns (trail: string)
    ensures s == DropHashesRight(s) + trail && AllHashes(trail)
    ensures DropHashesRight(s) != "" ==> DropHashesRight(s)[|DropHashesRight(s)| - 1] != '#'
  {
    trail := "";
    if s != "" && s[|s| - 1] == '#' {
      var rest := DropHashesRightParts(s[..|s| - 1]);
      trail := rest + [s[|s| - 1]];
      assert s == s[..|s| - 1] + [s[|s| - 1]];
    }
  }

  lemma StripIgnoresIndents(body: string, trail: string)
    requires AllIndents(trail)
    ensures Strip(body + trail) == Strip(body)
  {
    hide Strip;
    var lead, after := StripParts(body);
    assert body + trail == lead + Strip(body) + (after + trail);
    assert Blank(after + trail);
    StripOf(lead, Strip(body), after + trail);
  }

  lemma TitleClosed(s: string, i: nat, j: nat, k: nat)
    requires ClosedAt(s, i, j, k)
    ensures TitleOf(s) == Strip(s[..i])
  {
    hide Strip, DropIndentRight, DropHashesRight;
    assert s == s[..k] + s[k..] && s[k - 1] == s[j..k][k - 1 - j];
    DropIndentRightOf(s[..k], s[k..]);
    assert s[..k] == s[..j] + s[j..k] && s[j - 1] == s[i..j][j - 1 - i];
    DropHashesRightOf(s[..j], s[j..k]);
    assert s[..j] == s[..i] + s[i..j];
    StripIgnoresIndents(s[..i], s[i..j]);
  }

  lemma TitleOpen(s: string)
    ensures TitleOf(s) == Strip(s) || exists i: nat, j: nat, k: nat :: ClosedAt(s, i, j, k)
  {
    hide Strip, DropIndentRight, DropHashesRight;
    var bare := DropIndentRight(s);
    var open := DropHashesRight(bare);
    var trail := DropIndentRightParts(s);
    var hashes := DropHashesRightParts(bare);
    if |open| < |bare| && open != "" && Indents(open[|open| - 1]) {
      assert s[|open| - 1..|open|] == [open[|open| - 1]];
      assert s[|open|..|bare|] == hashes && s[|bare|..] == trail;
      assert ClosedAt(s, |open| - 1, |open|, |bare|);
    }
  }

  /** A closing run of hashes is no part of the title; without one the whole text is. */
  lemma TitleIff(s: string)
    ensures forall i: nat, j: nat, k: nat :: ClosedAt(s, i, j, k) ==> TitleOf(s) == Strip(s[..i])
    ensures (forall i: nat, j: nat, k: nat :: !ClosedAt(s, i, j, k)) ==> TitleOf(s) == Strip(s)
  {
    hide TitleOf, Strip;
    forall i: nat, j: nat, k: nat | ClosedAt(s, i, j, k) ensures TitleOf(s) == Strip(s[..i]) {
      TitleClosed(s, i, j, k);
    }
    TitleOpen(s);
  }

  /** What ends a line for the heading pattern. */
  predicate HeadingEnd(text: string, ending: string) {
    || (ending == "" && (text == "" || text[|text| - 1] != '\n'))
    || (ending == "\n" && (text == "" || text[|text| - 1] != '\r'))
    || ending == "\r\n"
  }

  lemma {:induction false} IndentRunOf(gap: string, rest: string)
    requires AllIndents(gap) && (rest != "" ==> !Indents(rest[0]))
    ensures IndentRun(gap + rest) == |gap|
  {
    if gap == "" {
      assert gap + rest == rest;
    } else {
      assert (gap + rest)[1..] == gap[1..] + rest;
      IndentRunOf(gap[1..], rest);
    }
  }

  lemma DropLineFeedOf(text: string, ending: string)
    requires HeadingEnd(text, ending)
    ensures DropLineFeed(text + ending) == text
  {
    var s := text + ending;
    if ending == "\r\n" {
      assert s[..|s| - 1] == text + "\r" && (text + "\r")[..|text|] == text;
    } else if ending == "\n" {
      assert s[..|s| - 1] == text;
    } else {
      assert s == text;
    }
  }

  /** The title is taken from the text between the marks with their spaces or tabs and the line's end. */
  lemma HeadingTitle(level: nat, gap: string, text: string, ending: string)
    requires 1 <= level <= 6 && gap != "" && AllIndents(gap)
    requires (text != "" ==> !Indents(text[0])) && HeadingEnd(text, ending)
    ensures HeadingOf(Repeat('#', level) + gap + text + ending) == Some(Heading(level, TitleOf(text)))
  {
    hide TitleOf, RunLength, IndentRun, DropLineFeed;
    var line, rest := Repeat('#', level) + gap + text + ending, gap + (text + ending);
    assert line == Repeat('#', level) + rest && rest[0] == gap[0];
    RunLengthOf('#', level, rest);
    assert line[level..] == rest;
    assert text + ending != "" ==> !Indents((text + ending)[0]);
    IndentRunOf(gap, text + ending);
    assert rest[|gap|..] == text + ending;
    DropLineFeedOf(text, ending);
  }

  // ----- Cells -----

  /** Every pipe in the cell is escaped; the first character may be escaped by what comes before the cell. */
  predicate PipesEscaped(escaped: bool, cell: string) {
    forall k: nat :: k < |cell| ==> PipeEscaped(escaped, cell, k)
  }

  predicate PipeEscaped(escaped: bool, cell: string, k: nat)
    requires k < |cell|
  {
    cell[k] == '|' ==> if k == 0 then escaped else cell[k - 1] == '\\'
  }

  /** No backslash stands before the pipe that ends the cell. */
  predicate EndsUnescaped(escaped: bool, cell: string) {
    if cell == "" then !escaped else cell[|cell| - 1] != '\\'
  }

  predicate CellCut(escaped: bool, cells: seq<string>, i: nat)
    requires i < |cells|
  {
    PipesEscaped(escaped, cells[i]) && (i < |cells| - 1 ==> EndsUnescaped(escaped, cells[i]))
  }

  predicate LaterCellsCut(cells: seq<string>) {
    forall i: nat :: 1 <= i < |cells| ==> CellCut(false, cells, i)
  }

  /**
   The cells, joined by pipes, are the text, which is cut at every pipe that no backslash escapes, and
   nowhere else.
   */
  lemma {:induction false} CellsAreCut(escaped: bool, s: string)
    ensures var cells := SplitPipes(escaped, s);
            Join(cells, "|") == s && CellCut(escaped, cells, 0) && LaterCellsCut(cells)
    decreases s
  {
    hide PipesEscaped, EndsUnescaped, LaterCellsCut, Join;
    if s == "" {
      EmptyCell(escaped);
      OneCell("");
    } else if s[0] == '|' && !escaped {
      CellsAreCut(false, s[1..]);
      EmptyCell(escaped);
      CellBefore(SplitPipes(false, s[1..]), s[1..]);
      assert s == "|" + s[1..];
    } else {
      var rest := SplitPipes(s[0] == '\\', s[1..]);
      CellsAreCut(s[0] == '\\', s[1..]);
      CellGrows(escaped, s[0], rest[0]);
      CellLonger(s[0], rest);
      assert s == [s[0]] + s[1..];
    }
  }

  lemma OneCell(cell: string)
    ensures LaterCellsCut([cell]) && Join([cell], "|") == cell
  {
  }

  lemma CellBefore(cells: seq<string>, s: string)
    requires cells != [] && Join(cells, "|") == s && CellCut(false, cells, 0) && LaterCellsCut(cells)
    ensures LaterCellsCut([""] + cells) && Join([""] + cells, "|") == "|" + s
  {
    hide PipesEscaped, EndsUnescaped;
    var all := [""] + cells;
    assert all[1..] == cells;
    forall i: nat | 1 <= i < |all| ensures CellCut(false, all, i) {
      assert CellCut(false, cells, i - 1);
    }
    assert "" + "|" + s == "|" + s;
  }

  lemma CellLonger(c: char, cells: seq<string>)
    requires cells != [] && LaterCellsCut(cells)
    ensures LaterCellsCut([[c] + cells[0]] + cells[1..])
    ensures Join([[c] + cells[0]] + cells[1..], "|") == [c] + Join(cells, "|")
  {
    hide PipesEscaped, EndsUnescaped;
    var all := [[c] + cells[0]] + cells[1..];
    assert all[1..] == cells[1..];
    forall i: nat | 1 <= i < |all| ensures CellCut(false, all, i) {
      assert CellCut(false, cells, i) && all[i] == cells[i];
    }
    if |cells| > 1 {
      var later := Join(cells[1..], "|");
      assert [c] + cells[0] + "|" + later == [c] + (cells[0] + "|" + later);
    }
  }

  lemma EmptyCell(escaped: bool)
    ensures PipesEscaped(escaped, "") && (!escaped ==> EndsUnescaped(escaped, ""))
  {
  }

  lemma CellGrows(escaped: bool, c: char, cell: string)
    requires PipesEscaped(c == '\\', cell) && (c == '|' ==> escaped)
    ensures PipesEscaped(escaped, [c] + cell)
    ensures EndsUnescaped(c == '\\', cell) ==> EndsUnescaped(escaped, [c] + cell)
  {
    var all := [c] + cell;
    forall k: nat | k < |all| ensures PipeEscaped(escaped, all, k) {
      if k > 0 {
        assert PipeEscaped(c == '\\', cell, k - 1);
      }
    }
  }
}
