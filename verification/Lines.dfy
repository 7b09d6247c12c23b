/** Texts as lines: with and without their breaks, and what of them an operation keeps whole. */
module Lines {
  import opened Text

  // ----- Lines that show something -----

  predicate AllBlank(lines: seq<string>) {
    forall i :: 0 <= i < |lines| ==> Blank(lines[i])
  }

  /** The lines that are not blank, as they are and in order. */
  function Shown(lines: seq<string>): seq<string> {
    if lines == [] then [] else (if Blank(lines[0]) then [] else [lines[0]]) + Shown(lines[1..])
  }

  function Flatten(pieces: seq<seq<string>>): seq<string> {
    if pieces == [] then [] else pieces[0] + Flatten(pieces[1..])
  }

  /** The lines of each of several texts. */
  function LinesOf(texts: seq<string>): (pieces: seq<seq<string>>)
    ensures |pieces| == |texts|
    ensures forall i :: 0 <= i < |texts| ==> pieces[i] == SplitLines(texts[i])
  {
    if texts == [] then [] else [SplitLines(texts[0])] + LinesOf(texts[1..])
  }

  lemma {:induction false} ShownConcat(xs: seq<string>, ys: seq<string>)
    ensures Shown(xs + ys) == Shown(xs) + Shown(ys)
  {
    if xs == [] {
      assert xs + ys == ys;
    } else {
      assert (xs + ys)[1..] == xs[1..] + ys;
      ShownConcat(xs[1..], ys);
    }
  }

  lemma {:induction false} ShownBlank(lines: seq<string>)
    requires AllBlank(lines)
    ensures Shown(lines) == []
  {
    if lines != [] {
      assert forall i :: 0 <= i < |lines[1..]| ==> lines[1..][i] == lines[i + 1];
      ShownBlank(lines[1..]);
    }
  }

  /** Blank lines carry no ink. */
  lemma {:induction false} InkShown(lines: seq<string>)
    ensures InkAll(Shown(lines)) == InkAll(lines)
  {
    if lines != [] {
      InkShown(lines[1..]);
      InkBlank(lines[0]);
      if Blank(lines[0]) {
        assert Shown(lines) == Shown(lines[1..]);
      } else {
        InkAllCons(lines[0], Shown(lines[1..]));
      }
    }
  }

  lemma {:induction false} BlankText(s: string)
    requires Blank(s)
    ensures AllBlank(SplitLines(s))
  {
    hide LineEnd, LineWidth;
    if s != "" {
      InkBlank(s);
      InkFirstLine(s);
      InkBlank(s[..LineEnd(s)]);
      InkBlank(s[LineWidth(s)..]);
      BlankText(s[LineWidth(s)..]);
    }
  }

  lemma {:induction false} LinesOfConcat(xs: seq<string>, ys: seq<string>)
    ensures LinesOf(xs + ys) == LinesOf(xs) + LinesOf(ys)
  {
    hide SplitLines;
    if xs == [] {
      assert xs + ys == ys;
    } else {
      assert (xs + ys)[1..] == xs[1..] + ys;
      LinesOfConcat(xs[1..], ys);
    }
  }

  // ----- Runs of lines between blank lines -----

  /** At `n`, after blank lines only, `lines` has the lines of `piece`. */
  predicate RunAt(lines: seq<string>, n: nat, piece: seq<string>) {
    n + |piece| <= |lines| && AllBlank(lines[..n]) && lines[n..n + |piece|] == piece
  }

  /** The pieces are runs of the lines, whole and in order, with nothing but blank lines around them. */
  ghost predicate Woven(lines: seq<string>, pieces: seq<seq<string>>)
    decreases pieces
  {
    if pieces == [] then AllBlank(lines)
    else exists n: nat :: RunAt(lines, n, pieces[0]) && Woven(lines[n + |pieces[0]|..], pieces[1..])
  }

  lemma AllBlankConcat(xs: seq<string>, ys: seq<string>)
    ensures AllBlank(xs + ys) <==> AllBlank(xs) && AllBlank(ys)
  {
    assert forall i :: 0 <= i < |xs| ==> (xs + ys)[i] == xs[i];
    assert forall i :: 0 <= i < |ys| ==> (xs + ys)[|xs| + i] == ys[i];
  }

  lemma WovenCons(lead: seq<string>, piece: seq<string>, rest: seq<string>, pieces: seq<seq<string>>)
    requires AllBlank(lead) && Woven(rest, pieces)
    ensures Woven(lead + piece + rest, [piece] + pieces)
  {
    hide AllBlank;
    var lines, all := lead + piece + rest, [piece] + pieces;
    assert lines[..|lead|] == lead && lines[|lead|..|lead| + |piece|] == piece;
    assert lines[|lead| + |piece|..] == rest && all[1..] == pieces;
    assert RunAt(lines, |lead|, all[0]);
  }

  /** The blank lines before the first piece, and what follows it. */
  lemma WovenParts(lines: seq<string>, pieces: seq<seq<string>>) returns (lead: seq<string>, rest: seq<string>)
    requires Woven(lines, pieces) && pieces != []
    ensures lines == lead + pieces[0] + rest && AllBlank(lead) && Woven(rest, pieces[1..])
  {
    hide AllBlank;
    var n: nat :| RunAt(lines, n, pieces[0]) && Woven(lines[n + |pieces[0]|..], pieces[1..]);
    lead, rest := lines[..n], lines[n + |pieces[0]|..];
  }

  lemma WovenOne(lead: seq<string>, piece: seq<string>, trail: seq<string>)
    requires AllBlank(lead) && AllBlank(trail)
    ensures Woven(lead + piece + trail, [piece])
  {
    hide AllBlank, Woven;
    NothingWoven(trail);
    WovenCons(lead, piece, trail, []);
    assert [piece] + [] == [piece];
  }

  lemma NothingWoven(lines: seq<string>)
    requires AllBlank(lines)
    ensures Woven(lines, [])
  {
  }

  lemma WovenAfterBlank(lead: seq<string>, lines: seq<string>, pieces: seq<seq<string>>)
    requires AllBlank(lead) && Woven(lines, pieces)
    ensures Woven(lead + lines, pieces)
  {
    hide AllBlank, RunAt;
    if pieces == [] {
      AllBlankConcat(lead, lines);
    } else {
      var before, rest := WovenParts(lines, pieces);
      AllBlankConcat(lead, before);
      WovenCons(lead + before, pieces[0], rest, pieces[1..]);
      assert (lead + before) + pieces[0] + rest == lead + lines;
      assert [pieces[0]] + pieces[1..] == pieces;
    }
  }

  /** A piece may give up blank lines at its end. */
  lemma WovenPrefix(lead: seq<string>, piece: seq<string>, rest: seq<string>, prefix: seq<string>,
                    later: seq<seq<string>>)
    requires AllBlank(lead) && Woven(rest, later)
    requires prefix <= piece && AllBlank(piece[|prefix|..])
    ensures Woven(lead + piece + rest, [prefix] + later)
  {
    hide AllBlank, Woven;
    var trail := piece[|prefix|..];
    WovenAfterBlank(trail, rest, later);
    WovenCons(lead, prefix, trail + rest, later);
    assert lead + prefix + (trail + rest) == lead + (prefix + trail) + rest;
    assert prefix + trail == piece;
  }

  lemma {:induction false} WovenConcat(a: seq<string>, xs: seq<seq<string>>, b: seq<string>, ys: seq<seq<string>>)
    requires Woven(a, xs) && Woven(b, ys)
    ensures Woven(a + b, xs + ys)
    decreases xs
  {
    hide AllBlank, RunAt;
    if xs == [] {
      WovenAfterBlank(a, b, ys);
      assert xs + ys == ys;
    } else {
      var lead, rest := WovenParts(a, xs);
      WovenConcat(rest, xs[1..], b, ys);
      WovenCons(lead, xs[0], rest + b, xs[1..] + ys);
      assert lead + xs[0] + (rest + b) == a + b;
      assert [xs[0]] + (xs[1..] + ys) == xs + ys;
    }
  }

  /** So every line that shows something is in one piece, unchanged and in order. */
  lemma {:induction false} WovenShows(lines: seq<string>, pieces: seq<seq<string>>)
    requires Woven(lines, pieces)
    ensures Shown(lines) == Shown(Flatten(pieces))
    decreases pieces
  {
    hide AllBlank, RunAt;
    if pieces == [] {
      ShownBlank(lines);
    } else {
      var lead, rest := WovenParts(lines, pieces);
      ShownBlank(lead);
      ShownConcat(lead + pieces[0], rest);
      ShownConcat(lead, pieces[0]);
      assert [] + Shown(pieces[0]) == Shown(pieces[0]);
      WovenShows(rest, pieces[1..]);
      ShownConcat(pieces[0], Flatten(pieces[1..]));
    }
  }

  lemma {:induction false} FlattenConcat(xs: seq<seq<string>>, ys: seq<seq<string>>)
    ensures Flatten(xs + ys) == Flatten(xs) + Flatten(ys)
  {
    if xs == [] {
      assert xs + ys == ys;
    } else {
      assert (xs + ys)[1..] == xs[1..] + ys;
      FlattenConcat(xs[1..], ys);
      assert xs[0] + (Flatten(xs[1..]) + Flatten(ys)) == xs[0] + Flatten(xs[1..]) + Flatten(ys);
    }
  }

  /** The ink of several texts is the ink of all their lines. */
  lemma {:induction false} InkOfLines(texts: seq<string>)
    ensures InkAll(Flatten(LinesOf(texts))) == InkAll(texts)
  {
    hide SplitLines;
    if texts != [] {
      InkOfLines(texts[1..]);
      InkSplitLines(texts[0]);
      InkAllConcat(SplitLines(texts[0]), Flatten(LinesOf(texts[1..])));
      assert LinesOf(texts)[1..] == LinesOf(texts[1..]);
    }
  }

  /** Texts whose lines are woven into those of a text show what it shows. */
  lemma WovenInk(lines: seq<string>, texts: seq<string>)
    requires Woven(lines, LinesOf(texts))
    ensures InkAll(texts) == InkAll(lines)
  {
    hide Woven, LinesOf;
    WovenShows(lines, LinesOf(texts));
    InkShown(lines);
    InkShown(Flatten(LinesOf(texts)));
    InkOfLines(texts);
  }

  // ----- Lines with their breaks -----

  function Concat(xs: seq<string>): string {
    if xs == [] then "" else xs[0] + Concat(xs[1..])
  }

  lemma NothingConcat()
    ensures Concat([]) == ""
  {
  }

  lemma ConcatCons(x: string, xs: seq<string>)
    ensures Concat([x] + xs) == x + Concat(xs)
  {
    assert ([x] + xs)[1..] == xs;
  }

  /** `s.splitlines(keepends=True)`. */
  function SplitKeep(s: string): seq<string> {
    if s == "" then [] else [s[..LineWidth(s)]] + SplitKeep(s[LineWidth(s)..])
  }

  predicate KeptLine(line: string) {
    line != "" && LineWidth(line) == |line|
  }

  /** `line` ends in a break of its own, which the text after it does not extend. */
  predicate Ended(line: string, next: string) {
    && LineEnd(line) < |line|
    && !(line[|line| - 1] == '\r' && next != "" && next[0] == '\n')
  }

  /** The consecutive lines of a text, each with its break; only the last may lack one. */
  predicate KeptLines(lines: seq<string>) {
    && (forall i :: 0 <= i < |lines| ==> KeptLine(lines[i]))
    && (forall i :: 0 <= i < |lines| - 1 ==> Ended(lines[i], lines[i + 1]))
  }

  function Content(line: string): string {
    line[..LineEnd(line)]
  }

  function Contents(lines: seq<string>): (contents: seq<string>)
    ensures |contents| == |lines|
  {
    if lines == [] then [] else [Content(lines[0])] + Contents(lines[1..])
  }

  lemma KeptLinesPrefix(lines: seq<string>, n: nat)
    requires KeptLines(lines) && n <= |lines|
    ensures KeptLines(lines[..n]) && KeptLines(lines[n..])
  {
    hide KeptLine, Ended;
    assert forall i :: 0 <= i < |lines[n..]| ==> lines[n..][i] == lines[n + i];
  }

  /** Reading the first line of a text that begins with a kept line. */
  lemma FirstLineOf(line: string, rest: string)
    requires KeptLine(line) && (rest != "" ==> Ended(line, rest))
    ensures LineEnd(line + rest) == LineEnd(line) && LineWidth(line + rest) == |line|
  {
    var n := LineEnd(line);
    if rest == "" {
      assert line + rest == line;
    } else {
      assert line == line[..n] + line[n..];
      assert line + rest == line[..n] + (line[n..] + rest);
      assert (line[n..] + rest)[0] == line[n];
      LineEndOf(line[..n], line[n..] + rest);
    }
  }

  lemma FirstKept(s: string)
    requires s != ""
    ensures var w := LineWidth(s);
            && KeptLine(s[..w]) && LineEnd(s[..w]) == LineEnd(s)
            && (s[w..] != "" ==> Ended(s[..w], s[w..]))
  {
    var n, w := LineEnd(s), LineWidth(s);
    var line := s[..w];
    assert line == s[..n] + line[n..];
    LineEndOf(s[..n], line[n..]);
  }

  lemma {:induction false} SplitKeepKept(s: string)
    ensures KeptLines(SplitKeep(s)) && Concat(SplitKeep(s)) == s
  {
    hide KeptLine, Ended, LineWidth;
    if s != "" {
      var line, rest := s[..LineWidth(s)], s[LineWidth(s)..];
      FirstKept(s);
      SplitKeepKept(rest);
      assert s == line + rest;
      KeptLinesCons(line, SplitKeep(rest));
      if rest != "" {
        EndedByStart(line, rest, SplitKeep(rest)[0]);
      }
    }
  }

  lemma EndedByStart(line: string, rest: string, next: string)
    requires Ended(line, rest) && rest != "" && next == rest[..LineWidth(rest)]
    ensures Ended(line, next)
  {
  }

  lemma KeptLinesCons(line: string, lines: seq<string>)
    ensures KeptLine(line) && KeptLines(lines) && (lines != [] ==> Ended(line, lines[0])) ==> KeptLines([line] + lines)
  {
    hide KeptLine, Ended;
    var all := [line] + lines;
    assert forall i :: 0 <= i < |lines| ==> all[i + 1] == lines[i];
    assert forall i :: 1 <= i < |all| ==> all[i] == lines[i - 1];
  }

  lemma {:induction false} SplitLinesConcat(lines: seq<string>)
    requires KeptLines(lines)
    ensures SplitLines(Concat(lines)) == Contents(lines)
  {
    hide KeptLine, Ended, LineWidth;
    if lines != [] {
      var line, rest := lines[0], lines[1..];
      KeptLinesPrefix(lines, 1);
      SplitLinesConcat(rest);
      assert KeptLine(line);
      if rest != [] {
        assert Ended(lines[0], lines[1]);
        EndedByConcat(line, rest);
      }
      KeptIsNonEmpty(line);
      FirstLineOf(line, Concat(rest));
      var s := line + Concat(rest);
      assert s[LineWidth(s)..] == Concat(rest);
      assert s[..LineEnd(s)] == line[..LineEnd(line)];
    }
  }

  /** Lines that are kept with their breaks are the lines of their text. */
  lemma {:induction false} SplitKeepConcat(lines: seq<string>)
    requires KeptLines(lines)
    ensures SplitKeep(Concat(lines)) == lines
  {
    hide KeptLine, Ended, LineWidth;
    if lines != [] {
      var line, rest := lines[0], lines[1..];
      KeptLinesPrefix(lines, 1);
      SplitKeepConcat(rest);
      assert KeptLine(line);
      if rest != [] {
        assert Ended(lines[0], lines[1]);
        EndedByConcat(line, rest);
      }
      KeptIsNonEmpty(line);
      FirstLineOf(line, Concat(rest));
      var s := line + Concat(rest);
      assert s[LineWidth(s)..] == Concat(rest) && s[..LineWidth(s)] == line;
    }
  }

  /** A line of text and the line feed that ends it. */
  lemma FeedIsKept(content: string)
    requires NoBreak(content)
    ensures KeptLine(content + "\n") && (content != "" ==> KeptLine(content))
    ensures forall next: string :: Ended(content + "\n", next)
  {
    LineEndOf(content, "\n");
    LineEndOf(content, "");
    assert content + "" == content;
  }

  lemma {:induction false} InkSplitKeep(s: string)
    ensures InkAll(SplitKeep(s)) == Ink(s)
  {
    hide LineWidth;
    if s != "" {
      var w := LineWidth(s);
      InkSplitKeep(s[w..]);
      assert s == s[..w] + s[w..];
      InkConcat(s[..w], s[w..]);
      InkAllCons(s[..w], SplitKeep(s[w..]));
    }
  }

  lemma KeptIsNonEmpty(line: string)
    requires KeptLine(line)
    ensures line != ""
  {
  }

  lemma EndedByConcat(line: string, rest: seq<string>)
    requires rest != [] && KeptLine(rest[0]) && Ended(line, rest[0])
    ensures Ended(line, Concat(rest))
  {
  }

  lemma SplitFirst(line: string, rest: string)
    requires KeptLine(line) && (rest != "" ==> Ended(line, rest))
    ensures SplitLines(line + rest) == [Content(line)] + SplitLines(rest)
  {
    hide Ended, LineWidth, LineEnd;
    FirstLineOf(line, rest);
    assert (line + rest)[|line|..] == rest;
    FirstLineOf(line, "");
    assert (line + rest)[..LineEnd(line)] == Content(line) by { ContentIsPrefix(line, rest); }
  }

  lemma ContentIsPrefix(line: string, rest: string)
    ensures LineEnd(line) <= |line + rest| && (line + rest)[..LineEnd(line)] == Content(line)
  {
  }

  /** A last line, with or without its break, and one more break character. */
  lemma LastLineAndBreak(line: string, c: char)
    requires KeptLine(line) && c in {'\r', '\n'}
    ensures Ended(line, [c]) || (KeptLine(line + [c]) && Content(line + [c]) == Content(line))
  {
    var n := LineEnd(line);
    assert line == line[..n] + line[n..];
    assert line + [c] == line[..n] + (line[n..] + [c]);
    LineEndOf(line[..n], line[n..] + [c]);
  }

  /** Appending a carriage return or line feed ends the last line or adds an empty one. */
  lemma {:induction false} OneMoreBreak(s: string, c: char)
    requires c in {'\r', '\n'}
    ensures SplitLines(s + [c]) == SplitLines(s) || SplitLines(s + [c]) == SplitLines(s) + [""]
  {
    hide KeptLine, Ended, LineWidth, SplitLines, Content;
    LoneBreak(c);
    if s == "" {
      assert s + [c] == [c];
    } else {
      FirstKept(s);
      var line, rest := s[..LineWidth(s)], s[LineWidth(s)..];
      assert s == line + rest;
      SplitFirst(line, rest);
      if rest == "" {
        assert s + [c] == line + [c] && s == line;
        LastLineAndBreak(line, c);
        if Ended(line, [c]) {
          SplitFirst(line, [c]);
        } else {
          SplitFirst(line + [c], "");
          assert line + [c] + "" == line + [c];
        }
      } else {
        EndedLonger(line, rest, c);
        assert s + [c] == line + (rest + [c]);
        SplitFirst(line, rest + [c]);
        OneMoreBreak(rest, c);
      }
    }
  }

  lemma EndedLonger(line: string, rest: string, c: char)
    requires Ended(line, rest) && rest != ""
    ensures Ended(line, rest + [c])
  {
  }

  lemma LoneBreak(c: char)
    requires c in {'\r', '\n'}
    ensures SplitLines([c]) == [""] && SplitLines("") == []
  {
    assert [c][1..] == "" && [c][..0] == "";
    assert SplitLines([c]) == [""] + SplitLines("");
  }

  // ----- Line breaks stripped from the ends of a text -----

  function DropNewlinesLeft(s: string): string {
    if s != "" && s[0] in {'\r', '\n'} then DropNewlinesLeft(s[1..]) else s
  }

  function DropNewlinesRight(s: string): string {
    if s != "" && s[|s| - 1] in {'\r', '\n'} then DropNewlinesRight(s[..|s| - 1]) else s
  }

  /** `s.strip("\r\n")`. */
  function StripNewlines(s: string): string {
    DropNewlinesRight(DropNewlinesLeft(s))
  }

  /** Lines of no characters at all. */
  predicate AllEmpty(lines: seq<string>) {
    forall i :: 0 <= i < |lines| ==> lines[i] == ""
  }

  lemma BreakFirst(s: string)
    requires s != "" && s[0] in {'\r', '\n'}
    ensures SplitLines(s) == [""] + SplitLines(s[LineWidth(s)..])
    ensures LineWidth(s) == if s[0] == '\r' && |s| > 1 && s[1] == '\n' then 2 else 1
  {
  }

  lemma {:induction false} DropLeftLines(s: string) returns (lead: seq<string>)
    ensures SplitLines(s) == lead + SplitLines(DropNewlinesLeft(s)) && AllEmpty(lead)
  {
    hide SplitLines, LineWidth;
    lead := [];
    if s != "" && s[0] in {'\r', '\n'} {
      var rest := DropLeftLines(s[1..]);
      BreakFirst(s);
      if LineWidth(s) == 1 {
        lead := [""] + rest;
      } else {
        // The carriage return and the line feed after it are one break.
        BreakFirst(s[1..]);
        assert s[1..][1..] == s[2..];
        lead := rest;
      }
    }
  }

  lemma {:induction false} DropRightLines(s: string) returns (trail: seq<string>)
    ensures SplitLines(s) == SplitLines(DropNewlinesRight(s)) + trail && AllEmpty(trail)
  {
    hide SplitLines;
    trail := [];
    if s != "" && s[|s| - 1] in {'\r', '\n'} {
      var shorter := s[..|s| - 1];
      trail := DropRightLines(shorter);
      assert s == shorter + [s[|s| - 1]];
      OneMoreBreak(shorter, s[|s| - 1]);
      if SplitLines(s) != SplitLines(shorter) {
        trail := trail + [""];
      }
    }
  }

  /** Stripping line breaks from a text takes empty lines from its ends and changes no other line. */
  lemma StripNewlinesLines(s: string) returns (lead: seq<string>, trail: seq<string>)
    ensures SplitLines(s) == lead + SplitLines(StripNewlines(s)) + trail
    ensures AllEmpty(lead) && AllEmpty(trail)
  {
    hide SplitLines, DropNewlinesLeft, DropNewlinesRight, AllEmpty;
    lead := DropLeftLines(s);
    trail := DropRightLines(DropNewlinesLeft(s));
    assert lead + (SplitLines(StripNewlines(s)) + trail) == lead + SplitLines(StripNewlines(s)) + trail;
  }

  lemma {:induction false} EmptyInk(lines: seq<string>)
    requires AllEmpty(lines)
    ensures InkAll(lines) == "" && AllBlank(lines)
  {
    if lines != [] {
      assert forall i :: 0 <= i < |lines[1..]| ==> lines[1..][i] == lines[i + 1];
      EmptyInk(lines[1..]);
    }
  }
}
