/**
 How the lines of a divided block lie in its parts: consecutive lines together, each whole, between the
 lines that every part repeats; and only a line that does not fit alone is taken apart, first into words
 and then, for a word that does not fit alone, into the longest pieces that fit.
 */
module Layout {
  import opened Results
  import opened Text
  import opened Lines
  import opened Tokens
  import opened Packing
  import opened PackingLaws

  // ----- A part and its lines -----

  /** The lines that every part of a block repeats before and after its own. */
  datatype Frame = Frame(head: seq<string>, tail: seq<string>)

  /** The text is these lines, one below the other, without the whitespace at its two ends. */
  ghost predicate Lays(text: string, lines: seq<string>) {
    Trimmed(text) && exists lead, trail :: Blank(lead) && Blank(trail) && lead + text + trail == Join(lines, "\n")
  }

  lemma LaysIff(text: string, lines: seq<string>)
    ensures Lays(text, lines) <==> text == Strip(Join(lines, "\n"))
  {
    hide Strip, Join, Blank;
    var lead, trail := StripParts(Join(lines, "\n"));
    if Lays(text, lines) {
      var before, after :| Blank(before) && Blank(after) && before + text + after == Join(lines, "\n");
      StripOf(before, text, after);
    }
  }

  lemma FirstLineEnded(first: string, rest: string)
    requires NoBreak(first)
    ensures SplitLines(first + "\n" + rest) == [first] + SplitLines(rest)
  {
    hide LineEnd, NoBreak;
    var s := first + "\n" + rest;
    assert s == first + ("\n" + rest);
    LineEndOf(first, "\n" + rest);
    assert s[..|first|] == first && s[|first| + 1..] == rest;
  }

  lemma {:induction false} SplitLinesEnded(lines: seq<string>)
    requires lines != [] && forall i :: 0 <= i < |lines| ==> NoBreak(lines[i])
    ensures SplitLines(Join(lines, "\n") + "\n") == lines
  {
    hide LineEnd, NoBreak;
    var first, later := lines[0], lines[1..];
    assert NoBreak(first);
    if later == [] {
      FirstLineEnded(first, "");
      assert first + "\n" + "" == first + "\n" && lines == [first];
    } else {
      assert forall i :: 0 <= i < |later| ==> later[i] == lines[i + 1];
      SplitLinesEnded(later);
      FirstLineEnded(first, Join(later, "\n") + "\n");
      assert Join(lines, "\n") + "\n" == first + "\n" + (Join(later, "\n") + "\n");
    }
  }

  /** Read as lines, with the whitespace put back that was stripped, such a text has exactly these lines. */
  lemma LaidLines(text: string, lines: seq<string>) returns (lead: string, trail: string)
    requires Lays(text, lines) && lines != [] && forall i :: 0 <= i < |lines| ==> NoBreak(lines[i])
    ensures Blank(lead) && Blank(trail) && SplitLines(lead + text + trail) == lines
  {
    hide Join, SplitLines, Trimmed;
    var before, after :| Blank(before) && Blank(after) && before + text + after == Join(lines, "\n");
    SplitLinesEnded(lines);
    lead, trail := before, after + "\n";
    assert lead + text + trail == Join(lines, "\n") + "\n";
  }

  ghost predicate FitsLaid(budget: Budget, heading: string, frame: Frame, lines: seq<string>) {
    exists text :: Lays(text, frame.head + lines + frame.tail) && Fits(budget, heading, text)
  }

  // ----- Frames and shells -----

  /** The shell is the frame's lines as text. */
  predicate Frames(shell: Shell, frame: Frame) {
    && shell.prefix == Join(frame.head, "\n") && (frame.head == [] <==> shell.prefix == "")
    && shell.suffix == Join(frame.tail, "\n") && (frame.tail == [] <==> shell.suffix == "")
  }

  lemma JoinFlat(a: seq<string>, b: seq<string>)
    requires a == [] <==> Join(a, "\n") == ""
    ensures Join(Optional(Join(a, "\n")) + b, "\n") == Join(a + b, "\n")
  {
    if a == [] {
      assert [] + b == b;
    } else if b == [] {
      assert a + [] == a && [Join(a, "\n")] + [] == [Join(a, "\n")];
    } else {
      JoinConcat(a, b, "\n");
      JoinConcat([Join(a, "\n")], b, "\n");
    }
  }

  lemma JoinFlatEnd(a: seq<string>, b: seq<string>)
    requires b == [] <==> Join(b, "\n") == ""
    ensures Join(a + Optional(Join(b, "\n")), "\n") == Join(a + b, "\n")
  {
    if b == [] {
      assert a + [] == a;
    } else if a == [] {
      assert [] + b == b && [] + [Join(b, "\n")] == [Join(b, "\n")];
    } else {
      JoinConcat(a, b, "\n");
      JoinConcat(a, [Join(b, "\n")], "\n");
    }
  }

  lemma FramedJoin(shell: Shell, frame: Frame, lines: seq<string>)
    requires Frames(shell, frame)
    ensures Join(Optional(shell.prefix) + lines + Optional(shell.suffix), "\n")
            == Join(frame.head + lines + frame.tail, "\n")
  {
    hide Join, Optional;
    var suffix := Optional(shell.suffix);
    JoinFlat(frame.head, lines + suffix);
    assert Optional(shell.prefix) + (lines + suffix) == Optional(shell.prefix) + lines + suffix;
    assert frame.head + (lines + suffix) == frame.head + lines + suffix;
    JoinFlatEnd(frame.head + lines, frame.tail);
  }

  lemma RenderedLays(shell: Shell, frame: Frame, lines: seq<string>)
    requires Frames(shell, frame)
    ensures Lays(RenderLines(shell, lines), frame.head + lines + frame.tail)
  {
    hide Join, Optional, Lays, Frames, Strip;
    FramedJoin(shell, frame, lines);
    LaysIff(RenderLines(shell, lines), frame.head + lines + frame.tail);
  }

  lemma FitsLaidIff(budget: Budget, heading: string, shell: Shell, frame: Frame, lines: seq<string>)
    requires Frames(shell, frame)
    ensures FitsLaid(budget, heading, frame, lines) <==> Fits(budget, heading, RenderLines(shell, lines))
  {
    hide Join, Optional, Lays, Frames, Strip, Fits;
    FramedJoin(shell, frame, lines);
    RenderedLays(shell, frame, lines);
    forall text | Lays(text, frame.head + lines + frame.tail) ensures text == RenderLines(shell, lines) {
      LaysIff(text, frame.head + lines + frame.tail);
    }
  }

  lemma WordsAsLine(shell: Shell, words: seq<string>)
    requires words != [] && AreWords(words)
    ensures RenderWords(shell, words) == RenderLines(shell, [Join(words, " ")])
  {
    hide Strip;
    assert words[0] != "";
    assert Join(words, " ") != "";
  }

  // ----- The pieces of a word -----

  /** Piece `i` is the longest start of what is left of the word that fits. */
  predicate LongestAt(budget: Budget, heading: string, frame: Frame, pieces: seq<string>, i: nat)
    requires i < |pieces|
  {
    var rest := Concat(pieces[i..]);
    && pieces[i] != ""
    && Fits(budget, heading, Join(frame.head + [pieces[i]] + frame.tail, "\n"))
    && forall k :: |pieces[i]| < k <= |rest| ==>
         !Fits(budget, heading, Join(frame.head + [rest[..k]] + frame.tail, "\n"))
  }

  /** The texts are the pieces, each between the lines of the frame. */
  predicate FramedPieces(frame: Frame, pieces: seq<string>, texts: seq<string>) {
    |texts| == |pieces|
    && forall i :: 0 <= i < |pieces| ==> texts[i] == Join(frame.head + [pieces[i]] + frame.tail, "\n")
  }

  predicate CutsWord(budget: Budget, heading: string, frame: Frame, word: string, pieces: seq<string>,
                     texts: seq<string>)
  {
    && Concat(pieces) == word
    && FramedPieces(frame, pieces, texts)
    && forall i :: 0 <= i < |pieces| ==> LongestAt(budget, heading, frame, pieces, i)
  }

  lemma PieceRendered(shell: Shell, frame: Frame, piece: string)
    requires Frames(shell, frame) && piece != ""
    ensures RenderPiece(shell, piece) == Join(frame.head + [piece] + frame.tail, "\n")
  {
    hide Join, Frames;
    FramedJoin(shell, frame, [piece]);
  }

  lemma {:induction false} LongWordIsCut(budget: Budget, heading: string, shell: Shell, frame: Frame, word: string)
    returns (pieces: seq<string>)
    requires Frames(shell, frame) && LongWordParts(budget, heading, shell, word).Ok?
    ensures CutsWord(budget, heading, frame, word, pieces, LongWordParts(budget, heading, shell, word).value)
    decreases |word|
  {
    hide Fits, Join, Frames, RenderPiece;
    if word == "" {
      pieces := [];
    } else {
      var n := LongestFit(budget, heading, shell, word, |word|);
      var later := LongWordIsCut(budget, heading, shell, frame, word[n..]);
      pieces := [word[..n]] + later;
      assert word[..n] + word[n..] == word;
      FirstCut(budget, heading, shell, frame, word, n, later);
    }
  }

  lemma FirstCut(budget: Budget, heading: string, shell: Shell, frame: Frame, word: string, n: nat, later: seq<string>)
    requires Frames(shell, frame) && 0 < n <= |word| && n == LongestFit(budget, heading, shell, word, |word|)
    requires LongWordParts(budget, heading, shell, word[n..]).Ok?
    requires CutsWord(budget, heading, frame, word[n..], later, LongWordParts(budget, heading, shell, word[n..]).value)
    ensures CutsWord(budget, heading, frame, word, [word[..n]] + later,
                     [RenderPiece(shell, word[..n])] + LongWordParts(budget, heading, shell, word[n..]).value)
  {
    hide Fits, Join, Frames, RenderPiece, LongWordParts;
    var pieces := [word[..n]] + later;
    var after := LongWordParts(budget, heading, shell, word[n..]).value;
    ConcatCons(word[..n], later);
    assert word[..n] + word[n..] == word;
    PieceRendered(shell, frame, word[..n]);
    forall i | 0 <= i < |pieces| ensures LongestAt(budget, heading, frame, pieces, i) {
      if i == 0 {
        assert pieces[0..] == pieces;
        forall k | n < k <= |word| ensures !Fits(budget, heading, Join(frame.head + [word[..k]] + frame.tail, "\n")) {
          PieceRendered(shell, frame, word[..k]);
        }
      } else {
        assert LongestAt(budget, heading, frame, later, i - 1);
        assert pieces[i..] == later[i - 1..];
      }
    }
    var texts := [RenderPiece(shell, word[..n])] + after;
    forall i | 0 <= i < |pieces| ensures texts[i] == Join(frame.head + [pieces[i]] + frame.tail, "\n") {
      if i > 0 { assert texts[i] == after[i - 1] && pieces[i] == later[i - 1]; }
    }
  }

  // ----- The words of a line -----

  /** Words together in one text, or one word cut into several. */
  datatype WordPortion =
    | Together(words: seq<string>, text: string)
    | Cut(word: string, pieces: seq<string>, texts: seq<string>)

  function WordTexts(portions: seq<WordPortion>): seq<string> {
    if portions == [] then [] else TextsIn(portions[0]) + WordTexts(portions[1..])
  }

  function TextsIn(portion: WordPortion): seq<string> {
    match portion
    case Together(_, text) => [text]
    case Cut(_, _, texts) => texts
  }

  function WordsIn(portions: seq<WordPortion>): seq<string> {
    if portions == [] then [] else WordsOfPortion(portions[0]) + WordsIn(portions[1..])
  }

  function WordsOfPortion(portion: WordPortion): seq<string> {
    match portion
    case Together(words, _) => words
    case Cut(word, _, _) => [word]
  }

  function FirstWord(portion: WordPortion): Option<string> {
    match portion
    case Together(words, _) => if words == [] then None else Some(words[0])
    case Cut(word, _, _) => Some(word)
  }

  ghost predicate WordPortionOk(budget: Budget, heading: string, frame: Frame, p: WordPortion) {
    match p
    case Together(words, text) =>
      words != [] && Lays(text, frame.head + [Join(words, " ")] + frame.tail) && Fits(budget, heading, text)
    case Cut(word, pieces, texts) =>
      !FitsLaid(budget, heading, frame, [word]) && CutsWord(budget, heading, frame, word, pieces, texts)
  }

  /** The words together had no room for the first word after them. */
  ghost predicate WordsFull(budget: Budget, heading: string, frame: Frame, p: WordPortion, q: WordPortion) {
    (p.Together? && FirstWord(q).Some?)
    ==> !FitsLaid(budget, heading, frame, [Join(p.words + [FirstWord(q).value], " ")])
  }

  ghost predicate WordsOk(budget: Budget, heading: string, frame: Frame, portions: seq<WordPortion>) {
    portions != [] ==>
      && WordPortionOk(budget, heading, frame, portions[0])
      && (|portions| > 1 ==> WordsFull(budget, heading, frame, portions[0], portions[1]))
      && WordsOk(budget, heading, frame, portions[1..])
  }

  /** The portions hold these words and give these texts. */
  ghost predicate MadeOfWords(budget: Budget, heading: string, frame: Frame, portions: seq<WordPortion>,
                              words: seq<string>, texts: seq<string>)
  {
    && WordsIn(portions) == words && WordTexts(portions) == texts && WordsOk(budget, heading, frame, portions)
    && (words != [] ==> portions != [] && FirstWord(portions[0]) == Some(words[0]))
  }

  lemma {:induction false} WordsArePortioned(budget: Budget, heading: string, shell: Shell, frame: Frame,
                                             parts: seq<string>, current: seq<string>, words: seq<string>)
    returns (portions: seq<WordPortion>, texts: seq<string>)
    requires Frames(shell, frame) && AreWords(current) && AreWords(words)
    requires current != [] ==> Fits(budget, heading, RenderWords(shell, current))
    requires WordParts(budget, heading, shell, parts, current, words).Ok?
    ensures WordParts(budget, heading, shell, parts, current, words).value == parts + texts
    ensures MadeOfWords(budget, heading, frame, portions, current + words, texts)
    decreases words
  {
    hide Fits, Join, Frames, RenderWords, LongWordParts, MadeOfWords, AreWords;
    if words == [] {
      assert current + words == current;
      if current == [] {
        portions, texts := [], [];
        NoWords(budget, heading, frame);
        assert parts + [] == parts;
      } else {
        NoWords(budget, heading, frame);
        portions, texts := WordsTogether(budget, heading, shell, frame, current, [], [], []);
        assert [RenderWords(shell, current)] + [] == [RenderWords(shell, current)] && current + [] == current;
      }
    } else {
      var word, rest := words[0], words[1..];
      assert words == [word] + rest && current + ([word] + rest) == current + [word] + rest;
      WordsApart(current, word, rest);
      var flushed := if current == [] then parts else parts + [RenderWords(shell, current)];
      if Fits(budget, heading, RenderWords(shell, current + [word])) {
        portions, texts := WordsArePortioned(budget, heading, shell, frame, parts, current + [word], rest);
      } else {
        var later: seq<WordPortion>, after: seq<string>;
        if Fits(budget, heading, RenderWords(shell, [word])) {
          later, after := WordsArePortioned(budget, heading, shell, frame, flushed, [word], rest);
        } else {
          var cut := LongWordParts(budget, heading, shell, word).value;
          later, after := WordsArePortioned(budget, heading, shell, frame, flushed + cut, [], rest);
          assert [] + rest == rest && flushed + cut + after == flushed + (cut + after);
          later, after := WordCut(budget, heading, shell, frame, word, later, rest, after);
        }
        if current == [] {
          portions, texts := later, after;
          assert [] + words == words;
        } else {
          portions, texts := WordsTogether(budget, heading, shell, frame, current, later, words, after);
          assert parts + [RenderWords(shell, current)] + after == parts + ([RenderWords(shell, current)] + after);
        }
      }
    }
  }

  lemma NoWords(budget: Budget, heading: string, frame: Frame)
    ensures MadeOfWords(budget, heading, frame, [], [], [])
  {
  }

  lemma WordsApart(current: seq<string>, word: string, rest: seq<string>)
    requires AreWords(current) && AreWords([word] + rest)
    ensures AreWords([word]) && AreWords(rest) && AreWords(current + [word]) && AreWords([])
  {
    var all := [word] + rest;
    assert all[0] == word;
    assert forall i :: 0 <= i < |rest| ==> rest[i] == all[i + 1];
  }

  /** The word does not fit alone, and is cut ahead of what follows. */
  lemma WordCut(budget: Budget, heading: string, shell: Shell, frame: Frame, word: string,
                later: seq<WordPortion>, words: seq<string>, after: seq<string>)
    returns (portions: seq<WordPortion>, texts: seq<string>)
    requires Frames(shell, frame) && AreWords([word]) && !Fits(budget, heading, RenderWords(shell, [word]))
    requires LongWordParts(budget, heading, shell, word).Ok?
    requires MadeOfWords(budget, heading, frame, later, words, after)
    ensures texts == LongWordParts(budget, heading, shell, word).value + after
    ensures MadeOfWords(budget, heading, frame, portions, [word] + words, texts)
  {
    hide Fits, Join, Frames, RenderWords, FitsLaid, CutsWord, LongWordParts;
    var pieces := LongWordIsCut(budget, heading, shell, frame, word);
    var cut := LongWordParts(budget, heading, shell, word).value;
    NoRoomForWord(budget, heading, shell, frame, word);
    portions, texts := [Cut(word, pieces, cut)] + later, cut + after;
    assert portions[1..] == later;
  }

  lemma NoRoomForWord(budget: Budget, heading: string, shell: Shell, frame: Frame, word: string)
    requires Frames(shell, frame) && AreWords([word]) && !Fits(budget, heading, RenderWords(shell, [word]))
    ensures !FitsLaid(budget, heading, frame, [word])
  {
    hide Fits, Frames, RenderWords, RenderLines, FitsLaid;
    WordsAsLine(shell, [word]);
    FitsLaidIff(budget, heading, shell, frame, [word]);
  }

  /** The words held are together in one text, which had no room for the word after them. */
  lemma WordsTogether(budget: Budget, heading: string, shell: Shell, frame: Frame, current: seq<string>,
                      later: seq<WordPortion>, words: seq<string>, after: seq<string>)
    returns (portions: seq<WordPortion>, texts: seq<string>)
    requires Frames(shell, frame) && current != [] && AreWords(current)
    requires Fits(budget, heading, RenderWords(shell, current))
    requires MadeOfWords(budget, heading, frame, later, words, after)
    requires words == [] ==> later == []
    requires words != [] ==> AreWords(current + [words[0]])
    requires words != [] ==> !Fits(budget, heading, RenderWords(shell, current + [words[0]]))
    ensures texts == [RenderWords(shell, current)] + after
    ensures MadeOfWords(budget, heading, frame, portions, current + words, texts)
  {
    hide Fits, Join, Frames, RenderWords, RenderLines, FitsLaid, Lays, AreWords;
    WordsAsLine(shell, current);
    RenderedLays(shell, frame, [Join(current, " ")]);
    portions, texts := [Together(current, RenderWords(shell, current))] + later, [RenderWords(shell, current)] + after;
    assert portions[1..] == later;
    if words != [] {
      WordsAsLine(shell, current + [words[0]]);
      FitsLaidIff(budget, heading, shell, frame, [Join(current + [words[0]], " ")]);
    }
  }

  // ----- The lines of a body -----

  /**
   Lines together in one text; a line taken apart; blank lines that leave no text because nothing is
   repeated around them; and the repeated lines alone, when nothing else comes out.
   */
  datatype Portion =
    | Run(lines: seq<string>, text: string)
    | Apart(line: string, words: seq<WordPortion>)
    | Silent(lines: seq<string>)
    | Bare(text: string)

  function PartsOf(portions: seq<Portion>): seq<string> {
    if portions == [] then [] else PartsIn(portions[0]) + PartsOf(portions[1..])
  }

  function PartsIn(portion: Portion): seq<string> {
    match portion
    case Run(_, text) => [text]
    case Apart(_, words) => WordTexts(words)
    case Silent(_) => []
    case Bare(text) => [text]
  }

  function LinesOfPortion(portion: Portion): seq<string> {
    match portion
    case Run(lines, _) => lines
    case Apart(line, _) => [line]
    case Silent(lines) => lines
    case Bare(_) => []
  }

  function LinesIn(portions: seq<Portion>): seq<string> {
    if portions == [] then [] else LinesOfPortion(portions[0]) + LinesIn(portions[1..])
  }

  ghost predicate PortionOk(budget: Budget, heading: string, frame: Frame, p: Portion) {
    match p
    case Run(lines, text) =>
      lines != [] && Lays(text, frame.head + lines + frame.tail) && Fits(budget, heading, text)
    case Apart(line, words) =>
      && !FitsLaid(budget, heading, frame, [line])
      && WordsIn(words) == Words(line) && WordsOk(budget, heading, frame, words)
    case Silent(lines) => lines != [] && AllBlank(lines) && frame == Frame([], [])
    case Bare(text) => text != "" && Lays(text, frame.head + frame.tail)
  }

  /** The lines together had no room for the first line after them. */
  ghost predicate LinesFull(budget: Budget, heading: string, frame: Frame, p: Portion, q: Portion) {
    && !p.Silent? && !p.Bare?
    && (p.Run? && LinesOfPortion(q) != []
        ==> !FitsLaid(budget, heading, frame, p.lines + [LinesOfPortion(q)[0]]))
  }

  ghost predicate PortionsOk(budget: Budget, heading: string, frame: Frame, portions: seq<Portion>) {
    portions != [] ==>
      && PortionOk(budget, heading, frame, portions[0])
      && (|portions| > 1 ==> LinesFull(budget, heading, frame, portions[0], portions[1]))
      && PortionsOk(budget, heading, frame, portions[1..])
  }

  /** The repeated lines come alone only when no other part does. */
  predicate BareAlone(portions: seq<Portion>, parts: seq<string>) {
    portions != [] && portions[|portions| - 1].Bare? ==> parts == [portions[|portions| - 1].text]
  }

  function FirstLine(portion: Portion): Option<string> {
    if LinesOfPortion(portion) == [] then None else Some(LinesOfPortion(portion)[0])
  }

  /** The portions hold these lines and give these texts. */
  ghost predicate MadeOfLines(budget: Budget, heading: string, frame: Frame, portions: seq<Portion>,
                              lines: seq<string>, texts: seq<string>)
  {
    && LinesIn(portions) == lines && PartsOf(portions) == texts && PortionsOk(budget, heading, frame, portions)
    && (lines != [] ==> portions != [] && FirstLine(portions[0]) == Some(lines[0]))
  }

  lemma {:induction false} LinesArePortioned(budget: Budget, heading: string, shell: Shell, frame: Frame,
                                             parts: seq<string>, current: seq<string>, lines: seq<string>)
    returns (portions: seq<Portion>, texts: seq<string>)
    requires Frames(shell, frame) && GoodShell(shell)
    requires current != [] ==> Fits(budget, heading, RenderLines(shell, current))
    requires LineParts(budget, heading, shell, parts, current, lines).Ok?
    ensures LineParts(budget, heading, shell, parts, current, lines).value == parts + texts
    ensures MadeOfLines(budget, heading, frame, portions, current + lines, texts)
    ensures BareAlone(portions, parts + texts)
    decreases lines
  {
    hide Fits, Frames, GoodShell, RenderLines, SplitWords, MadeOfLines, BareAlone;
    if lines == [] {
      assert current + lines == current;
      portions, texts := LastPortions(budget, heading, shell, frame, parts, current);
    } else {
      var line, rest := lines[0], lines[1..];
      assert lines == [line] + rest && current + ([line] + rest) == current + [line] + rest;
      var flushed := if current == [] then parts else parts + [RenderLines(shell, current)];
      if Fits(budget, heading, RenderLines(shell, current + [line])) {
        portions, texts := LinesArePortioned(budget, heading, shell, frame, parts, current + [line], rest);
      } else {
        var later: seq<Portion>, after: seq<string>;
        if Fits(budget, heading, RenderLines(shell, [line])) {
          later, after := LinesArePortioned(budget, heading, shell, frame, flushed, [line], rest);
        } else {
          var pieces := SplitWords(budget, heading, shell, line).value;
          later, after := LinesArePortioned(budget, heading, shell, frame, flushed + pieces, [], rest);
          assert [] + rest == rest && flushed + pieces + after == flushed + (pieces + after);
          later, after := LineApart(budget, heading, shell, frame, line, later, rest, after, flushed);
        }
        if current == [] {
          portions, texts := later, after;
          assert [] + lines == lines;
        } else {
          portions, texts := LinesTogether(budget, heading, shell, frame, current, later, lines, after, parts);
          assert parts + [RenderLines(shell, current)] + after == parts + ([RenderLines(shell, current)] + after);
        }
      }
    }
  }

  /** The line does not fit alone, and is taken apart ahead of what follows. */
  lemma LineApart(budget: Budget, heading: string, shell: Shell, frame: Frame, line: string,
                  later: seq<Portion>, lines: seq<string>, after: seq<string>, parts: seq<string>)
    returns (portions: seq<Portion>, texts: seq<string>)
    requires Frames(shell, frame) && !Fits(budget, heading, RenderLines(shell, [line]))
    requires SplitWords(budget, heading, shell, line).Ok?
    requires MadeOfLines(budget, heading, frame, later, lines, after)
    requires BareAlone(later, parts + SplitWords(budget, heading, shell, line).value + after)
    ensures texts == SplitWords(budget, heading, shell, line).value + after
    ensures MadeOfLines(budget, heading, frame, portions, [line] + lines, texts)
    ensures BareAlone(portions, parts + texts)
  {
    hide Fits, Frames, RenderLines, FitsLaid, WordParts, Words, WordsOk, Lays, MadeOfLines, BareAlone;
    var words, pieces := WordsArePortioned(budget, heading, shell, frame, [], [], Words(line));
    assert [] + Words(line) == Words(line) && [] + pieces == pieces;
    FitsLaidIff(budget, heading, shell, frame, [line]);
    portions, texts := [Apart(line, words)] + later, pieces + after;
    AheadOfPortions(budget, heading, frame, portions[0], later, lines, after, parts);
  }

  lemma AheadOfPortions(budget: Budget, heading: string, frame: Frame, p: Portion, later: seq<Portion>,
                        lines: seq<string>, after: seq<string>, parts: seq<string>)
    requires PortionOk(budget, heading, frame, p) && LinesOfPortion(p) != []
    requires later != [] ==> LinesFull(budget, heading, frame, p, later[0])
    requires MadeOfLines(budget, heading, frame, later, lines, after) && !p.Bare?
    requires BareAlone(later, parts + PartsIn(p) + after)
    ensures MadeOfLines(budget, heading, frame, [p] + later, LinesOfPortion(p) + lines, PartsIn(p) + after)
    ensures BareAlone([p] + later, parts + (PartsIn(p) + after))
  {
    hide PortionOk, LinesFull, PartsIn;
    var portions := [p] + later;
    assert portions[0] == p && portions[1..] == later;
    assert parts + (PartsIn(p) + after) == parts + PartsIn(p) + after;
  }

  /** The lines held are together in one text, which had no room for the line after them. */
  lemma LinesTogether(budget: Budget, heading: string, shell: Shell, frame: Frame, current: seq<string>,
                      later: seq<Portion>, lines: seq<string>, after: seq<string>, parts: seq<string>)
    returns (portions: seq<Portion>, texts: seq<string>)
    requires Frames(shell, frame) && current != [] && Fits(budget, heading, RenderLines(shell, current))
    requires lines != [] && !Fits(budget, heading, RenderLines(shell, current + [lines[0]]))
    requires MadeOfLines(budget, heading, frame, later, lines, after)
    requires BareAlone(later, parts + [RenderLines(shell, current)] + after)
    ensures texts == [RenderLines(shell, current)] + after
    ensures MadeOfLines(budget, heading, frame, portions, current + lines, texts)
    ensures BareAlone(portions, parts + texts)
  {
    hide Fits, Frames, RenderLines, FitsLaid, Lays, WordsOk, BareAlone, PartsOf, LinesIn, PortionsOk;
    RenderedLays(shell, frame, current);
    FitsLaidIff(budget, heading, shell, frame, current + [lines[0]]);
    var p := Run(current, RenderLines(shell, current));
    portions, texts := [p] + later, [p.text] + after;
    assert later != [] ==> LinesFull(budget, heading, frame, p, later[0]);
    AheadOfPortions(budget, heading, frame, p, later, lines, after, parts);
  }

  lemma LastPortions(budget: Budget, heading: string, shell: Shell, frame: Frame, parts: seq<string>,
                     current: seq<string>)
    returns (portions: seq<Portion>, texts: seq<string>)
    requires Frames(shell, frame) && GoodShell(shell)
    requires current != [] ==> Fits(budget, heading, RenderLines(shell, current))
    ensures LineParts(budget, heading, shell, parts, current, []) == Ok(parts + texts)
    ensures MadeOfLines(budget, heading, frame, portions, current, texts)
    ensures BareAlone(portions, parts + texts)
  {
    hide Fits, Join, FitsLaid, Lays, WordsOk, Frames, GoodShell, RenderLines;
    var text := RenderLines(shell, current);
    RenderedLays(shell, frame, current);
    assert current == [] ==> frame.head + current + frame.tail == frame.head + frame.tail;
    portions, texts := [], [];
    assert parts + [] == parts;
    if current != [] && text != "" {
      portions, texts := [Run(current, text)], [text];
    } else if current != [] {
      NothingRendered(shell, frame, current);
      portions := [Silent(current)];
    } else if parts == [] && text != "" {
      portions, texts := [Bare(text)], [text];
    }
    if portions != [] {
      OnePortion(budget, heading, frame, portions[0]);
      assert portions == [portions[0]];
    }
  }

  lemma OnePortion(budget: Budget, heading: string, frame: Frame, p: Portion)
    requires PortionOk(budget, heading, frame, p)
    ensures MadeOfLines(budget, heading, frame, [p], LinesOfPortion(p), PartsIn(p))
  {
    hide PortionOk;
    assert [p][1..] == [];
    assert PortionsOk(budget, heading, frame, []);
    assert PortionsOk(budget, heading, frame, [p]);
    assert PartsOf([p]) == PartsIn(p) + PartsOf([]);
    assert LinesIn([p]) == LinesOfPortion(p) + LinesIn([]);
    assert PartsIn(p) + [] == PartsIn(p) && LinesOfPortion(p) + [] == LinesOfPortion(p);
  }

  lemma NothingRendered(shell: Shell, frame: Frame, lines: seq<string>)
    requires Frames(shell, frame) && lines != [] && RenderLines(shell, lines) == ""
    requires GoodShell(shell)
    ensures AllBlank(lines) && frame == Frame([], [])
  {
    hide RenderLines, Join, Ink;
    InkLines(shell, lines);
    InkBlank("");
    InkBlank(shell.prefix);
    InkBlank(shell.suffix);
    InkAllBlank(lines);
  }

  lemma {:induction false} InkAllBlank(lines: seq<string>)
    requires InkAll(lines) == ""
    ensures AllBlank(lines)
  {
    if lines != [] {
      InkBlank(lines[0]);
      InkAllBlank(lines[1..]);
      assert forall i :: 1 <= i < |lines| ==> lines[i] == lines[1..][i - 1];
    }
  }

  // ----- A body laid out in parts -----

  /** The parts are the body, portion by portion. */
  ghost predicate LaidBy(budget: Budget, heading: string, frame: Frame, body: seq<string>, parts: seq<string>,
                         portions: seq<Portion>)
  {
    && parts == PartsOf(portions) && LinesIn(portions) == body
    && PortionsOk(budget, heading, frame, portions) && BareAlone(portions, parts)
  }

  ghost predicate Laid(budget: Budget, heading: string, frame: Frame, body: seq<string>, parts: seq<string>) {
    exists portions :: LaidBy(budget, heading, frame, body, parts, portions)
  }

  /** Packing lays the body out: lines whole and in order, as many together as fit, and only the rest taken apart. */
  lemma PackLays(budget: Budget, heading: string, shell: Shell, frame: Frame, body: seq<string>)
    requires Frames(shell, frame) && GoodShell(shell) && PackLines(budget, heading, shell, body).Ok?
    ensures Laid(budget, heading, frame, body, PackLines(budget, heading, shell, body).value)
  {
    hide LineParts, Frames, PortionsOk, PartsOf, LinesIn;
    var portions, texts := LinesArePortioned(budget, heading, shell, frame, [], [], body);
    assert [] + body == body && [] + texts == texts;
    assert LaidBy(budget, heading, frame, body, PackLines(budget, heading, shell, body).value, portions);
  }
}
