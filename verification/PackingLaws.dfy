/**
 What the fallback chain guarantees: nothing visible is lost, every part is within both budgets,
 and it raises exactly when not one visible character fits inside the repeated shell.
 */
module PackingLaws {
  import opened Results
  import opened Text
  import opened Lines
  import opened Tokens
  import opened Packing

  // ----- Conservation -----

  /** The visible characters of a part between those of its shell. */
  function Payload(shell: Shell, part: string): string {
    var ink, p, s := Ink(part), |Ink(shell.prefix)|, |Ink(shell.suffix)|;
    if p + s <= |ink| then ink[p..|ink| - s] else ""
  }

  /** The part shows the shell's prefix, then its payload, then the shell's suffix. */
  predicate Wrapped(shell: Shell, part: string) {
    Ink(part) == Ink(shell.prefix) + Payload(shell, part) + Ink(shell.suffix)
  }

  predicate AllWrapped(shell: Shell, parts: seq<string>) {
    forall i :: 0 <= i < |parts| ==> Wrapped(shell, parts[i])
  }

  /** The payloads of the parts, in order: what remains once the repeated shell is taken off. */
  function Unwrap(shell: Shell, parts: seq<string>): string {
    if parts == [] then "" else Payload(shell, parts[0]) + Unwrap(shell, parts[1..])
  }

  predicate Carries(shell: Shell, parts: seq<string>, ink: string) {
    AllWrapped(shell, parts) && Unwrap(shell, parts) == ink
  }

  lemma PayloadOf(shell: Shell, part: string, body: string)
    requires Ink(part) == Ink(shell.prefix) + body + Ink(shell.suffix)
    ensures Wrapped(shell, part) && Payload(shell, part) == body
  {
    var ink, p, s := Ink(part), |Ink(shell.prefix)|, |Ink(shell.suffix)|;
    assert ink[p..|ink| - s] == body;
  }

  lemma {:induction false} UnwrapConcat(shell: Shell, xs: seq<string>, ys: seq<string>)
    ensures Unwrap(shell, xs + ys) == Unwrap(shell, xs) + Unwrap(shell, ys)
  {
    hide Payload;
    if xs == [] {
      assert xs + ys == ys;
    } else {
      assert (xs + ys)[1..] == xs[1..] + ys;
      UnwrapConcat(shell, xs[1..], ys);
    }
  }

  lemma CarriesConcat(shell: Shell, xs: seq<string>, a: string, ys: seq<string>, b: string)
    requires Carries(shell, xs, a) && Carries(shell, ys, b)
    ensures Carries(shell, xs + ys, a + b)
  {
    hide Wrapped, Unwrap;
    UnwrapConcat(shell, xs, ys);
  }

  lemma CarriesOne(shell: Shell, part: string, body: string)
    requires Ink(part) == Ink(shell.prefix) + body + Ink(shell.suffix)
    ensures Carries(shell, [part], body)
  {
    PayloadOf(shell, part, body);
    assert [part][1..] == [];
    assert body + "" == body;
  }

  lemma InkOptional(s: string)
    ensures InkAll(Optional(s)) == Ink(s)
  {
    assert s != "" ==> Optional(s)[1..] == [];
  }

  lemma InkItems(shell: Shell, lines: seq<string>)
    ensures Ink(Join(Optional(shell.prefix) + lines + Optional(shell.suffix), "\n"))
         == Ink(shell.prefix) + InkAll(lines) + Ink(shell.suffix)
  {
    hide Join;
    InkJoin(Optional(shell.prefix) + lines + Optional(shell.suffix), "\n");
    InkAllConcat(Optional(shell.prefix) + lines, Optional(shell.suffix));
    InkAllConcat(Optional(shell.prefix), lines);
    InkOptional(shell.prefix);
    InkOptional(shell.suffix);
  }

  lemma InkLines(shell: Shell, lines: seq<string>)
    ensures Ink(RenderLines(shell, lines)) == Ink(shell.prefix) + InkAll(lines) + Ink(shell.suffix)
  {
    hide Join, Strip;
    InkItems(shell, lines);
    InkStrip(Join(Optional(shell.prefix) + lines + Optional(shell.suffix), "\n"));
  }

  lemma InkPiece(shell: Shell, piece: string)
    ensures Ink(RenderPiece(shell, piece)) == Ink(shell.prefix) + Ink(piece) + Ink(shell.suffix)
  {
    hide Join;
    InkItems(shell, Optional(piece));
    InkOptional(piece);
  }

  lemma InkWords(shell: Shell, words: seq<string>)
    ensures Ink(RenderWords(shell, words)) == Ink(shell.prefix) + InkAll(words) + Ink(shell.suffix)
  {
    hide RenderPiece, Strip, Join;
    InkStrip(RenderPiece(shell, Join(words, " ")));
    InkPiece(shell, Join(words, " "));
    InkJoin(words, " ");
  }

  lemma {:induction false} LongWordConserves(budget: Budget, heading: string, shell: Shell, word: string)
    requires LongWordParts(budget, heading, shell, word).Ok?
    ensures Carries(shell, LongWordParts(budget, heading, shell, word).value, Ink(word))
    decreases |word|
  {
    hide RenderPiece, Fits, Carries, Payload;
    if word == "" {
      NothingCarried(shell);
    } else {
      var n := LongestFit(budget, heading, shell, word, |word|);
      LongWordConserves(budget, heading, shell, word[n..]);
      InkPiece(shell, word[..n]);
      CarriesOne(shell, RenderPiece(shell, word[..n]), Ink(word[..n]));
      CarriesConcat(shell, [RenderPiece(shell, word[..n])], Ink(word[..n]),
                    LongWordParts(budget, heading, shell, word[n..]).value, Ink(word[n..]));
      InkConcat(word[..n], word[n..]);
      assert word == word[..n] + word[n..];
    }
  }

  lemma NothingCarried(shell: Shell)
    ensures Carries(shell, [], "")
  {
  }

  lemma FlushWordsCarries(shell: Shell, parts: seq<string>, ink: string, words: seq<string>)
    requires Carries(shell, parts, ink)
    ensures Carries(shell, if words == [] then parts else parts + [RenderWords(shell, words)], ink + InkAll(words))
  {
    hide Carries, RenderWords;
    if words == [] {
      assert ink + "" == ink;
    } else {
      InkWords(shell, words);
      CarriesOne(shell, RenderWords(shell, words), InkAll(words));
      CarriesConcat(shell, parts, ink, [RenderWords(shell, words)], InkAll(words));
    }
  }

  lemma InkShift(ink: string, held: string, first: string, rest: string)
    ensures ink + (held + first) + rest == ink + held + (first + rest)
    ensures (ink + held) + first + rest == ink + held + (first + rest)
  {
  }

  lemma {:induction false} WordPartsConserve(budget: Budget, heading: string, shell: Shell,
                                             parts: seq<string>, current: seq<string>, words: seq<string>, ink: string)
    requires Carries(shell, parts, ink)
    requires WordParts(budget, heading, shell, parts, current, words).Ok?
    ensures Carries(shell, WordParts(budget, heading, shell, parts, current, words).value,
                    ink + InkAll(current) + InkAll(words))
    decreases words
  {
    hide Carries, RenderWords, Fits;
    FlushWordsCarries(shell, parts, ink, current);
    if words == [] {
      assert ink + InkAll(current) + "" == ink + InkAll(current);
    } else {
      var word, rest := words[0], words[1..];
      InkAllAppend(current, word);
      InkShift(ink, InkAll(current), Ink(word), InkAll(rest));
      var flushed := if current == [] then parts else parts + [RenderWords(shell, current)];
      if Fits(budget, heading, RenderWords(shell, current + [word])) {
        WordPartsConserve(budget, heading, shell, parts, current + [word], rest, ink);
      } else if Fits(budget, heading, RenderWords(shell, [word])) {
        WordPartsConserve(budget, heading, shell, flushed, [word], rest, ink + InkAll(current));
        InkAllOne(word);
      } else {
        LongWordConserves(budget, heading, shell, word);
        var pieces := LongWordParts(budget, heading, shell, word).value;
        CarriesConcat(shell, flushed, ink + InkAll(current), pieces, Ink(word));
        WordPartsConserve(budget, heading, shell, flushed + pieces, [], rest, ink + InkAll(current) + Ink(word));
        assert ink + InkAll(current) + Ink(word) + "" == ink + InkAll(current) + Ink(word);
      }
    }
  }

  lemma InkAllOne(x: string)
    ensures InkAll([x]) == Ink(x)
  {
    assert [x][1..] == [];
    assert Ink(x) + "" == Ink(x);
  }

  lemma SplitWordsConserves(budget: Budget, heading: string, shell: Shell, text: string)
    requires SplitWords(budget, heading, shell, text).Ok?
    ensures Carries(shell, SplitWords(budget, heading, shell, text).value, Ink(text))
  {
    hide Carries;
    NothingCarried(shell);
    WordPartsConserve(budget, heading, shell, [], [], Words(text), "");
    assert "" + "" + Ink(text) == Ink(text);
  }

  lemma FlushLinesCarries(shell: Shell, parts: seq<string>, ink: string, lines: seq<string>)
    requires Carries(shell, parts, ink)
    ensures Carries(shell, parts + [RenderLines(shell, lines)], ink + InkAll(lines))
  {
    hide Carries, RenderLines;
    InkLines(shell, lines);
    CarriesOne(shell, RenderLines(shell, lines), InkAll(lines));
    CarriesConcat(shell, parts, ink, [RenderLines(shell, lines)], InkAll(lines));
  }

  lemma {:induction false} LinePartsConserve(budget: Budget, heading: string, shell: Shell,
                                             parts: seq<string>, current: seq<string>, lines: seq<string>, ink: string)
    requires Carries(shell, parts, ink)
    requires LineParts(budget, heading, shell, parts, current, lines).Ok?
    ensures Carries(shell, LineParts(budget, heading, shell, parts, current, lines).value,
                    ink + InkAll(current) + InkAll(lines))
    decreases lines
  {
    hide Carries, RenderLines, Fits;
    FlushLinesCarries(shell, parts, ink, current);
    if lines == [] {
      assert ink + InkAll(current) + "" == ink + InkAll(current);
      if RenderLines(shell, current) == "" {
        InkLines(shell, current);
        assert InkAll(current) == "";
      }
      assert InkAll(current) == "" ==> ink + InkAll(current) + "" == ink;
    } else {
      var line, rest := lines[0], lines[1..];
      InkAllAppend(current, line);
      InkShift(ink, InkAll(current), Ink(line), InkAll(rest));
      var flushed := if current == [] then parts else parts + [RenderLines(shell, current)];
      assert current == [] ==> ink + InkAll(current) == ink;
      if Fits(budget, heading, RenderLines(shell, current + [line])) {
        LinePartsConserve(budget, heading, shell, parts, current + [line], rest, ink);
      } else if Fits(budget, heading, RenderLines(shell, [line])) {
        LinePartsConserve(budget, heading, shell, flushed, [line], rest, ink + InkAll(current));
        InkAllOne(line);
      } else {
        SplitWordsConserves(budget, heading, shell, line);
        var pieces := SplitWords(budget, heading, shell, line).value;
        CarriesConcat(shell, flushed, ink + InkAll(current), pieces, Ink(line));
        LinePartsConserve(budget, heading, shell, flushed + pieces, [], rest, ink + InkAll(current) + Ink(line));
        assert ink + InkAll(current) + Ink(line) + "" == ink + InkAll(current) + Ink(line);
      }
    }
  }

  /** Taking the shell off every part leaves exactly the visible characters of the lines, in order. */
  lemma PackConserves(budget: Budget, heading: string, shell: Shell, lines: seq<string>)
    requires PackLines(budget, heading, shell, lines).Ok?
    ensures Carries(shell, PackLines(budget, heading, shell, lines).value, InkAll(lines))
  {
    hide Carries;
    NothingCarried(shell);
    LinePartsConserve(budget, heading, shell, [], [], lines, "");
    assert "" + "" + InkAll(lines) == InkAll(lines);
  }

  // ----- When it raises -----

  /** The pieces repeated around a body begin and end with visible characters. */
  predicate GoodShell(shell: Shell) {
    Trimmed(shell.prefix) && Trimmed(shell.suffix)
  }

  /** One character fits between the heading and the shell. */
  predicate Room(budget: Budget, heading: string, shell: Shell) {
    Fits(budget, heading, Wrap(shell, "x"))
  }

  /** Stripping around a core that neither starts nor ends with whitespace. */
  lemma StripAround(a: string, m: string, b: string)
    requires m != "" && Trimmed(m)
    ensures Strip(a + m + b) == StripLeft(a) + m + StripRight(b)
  {
    hide StripLeft, StripRight, Strip;
    var lead := StripLeftParts(a);
    var trail := StripRightParts(b);
    var core := StripLeft(a) + m + StripRight(b);
    assert core[0] == if StripLeft(a) == "" then m[0] else StripLeft(a)[0];
    assert core[|core| - 1] == if StripRight(b) == "" then m[|m| - 1] else StripRight(b)[|StripRight(b)| - 1];
    StripOf(lead, core, trail);
    assert a + m + b == lead + core + trail;
  }

  /** A single visible character between two breaks adds one character and one token, whichever it is. */
  lemma OneCharacter(a: string, c: char, b: string)
    requires !IsSpace(c)
    requires a != "" && a[|a| - 1] == '\n' && (b != "" ==> b[0] == '\n')
    ensures |Strip(a + [c] + b)| == |StripLeft(a)| + 1 + |StripRight(b)|
    ensures TokenCount(Strip(a + [c] + b)) == TokenCount(a) + 1 + TokenCount(b)
  {
    hide Strip, TokenCount, StripLeft, StripRight;
    StripAround(a, [c], b);
    CountStrip(a + [c] + b);
    CountSeparates(a + [c], b);
    CountSeparates(a, [c]);
    CountOne(c);
  }

  lemma CountOne(c: char)
    requires !IsSpace(c)
    ensures TokenCount([c]) == 1
  {
    CountIsStarts([c]);
  }

  lemma RoomForAny(budget: Budget, heading: string, shell: Shell, c: char)
    requires !IsSpace(c)
    ensures Fits(budget, heading, Wrap(shell, [c])) == Room(budget, heading, shell)
  {
    hide Strip, TokenCount;
    var a, b := heading + "\n\n" + Before(shell), After(shell);
    assert heading + "\n\n" + Wrap(shell, [c]) == a + [c] + b;
    assert heading + "\n\n" + Wrap(shell, "x") == a + ['x'] + b;
    OneCharacter(a, c, b);
    OneCharacter(a, 'x', b);
  }

  lemma StripLeftKept(shell: Shell, u: string) returns (u': string)
    requires GoodShell(shell)
    ensures StripLeft(Before(shell) + u) == Before(shell) + u'
  {
    if shell.prefix == "" {
      assert Before(shell) + u == u;
      u' := StripLeft(u);
      assert "" + u' == u';
    } else {
      u' := u;
      assert (Before(shell) + u)[0] == shell.prefix[0];
    }
  }

  lemma StripRightKept(shell: Shell, v: string) returns (v': string)
    requires GoodShell(shell)
    ensures StripRight(v + After(shell)) == v' + After(shell)
  {
    if shell.suffix == "" {
      assert v + After(shell) == v;
      v' := StripRight(v);
      assert v' + "" == v';
    } else {
      v' := v;
      var all := v + After(shell);
      assert all[|all| - 1] == shell.suffix[|shell.suffix| - 1];
    }
  }

  /** If a wrapped body fits once stripped, so does any trimmed stretch of it in the same shell. */
  lemma NarrowFits(budget: Budget, heading: string, shell: Shell, u: string, m: string, v: string)
    requires GoodShell(shell) && m != "" && Trimmed(m)
    requires Fits(budget, heading, Strip(Wrap(shell, u + m + v)))
    ensures Fits(budget, heading, Wrap(shell, m))
  {
    hide Fits, Strip, Before, After, GoodShell, StripLeft, StripRight;
    var before, after := Before(shell), After(shell);
    assert Wrap(shell, u + m + v) == (before + u) + m + (v + after);
    StripAround(before + u, m, v + after);
    var u' := StripLeftKept(shell, u);
    var v' := StripRightKept(shell, v);
    BothDeletionsFit(budget, heading, before, u', m, v', after);
  }

  lemma BothDeletionsFit(budget: Budget, heading: string, a: string, u: string, m: string, v: string, b: string)
    requires Fits(budget, heading, (a + u) + m + (v + b))
    ensures Fits(budget, heading, a + m + b)
  {
    hide Fits;
    assert (a + u) + m + (v + b) == a + u + (m + v + b);
    DeletionFitsBody(budget, heading, a, u, m + v + b);
    assert a + (m + v + b) == (a + m) + v + b;
    DeletionFitsBody(budget, heading, a + m, v, b);
  }

  /** Without room for one character, no body with anything visible in it fits. */
  lemma NoRoom(budget: Budget, heading: string, shell: Shell, body: string)
    requires GoodShell(shell) && !Blank(body)
    requires Fits(budget, heading, Strip(Wrap(shell, body)))
    ensures Room(budget, heading, shell)
  {
    hide Fits, Strip, Wrap, GoodShell, Room;
    var i :| 0 <= i < |body| && !IsSpace(body[i]);
    assert body == body[..i] + [body[i]] + body[i + 1..];
    NarrowFits(budget, heading, shell, body[..i], [body[i]], body[i + 1..]);
    RoomForAny(budget, heading, shell, body[i]);
  }

  lemma {:induction false} LongWordRaises(budget: Budget, heading: string, shell: Shell, word: string)
    requires NoSpace(word)
    ensures LongWordParts(budget, heading, shell, word).Raised? <==> word != "" && !Room(budget, heading, shell)
    decreases |word|
  {
    hide Fits, RenderPiece, Room;
    if word != "" {
      var n := LongestFit(budget, heading, shell, word, |word|);
      assert word[..1] == [word[0]];
      PieceWrapped(shell, word[..1]);
      RoomForAny(budget, heading, shell, word[0]);
      if n > 0 {
        ShorterPieceFits(budget, heading, shell, word, 1, n);
        assert forall i :: 0 <= i < |word[n..]| ==> word[n..][i] == word[n + i];
        LongWordRaises(budget, heading, shell, word[n..]);
      }
    }
  }

  predicate AreWords(words: seq<string>) {
    forall i :: 0 <= i < |words| ==> words[i] != "" && NoSpace(words[i])
  }

  lemma {:induction false} JoinShows(xs: seq<string>, sep: string, i: nat)
    requires i < |xs| && !Blank(xs[i]) && Blank(sep)
    ensures !Blank(Join(xs, sep))
  {
    hide Join, Blank;
    InkJoin(xs, sep);
    InkBlank(Join(xs, sep));
    InkAllConcat(xs[..i], xs[i..]);
    assert xs == xs[..i] + xs[i..];
    InkBlank(xs[i]);
  }

  lemma WordsNeedRoom(budget: Budget, heading: string, shell: Shell, words: seq<string>)
    requires GoodShell(shell) && AreWords(words) && words != []
    requires Fits(budget, heading, RenderWords(shell, words))
    ensures Room(budget, heading, shell)
  {
    hide Fits, Strip, GoodShell, Room, Wrap;
    assert !IsSpace(words[0][0]);
    JoinShows(words, " ", 0);
    PieceWrapped(shell, Join(words, " "));
    NoRoom(budget, heading, shell, Join(words, " "));
  }

  lemma LinesNeedRoom(budget: Budget, heading: string, shell: Shell, lines: seq<string>, i: nat)
    requires GoodShell(shell) && i < |lines| && !Blank(lines[i])
    requires Fits(budget, heading, RenderLines(shell, lines))
    ensures Room(budget, heading, shell)
  {
    hide Fits, Strip, GoodShell, Room, Wrap, Blank;
    JoinShows(lines, "\n", i) by {
      assert Blank("\n") by { BlankBreak(); }
    }
    JoinWrapped(shell, lines);
    NoRoom(budget, heading, shell, Join(lines, "\n"));
  }

  lemma BlankBreak()
    ensures Blank("\n") && Blank(" ")
  {
  }

  lemma {:induction false} WordPartsRaise(budget: Budget, heading: string, shell: Shell,
                                          parts: seq<string>, current: seq<string>, words: seq<string>)
    requires GoodShell(shell) && AreWords(current) && AreWords(words)
    ensures WordParts(budget, heading, shell, parts, current, words).Raised?
       <==> words != [] && !Room(budget, heading, shell)
    decreases words
  {
    hide Fits, RenderWords, GoodShell, Room;
    if words != [] {
      var word, rest := words[0], words[1..];
      assert AreWords(rest) by { assert forall i :: 0 <= i < |rest| ==> rest[i] == words[i + 1]; }
      LongWordRaises(budget, heading, shell, word);
      var flushed := if current == [] then parts else parts + [RenderWords(shell, current)];
      if Fits(budget, heading, RenderWords(shell, current + [word])) {
        WordsNeedRoom(budget, heading, shell, current + [word]);
        WordPartsRaise(budget, heading, shell, parts, current + [word], rest);
      } else if Fits(budget, heading, RenderWords(shell, [word])) {
        WordsNeedRoom(budget, heading, shell, [word]);
        WordPartsRaise(budget, heading, shell, flushed, [word], rest);
      } else if Room(budget, heading, shell) {
        var pieces := LongWordParts(budget, heading, shell, word).value;
        WordPartsRaise(budget, heading, shell, flushed + pieces, [], rest);
      }
    }
  }

  lemma SplitWordsRaises(budget: Budget, heading: string, shell: Shell, text: string)
    requires GoodShell(shell)
    ensures SplitWords(budget, heading, shell, text).Raised? <==> !Blank(text) && !Room(budget, heading, shell)
  {
    WordPartsRaise(budget, heading, shell, [], [], Words(text));
  }

  lemma {:induction false} LinePartsRaise(budget: Budget, heading: string, shell: Shell,
                                          parts: seq<string>, current: seq<string>, lines: seq<string>)
    requires GoodShell(shell)
    ensures LineParts(budget, heading, shell, parts, current, lines).Raised?
       <==> !AllBlank(lines) && !Room(budget, heading, shell)
    decreases lines
  {
    hide Fits, RenderLines, GoodShell, Room, Blank;
    if lines != [] {
      var line, rest := lines[0], lines[1..];
      AllBlankCons(line, rest);
      assert lines == [line] + rest;
      SplitWordsRaises(budget, heading, shell, line);
      var flushed := if current == [] then parts else parts + [RenderLines(shell, current)];
      if Fits(budget, heading, RenderLines(shell, current + [line])) {
        if !Blank(line) { LinesNeedRoom(budget, heading, shell, current + [line], |current|); }
        LinePartsRaise(budget, heading, shell, parts, current + [line], rest);
      } else if Fits(budget, heading, RenderLines(shell, [line])) {
        if !Blank(line) { LinesNeedRoom(budget, heading, shell, [line], 0); }
        LinePartsRaise(budget, heading, shell, flushed, [line], rest);
      } else if Blank(line) || Room(budget, heading, shell) {
        var pieces := SplitWords(budget, heading, shell, line).value;
        LinePartsRaise(budget, heading, shell, flushed + pieces, [], rest);
      }
    }
  }

  lemma AllBlankCons(line: string, rest: seq<string>)
    ensures AllBlank([line] + rest) <==> Blank(line) && AllBlank(rest)
  {
    hide Blank;
    var lines := [line] + rest;
    assert forall i :: 0 <= i < |rest| ==> rest[i] == lines[i + 1];
    assert lines[0] == line;
  }

  /** Packing raises exactly when some line shows something and there is no room for one character. */
  lemma PackRaises(budget: Budget, heading: string, shell: Shell, lines: seq<string>)
    requires GoodShell(shell)
    ensures PackLines(budget, heading, shell, lines).Raised?
       <==> !AllBlank(lines) && !Room(budget, heading, shell)
  {
    LinePartsRaise(budget, heading, shell, [], [], lines);
  }

  // ----- Something always comes out -----

  /** Packing returns no part only for lines that show nothing in an empty shell. */
  lemma {:induction false} LinePartsNotEmpty(budget: Budget, heading: string, shell: Shell,
                                             parts: seq<string>, current: seq<string>, lines: seq<string>)
    requires LineParts(budget, heading, shell, parts, current, lines) == Ok([])
    ensures Ink(shell.prefix) == ""
    decreases lines
  {
    hide Fits, RenderLines, SplitWords;
    if lines == [] {
      InkLines(shell, current);
    } else {
      var line, rest := lines[0], lines[1..];
      var flushed := if current == [] then parts else parts + [RenderLines(shell, current)];
      if Fits(budget, heading, RenderLines(shell, current + [line])) {
        LinePartsNotEmpty(budget, heading, shell, parts, current + [line], rest);
      } else if Fits(budget, heading, RenderLines(shell, [line])) {
        LinePartsNotEmpty(budget, heading, shell, flushed, [line], rest);
      } else {
        var pieces := SplitWords(budget, heading, shell, line).value;
        LinePartsNotEmpty(budget, heading, shell, flushed + pieces, [], rest);
      }
    }
  }

  lemma PackNotEmpty(budget: Budget, heading: string, shell: Shell, lines: seq<string>)
    requires PackLines(budget, heading, shell, lines) == Ok([])
    ensures Ink(shell.prefix) == "" && InkAll(lines) == ""
  {
    hide LineParts;
    LinePartsNotEmpty(budget, heading, shell, [], [], lines);
    PackConserves(budget, heading, shell, lines);
  }

  // ----- The hard budget -----

  predicate AllFit(budget: Budget, heading: string, parts: seq<string>) {
    forall i :: 0 <= i < |parts| ==> Fits(budget, heading, parts[i])
  }

  lemma {:induction false} LongWordFits(budget: Budget, heading: string, shell: Shell, word: string)
    requires LongWordParts(budget, heading, shell, word).Ok?
    ensures AllFit(budget, heading, LongWordParts(budget, heading, shell, word).value)
    ensures word != "" ==> LongWordParts(budget, heading, shell, word).value != []
    decreases |word|
  {
    hide Fits, RenderPiece;
    if word != "" {
      LongWordFits(budget, heading, shell, word[LongestFit(budget, heading, shell, word, |word|)..]);
    }
  }

  lemma {:induction false} WordPartsFit(budget: Budget, heading: string, shell: Shell,
                                        parts: seq<string>, current: seq<string>, words: seq<string>)
    requires AllFit(budget, heading, parts)
    requires current != [] ==> Fits(budget, heading, RenderWords(shell, current))
    requires AreWords(words)
    requires WordParts(budget, heading, shell, parts, current, words).Ok?
    ensures AllFit(budget, heading, WordParts(budget, heading, shell, parts, current, words).value)
    ensures parts != [] || current != [] || words != []
        ==> WordParts(budget, heading, shell, parts, current, words).value != []
    decreases words
  {
    hide Fits, RenderWords;
    if words != [] {
      var word, rest := words[0], words[1..];
      assert AreWords(rest) by { assert forall i :: 0 <= i < |rest| ==> rest[i] == words[i + 1]; }
      var flushed := if current == [] then parts else parts + [RenderWords(shell, current)];
      if Fits(budget, heading, RenderWords(shell, current + [word])) {
        WordPartsFit(budget, heading, shell, parts, current + [word], rest);
      } else if Fits(budget, heading, RenderWords(shell, [word])) {
        WordPartsFit(budget, heading, shell, flushed, [word], rest);
      } else {
        LongWordFits(budget, heading, shell, word);
        WordPartsFit(budget, heading, shell, flushed + LongWordParts(budget, heading, shell, word).value, [], rest);
      }
    }
  }

  lemma SplitWordsFits(budget: Budget, heading: string, shell: Shell, text: string)
    requires SplitWords(budget, heading, shell, text).Ok?
    ensures AllFit(budget, heading, SplitWords(budget, heading, shell, text).value)
    ensures Blank(text) <==> SplitWords(budget, heading, shell, text).value == []
  {
    hide Fits, RenderWords, Blank;
    WordPartsFit(budget, heading, shell, [], [], Words(text));
  }

  /** The one case emitted unchecked: a body with nothing visible, in a shell that alone is too large. */
  predicate BareShell(budget: Budget, heading: string, shell: Shell, lines: seq<string>) {
    AllBlank(lines) && RenderLines(shell, []) != "" && !Fits(budget, heading, RenderLines(shell, []))
  }

  lemma {:induction false} LinePartsFit(budget: Budget, heading: string, shell: Shell,
                                        parts: seq<string>, current: seq<string>, lines: seq<string>)
    requires AllFit(budget, heading, parts)
    requires current != [] ==> Fits(budget, heading, RenderLines(shell, current))
    requires parts != [] || current != [] || !BareShell(budget, heading, shell, lines)
    requires LineParts(budget, heading, shell, parts, current, lines).Ok?
    ensures AllFit(budget, heading, LineParts(budget, heading, shell, parts, current, lines).value)
    decreases lines
  {
    hide Fits, RenderLines, Blank;
    if lines != [] {
      var line, rest := lines[0], lines[1..];
      assert lines == [line] + rest;
      AllBlankCons(line, rest);
      var flushed := if current == [] then parts else parts + [RenderLines(shell, current)];
      if Fits(budget, heading, RenderLines(shell, current + [line])) {
        LinePartsFit(budget, heading, shell, parts, current + [line], rest);
      } else if Fits(budget, heading, RenderLines(shell, [line])) {
        LinePartsFit(budget, heading, shell, flushed, [line], rest);
      } else {
        SplitWordsFits(budget, heading, shell, line);
        var pieces := SplitWords(budget, heading, shell, line).value;
        LinePartsFit(budget, heading, shell, flushed + pieces, [], rest);
      }
    }
  }

  /** If lines fit inside a shell, the shell fits on its own. */
  lemma ShellAloneFits(budget: Budget, heading: string, shell: Shell, line: string)
    requires GoodShell(shell) && Blank(line)
    requires Fits(budget, heading, RenderLines(shell, [line]))
    ensures Fits(budget, heading, RenderLines(shell, []))
  {
    hide Fits;
    JoinWrapped(shell, [line]);
    var p, s := shell.prefix, shell.suffix;
    if p == "" && s == "" {
      StripBlank(line);
      assert Wrap(shell, line) == line;
    } else if s == "" {
      assert Wrap(shell, line) == "" + p + ("\n" + line);
      StripOf("", p, "\n" + line);
      StripTrimmed(p);
    } else if p == "" {
      assert Wrap(shell, line) == (line + "\n") + s + "";
      StripOf(line + "\n", s, "");
      StripTrimmed(s);
    } else {
      var both := p + "\n" + s;
      StripTrimmed(both);
      assert Optional(p) + [] + Optional(s) == [p, s];
      assert Join([p, s], "\n") == both;
      assert Wrap(shell, line) == p + "\n" + (line + "\n") + s;
      StripTrimmed(Wrap(shell, line));
      DeletionFitsBody(budget, heading, p + "\n", line + "\n", s);
    }
  }

  lemma {:induction false} BareShellEmitted(budget: Budget, heading: string, shell: Shell, lines: seq<string>)
    requires GoodShell(shell) && BareShell(budget, heading, shell, lines)
    ensures LineParts(budget, heading, shell, [], [], lines) == Ok([RenderLines(shell, [])])
    decreases lines
  {
    hide Fits, RenderLines, Blank, GoodShell;
    if lines == [] {
      assert [] + [RenderLines(shell, [])] == [RenderLines(shell, [])];
    } else {
      var line, rest := lines[0], lines[1..];
      assert lines == [line] + rest;
      AllBlankCons(line, rest);
      assert [] + [line] == [line];
      if Fits(budget, heading, RenderLines(shell, [line])) {
        ShellAloneFits(budget, heading, shell, line);
      }
      assert SplitWords(budget, heading, shell, line) == Ok([]);
      BareShellEmitted(budget, heading, shell, rest);
    }
  }

  /** When packing returns, every part is within both budgets exactly unless only a bare shell was left. */
  lemma PackFits(budget: Budget, heading: string, shell: Shell, lines: seq<string>)
    requires GoodShell(shell) && PackLines(budget, heading, shell, lines).Ok?
    ensures AllFit(budget, heading, PackLines(budget, heading, shell, lines).value)
       <==> !BareShell(budget, heading, shell, lines)
  {
    hide Fits, RenderLines, AllBlank, GoodShell;
    if BareShell(budget, heading, shell, lines) {
      BareShellEmitted(budget, heading, shell, lines);
      assert !Fits(budget, heading, [RenderLines(shell, [])][0]);
    } else {
      LinePartsFit(budget, heading, shell, [], [], lines);
    }
  }
}
