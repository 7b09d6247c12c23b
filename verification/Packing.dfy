/**
 The fallback chain below whole blocks: lines packed into parts, a line that is too long split
 into words, a word that is too long split into the longest pieces that fit. Every part repeats
 the shell of its block: the table header, or the two fence lines.
 */
module Packing {
  import opened Results
  import opened Text
  import opened Tokens

  /** What every part of a split block repeats before and after its own lines. */
  datatype Shell = Shell(prefix: string, suffix: string)

  datatype SplitError = EmptyDocument | ExceedsBudget

  function SectionText(heading: string, body: string): string {
    Strip(heading + "\n\n" + body)
  }

  /** `MarkdownSectioner._fits`. */
  predicate Fits(budget: Budget, heading: string, body: string) {
    FitsText(SectionText(heading, body), budget)
  }

  function Optional(s: string): seq<string> {
    if s == "" then [] else [s]
  }

  /** The rendering of packed lines. */
  function RenderLines(shell: Shell, lines: seq<string>): string {
    Strip(Join(Optional(shell.prefix) + lines + Optional(shell.suffix), "\n"))
  }

  /** The rendering of a piece of a word, which is not stripped. */
  function RenderPiece(shell: Shell, piece: string): string {
    Join(Optional(shell.prefix) + Optional(piece) + Optional(shell.suffix), "\n")
  }

  /** The rendering of packed words. */
  function RenderWords(shell: Shell, words: seq<string>): string {
    Strip(RenderPiece(shell, Join(words, " ")))
  }

  // ----- The longest piece of a word -----

  /** The largest `n` up to `k` for which the first `n` characters fit, or 0. */
  function LongestFit(budget: Budget, heading: string, shell: Shell, word: string, k: nat): (n: nat)
    requires k <= |word|
    ensures n <= k
    ensures n > 0 ==> Fits(budget, heading, RenderPiece(shell, word[..n]))
    ensures forall j :: n < j <= k ==> !Fits(budget, heading, RenderPiece(shell, word[..j]))
  {
    if k == 0 || Fits(budget, heading, RenderPiece(shell, word[..k])) then k
    else LongestFit(budget, heading, shell, word, k - 1)
  }

  function LongWordParts(budget: Budget, heading: string, shell: Shell, word: string): Result<seq<string>, SplitError>
    decreases |word|
  {
    if word == "" then Ok([])
    else
      var n := LongestFit(budget, heading, shell, word, |word|);
      if n == 0 then Raised(ExceedsBudget)
      else
        var rest :- LongWordParts(budget, heading, shell, word[n..]);
        Ok([RenderPiece(shell, word[..n])] + rest)
  }

  // ----- Words and lines -----

  /** `_split_words` from a state of its loop: parts made, words held, words to come. */
  function WordParts(budget: Budget, heading: string, shell: Shell,
                     parts: seq<string>, current: seq<string>, words: seq<string>): Result<seq<string>, SplitError>
    decreases words
  {
    if words == [] then Ok(if current == [] then parts else parts + [RenderWords(shell, current)])
    else
      var word, rest := words[0], words[1..];
      if Fits(budget, heading, RenderWords(shell, current + [word])) then
        WordParts(budget, heading, shell, parts, current + [word], rest)
      else
        var flushed := if current == [] then parts else parts + [RenderWords(shell, current)];
        if Fits(budget, heading, RenderWords(shell, [word])) then
          WordParts(budget, heading, shell, flushed, [word], rest)
        else
          var pieces :- LongWordParts(budget, heading, shell, word);
          WordParts(budget, heading, shell, flushed + pieces, [], rest)
  }

  function SplitWords(budget: Budget, heading: string, shell: Shell, text: string): Result<seq<string>, SplitError> {
    WordParts(budget, heading, shell, [], [], Words(text))
  }

  /** `_pack_lines` from a state of its loop: parts made, lines held, lines to come. */
  function LineParts(budget: Budget, heading: string, shell: Shell,
                     parts: seq<string>, current: seq<string>, lines: seq<string>): Result<seq<string>, SplitError>
    decreases lines
  {
    if lines == [] then
      Ok(if (current != [] || parts == []) && RenderLines(shell, current) != ""
         then parts + [RenderLines(shell, current)] else parts)
    else
      var line, rest := lines[0], lines[1..];
      if Fits(budget, heading, RenderLines(shell, current + [line])) then
        LineParts(budget, heading, shell, parts, current + [line], rest)
      else
        var flushed := if current == [] then parts else parts + [RenderLines(shell, current)];
        if Fits(budget, heading, RenderLines(shell, [line])) then
          LineParts(budget, heading, shell, flushed, [line], rest)
        else
          var pieces :- SplitWords(budget, heading, shell, line);
          LineParts(budget, heading, shell, flushed + pieces, [], rest)
  }

  function PackLines(budget: Budget, heading: string, shell: Shell, lines: seq<string>)
    : Result<seq<string>, SplitError>
  {
    LineParts(budget, heading, shell, [], [], lines)
  }

  // ----- The loops -----

  /** `_split_long_word`: a binary search for each piece finds the longest one. */
  method SplitLongWord(budget: Budget, heading: string, shell: Shell, word: string)
    returns (result: Result<seq<string>, SplitError>)
    ensures result == LongWordParts(budget, heading, shell, word)
  {
    var parts: seq<string> := [];
    var remaining := word;
    PrependNone(LongWordParts(budget, heading, shell, word));
    while remaining != ""
      invariant LongWordParts(budget, heading, shell, word)
             == Prepend(parts, LongWordParts(budget, heading, shell, remaining))
      decreases |remaining|
    {
      var accepted := LongestPiece(budget, heading, shell, remaining);
      if accepted == 0 {
        return Raised(ExceedsBudget);
      }
      var piece := RenderPiece(shell, remaining[..accepted]);
      PrependOne(parts, piece, LongWordParts(budget, heading, shell, remaining[accepted..]));
      parts := parts + [piece];
      remaining := remaining[accepted..];
    }
    assert parts + [] == parts;
    result := Ok(parts);
  }

  function Prepend<E>(parts: seq<string>, rest: Result<seq<string>, E>): Result<seq<string>, E> {
    match rest
    case Ok(more) => Ok(parts + more)
    case Raised(error) => Raised(error)
  }

  lemma PrependNone<E>(rest: Result<seq<string>, E>)
    ensures Prepend([], rest) == rest
  {
    if rest.Ok? {
      assert [] + rest.value == rest.value;
    }
  }

  lemma PrependOne<E>(parts: seq<string>, piece: string, rest: Result<seq<string>, E>)
    ensures Prepend(parts, Prepend([piece], rest)) == Prepend(parts + [piece], rest)
  {
    if rest.Ok? {
      assert parts + ([piece] + rest.value) == parts + [piece] + rest.value;
    }
  }

  method LongestPiece(budget: Budget, heading: string, shell: Shell, remaining: string) returns (accepted: nat)
    requires remaining != ""
    ensures accepted == LongestFit(budget, heading, shell, remaining, |remaining|)
  {
    var low, high := 1, |remaining|;
    accepted := 0;
    while low <= high
      invariant 0 <= accepted == low - 1 <= high <= |remaining|
      invariant accepted > 0 ==> Fits(budget, heading, RenderPiece(shell, remaining[..accepted]))
      invariant forall j :: high < j <= |remaining| ==> !Fits(budget, heading, RenderPiece(shell, remaining[..j]))
      decreases high - low
    {
      var middle := (low + high) / 2;
      if Fits(budget, heading, RenderPiece(shell, remaining[..middle])) {
        accepted := middle;
        low := middle + 1;
      } else {
        forall j | middle <= j <= |remaining|
          ensures !Fits(budget, heading, RenderPiece(shell, remaining[..j]))
        {
          if Fits(budget, heading, RenderPiece(shell, remaining[..j])) {
            ShorterPieceFits(budget, heading, shell, remaining, middle, j);
          }
        }
        high := middle - 1;
      }
    }
  }

  method SplitIntoWords(budget: Budget, heading: string, shell: Shell, text: string)
    returns (result: Result<seq<string>, SplitError>)
    ensures result == SplitWords(budget, heading, shell, text)
  {
    hide Fits, RenderWords, Words;
    var words := Words(text);
    var parts: seq<string>, current: seq<string> := [], [];
    var i := 0;
    while i < |words|
      invariant 0 <= i <= |words|
      invariant SplitWords(budget, heading, shell, text)
             == WordParts(budget, heading, shell, parts, current, words[i..])
    {
      var word := words[i];
      assert words[i..][0] == word && words[i..][1..] == words[i + 1..];
      assert [] + [word] == [word];
      if Fits(budget, heading, RenderWords(shell, current + [word])) {
        current := current + [word];
      } else {
        if current != [] {
          parts := parts + [RenderWords(shell, current)];
          current := [];
        }
        if Fits(budget, heading, RenderWords(shell, [word])) {
          current := current + [word];
        } else {
          var pieces := SplitLongWord(budget, heading, shell, word);
          if pieces.Raised? {
            return pieces;
          }
          parts := parts + pieces.value;
        }
      }
      i := i + 1;
    }
    assert words[i..] == [];
    if current != [] {
      parts := parts + [RenderWords(shell, current)];
    }
    result := Ok(parts);
  }

  method PackIntoParts(budget: Budget, heading: string, shell: Shell, lines: seq<string>)
    returns (result: Result<seq<string>, SplitError>)
    ensures result == PackLines(budget, heading, shell, lines)
  {
    hide Fits, RenderLines, SplitWords;
    var parts: seq<string>, current: seq<string> := [], [];
    var i := 0;
    while i < |lines|
      invariant 0 <= i <= |lines|
      invariant PackLines(budget, heading, shell, lines)
             == LineParts(budget, heading, shell, parts, current, lines[i..])
    {
      var line := lines[i];
      assert lines[i..][0] == line && lines[i..][1..] == lines[i + 1..];
      assert [] + [line] == [line];
      if Fits(budget, heading, RenderLines(shell, current + [line])) {
        current := current + [line];
      } else {
        if current != [] {
          parts := parts + [RenderLines(shell, current)];
          current := [];
        }
        if Fits(budget, heading, RenderLines(shell, [line])) {
          current := current + [line];
        } else {
          var pieces := SplitIntoWords(budget, heading, shell, line);
          if pieces.Raised? {
            return pieces;
          }
          parts := parts + pieces.value;
        }
      }
      i := i + 1;
    }
    assert lines[i..] == [];
    if current != [] || parts == [] {
      var rendered := RenderLines(shell, current);
      if rendered != "" {
        parts := parts + [rendered];
      }
    }
    result := Ok(parts);
  }

  // ----- Fitting is monotone -----

  function Before(shell: Shell): string {
    if shell.prefix == "" then "" else shell.prefix + "\n"
  }

  function After(shell: Shell): string {
    if shell.suffix == "" then "" else "\n" + shell.suffix
  }

  function Wrap(shell: Shell, body: string): string {
    Before(shell) + body + After(shell)
  }

  lemma JoinWrapped(shell: Shell, lines: seq<string>)
    requires lines != []
    ensures Join(Optional(shell.prefix) + lines + Optional(shell.suffix), "\n") == Wrap(shell, Join(lines, "\n"))
  {
    var body := Join(lines, "\n");
    var front := Optional(shell.prefix) + lines;
    if shell.prefix == "" {
      assert front == lines;
      assert "" + body == body;
    } else {
      JoinConcat([shell.prefix], lines, "\n");
    }
    assert Join(front, "\n") == Before(shell) + body;
    if shell.suffix == "" {
      assert front + [] == front;
    } else {
      JoinConcat(front, [shell.suffix], "\n");
      assert Before(shell) + body + "\n" + shell.suffix == Before(shell) + body + ("\n" + shell.suffix);
    }
  }

  lemma PieceWrapped(shell: Shell, piece: string)
    requires piece != ""
    ensures RenderPiece(shell, piece) == Wrap(shell, piece)
  {
    JoinWrapped(shell, [piece]);
  }

  /** A body that fits still fits after any stretch of it is deleted. */
  lemma DeletionFitsBody(budget: Budget, heading: string, a: string, b: string, c: string)
    requires Fits(budget, heading, a + b + c)
    ensures Fits(budget, heading, a + c)
  {
    hide FitsText, Strip;
    assert heading + "\n\n" + (a + b + c) == heading + "\n\n" + a + b + c;
    assert heading + "\n\n" + (a + c) == heading + "\n\n" + a + c;
    DeletionFits(heading + "\n\n" + a, b, c, budget);
  }

  /** A prefix of a piece that fits also fits. */
  lemma ShorterPieceFits(budget: Budget, heading: string, shell: Shell, word: string, j: nat, k: nat)
    requires 0 < j <= k <= |word| && Fits(budget, heading, RenderPiece(shell, word[..k]))
    ensures Fits(budget, heading, RenderPiece(shell, word[..j]))
  {
    hide Fits, RenderPiece;
    PieceWrapped(shell, word[..k]);
    PieceWrapped(shell, word[..j]);
    var front := Before(shell) + word[..j];
    assert word[..k] == word[..j] + word[j..k];
    assert Wrap(shell, word[..k]) == front + word[j..k] + After(shell);
    DeletionFitsBody(budget, heading, front, word[j..k], After(shell));
  }
}
