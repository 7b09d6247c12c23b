/** The string operations the text code is written in: whitespace, stripping, joining, splitting. */
module Text {

  /** ASCII whitespace as `str.isspace`, `str.strip` and the regular-expression class `\s` see it. */
  predicate IsSpace(c: char) {
    c == ' ' || '\t' <= c <= '\r' || '\U{1C}' <= c <= '\U{1F}'
  }

  /** ASCII characters at which `str.splitlines` ends a line. */
  predicate IsBreak(c: char) {
    '\n' <= c <= '\r' || '\U{1C}' <= c <= '\U{1E}'
  }

  predicate Blank(s: string) {
    forall i :: 0 <= i < |s| ==> IsSpace(s[i])
  }

  predicate NoBreak(s: string) {
    forall i :: 0 <= i < |s| ==> !IsBreak(s[i])
  }

  predicate NoSpace(s: string) {
    forall i :: 0 <= i < |s| ==> !IsSpace(s[i])
  }

  lemma BlankPair()
    ensures Blank("\n\n")
  {
  }

  lemma Regroup<T>(a: seq<T>, b: seq<T>, c: seq<T>)
    ensures a + (b + c) == (a + b) + c
  {
  }

  // ----- The visible characters of a text -----

  /** The non-whitespace characters of `s`, in order. */
  function Ink(s: string): string {
    if s == "" then "" else (if IsSpace(s[0]) then "" else [s[0]]) + Ink(s[1..])
  }

  /** The non-whitespace characters of several texts, in order. */
  function InkAll(xs: seq<string>): string {
    if xs == [] then "" else Ink(xs[0]) + InkAll(xs[1..])
  }

  lemma {:induction false} InkConcat(a: string, b: string)
    ensures Ink(a + b) == Ink(a) + Ink(b)
  {
    if a == "" {
      assert a + b == b;
    } else {
      assert (a + b)[1..] == a[1..] + b;
      InkConcat(a[1..], b);
    }
  }

  lemma {:induction false} InkBlank(s: string)
    ensures Ink(s) == "" <==> Blank(s)
  {
    if s != "" {
      InkBlank(s[1..]);
      if Blank(s[1..]) && IsSpace(s[0]) {
        forall i | 0 <= i < |s| ensures IsSpace(s[i]) {
          if i > 0 { assert s[i] == s[1..][i - 1]; }
        }
      }
      if Blank(s) {
        forall i | 0 <= i < |s[1..]| ensures IsSpace(s[1..][i]) {
          assert s[1..][i] == s[i + 1];
        }
      }
    }
  }

  lemma BlankConcat(a: string, b: string)
    ensures Blank(a + b) <==> Blank(a) && Blank(b)
  {
    hide Blank, Ink;
    InkConcat(a, b);
    InkBlank(a);
    InkBlank(b);
    InkBlank(a + b);
  }

  lemma {:induction false} InkNoSpace(s: string)
    requires NoSpace(s)
    ensures Ink(s) == s
  {
    if s != "" {
      forall i | 0 <= i < |s[1..]| ensures !IsSpace(s[1..][i]) {
        assert s[1..][i] == s[i + 1];
      }
      InkNoSpace(s[1..]);
    }
  }

  lemma {:induction false} InkAllConcat(xs: seq<string>, ys: seq<string>)
    ensures InkAll(xs + ys) == InkAll(xs) + InkAll(ys)
  {
    if xs == [] {
      assert xs + ys == ys;
    } else {
      assert (xs + ys)[1..] == xs[1..] + ys;
      InkAllConcat(xs[1..], ys);
    }
  }

  lemma InkAllAppend(xs: seq<string>, y: string)
    ensures InkAll(xs + [y]) == InkAll(xs) + Ink(y)
  {
    InkAllConcat(xs, [y]);
  }

  // ----- Stripping -----

  function StripLeft(s: string): string {
    if s != "" && IsSpace(s[0]) then StripLeft(s[1..]) else s
  }

  function StripRight(s: string): string {
    if s != "" && IsSpace(s[|s| - 1]) then StripRight(s[..|s| - 1]) else s
  }

  /** `str.strip()`. */
  function Strip(s: string): string {
    StripRight(StripLeft(s))
  }

  /** Neither the first nor the last character is whitespace. */
  predicate Trimmed(s: string) {
    s != "" ==> !IsSpace(s[0]) && !IsSpace(s[|s| - 1])
  }

  lemma {:induction false} StripLeftParts(s: string) returns (lead: string)
    ensures s == lead + StripLeft(s) && Blank(lead)
    ensures StripLeft(s) != "" ==> !IsSpace(StripLeft(s)[0])
  {
    lead := "";
    if s != "" && IsSpace(s[0]) {
      var rest := StripLeftParts(s[1..]);
      lead := [s[0]] + rest;
      assert s == [s[0]] + s[1..];
    }
  }

  lemma {:induction false} StripRightParts(s: string) returns (trail: string)
    ensures s == StripRight(s) + trail && Blank(trail)
    ensures StripRight(s) != "" ==> !IsSpace(StripRight(s)[|StripRight(s)| - 1])
  {
    trail := "";
    if s != "" && IsSpace(s[|s| - 1]) {
      var rest := StripRightParts(s[..|s| - 1]);
      trail := rest + [s[|s| - 1]];
      assert s == s[..|s| - 1] + [s[|s| - 1]];
    }
  }

  /** What strip removes is whitespace at both ends, and nothing strippable is left. */
  lemma StripParts(s: string) returns (lead: string, trail: string)
    ensures s == lead + Strip(s) + trail && Blank(lead) && Blank(trail)
    ensures Trimmed(Strip(s))
  {
    lead := StripLeftParts(s);
    trail := StripRightParts(StripLeft(s));
    var mid := StripLeft(s);
    assert mid == Strip(s) + trail;
    if Strip(s) != "" {
      assert Strip(s)[0] == mid[0];
    }
  }

  lemma {:induction false} StripLeftOf(lead: string, body: string)
    requires Blank(lead) && (body != "" ==> !IsSpace(body[0]))
    ensures StripLeft(lead + body) == body
  {
    if lead == "" {
      assert lead + body == body;
    } else {
      assert (lead + body)[1..] == lead[1..] + body;
      assert Blank(lead[1..]) by {
        forall i | 0 <= i < |lead[1..]| ensures IsSpace(lead[1..][i]) { assert lead[1..][i] == lead[i + 1]; }
      }
      StripLeftOf(lead[1..], body);
    }
  }

  lemma {:induction false} StripRightOf(body: string, trail: string)
    requires Blank(trail) && (body != "" ==> !IsSpace(body[|body| - 1]))
    ensures StripRight(body + trail) == body
  {
    if trail == "" {
      assert body + trail == body;
    } else {
      var s := body + trail;
      assert s[..|s| - 1] == body + trail[..|trail| - 1];
      StripRightOf(body, trail[..|trail| - 1]);
    }
  }

  /** The converse of StripParts: a trimmed text between blanks is what strip returns. */
  lemma StripOf(lead: string, body: string, trail: string)
    requires Blank(lead) && Blank(trail) && Trimmed(body)
    ensures Strip(lead + body + trail) == body
  {
    if body == "" {
      assert Blank(lead + trail);
      assert lead + body + trail == (lead + trail) + "";
      StripLeftOf(lead + trail, "");
    } else {
      assert lead + body + trail == lead + (body + trail);
      assert (body + trail)[0] == body[0];
      StripLeftOf(lead, body + trail);
      StripRightOf(body, trail);
    }
  }

  lemma StripTrimmed(s: string)
    requires Trimmed(s)
    ensures Strip(s) == s
  {
    StripOf("", s, "");
    assert "" + s + "" == s;
  }

  lemma StripBlank(s: string)
    ensures Strip(s) == "" <==> Blank(s)
  {
    var lead, trail := StripParts(s);
    assert Strip(s) == "" ==> s == lead + trail;
    if Blank(s) {
      StripOf(s, "", "");
      assert s + "" + "" == s;
    }
  }

  lemma InkStrip(s: string)
    ensures Ink(Strip(s)) == Ink(s)
  {
    var lead, trail := StripParts(s);
    InkConcat(lead + Strip(s), trail);
    InkConcat(lead, Strip(s));
    InkBlank(lead);
    InkBlank(trail);
  }

  /** Deleting a stretch of a text never makes its stripped form longer. */
  lemma StripShrinks(a: string, b: string, c: string)
    ensures |Strip(a + c)| <= |Strip(a + b + c)|
  {
    var l1, t1 := StripParts(a + c);
    var l2, t2 := StripParts(a + b + c);
    var small, large := Strip(a + c), Strip(a + b + c);
    if small != "" {
      // The first and last visible characters of a + c are visible in a + b + c as well.
      var first, last := |l1|, |l1| + |small| - 1;
      assert (a + c)[first] == small[0] && (a + c)[last] == small[|small| - 1];
      var first', last' := Shifted(a, b, c, first), Shifted(a, b, c, last);
      StripReach(a + b + c, first');
      StripReach(a + b + c, last');
    }
  }

  function Shifted(a: string, b: string, c: string, i: nat): (j: nat)
    requires i < |a + c|
    ensures j < |a + b + c| && (a + b + c)[j] == (a + c)[i] && j >= i
  {
    if i < |a| then i else i + |b|
  }

  /** Every visible character survives stripping, at a place given by the leading blanks. */
  lemma StripReach(s: string, i: nat)
    requires i < |s| && !IsSpace(s[i])
    ensures |s| - |StripLeft(s)| <= i < |s| - |StripLeft(s)| + |Strip(s)|
  {
    var lead := StripLeftParts(s);
    var trail := StripRightParts(StripLeft(s));
    assert s == lead + (Strip(s) + trail);
    assert lead == s[..|lead|] && trail == s[|lead| + |Strip(s)|..];
    assert forall k :: 0 <= k < |lead| ==> IsSpace(s[k]) by {
      assert forall k :: 0 <= k < |lead| ==> s[k] == lead[k];
    }
    assert forall k :: |lead| + |Strip(s)| <= k < |s| ==> IsSpace(s[k]) by {
      assert forall k :: |lead| + |Strip(s)| <= k < |s| ==> s[k] == trail[k - |lead| - |Strip(s)|];
    }
  }

  // ----- Joining -----

  /** `sep.join(xs)`. */
  function Join(xs: seq<string>, sep: string): string {
    if |xs| == 0 then ""
    else if |xs| == 1 then xs[0]
    else xs[0] + sep + Join(xs[1..], sep)
  }

  lemma NothingJoined(sep: string)
    ensures Join([], sep) == ""
  {
  }

  lemma {:induction false} JoinConcat(xs: seq<string>, ys: seq<string>, sep: string)
    requires xs != [] && ys != []
    ensures Join(xs + ys, sep) == Join(xs, sep) + sep + Join(ys, sep)
  {
    assert (xs + ys)[1..] == xs[1..] + ys;
    if |xs| > 1 {
      JoinConcat(xs[1..], ys, sep);
      assert xs[0] + sep + (Join(xs[1..], sep) + sep + Join(ys, sep))
          == xs[0] + sep + Join(xs[1..], sep) + sep + Join(ys, sep);
    } else {
      assert xs[1..] + ys == ys;
    }
  }

  lemma JoinAppend(xs: seq<string>, y: string, sep: string)
    ensures Join(xs + [y], sep) == if xs == [] then y else Join(xs, sep) + sep + y
  {
    if xs == [] {
      assert xs + [y] == [y];
    } else {
      JoinConcat(xs, [y], sep);
    }
  }

  lemma {:induction false} InkJoin(xs: seq<string>, sep: string)
    requires Blank(sep)
    ensures Ink(Join(xs, sep)) == InkAll(xs)
  {
    if |xs| == 1 {
      assert xs[1..] == [];
    } else if |xs| > 1 {
      InkConcat(xs[0] + sep, Join(xs[1..], sep));
      InkConcat(xs[0], sep);
      InkBlank(sep);
      InkJoin(xs[1..], sep);
    }
  }

  // ----- Lines -----

  /** Where the first line of `s` ends, before its break. */
  function LineEnd(s: string): (n: nat)
    ensures n <= |s| && NoBreak(s[..n]) && (n < |s| ==> IsBreak(s[n]))
  {
    if s == "" || IsBreak(s[0]) then 0
    else
      var n := 1 + LineEnd(s[1..]);
      assert s[..n] == [s[0]] + s[1..][..n - 1];
      n
  }

  /** The width of the break at `n`: a carriage return and line feed pair is one break. */
  function BreakWidth(s: string, n: nat): (w: nat)
    requires n <= |s|
    ensures n + w <= |s| && (n < |s| ==> w > 0)
  {
    if n == |s| then 0
    else if s[n] == '\r' && n + 1 < |s| && s[n + 1] == '\n' then 2
    else 1
  }

  /** The length of the first line of `s` together with its break. */
  function LineWidth(s: string): (w: nat)
    ensures w <= |s| && (s != "" ==> w > 0)
  {
    LineEnd(s) + BreakWidth(s, LineEnd(s))
  }

  /** `s.splitlines()`. */
  function SplitLines(s: string): (lines: seq<string>)
    ensures forall i :: 0 <= i < |lines| ==> NoBreak(lines[i])
    ensures lines == [] <==> s == ""
  {
    if s == "" then [] else [s[..LineEnd(s)]] + SplitLines(s[LineWidth(s)..])
  }

  lemma {:induction false} LineEndOf(line: string, rest: string)
    requires NoBreak(line) && (rest != "" ==> IsBreak(rest[0]))
    ensures LineEnd(line + rest) == |line|
  {
    if line == "" {
      assert line + rest == rest;
    } else {
      assert (line + rest)[1..] == line[1..] + rest;
      assert NoBreak(line[1..]) by {
        forall i | 0 <= i < |line[1..]| ensures !IsBreak(line[1..][i]) { assert line[1..][i] == line[i + 1]; }
      }
      LineEndOf(line[1..], rest);
    }
  }

  /** Reading back lines joined by line feeds, unless the last line is empty and so leaves no trace. */
  lemma {:induction false} SplitLinesJoin(lines: seq<string>)
    requires forall i :: 0 <= i < |lines| ==> NoBreak(lines[i])
    requires lines != [] ==> lines[|lines| - 1] != ""
    ensures SplitLines(Join(lines, "\n")) == lines
  {
    if |lines| == 1 {
      LineEndOf(lines[0], "");
      assert lines[0] + "" == lines[0];
      assert lines == [lines[0]];
    } else if |lines| > 1 {
      var rest := Join(lines[1..], "\n");
      SplitLinesJoin(lines[1..]);
      var s := lines[0] + "\n" + rest;
      assert s == lines[0] + ("\n" + rest);
      LineEndOf(lines[0], "\n" + rest);
      assert s[|lines[0]|] == '\n';
      assert s[..|lines[0]|] == lines[0] && s[|lines[0]| + 1..] == rest;
    }
  }

  lemma BreakIsBlank(s: string, n: nat, i: nat)
    requires n <= |s| && n <= i < n + BreakWidth(s, n)
    requires n < |s| ==> IsBreak(s[n])
    ensures IsSpace(s[i])
  {
  }

  lemma InkAroundBlank(a: string, b: string, c: string)
    requires Blank(b)
    ensures Ink(a + b + c) == Ink(a) + Ink(c)
  {
    InkConcat(a + b, c);
    InkConcat(a, b);
    InkBlank(b);
  }

  lemma InkFirstLine(s: string)
    ensures Ink(s) == Ink(s[..LineEnd(s)]) + Ink(s[LineWidth(s)..])
  {
    hide Ink;
    var n, w := LineEnd(s), LineWidth(s);
    assert n <= w <= |s| && s == s[..n] + s[n..w] + s[w..];
    forall i | 0 <= i < |s[n..w]| ensures IsSpace(s[n..w][i]) {
      BreakIsBlank(s, n, n + i);
    }
    InkAroundBlank(s[..n], s[n..w], s[w..]);
  }

  lemma {:induction false} InkSplitLines(s: string)
    ensures InkAll(SplitLines(s)) == Ink(s)
  {
    if s != "" {
      InkFirstLine(s);
      InkSplitLines(s[LineWidth(s)..]);
      InkAllCons(s[..LineEnd(s)], SplitLines(s[LineWidth(s)..]));
    }
  }

  lemma InkAllCons(x: string, xs: seq<string>)
    ensures InkAll([x] + xs) == Ink(x) + InkAll(xs)
  {
  }

  // ----- Digits -----

  predicate IsDigit(c: char) {
    '0' <= c <= '9'
  }

  predicate AllDigits(s: string) {
    forall i :: 0 <= i < |s| ==> IsDigit(s[i])
  }

  /** The length of the run of digits at the start of `s`. */
  function DigitRun(s: string): (n: nat)
    ensures n <= |s| && forall i :: 0 <= i < n ==> IsDigit(s[i])
  {
    if s != "" && IsDigit(s[0]) then 1 + DigitRun(s[1..]) else 0
  }

  // ----- Words -----

  /** The length of the run of non-whitespace characters at the start of `s`. */
  function WordEnd(s: string): (n: nat)
    ensures n <= |s| && NoSpace(s[..n]) && (n < |s| ==> IsSpace(s[n]))
  {
    if s == "" || IsSpace(s[0]) then 0
    else
      var n := 1 + WordEnd(s[1..]);
      assert s[..n] == [s[0]] + s[1..][..n - 1];
      n
  }

  /** `s.split()`: the maximal runs of non-whitespace characters. */
  function Words(s: string): (words: seq<string>)
    ensures forall i :: 0 <= i < |words| ==> words[i] != "" && NoSpace(words[i])
    ensures words == [] <==> Blank(s)
    ensures InkAll(words) == Ink(s)
    decreases |s|
  {
    if s == "" then []
    else if IsSpace(s[0]) then
      assert Blank(s) <==> Blank(s[1..]) by {
        assert s == [s[0]] + s[1..];
        assert forall i :: 0 <= i < |s[1..]| ==> s[1..][i] == s[i + 1];
      }
      Words(s[1..])
    else
      var n := WordEnd(s);
      assert InkAll([s[..n]] + Words(s[n..])) == Ink(s) by {
        assert s == s[..n] + s[n..];
        InkConcat(s[..n], s[n..]);
      }
      [s[..n]] + Words(s[n..])
  }

  /** The words are the runs of visible characters of the text, in order, with nothing but whitespace around them. */
  ghost predicate Spaced(s: string, words: seq<string>)
    decreases words
  {
    if words == [] then Blank(s) else exists n: nat :: WordAt(s, n, words[0]) && Spaced(s[n + |words[0]|..], words[1..])
  }

  /** After whitespace only, the word begins at `n` and goes on as far as it can. */
  predicate WordAt(s: string, n: nat, word: string) {
    && word != "" && NoSpace(word)
    && n + |word| <= |s| && Blank(s[..n]) && s[n..n + |word|] == word
    && (n + |word| < |s| ==> IsSpace(s[n + |word|]))
  }

  lemma {:induction false} WordsAreRuns(s: string)
    ensures Spaced(s, Words(s))
    decreases |s|
  {
    hide Ink, InkAll;
    if s != "" {
      if IsSpace(s[0]) {
        WordsAreRuns(s[1..]);
        SpacedLater(s, Words(s[1..]));
      } else {
        var n := WordEnd(s);
        WordsAreRuns(s[n..]);
        assert s == s[..n] + s[n..] && Words(s) == [s[..n]] + Words(s[n..]);
        SpacedFirst(s[..n], s[n..], Words(s[n..]));
      }
    }
  }

  lemma SpacedFirst(word: string, rest: string, words: seq<string>)
    requires word != "" && NoSpace(word) && (rest != "" ==> IsSpace(rest[0])) && Spaced(rest, words)
    ensures Spaced(word + rest, [word] + words)
  {
    hide NoSpace;
    var s, all := word + rest, [word] + words;
    assert s[..0] == "" && s[0..|word|] == word && s[|word|..] == rest && all[1..] == words;
    assert WordAt(s, 0, all[0]);
  }

  lemma SpacedLater(s: string, words: seq<string>)
    requires s != "" && IsSpace(s[0]) && Spaced(s[1..], words)
    ensures Spaced(s, words)
  {
    hide Blank, NoSpace;
    var rest := s[1..];
    assert s == [s[0]] + rest;
    assert Blank([s[0]]) by { OneBlank(s[0]); }
    if words == [] {
      BlankConcat([s[0]], rest);
    } else {
      var n: nat :| WordAt(rest, n, words[0]) && Spaced(rest[n + |words[0]|..], words[1..]);
      BlankConcat([s[0]], rest[..n]);
      WordLater(s, n, words[0]);
    }
  }

  lemma OneBlank(c: char)
    requires IsSpace(c)
    ensures Blank([c])
  {
  }

  lemma WordLater(s: string, n: nat, word: string)
    requires s != "" && WordAt(s[1..], n, word) && Blank([s[0]] + s[1..][..n])
    ensures WordAt(s, n + 1, word) && s[n + 1 + |word|..] == s[1..][n + |word|..]
  {
    hide Blank, NoSpace;
    var rest := s[1..];
    assert s == [s[0]] + rest;
    assert s[..n + 1] == [s[0]] + rest[..n];
    assert s[n + 1..n + 1 + |word|] == rest[n..n + |word|];
    assert s[n + 1 + |word|..] == rest[n + |word|..];
  }
}
