/** The conservative token counter, and the laws of the two-sided text budget built on it. */
module Tokens {
  import opened Text

  /** The ASCII part of the regular-expression class `\w`. */
  predicate IsWord(c: char) {
    'a' <= c <= 'z' || 'A' <= c <= 'Z' || '0' <= c <= '9' || c == '_'
  }

  /** The length of the run of word characters at the start of `s`. */
  function WordRun(s: string): (n: nat)
    ensures n <= |s| && (n < |s| ==> !IsWord(s[n]))
    ensures s != "" && IsWord(s[0]) ==> n > 0
  {
    if s == "" || !IsWord(s[0]) then 0 else 1 + WordRun(s[1..])
  }

  /** All leftmost matches of a word, or of one character that is neither word nor whitespace. */
  function Tokenize(s: string): seq<string>
    decreases |s|
  {
    if s == "" then []
    else if IsWord(s[0]) then [s[..WordRun(s)]] + Tokenize(s[WordRun(s)..])
    else if IsSpace(s[0]) then Tokenize(s[1..])
    else [s[..1]] + Tokenize(s[1..])
  }

  /** `conservative_token_count`. */
  function TokenCount(s: string): nat {
    |Tokenize(s)|
  }

  // ----- A second definition: tokens are counted by the characters that begin one -----

  /** Whether `c` begins a token, given whether the character before it is a word character. */
  predicate Begins(inWord: bool, c: char) {
    !IsSpace(c) && !(inWord && IsWord(c))
  }

  function Starts(inWord: bool, s: string): nat
    decreases s
  {
    if s == "" then 0 else (if Begins(inWord, s[0]) then 1 else 0) + Starts(IsWord(s[0]), s[1..])
  }

  /** Whether the last character before the end of `s` is a word character. */
  predicate EndsInWord(inWord: bool, s: string) {
    if s == "" then inWord else IsWord(s[|s| - 1])
  }

  lemma {:induction false} StartsSkipsRun(s: string)
    ensures Starts(true, s) == Starts(false, s[WordRun(s)..])
  {
    if s != "" && IsWord(s[0]) {
      StartsSkipsRun(s[1..]);
      assert s[1..][WordRun(s[1..])..] == s[WordRun(s)..];
    }
  }

  /** The matcher's count is the number of token beginnings. */
  lemma {:induction false} CountIsStarts(s: string)
    ensures TokenCount(s) == Starts(false, s)
    decreases |s|
  {
    if s != "" {
      if IsWord(s[0]) {
        StartsSkipsRun(s[1..]);
        assert s[1..][WordRun(s[1..])..] == s[WordRun(s)..];
        CountIsStarts(s[WordRun(s)..]);
      } else {
        CountIsStarts(s[1..]);
      }
    }
  }

  lemma {:induction false} StartsConcat(inWord: bool, a: string, b: string)
    ensures Starts(inWord, a + b) == Starts(inWord, a) + Starts(EndsInWord(inWord, a), b)
    decreases a
  {
    if a == "" {
      assert a + b == b;
    } else {
      assert (a + b)[1..] == a[1..] + b;
      StartsConcat(IsWord(a[0]), a[1..], b);
    }
  }

  /** A text entered from inside a word has the same beginnings, less the one it may continue. */
  lemma StartsContext(s: string)
    ensures Starts(true, s) <= Starts(false, s) <= Starts(true, s) + 1
    ensures s == "" || !IsWord(s[0]) ==> Starts(true, s) == Starts(false, s)
  {
  }

  lemma {:induction false} WordEndHasStart(s: string)
    requires s != "" && IsWord(s[|s| - 1])
    ensures Starts(false, s) > 0
  {
    if !Begins(false, s[0]) {
      WordEndHasStart(s[1..]);
    }
  }

  /** Deleting a stretch of a text never adds a token. */
  lemma CountShrinks(a: string, b: string, c: string)
    ensures TokenCount(a + c) <= TokenCount(a + b + c)
  {
    CountIsStarts(a + c);
    CountIsStarts(a + b + c);
    StartsConcat(false, a, c);
    StartsConcat(false, a + b, c);
    StartsConcat(false, a, b);
    StartsContext(c);
    var before, after := EndsInWord(false, a), EndsInWord(false, a + b);
    if b == "" {
      assert a + b == a;
    } else {
      assert (a + b)[|a + b| - 1] == b[|b| - 1];
      if !before && after {
        WordEndHasStart(b);
      }
    }
  }

  /** Text on both sides of a place where no word is cut is counted separately. */
  lemma CountSeparates(a: string, b: string)
    requires (a == "" || !IsWord(a[|a| - 1])) || (b == "" || !IsWord(b[0]))
    ensures TokenCount(a + b) == TokenCount(a) + TokenCount(b)
  {
    CountIsStarts(a + b);
    CountIsStarts(a);
    CountIsStarts(b);
    StartsConcat(false, a, b);
    StartsContext(b);
  }

  lemma {:induction false} CountBlank(s: string)
    requires Blank(s)
    ensures TokenCount(s) == 0
  {
    if s != "" {
      assert Blank(s[1..]) by {
        assert forall i :: 0 <= i < |s[1..]| ==> s[1..][i] == s[i + 1];
      }
      CountBlank(s[1..]);
    }
  }

  lemma CountStrip(s: string)
    ensures TokenCount(Strip(s)) == TokenCount(s)
  {
    hide TokenCount, Strip;
    var lead, trail := StripParts(s);
    CountBlank(lead);
    CountBlank(trail);
    CountSeparates(lead, Strip(s) + trail);
    CountSeparates(Strip(s), trail);
    assert s == lead + (Strip(s) + trail);
  }

  function CountAll(xs: seq<string>): nat {
    if xs == [] then 0 else TokenCount(xs[0]) + CountAll(xs[1..])
  }

  lemma {:induction false} CountAllConcat(xs: seq<string>, ys: seq<string>)
    ensures CountAll(xs + ys) == CountAll(xs) + CountAll(ys)
  {
    if xs == [] {
      assert xs + ys == ys;
    } else {
      assert (xs + ys)[1..] == xs[1..] + ys;
      CountAllConcat(xs[1..], ys);
    }
  }

  /** Joining with whitespace keeps the counts apart, so a joined text costs the sum of its pieces. */
  lemma {:induction false} CountJoin(xs: seq<string>, sep: string)
    requires sep != "" && Blank(sep)
    ensures TokenCount(Join(xs, sep)) == CountAll(xs)
  {
    if |xs| == 1 {
      assert xs[1..] == [];
    } else if |xs| > 1 {
      CountJoin(xs[1..], sep);
      CountBlank(sep);
      CountSeparates(xs[0], sep);
      CountSeparates(xs[0] + sep, Join(xs[1..], sep));
    }
  }

  // ----- The budget -----

  datatype Budget = Budget(tokens: int, chars: int)

  /** `fits_text_budget`. */
  predicate FitsText(text: string, budget: Budget) {
    |text| <= budget.chars && TokenCount(text) <= budget.tokens
  }

  /** A stripped text that fits still fits after any stretch of it is deleted. */
  lemma DeletionFits(a: string, b: string, c: string, budget: Budget)
    requires FitsText(Strip(a + b + c), budget)
    ensures FitsText(Strip(a + c), budget)
  {
    StripShrinks(a, b, c);
    CountShrinks(a, b, c);
    CountStrip(a + b + c);
    CountStrip(a + c);
  }
}
