/** Exactly what packing keeps of every context, given what the contexts ranked above it have used up. */
module EvidenceLaws {
  import opened Text
  import opened Tokens
  import opened Blocks
  import opened Assembler
  import opened Evidence

  /** The characters of the pieces that rank above a context. */
  function CharsAbove(pieces: seq<Piece>, rank: nat): nat {
    if pieces == [] then 0
    else (if pieces[0].rank < rank then |pieces[0].item.content| else 0) + CharsAbove(pieces[1..], rank)
  }

  function TokensAbove(pieces: seq<Piece>, rank: nat): nat {
    if pieces == [] then 0
    else (if pieces[0].rank < rank then TokenCount(pieces[0].item.content) else 0) + TokensAbove(pieces[1..], rank)
  }

  predicate FitsBoth(text: string, chars: int, tokens: int) {
    |text| <= chars && TokenCount(text) <= tokens
  }

  predicate Ranks(pieces: seq<Piece>, rank: nat) {
    exists i :: 0 <= i < |pieces| && pieces[i].rank == rank
  }

  /** The pieces of this rank have the context's text cut to `content`. */
  predicate Cuts(pieces: seq<Piece>, rank: nat, context: Candidate, content: string) {
    forall i :: 0 <= i < |pieces| && pieces[i].rank == rank ==> pieces[i].item == context.(content := content)
  }

  /** The first `n` blocks of the text. */
  function FirstBlocks(text: string, n: nat): string
    requires n <= |AtomicBlocks(text)|
  {
    Join(AtomicBlocks(text)[..n], "\n\n")
  }

  /**
   With some of both budgets left, a context that fits is kept whole; one that does not is cut to as many of its
   first blocks as fit, and left out only if not even the first does. With nothing left, it is left out.
   */
  ghost predicate KeptRightly(context: Candidate, chars: int, tokens: int, pieces: seq<Piece>, rank: nat) {
    if chars <= 0 || tokens <= 0 then !Ranks(pieces, rank)
    else if FitsBoth(context.content, chars, tokens) then
      if context.content == "" then !Ranks(pieces, rank)
      else Ranks(pieces, rank) && Cuts(pieces, rank, context, context.content)
    else
      exists n: nat :: MostBlocks(context.content, chars, tokens, n)
                       && (n == 0 ==> !Ranks(pieces, rank))
                       && (n > 0 ==> && Ranks(pieces, rank)
                                     && Cuts(pieces, rank, context, FirstBlocks(context.content, n)))
  }

  /** As many of the text's first blocks as fit. */
  predicate MostBlocks(text: string, chars: int, tokens: int, n: nat) {
    && n <= |AtomicBlocks(text)|
    && (n > 0 ==> FitsBoth(FirstBlocks(text, n), chars, tokens))
    && (n < |AtomicBlocks(text)| ==> !FitsBoth(FirstBlocks(text, n + 1), chars, tokens))
  }

  ghost predicate AllKeptRightly(candidates: seq<Candidate>, base: nat, chars: int, tokens: int, pieces: seq<Piece>) {
    forall r: nat :: r < |candidates| ==> KeptAt(candidates, base, chars, tokens, pieces, r)
  }

  ghost predicate KeptAt(candidates: seq<Candidate>, base: nat, chars: int, tokens: int, pieces: seq<Piece>, r: nat)
    requires r < |candidates|
  {
    KeptRightly(candidates[r], chars - CharsAbove(pieces, base + r), tokens - TokensAbove(pieces, base + r),
                pieces, base + r)
  }

  predicate AllRankFrom(pieces: seq<Piece>, base: nat) {
    forall i :: 0 <= i < |pieces| ==> base <= pieces[i].rank
  }

  lemma {:induction false} NothingAbove(pieces: seq<Piece>, rank: nat)
    requires AllRankFrom(pieces, rank)
    ensures CharsAbove(pieces, rank) == 0 && TokensAbove(pieces, rank) == 0
  {
    hide TokenCount;
    if pieces != [] {
      assert forall i :: 0 <= i < |pieces[1..]| ==> pieces[1..][i] == pieces[i + 1];
      NothingAbove(pieces[1..], rank);
    }
  }

  lemma FittingIs(original: string, chars: int, tokens: int) returns (n: nat)
    requires chars > 0 && tokens > 0 && !FitsBoth(original, chars, tokens)
    ensures MostBlocks(original, chars, tokens, n)
    ensures Fitting(original, chars, tokens) == if n == 0 then "" else FirstBlocks(original, n)
    ensures n > 0 ==> FirstBlocks(original, n) != ""
  {
    hide TokenCount, AtomicBlocks, Join;
    var budget, blocks := Budget(tokens, chars), AtomicBlocks(original);
    n := PrefixLength(blocks, 0, budget);
    if n > 0 {
      PrefixLengthLargest(blocks, 0, budget, n);
      FirstBlockShows(original, n);
    } else {
      assert Join(blocks[..0], "\n\n") == "" by { NothingJoined("\n\n"); }
    }
    if n < |blocks| {
      PrefixLengthLargest(blocks, 0, budget, n + 1);
    }
  }

  lemma FirstBlockShows(text: string, n: nat)
    requires 0 < n <= |AtomicBlocks(text)|
    ensures FirstBlocks(text, n) != ""
  {
    hide AtomicBlocks, Join, Ink, Blank;
    BlockShape(text, 0);
    var blocks := AtomicBlocks(text)[..n];
    assert Blank("\n\n") by { BlankPair(); }
    InkJoin(blocks, "\n\n");
    InkBlank(blocks[0]);
    assert Ink("") == "" by { NoInk(); }
    assert blocks[0] == AtomicBlocks(text)[0];
    assert InkAll(blocks) == Ink(blocks[0]) + InkAll(blocks[1..]);
  }

  lemma NoInk()
    ensures Ink("") == ""
  {
  }

  lemma NoneLeft(candidates: seq<Candidate>, base: nat, chars: int, tokens: int)
    requires chars <= 0 || tokens <= 0
    ensures AllKeptRightly(candidates, base, chars, tokens, [])
  {
    hide FitsBoth, MostBlocks, TokenCount;
    forall r: nat | r < |candidates| ensures KeptAt(candidates, base, chars, tokens, [], r) {
    }
  }

  /** A piece put before later ones leaves what those say of their contexts. */
  lemma EarlierPiece(rest: seq<Candidate>, base: nat, chars: int, tokens: int, later: seq<Piece>, piece: Piece, r: nat)
    requires r < |rest| && piece.rank < base
    requires KeptAt(rest, base, chars - |piece.item.content|, tokens - TokenCount(piece.item.content), later, r)
    ensures var all := [piece] + later;
            KeptRightly(rest[r], chars - CharsAbove(all, base + r), tokens - TokensAbove(all, base + r), all, base + r)
  {
    hide TokenCount, AtomicBlocks, FitsBoth, MostBlocks;
    var all, rank, context := [piece] + later, base + r, rest[r];
    assert all[1..] == later;
    assert Ranks(all, base + r) <==> Ranks(later, base + r) by {
      if Ranks(later, base + r) {
        var i :| 0 <= i < |later| && later[i].rank == base + r;
        assert all[i + 1].rank == base + r;
      }
      if Ranks(all, base + r) {
        var i :| 0 <= i < |all| && all[i].rank == base + r;
        assert later[i - 1].rank == base + r;
      }
    }
    forall content | Cuts(later, rank, context, content) ensures Cuts(all, rank, context, content) {
      assert forall i :: 1 <= i < |all| ==> all[i] == later[i - 1];
    }
  }

  lemma FirstKept(context: Candidate, base: nat, chars: int, tokens: int, later: seq<Piece>)
    requires chars > 0 && tokens > 0 && AllRankFrom(later, base + 1)
    ensures var content := Fitting(context.content, chars, tokens);
            var pieces := if content == "" then later else [Piece(base, context.(content := content))] + later;
            KeptRightly(context, chars - CharsAbove(pieces, base), tokens - TokensAbove(pieces, base), pieces, base)
  {
    hide TokenCount, MostBlocks, FirstBlocks, MarkdownPrefix;
    var content := Fitting(context.content, chars, tokens);
    var pieces := if content == "" then later else [Piece(base, context.(content := content))] + later;
    NothingAbove(pieces, base);
    assert content != "" ==> pieces[0].rank == base;
    if !FitsBoth(context.content, chars, tokens) {
      var n := FittingIs(context.content, chars, tokens);
    }
  }

  lemma {:induction false} RanksFrom(candidates: seq<Candidate>, base: nat, chars: int, tokens: int)
    ensures AllRankFrom(PackFrom(candidates, base, chars, tokens), base)
    decreases candidates
  {
    hide Fitting, TokenCount;
    if candidates != [] && chars > 0 && tokens > 0 {
      var content := Fitting(candidates[0].content, chars, tokens);
      RanksFrom(candidates[1..], base + 1, chars, tokens);
      RanksFrom(candidates[1..], base + 1, chars - |content|, tokens - TokenCount(content));
    }
  }

  /** Every context is kept exactly as far as what is left by those above it allows. */
  lemma {:induction false} PackKeepsRightly(candidates: seq<Candidate>, base: nat, chars: int, tokens: int)
    ensures AllKeptRightly(candidates, base, chars, tokens, PackFrom(candidates, base, chars, tokens))
    decreases candidates
  {
    hide Fitting, TokenCount, KeptRightly, AllRankFrom, CharsAbove, TokensAbove;
    if chars <= 0 || tokens <= 0 {
      NoneLeft(candidates, base, chars, tokens);
    } else if candidates != [] {
      var rest := candidates[1..];
      var content := Fitting(candidates[0].content, chars, tokens);
      var all := PackFrom(candidates, base, chars, tokens);
      if content == "" {
        PackKeepsRightly(rest, base + 1, chars, tokens);
        RanksFrom(rest, base + 1, chars, tokens);
        FirstKept(candidates[0], base, chars, tokens, all);
        forall r: nat | r < |candidates| ensures KeptAt(candidates, base, chars, tokens, all, r) {
          if r > 0 { assert KeptAt(rest, base + 1, chars, tokens, all, r - 1); }
        }
      } else {
        var chars', tokens' := chars - |content|, tokens - TokenCount(content);
        var later := PackFrom(rest, base + 1, chars', tokens');
        var piece := Piece(base, candidates[0].(content := content));
        PackKeepsRightly(rest, base + 1, chars', tokens');
        RanksFrom(rest, base + 1, chars', tokens');
        FirstKept(candidates[0], base, chars, tokens, later);
        forall r: nat | r < |candidates| ensures KeptAt(candidates, base, chars, tokens, all, r) {
          if r > 0 {
            assert KeptAt(rest, base + 1, chars', tokens', later, r - 1);
            EarlierPiece(rest, base + 1, chars, tokens, later, piece, r - 1);
          }
        }
      }
    }
  }
}
