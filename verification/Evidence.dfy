/** Packing ranked contexts into the answer's evidence under a character and a token budget. */
module Evidence {
  import opened Tokens
  import opened Blocks
  import opened Assembler

  /** What of a context fits: all of it, or its largest block prefix. */
  function Fitting(original: string, chars: int, tokens: int): string {
    if |original| <= chars && TokenCount(original) <= tokens then original
    else MarkdownPrefix(original, Budget(tokens, chars))
  }

  /** A piece of evidence and the rank of the context it comes from. */
  datatype Piece = Piece(rank: nat, item: Candidate)

  /** The packing loop over the contexts still to come, the first of them of the given rank. */
  function PackFrom(candidates: seq<Candidate>, rank: nat, chars: int, tokens: int): seq<Piece>
    decreases candidates
  {
    if candidates == [] || chars <= 0 || tokens <= 0 then []
    else
      var content := Fitting(candidates[0].content, chars, tokens);
      if content == "" then PackFrom(candidates[1..], rank + 1, chars, tokens)
      else
        [Piece(rank, candidates[0].(content := content))]
        + PackFrom(candidates[1..], rank + 1, chars - |content|, tokens - TokenCount(content))
  }

  function Items(pieces: seq<Piece>): seq<Candidate> {
    if pieces == [] then [] else [pieces[0].item] + Items(pieces[1..])
  }

  /** `prepare_evidence` under the configured budgets. */
  function EvidenceOf(candidates: seq<Candidate>, chars: int, tokens: int): seq<Candidate> {
    Items(PackFrom(candidates, 0, chars, tokens))
  }

  method PrepareEvidence(candidates: seq<Candidate>, charBudget: int, tokenBudget: int)
    returns (evidence: seq<Candidate>)
    ensures evidence == EvidenceOf(candidates, charBudget, tokenBudget)
  {
    hide Fitting, MarkdownPrefix, TokenCount, EvidenceFrom;
    evidence := [];
    var remainingChars, remainingTokens := charBudget, tokenBudget;
    var i := 0;
    ghost var all := EvidenceOf(candidates, charBudget, tokenBudget);
    EvidenceStarts(candidates, charBudget, tokenBudget);
    assert [] + all == all;
    while i < |candidates|
      invariant 0 <= i <= |candidates|
      invariant all == evidence + EvidenceFrom(candidates, i, remainingChars, remainingTokens)
    {
      EvidenceStep(candidates, i, remainingChars, remainingTokens);
      if remainingChars <= 0 || remainingTokens <= 0 {
        break;
      }
      var candidate := candidates[i];
      var content := FitContent(candidate.content, remainingChars, remainingTokens);
      i := i + 1;
      if content == "" {
        continue;
      }
      evidence := evidence + [candidate.(content := content)];
      remainingChars := remainingChars - |content|;
      remainingTokens := remainingTokens - TokenCount(content);
    }
    EvidenceEnds(candidates, i, remainingChars, remainingTokens);
  }

  /** What the loop still has to keep when it stands at candidate i. */
  ghost function EvidenceFrom(candidates: seq<Candidate>, i: nat, chars: int, tokens: int): seq<Candidate>
    requires i <= |candidates|
  {
    Items(PackFrom(candidates[i..], i, chars, tokens))
  }

  lemma EvidenceStarts(candidates: seq<Candidate>, chars: int, tokens: int)
    ensures EvidenceFrom(candidates, 0, chars, tokens) == EvidenceOf(candidates, chars, tokens)
  {
    assert candidates[0..] == candidates;
  }

  lemma EvidenceEnds(candidates: seq<Candidate>, i: nat, chars: int, tokens: int)
    requires i <= |candidates| && (i == |candidates| || chars <= 0 || tokens <= 0)
    ensures EvidenceFrom(candidates, i, chars, tokens) == []
  {
  }

  lemma EvidenceStep(candidates: seq<Candidate>, i: nat, chars: int, tokens: int)
    requires i < |candidates|
    ensures chars > 0 && tokens > 0 ==>
              var content := Fitting(candidates[i].content, chars, tokens);
              EvidenceFrom(candidates, i, chars, tokens)
              == if content == "" then EvidenceFrom(candidates, i + 1, chars, tokens)
                 else [candidates[i].(content := content)]
                      + EvidenceFrom(candidates, i + 1, chars - |content|, tokens - TokenCount(content))
  {
    hide Fitting, TokenCount, PackFrom;
    assert candidates[i..] == [candidates[i]] + candidates[i + 1..];
    if chars > 0 && tokens > 0 {
      FirstPiece(candidates[i], candidates[i + 1..], i, chars, tokens);
    }
  }

  method FitContent(original: string, chars: int, tokens: int) returns (content: string)
    ensures content == Fitting(original, chars, tokens)
  {
    hide MarkdownPrefix, TokenCount;
    if |original| <= chars && TokenCount(original) <= tokens {
      content := original;
    } else {
      content := TakeMarkdownPrefix(original, Budget(tokens, chars));
    }
  }

  lemma FirstPiece(first: Candidate, rest: seq<Candidate>, rank: nat, chars: int, tokens: int)
    requires chars > 0 && tokens > 0
    ensures var content := Fitting(first.content, chars, tokens);
            Items(PackFrom([first] + rest, rank, chars, tokens))
            == if content == "" then Items(PackFrom(rest, rank + 1, chars, tokens))
               else [first.(content := content)]
                    + Items(PackFrom(rest, rank + 1, chars - |content|, tokens - TokenCount(content)))
  {
    hide Fitting, TokenCount;
    assert ([first] + rest)[1..] == rest;
  }

  // ----- What packing guarantees -----

  function TotalChars(items: seq<Candidate>): nat {
    if items == [] then 0 else |items[0].content| + TotalChars(items[1..])
  }

  function TotalTokens(items: seq<Candidate>): nat {
    if items == [] then 0 else TokenCount(items[0].content) + TotalTokens(items[1..])
  }

  lemma FittingFits(original: string, chars: int, tokens: int)
    requires Fitting(original, chars, tokens) != ""
    ensures |Fitting(original, chars, tokens)| <= chars && TokenCount(Fitting(original, chars, tokens)) <= tokens
  {
    hide MarkdownPrefix, TokenCount;
    PrefixFits(original, Budget(tokens, chars));
  }

  /** The evidence never exceeds either budget. */
  lemma {:induction false} PackWithinBudgets(candidates: seq<Candidate>, rank: nat, chars: int, tokens: int)
    ensures var items := Items(PackFrom(candidates, rank, chars, tokens));
            && TotalChars(items) <= (if chars > 0 then chars else 0)
            && TotalTokens(items) <= (if tokens > 0 then tokens else 0)
    decreases candidates
  {
    hide Fitting, TokenCount;
    if candidates != [] && chars > 0 && tokens > 0 {
      var content := Fitting(candidates[0].content, chars, tokens);
      if content == "" {
        PackWithinBudgets(candidates[1..], rank + 1, chars, tokens);
      } else {
        FittingFits(candidates[0].content, chars, tokens);
        PackWithinBudgets(candidates[1..], rank + 1, chars - |content|, tokens - TokenCount(content));
      }
    }
  }

  /** A piece is its context unchanged except for content cut to a prefix of its blocks, the largest that fits. */
  ghost predicate PieceOk(candidates: seq<Candidate>, base: nat, piece: Piece) {
    && base <= piece.rank < base + |candidates|
    && var c := candidates[piece.rank - base];
       && piece.item == c.(content := piece.item.content)
       && piece.item.content != ""
       && (piece.item.content == c.content
           || exists budget :: piece.item.content == MarkdownPrefix(c.content, budget)
                               && AtomicBlocks(piece.item.content) <= AtomicBlocks(c.content)
                               && !FitsText(c.content, budget))
  }

  ghost predicate PiecesOk(candidates: seq<Candidate>, base: nat, pieces: seq<Piece>) {
    && (forall i :: 0 <= i < |pieces| ==> PieceOk(candidates, base, pieces[i]))
    && (forall i, j :: 0 <= i < j < |pieces| ==> pieces[i].rank < pieces[j].rank)
  }

  lemma FirstPieceOk(candidates: seq<Candidate>, base: nat, chars: int, tokens: int)
    requires candidates != [] && Fitting(candidates[0].content, chars, tokens) != ""
    ensures PieceOk(candidates, base,
                    Piece(base, candidates[0].(content := Fitting(candidates[0].content, chars, tokens))))
  {
    hide AtomicBlocks, TokenCount;
    var original, budget := candidates[0].content, Budget(tokens, chars);
    if Fitting(original, chars, tokens) != original {
      SplitJoinRoundTrip(original, PrefixLength(AtomicBlocks(original), 0, budget));
      assert AtomicBlocks(MarkdownPrefix(original, budget)) <= AtomicBlocks(original);
    }
  }

  /** The evidence is a subsequence of the contexts, each whole or cut at a block boundary, in rank order. */
  lemma {:induction false} PackIsSubsequence(candidates: seq<Candidate>, base: nat, chars: int, tokens: int)
    ensures PiecesOk(candidates, base, PackFrom(candidates, base, chars, tokens))
    decreases candidates
  {
    hide Fitting, TokenCount, PiecesOk;
    if candidates == [] || chars <= 0 || tokens <= 0 {
      NoPieces(candidates, base);
    } else {
      var rest := candidates[1..];
      var content := Fitting(candidates[0].content, chars, tokens);
      if content == "" {
        PackIsSubsequence(rest, base + 1, chars, tokens);
        LaterPiecesOk(candidates, base, PackFrom(rest, base + 1, chars, tokens));
      } else {
        var later := PackFrom(rest, base + 1, chars - |content|, tokens - TokenCount(content));
        PackIsSubsequence(rest, base + 1, chars - |content|, tokens - TokenCount(content));
        LaterPiecesOk(candidates, base, later);
        FirstPieceOk(candidates, base, chars, tokens);
        PiecesCons(candidates, base, Piece(base, candidates[0].(content := content)), later);
      }
    }
  }

  lemma NoPieces(candidates: seq<Candidate>, base: nat)
    ensures PiecesOk(candidates, base, [])
  {
  }

  lemma PiecesCons(candidates: seq<Candidate>, base: nat, first: Piece, later: seq<Piece>)
    requires PieceOk(candidates, base, first) && PiecesOk(candidates, base, later)
    requires first.rank == base && forall i :: 0 <= i < |later| ==> base < later[i].rank
    ensures PiecesOk(candidates, base, [first] + later)
  {
    hide PieceOk;
    var all := [first] + later;
    assert forall i :: 1 <= i < |all| ==> all[i] == later[i - 1];
  }

  lemma LaterPiecesOk(candidates: seq<Candidate>, base: nat, pieces: seq<Piece>)
    requires candidates != [] && PiecesOk(candidates[1..], base + 1, pieces)
    ensures PiecesOk(candidates, base, pieces) && forall i :: 0 <= i < |pieces| ==> base < pieces[i].rank
  {
    hide MarkdownPrefix, AtomicBlocks, FitsText;
    forall i | 0 <= i < |pieces| ensures PieceOk(candidates, base, pieces[i]) && base < pieces[i].rank {
      assert PieceOk(candidates[1..], base + 1, pieces[i]);
      assert candidates[1..][pieces[i].rank - base - 1] == candidates[pieces[i].rank - base];
    }
  }

  /**
   Packing the evidence again returns it unchanged, so the record kept for evaluation names the same
   sources as the answer.
   */
  lemma {:induction false} PackIdempotent(candidates: seq<Candidate>, rank: nat, again: nat, chars: int, tokens: int)
    ensures var items := Items(PackFrom(candidates, rank, chars, tokens));
            Items(PackFrom(items, again, chars, tokens)) == items
    decreases candidates
  {
    hide Fitting, TokenCount;
    if candidates != [] && chars > 0 && tokens > 0 {
      var rest := candidates[1..];
      assert candidates == [candidates[0]] + rest;
      FirstPiece(candidates[0], rest, rank, chars, tokens);
      var content := Fitting(candidates[0].content, chars, tokens);
      if content == "" {
        PackIdempotent(rest, rank + 1, again, chars, tokens);
      } else {
        var chars', tokens' := chars - |content|, tokens - TokenCount(content);
        PackIdempotent(rest, rank + 1, again + 1, chars', tokens');
        FittingFits(candidates[0].content, chars, tokens);
        KeptWhole(content, chars, tokens);
        FirstPiece(candidates[0].(content := content), Items(PackFrom(rest, rank + 1, chars', tokens')),
                   again, chars, tokens);
      }
    }
  }

  lemma KeptWhole(content: string, chars: int, tokens: int)
    requires |content| <= chars && TokenCount(content) <= tokens
    ensures Fitting(content, chars, tokens) == content
  {
  }
}
