/** Replacing ranked child hits by their parents, each expanded along its links under a token cap. */
module Assembler {
  import opened Results
  import opened Text
  import opened Tokens
  import opened Records
  import opened Stores

  /** A parent as the store returns it: its row under the key it was found by. */
  datatype Parent = Parent(key: RowKey, row: Row)

  /** A ranked hit; after assembly its content is its parent's text and `expanded` names the parts in it. */
  datatype Candidate = Candidate(
    parent: RowKey, inlineParent: Option<string>, content: string, expanded: seq<SectionId>,
    hybridScore: real, rerankScore: Option<real>)

  datatype Config = Config(limit: int, neighborCount: nat, expandedMaxTokens: int)

  datatype ParentNotFound = ParentNotFound(key: RowKey)

  function Lookup(rows: Rows, doc: DocKey, id: SectionId): Option<Parent> {
    if RowKey(doc, id) in rows then Some(Parent(RowKey(doc, id), rows[RowKey(doc, id)])) else None
  }

  function Texts(parents: seq<Parent>): seq<string> {
    if parents == [] then [] else [parents[0].row.section.text] + Texts(parents[1..])
  }

  /** `_fits_expansion`. */
  predicate FitsExpansion(config: Config, parents: seq<Parent>) {
    TokenCount(Join(Texts(parents), "\n\n")) <= config.expandedMaxTokens
  }

  /** Whether the linked parent may join the expansion that `grown` would make. */
  predicate MayJoin(config: Config, excluded: set<RowKey>, item: Option<Parent>, grown: seq<Parent>) {
    item.Some? && item.value.key !in excluded && FitsExpansion(config, grown)
  }

  function Linked(rows: Rows, parent: Parent, link: Option<SectionId>): Option<Parent> {
    if link.Some? then Lookup(rows, parent.key.doc, link.value) else None
  }

  /** The parts joined before and after a parent, in document order. */
  datatype Expansion = Expansion(before: seq<Parent>, after: seq<Parent>)

  function Expanded(parent: Parent, e: Expansion): seq<Parent> {
    e.before + [parent] + e.after
  }

  /** One round of `_expand_parent`: a part before, then a part after, each ending its side when it may not join. */
  function Round(rows: Rows, config: Config, excluded: set<RowKey>, parent: Parent, e: Expansion,
                 previousId: Option<SectionId>, nextId: Option<SectionId>)
    : (Expansion, Option<SectionId>, Option<SectionId>)
  {
    var (e', previousId') := JoinBack(rows, config, excluded, parent, e, previousId);
    var (e'', nextId') := JoinAhead(rows, config, excluded, parent, e', nextId);
    (e'', previousId', nextId')
  }

  function JoinBack(rows: Rows, config: Config, excluded: set<RowKey>, parent: Parent, e: Expansion,
                    previousId: Option<SectionId>): (Expansion, Option<SectionId>)
  {
    var back := Linked(rows, parent, previousId);
    if back.Some? && MayJoin(config, excluded, back, [back.value] + Expanded(parent, e)) then
      (e.(before := [back.value] + e.before), back.value.row.section.previous)
    else (e, None)
  }

  function JoinAhead(rows: Rows, config: Config, excluded: set<RowKey>, parent: Parent, e: Expansion,
                     nextId: Option<SectionId>): (Expansion, Option<SectionId>)
  {
    var ahead := Linked(rows, parent, nextId);
    if ahead.Some? && MayJoin(config, excluded, ahead, Expanded(parent, e) + [ahead.value]) then
      (e.(after := e.after + [ahead.value]), ahead.value.row.section.next)
    else (e, None)
  }

  /** The loop of `_expand_parent`, from what has joined and the links still to follow. */
  function ExpandFrom(rows: Rows, config: Config, excluded: set<RowKey>, parent: Parent, e: Expansion,
                      previousId: Option<SectionId>, nextId: Option<SectionId>, rounds: nat): Expansion
    decreases rounds
  {
    if rounds == 0 then e
    else
      var (e', previousId', nextId') := Round(rows, config, excluded, parent, e, previousId, nextId);
      ExpandFrom(rows, config, excluded, parent, e', previousId', nextId', rounds - 1)
  }

  /** `_expand_parent`. */
  function Expand(rows: Rows, config: Config, excluded: set<RowKey>, parent: Parent): Expansion {
    ExpandFrom(rows, config, excluded, parent, Expansion([], []),
               parent.row.section.previous, parent.row.section.next, config.neighborCount)
  }

  function KeysOf(parents: seq<Parent>): seq<RowKey> {
    if parents == [] then [] else [parents[0].key] + KeysOf(parents[1..])
  }

  function IdsOf(keys: seq<RowKey>): seq<SectionId> {
    if keys == [] then [] else [keys[0].id] + IdsOf(keys[1..])
  }

  function SetOf(keys: seq<RowKey>): set<RowKey> {
    set i | 0 <= i < |keys| :: keys[i]
  }

  /** A context made from the candidate of the given rank, with the keys of the parents in it. */
  datatype Pick = Pick(rank: nat, context: Candidate, keys: seq<RowKey>)

  function ContextOf(candidate: Candidate, text: string, keys: seq<RowKey>): Candidate {
    candidate.(content := text, expanded := IdsOf(keys))
  }

  /** The context of a candidate seen for the first time, or nothing when its parent cannot be found. */
  function Resolve(rows: Rows, config: Config, seen: set<RowKey>, candidate: Candidate, rank: nat): Option<Pick> {
    var found := Lookup(rows, candidate.parent.doc, candidate.parent.id);
    if found.Some? then
      var expanded := Expanded(found.value, Expand(rows, config, seen, found.value));
      Some(Pick(rank, ContextOf(candidate, Join(Texts(expanded), "\n\n"), KeysOf(expanded)), KeysOf(expanded)))
    else if candidate.inlineParent.Some? && candidate.inlineParent.value != "" then
      Some(Pick(rank, ContextOf(candidate, candidate.inlineParent.value, [candidate.parent]), [candidate.parent]))
    else None
  }

  /** The loop of `assemble`, from the picks made and the keys seen, at the candidate of the given rank. */
  function AssembleFrom(rows: Rows, config: Config, picks: seq<Pick>, seen: set<RowKey>,
                        candidates: seq<Candidate>, rank: nat): Result<seq<Pick>, ParentNotFound>
    requires rank <= |candidates|
    decreases |candidates| - rank
  {
    if rank == |candidates| then Ok(picks)
    else if candidates[rank].parent in seen then
      AssembleFrom(rows, config, picks, seen, candidates, rank + 1)
    else
      var pick := Resolve(rows, config, seen, candidates[rank], rank);
      if pick.None? then Raised(ParentNotFound(candidates[rank].parent))
      else
        var more := picks + [pick.value];
        if |more| >= config.limit then Ok(more)
        else
          var marked := seen + {candidates[rank].parent} + SetOf(pick.value.keys);
          AssembleFrom(rows, config, more, marked, candidates, rank + 1)
  }

  function Assembled(rows: Rows, config: Config, candidates: seq<Candidate>): Result<seq<Pick>, ParentNotFound> {
    AssembleFrom(rows, config, [], {}, candidates, 0)
  }

  function Contexts(picks: seq<Pick>): seq<Candidate> {
    if picks == [] then [] else [picks[0].context] + Contexts(picks[1..])
  }

  function ContextsOf(assembled: Result<seq<Pick>, ParentNotFound>): Result<seq<Candidate>, ParentNotFound> {
    match assembled
    case Ok(picks) => Ok(Contexts(picks))
    case Raised(error) => Raised(error)
  }

  lemma {:induction false} ContextsAppend(picks: seq<Pick>, pick: Pick)
    ensures Contexts(picks + [pick]) == Contexts(picks) + [pick.context]
  {
    if picks == [] {
      assert picks + [pick] == [pick];
    } else {
      assert (picks + [pick])[1..] == picks[1..] + [pick];
      ContextsAppend(picks[1..], pick);
    }
  }

  /** `ParentContextAssembler`, over the store it reads. */
  class ParentContextAssembler {
    const parentStore: ParentStore
    const config: Config

    constructor (parentStore: ParentStore, config: Config)
      ensures this.parentStore == parentStore && this.config == config
    {
      this.parentStore, this.config := parentStore, config;
    }

    method Find(doc: DocKey, id: SectionId) returns (parent: Option<Parent>)
      ensures parent == Lookup(parentStore.rows, doc, id)
    {
      var row := parentStore.GetParent(doc, id);
      parent := if row.Some? then Some(Parent(RowKey(doc, id), row.value)) else None;
    }

    method FollowLink(parent: Parent, link: Option<SectionId>) returns (item: Option<Parent>)
      ensures item == Linked(parentStore.rows, parent, link)
    {
      item := None;
      if link.Some? {
        item := Find(parent.key.doc, link.value);
      }
    }

    method ExpandParent(parent: Parent, excluded: set<RowKey>) returns (expanded: seq<Parent>)
      ensures expanded == Expanded(parent, Expand(parentStore.rows, config, excluded, parent))
    {
      hide MayJoin, Linked;
      var before: seq<Parent>, after: seq<Parent> := [], [];
      var previousId, nextId := parent.row.section.previous, parent.row.section.next;
      var round := 0;
      while round < config.neighborCount
        invariant 0 <= round <= config.neighborCount
        invariant Expand(parentStore.rows, config, excluded, parent)
               == ExpandFrom(parentStore.rows, config, excluded, parent, Expansion(before, after), previousId, nextId,
                             config.neighborCount - round)
      {
        var back := FollowLink(parent, previousId);
        if back.Some? && MayJoin(config, excluded, back, [back.value] + (before + [parent] + after)) {
          before, previousId := [back.value] + before, back.value.row.section.previous;
        } else {
          previousId := None;
        }
        var ahead := FollowLink(parent, nextId);
        if ahead.Some? && MayJoin(config, excluded, ahead, before + [parent] + after + [ahead.value]) {
          after, nextId := after + [ahead.value], ahead.value.row.section.next;
        } else {
          nextId := None;
        }
        round := round + 1;
      }
      expanded := before + [parent] + after;
    }

    method ResolveCandidate(candidate: Candidate, rank: nat, seen: set<RowKey>) returns (pick: Option<Pick>)
      ensures pick == Resolve(parentStore.rows, config, seen, candidate, rank)
    {
      hide Expand, Join;
      var found := Find(candidate.parent.doc, candidate.parent.id);
      if found.Some? {
        var expanded := ExpandParent(found.value, seen);
        var text := Join(Texts(expanded), "\n\n");
        pick := Some(Pick(rank, ContextOf(candidate, text, KeysOf(expanded)), KeysOf(expanded)));
      } else if candidate.inlineParent.Some? && candidate.inlineParent.value != "" {
        pick := Some(Pick(rank, ContextOf(candidate, candidate.inlineParent.value, [candidate.parent]),
                          [candidate.parent]));
      } else {
        pick := None;
      }
    }

    method Assemble(candidates: seq<Candidate>) returns (result: Result<seq<Candidate>, ParentNotFound>)
      ensures result == ContextsOf(Assembled(parentStore.rows, config, candidates))
    {
      hide Resolve, SetOf;
      var contexts: seq<Candidate>, seen: set<RowKey> := [], {};
      ghost var picks: seq<Pick> := [];
      var rank := 0;
      while rank < |candidates|
        invariant 0 <= rank <= |candidates|
        invariant contexts == Contexts(picks) && |contexts| == |picks|
        invariant Assembled(parentStore.rows, config, candidates)
               == AssembleFrom(parentStore.rows, config, picks, seen, candidates, rank)
      {
        var candidate := candidates[rank];
        if candidate.parent in seen {
          rank := rank + 1;
          continue;
        }
        var pick := ResolveCandidate(candidate, rank, seen);
        if pick.None? {
          return Raised(ParentNotFound(candidate.parent));
        }
        ContextsAppend(picks, pick.value);
        contexts, picks := contexts + [pick.value.context], picks + [pick.value];
        if |contexts| >= config.limit {
          break;
        }
        seen := seen + {candidate.parent} + SetOf(pick.value.keys);
        rank := rank + 1;
      }
      result := Ok(contexts);
    }
  }
}
