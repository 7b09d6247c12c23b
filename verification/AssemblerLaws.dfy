/**
 What assembly guarantees on any store whose rows link well, including one left mixed by a crash:
 bounded, ranked, disjoint contexts, each a run of consecutive parts around its match that could not
 have been longer.
 */
module AssemblerLaws {
  import opened Results
  import opened Text
  import opened Tokens
  import opened Records
  import opened Stores
  import opened Publication
  import opened PublicationLaws
  import opened Assembler

  // ----- Expansion -----

  ghost predicate RowsOk(rows: Rows) {
    forall key :: key in rows ==> RowOk(key, rows[key])
  }

  ghost predicate InStore(rows: Rows, p: Parent) {
    p.key in rows && rows[p.key] == p.row
  }

  ghost predicate AllInStore(rows: Rows, parents: seq<Parent>) {
    forall i :: 0 <= i < |parents| ==> InStore(rows, parents[i])
  }

  function OrderOf(p: Parent): int {
    p.row.section.order
  }

  /** The parents are consecutive parts of one heading of one document, the first at `start`. */
  ghost predicate RunOf(doc: DocKey, heading: string, start: int, parents: seq<Parent>) {
    forall i :: 0 <= i < |parents| ==> PartAt(doc, heading, start + i, parents[i])
  }

  ghost predicate PartAt(doc: DocKey, heading: string, order: int, p: Parent) {
    p.key.doc == doc && p.row.section.heading == heading && OrderOf(p) == order
  }

  lemma LinkedIsNext(rows: Rows, parent: Parent, link: Option<SectionId>, heading: string, order: int)
    requires RowsOk(rows) && LinksTo(link, heading, order)
    requires Linked(rows, parent, link).Some?
    ensures var item := Linked(rows, parent, link).value;
            && InStore(rows, item) && PartAt(parent.key.doc, heading, order, item)
            && LinksTo(item.row.section.previous, heading, order - 1)
            && LinksTo(item.row.section.next, heading, order + 1)
  {
    var item := Linked(rows, parent, link).value;
    assert RowOk(item.key, rows[item.key]);
  }

  lemma {:induction false} TextsConcat(xs: seq<Parent>, ys: seq<Parent>)
    ensures Texts(xs + ys) == Texts(xs) + Texts(ys)
  {
    if xs == [] {
      assert xs + ys == ys;
    } else {
      assert (xs + ys)[1..] == xs[1..] + ys;
      TextsConcat(xs[1..], ys);
    }
  }

  /**
   Whether the row under the link can join in no way that puts its text where `texts` has it: there is none, it
   is shown already, or the texts together are over the cap.
   */
  ghost predicate CannotJoin(rows: Rows, config: Config, excluded: set<RowKey>, doc: DocKey, link: Option<SectionId>,
                             before: seq<string>, after: seq<string>)
  {
    link.Some? && RowKey(doc, link.value) in rows ==>
      var text := rows[RowKey(doc, link.value)].section.text;
      || RowKey(doc, link.value) in excluded
      || TokenCount(Join(before + [text] + after, "\n\n")) > config.expandedMaxTokens
  }

  /** Nothing more can join before: the first part has no usable link, or its neighbour may not join. */
  ghost predicate BackBlocked(rows: Rows, config: Config, excluded: set<RowKey>, parent: Parent, e: Expansion) {
    CannotJoin(rows, config, excluded, parent.key.doc, FirstOf(parent, e).row.section.previous,
               [], Texts(Expanded(parent, e)))
  }

  ghost predicate AheadBlocked(rows: Rows, config: Config, excluded: set<RowKey>, parent: Parent, e: Expansion) {
    CannotJoin(rows, config, excluded, parent.key.doc, LastOf(parent, e).row.section.next,
               Texts(Expanded(parent, e)), [])
  }

  function FirstOf(parent: Parent, e: Expansion): Parent {
    (e.before + [parent])[0]
  }

  function LastOf(parent: Parent, e: Expansion): Parent {
    ([parent] + e.after)[|e.after|]
  }

  /** The loop's own test, in these terms. */
  lemma BlockedIff(rows: Rows, config: Config, excluded: set<RowKey>, parent: Parent, e: Expansion)
    ensures var back := Linked(rows, parent, FirstOf(parent, e).row.section.previous);
            BackBlocked(rows, config, excluded, parent, e)
            <==> back.None? || !MayJoin(config, excluded, back, [back.value] + Expanded(parent, e))
    ensures var ahead := Linked(rows, parent, LastOf(parent, e).row.section.next);
            AheadBlocked(rows, config, excluded, parent, e)
            <==> ahead.None? || !MayJoin(config, excluded, ahead, Expanded(parent, e) + [ahead.value])
  {
    hide Join, TokenCount;
    var back := Linked(rows, parent, FirstOf(parent, e).row.section.previous);
    var ahead := Linked(rows, parent, LastOf(parent, e).row.section.next);
    var texts := Texts(Expanded(parent, e));
    if back.Some? {
      TextsConcat([back.value], Expanded(parent, e));
      assert Texts([back.value]) == [back.value.row.section.text];
      assert [] + [back.value.row.section.text] + texts == [back.value.row.section.text] + texts;
    }
    if ahead.Some? {
      TextsConcat(Expanded(parent, e), [ahead.value]);
      assert Texts([ahead.value]) == [ahead.value.row.section.text];
      assert texts + [ahead.value.row.section.text] + [] == texts + [ahead.value.row.section.text];
    }
  }

  /** The parts around a parent, at every point of the loop. */
  ghost predicate ExpansionOk(rows: Rows, config: Config, excluded: set<RowKey>, parent: Parent, e: Expansion) {
    && AllInStore(rows, Expanded(parent, e))
    && RunOf(parent.key.doc, parent.row.section.heading, OrderOf(parent) - |e.before|, Expanded(parent, e))
    && (forall i :: 0 <= i < |e.before| ==> e.before[i].key !in excluded)
    && (forall i :: 0 <= i < |e.after| ==> e.after[i].key !in excluded)
    && (e == Expansion([], []) || FitsExpansion(config, Expanded(parent, e)))
  }

  /** What has joined ahead by the time that the side before stops after `n` parts. */
  function WhenBackStops(e: Expansion): Expansion {
    Expansion(e.before, e.after[..Least(|e.after|, |e.before|)])
  }

  /** What has joined before by the time that the side ahead stops: it has had one turn more. */
  function WhenAheadStops(e: Expansion): Expansion {
    Expansion(e.before[|e.before| - Least(|e.before|, |e.after| + 1)..], e.after)
  }

  /** A side is open with one part per round so far, or has stopped: at its end, or where nothing could join. */
  ghost predicate BackOpen(rows: Rows, config: Config, excluded: set<RowKey>, parent: Parent, e: Expansion,
                           previousId: Option<SectionId>, done: nat)
  {
    && |e.before| <= done
    && if previousId.Some? then |e.before| == done && previousId == FirstOf(parent, e).row.section.previous
       else || FirstOf(parent, e).row.section.previous == None
            || (|e.before| < done && BackBlocked(rows, config, excluded, parent, WhenBackStops(e)))
  }

  ghost predicate AheadOpen(rows: Rows, config: Config, excluded: set<RowKey>, parent: Parent, e: Expansion,
                            nextId: Option<SectionId>, done: nat)
  {
    && |e.after| <= done
    && if nextId.Some? then |e.after| == done && nextId == LastOf(parent, e).row.section.next
       else || LastOf(parent, e).row.section.next == None
            || (|e.after| < done && AheadBlocked(rows, config, excluded, parent, WhenAheadStops(e)))
  }

  lemma FirstLink(rows: Rows, config: Config, excluded: set<RowKey>, parent: Parent, e: Expansion)
    requires RowsOk(rows) && ExpansionOk(rows, config, excluded, parent, e)
    ensures LinksTo((e.before + [parent])[0].row.section.previous, parent.row.section.heading,
                    OrderOf(parent) - |e.before| - 1)
    ensures LinksTo(([parent] + e.after)[|e.after|].row.section.next, parent.row.section.heading,
                    OrderOf(parent) + |e.after| + 1)
  {
    hide FitsExpansion, LinksTo;
    var whole := Expanded(parent, e);
    var last := |whole| - 1;
    assert InStore(rows, whole[0]) && RowOk(whole[0].key, rows[whole[0].key]);
    assert InStore(rows, whole[last]) && RowOk(whole[last].key, rows[whole[last].key]);
    assert PartAt(parent.key.doc, parent.row.section.heading, OrderOf(parent) - |e.before|, whole[0]);
    assert PartAt(parent.key.doc, parent.row.section.heading, OrderOf(parent) - |e.before| + last, whole[last]);
    assert whole[0] == (e.before + [parent])[0];
    assert whole[last] == ([parent] + e.after)[|e.after|];
  }

  /** The side before takes its turn first, with as many rounds behind it as the side ahead. */
  lemma JoinBackOk(rows: Rows, config: Config, excluded: set<RowKey>, parent: Parent, e: Expansion,
                   previousId: Option<SectionId>, nextId: Option<SectionId>, done: nat)
    requires RowsOk(rows) && ExpansionOk(rows, config, excluded, parent, e)
    requires BackOpen(rows, config, excluded, parent, e, previousId, done)
    requires AheadOpen(rows, config, excluded, parent, e, nextId, done)
    ensures var (e', previousId') := JoinBack(rows, config, excluded, parent, e, previousId);
            && ExpansionOk(rows, config, excluded, parent, e')
            && BackOpen(rows, config, excluded, parent, e', previousId', done + 1)
            && AheadOpen(rows, config, excluded, parent, e', nextId, done)
  {
    hide FitsExpansion, RowsOk, CannotJoin, MayJoin;
    FirstLink(rows, config, excluded, parent, e);
    BlockedIff(rows, config, excluded, parent, e);
    var (e', previousId') := JoinBack(rows, config, excluded, parent, e, previousId);
    if e' != e {
      var item := e'.before[0];
      LinkedIsNext(rows, parent, previousId, parent.row.section.heading, OrderOf(parent) - |e.before| - 1);
      MayJoinParts(config, excluded, item, [item] + Expanded(parent, e));
      GrewBack(rows, config, excluded, parent, e, item);
      if |e.after| < done {
        assert WhenAheadStops(e') == WhenAheadStops(e);
      }
    } else if previousId.Some? {
      assert WhenBackStops(e) == e;
    }
  }

  lemma MayJoinParts(config: Config, excluded: set<RowKey>, item: Parent, grown: seq<Parent>)
    requires MayJoin(config, excluded, Some(item), grown)
    ensures item.key !in excluded && FitsExpansion(config, grown)
  {
  }

  lemma GrewBack(rows: Rows, config: Config, excluded: set<RowKey>, parent: Parent, e: Expansion, item: Parent)
    requires ExpansionOk(rows, config, excluded, parent, e) && InStore(rows, item)
    requires PartAt(parent.key.doc, parent.row.section.heading, OrderOf(parent) - |e.before| - 1, item)
    requires item.key !in excluded && FitsExpansion(config, [item] + Expanded(parent, e))
    ensures ExpansionOk(rows, config, excluded, parent, e.(before := [item] + e.before))
  {
    hide FitsExpansion, InStore, PartAt;
    var grown := e.(before := [item] + e.before);
    assert Expanded(parent, grown) == [item] + Expanded(parent, e);
    assert forall i :: 1 <= i < |Expanded(parent, grown)| ==> Expanded(parent, grown)[i] == Expanded(parent, e)[i - 1];
  }

  /** The side ahead takes its turn second, when the side before has had this round's. */
  lemma JoinAheadOk(rows: Rows, config: Config, excluded: set<RowKey>, parent: Parent, e: Expansion,
                    previousId: Option<SectionId>, nextId: Option<SectionId>, done: nat)
    requires RowsOk(rows) && ExpansionOk(rows, config, excluded, parent, e)
    requires BackOpen(rows, config, excluded, parent, e, previousId, done + 1)
    requires AheadOpen(rows, config, excluded, parent, e, nextId, done)
    ensures var (e', nextId') := JoinAhead(rows, config, excluded, parent, e, nextId);
            && ExpansionOk(rows, config, excluded, parent, e')
            && BackOpen(rows, config, excluded, parent, e', previousId, done + 1)
            && AheadOpen(rows, config, excluded, parent, e', nextId', done + 1)
  {
    hide FitsExpansion, RowsOk, CannotJoin, MayJoin;
    FirstLink(rows, config, excluded, parent, e);
    BlockedIff(rows, config, excluded, parent, e);
    var (e', nextId') := JoinAhead(rows, config, excluded, parent, e, nextId);
    if e' != e {
      var item := e'.after[|e.after|];
      LinkedIsNext(rows, parent, nextId, parent.row.section.heading, OrderOf(parent) + |e.after| + 1);
      MayJoinParts(config, excluded, item, Expanded(parent, e) + [item]);
      GrewAhead(rows, config, excluded, parent, e, item);
      if |e.before| < done + 1 {
        assert WhenBackStops(e') == WhenBackStops(e);
      }
    } else if nextId.Some? {
      assert WhenAheadStops(e) == e;
    }
  }

  lemma GrewAhead(rows: Rows, config: Config, excluded: set<RowKey>, parent: Parent, e: Expansion, item: Parent)
    requires ExpansionOk(rows, config, excluded, parent, e) && InStore(rows, item)
    requires PartAt(parent.key.doc, parent.row.section.heading, OrderOf(parent) + |e.after| + 1, item)
    requires item.key !in excluded && FitsExpansion(config, Expanded(parent, e) + [item])
    ensures ExpansionOk(rows, config, excluded, parent, e.(after := e.after + [item]))
  {
    hide FitsExpansion, InStore, PartAt;
    var grown := e.(after := e.after + [item]);
    assert Expanded(parent, grown) == Expanded(parent, e) + [item];
  }

  /** A side that is blocked is blocked as well with more on the other side. */
  lemma BlockedStays(rows: Rows, config: Config, excluded: set<RowKey>, parent: Parent, e: Expansion)
    ensures BackBlocked(rows, config, excluded, parent, WhenBackStops(e))
        ==> BackBlocked(rows, config, excluded, parent, e)
    ensures AheadBlocked(rows, config, excluded, parent, WhenAheadStops(e))
        ==> AheadBlocked(rows, config, excluded, parent, e)
  {
    hide BackBlocked, AheadBlocked, WhenBackStops, WhenAheadStops;
    if BackBlocked(rows, config, excluded, parent, WhenBackStops(e)) {
      BackStays(rows, config, excluded, parent, e);
    }
    if AheadBlocked(rows, config, excluded, parent, WhenAheadStops(e)) {
      AheadStays(rows, config, excluded, parent, e);
    }
  }

  lemma BackStays(rows: Rows, config: Config, excluded: set<RowKey>, parent: Parent, e: Expansion)
    requires BackBlocked(rows, config, excluded, parent, WhenBackStops(e))
    ensures BackBlocked(rows, config, excluded, parent, e)
  {
    hide CannotJoin, Texts, TokenCount, Join;
    var less := WhenBackStops(e);
    var added := e.after[|less.after|..];
    var none: seq<string> := [];
    assert none + none == none;
    assert e.after == less.after + added;
    assert Expanded(parent, e) == Expanded(parent, less) + added;
    TextsConcat(Expanded(parent, less), added);
    MoreCannotJoin(rows, config, excluded, parent.key.doc, FirstOf(parent, e).row.section.previous,
                   none, none, Texts(Expanded(parent, less)), Texts(added));
  }

  lemma AheadStays(rows: Rows, config: Config, excluded: set<RowKey>, parent: Parent, e: Expansion)
    requires AheadBlocked(rows, config, excluded, parent, WhenAheadStops(e))
    ensures AheadBlocked(rows, config, excluded, parent, e)
  {
    hide CannotJoin, Texts, TokenCount, Join;
    var fewer := WhenAheadStops(e);
    var added := e.before[..|e.before| - |fewer.before|];
    var none: seq<string> := [];
    assert none + none == none;
    assert e.before == added + fewer.before;
    assert Expanded(parent, e) == added + Expanded(parent, fewer);
    TextsConcat(added, Expanded(parent, fewer));
    MoreCannotJoin(rows, config, excluded, parent.key.doc, LastOf(parent, e).row.section.next,
                   Texts(added), Texts(Expanded(parent, fewer)), none, none);
  }

  lemma MoreCannotJoin(rows: Rows, config: Config, excluded: set<RowKey>, doc: DocKey, link: Option<SectionId>,
                       outer: seq<string>, before: seq<string>, after: seq<string>, beyond: seq<string>)
    requires CannotJoin(rows, config, excluded, doc, link, before, after)
    ensures CannotJoin(rows, config, excluded, doc, link, outer + before, after + beyond)
  {
    hide TokenCount, Join;
    if link.Some? && RowKey(doc, link.value) in rows {
      var text := rows[RowKey(doc, link.value)].section.text;
      var small := before + [text] + after;
      assert Blank("\n\n");
      CountJoin(small, "\n\n");
      CountJoin((outer + before) + [text] + (after + beyond), "\n\n");
      assert (outer + before) + [text] + (after + beyond) == outer + small + beyond;
      CountAllConcat(outer + small, beyond);
      CountAllConcat(outer, small);
    }
  }

  lemma RoundOk(rows: Rows, config: Config, excluded: set<RowKey>, parent: Parent, e: Expansion,
                previousId: Option<SectionId>, nextId: Option<SectionId>, done: nat)
    requires RowsOk(rows) && ExpansionOk(rows, config, excluded, parent, e)
    requires BackOpen(rows, config, excluded, parent, e, previousId, done)
    requires AheadOpen(rows, config, excluded, parent, e, nextId, done)
    ensures var (e', previousId', nextId') := Round(rows, config, excluded, parent, e, previousId, nextId);
            && ExpansionOk(rows, config, excluded, parent, e')
            && BackOpen(rows, config, excluded, parent, e', previousId', done + 1)
            && AheadOpen(rows, config, excluded, parent, e', nextId', done + 1)
  {
    hide ExpansionOk, RowsOk, BackOpen, AheadOpen, MayJoin, Linked, JoinBack, JoinAhead;
    JoinBackOk(rows, config, excluded, parent, e, previousId, nextId, done);
    var (e', previousId') := JoinBack(rows, config, excluded, parent, e, previousId);
    JoinAheadOk(rows, config, excluded, parent, e', previousId', nextId, done);
  }

  lemma {:induction false} ExpandFromOk(rows: Rows, config: Config, excluded: set<RowKey>, parent: Parent, e: Expansion,
                                        previousId: Option<SectionId>, nextId: Option<SectionId>,
                                        rounds: nat, done: nat)
    requires RowsOk(rows) && ExpansionOk(rows, config, excluded, parent, e)
    requires BackOpen(rows, config, excluded, parent, e, previousId, done)
    requires AheadOpen(rows, config, excluded, parent, e, nextId, done)
    ensures var final := ExpandFrom(rows, config, excluded, parent, e, previousId, nextId, rounds);
            && ExpansionOk(rows, config, excluded, parent, final)
            && |final.before| <= done + rounds && |final.after| <= done + rounds
            && (|final.before| == done + rounds || BackBlocked(rows, config, excluded, parent, WhenBackStops(final)))
            && (|final.after| == done + rounds || AheadBlocked(rows, config, excluded, parent, WhenAheadStops(final)))
    decreases rounds
  {
    hide ExpansionOk, RowsOk, Round, FitsExpansion;
    if rounds == 0 {
      var back, ahead := WhenBackStops(e), WhenAheadStops(e);
      assert FirstOf(parent, back) == FirstOf(parent, e) && LastOf(parent, ahead) == LastOf(parent, e);
    } else {
      RoundOk(rows, config, excluded, parent, e, previousId, nextId, done);
      var (e', previousId', nextId') := Round(rows, config, excluded, parent, e, previousId, nextId);
      ExpandFromOk(rows, config, excluded, parent, e', previousId', nextId', rounds - 1, done + 1);
    }
  }

  /**
   An expansion is a run of consecutive parts around the match, all from the store, none of them
   already shown, within the cap unless it is the match alone. The sides take turns, the one before first, and
   each goes as far as it can: to `neighborCount` parts, or to where, with what the other side has by then, no
   further part exists, is free, or fits; and with all that the other side gets, still none does.
   */
  lemma ExpandIsConsecutive(rows: Rows, config: Config, excluded: set<RowKey>, parent: Parent)
    requires RowsOk(rows) && InStore(rows, parent)
    ensures var e := Expand(rows, config, excluded, parent);
            && ExpansionOk(rows, config, excluded, parent, e)
            && |e.before| <= config.neighborCount && |e.after| <= config.neighborCount
            && (|e.before| < config.neighborCount
                ==> BackBlocked(rows, config, excluded, parent, WhenBackStops(e))
                    && BackBlocked(rows, config, excluded, parent, e))
            && (|e.after| < config.neighborCount
                ==> AheadBlocked(rows, config, excluded, parent, WhenAheadStops(e))
                    && AheadBlocked(rows, config, excluded, parent, e))
  {
    hide FitsExpansion, RowsOk, BackBlocked, AheadBlocked;
    var e := Expansion([], []);
    assert Expanded(parent, e) == [parent];
    ExpandFromOk(rows, config, excluded, parent, e, parent.row.section.previous, parent.row.section.next,
                 config.neighborCount, 0);
    BlockedStays(rows, config, excluded, parent, Expand(rows, config, excluded, parent));
  }

  // ----- Contexts -----

  lemma {:induction false} KeysAt(parents: seq<Parent>)
    ensures |KeysOf(parents)| == |parents|
    ensures forall i :: 0 <= i < |parents| ==> KeysOf(parents)[i] == parents[i].key
  {
    if parents != [] {
      KeysAt(parents[1..]);
      assert forall i :: 1 <= i < |parents| ==> parents[1..][i - 1] == parents[i];
    }
  }

  /** The keys of consecutive parts of one heading of one document, whose content is what is shown. */
  ghost predicate ConsecutiveKeys(rows: Rows, keys: seq<RowKey>) {
    && (forall i :: 0 <= i < |keys| ==> keys[i] in rows)
    && forall i :: 0 <= i < |keys| ==>
         && keys[i].doc == keys[0].doc
         && rows[keys[i]].section.heading == rows[keys[0]].section.heading
         && rows[keys[i]].section.order == rows[keys[0]].section.order + i
  }

  function TextsAt(rows: Rows, keys: seq<RowKey>): seq<string> {
    if keys == [] then []
    else [if keys[0] in rows then rows[keys[0]].section.text else ""] + TextsAt(rows, keys[1..])
  }

  lemma {:induction false} TextsAtKeys(rows: Rows, parents: seq<Parent>)
    requires AllInStore(rows, parents)
    ensures TextsAt(rows, KeysOf(parents)) == Texts(parents)
  {
    if parents != [] {
      assert InStore(rows, parents[0]);
      assert forall i :: 0 <= i < |parents[1..]| ==> parents[1..][i] == parents[i + 1];
      TextsAtKeys(rows, parents[1..]);
    }
  }

  /** A context is its candidate with the text of its parents, or with the text the candidate carries. */
  ghost predicate PickOk(rows: Rows, config: Config, candidates: seq<Candidate>, pick: Pick) {
    && pick.rank < |candidates|
    && var c := candidates[pick.rank];
       && c.parent in SetOf(pick.keys)
       && pick.context == c.(content := pick.context.content, expanded := IdsOf(pick.keys))
       && if c.parent in rows then
            && ConsecutiveKeys(rows, pick.keys)
            && |pick.keys| <= 2 * config.neighborCount + 1
            && pick.context.content == Join(TextsAt(rows, pick.keys), "\n\n")
            && (TokenCount(rows[c.parent].section.text) <= config.expandedMaxTokens
                ==> TokenCount(pick.context.content) <= config.expandedMaxTokens)
          else
            && pick.keys == [c.parent]
            && c.inlineParent == Some(pick.context.content) && pick.context.content != ""
  }

  lemma WholeKeys(rows: Rows, config: Config, excluded: set<RowKey>, parent: Parent, e: Expansion)
    requires ExpansionOk(rows, config, excluded, parent, e) && parent.key !in excluded
    ensures var keys := KeysOf(Expanded(parent, e));
            && ConsecutiveKeys(rows, keys) && |keys| == |e.before| + 1 + |e.after|
            && parent.key in SetOf(keys) && SetOf(keys) !! excluded
  {
    hide FitsExpansion;
    var whole := Expanded(parent, e);
    KeysAt(whole);
    assert whole[|e.before|] == parent;
    forall i | 0 <= i < |whole| ensures KeysOf(whole)[i] in rows && rows[KeysOf(whole)[i]] == whole[i].row {
      assert InStore(rows, whole[i]);
    }
    var start := OrderOf(parent) - |e.before|;
    assert forall i :: 0 <= i < |whole| ==> PartAt(parent.key.doc, parent.row.section.heading, start + i, whole[i]);
    forall i | 0 <= i < |whole| ensures KeysOf(whole)[i] !in excluded {
      if i < |e.before| { assert whole[i] == e.before[i]; }
      else if i > |e.before| { assert whole[i] == e.after[i - |e.before| - 1]; }
    }
  }

  lemma ExpandedCost(rows: Rows, config: Config, excluded: set<RowKey>, parent: Parent, e: Expansion)
    requires ExpansionOk(rows, config, excluded, parent, e)
    requires TokenCount(parent.row.section.text) <= config.expandedMaxTokens
    ensures TokenCount(Join(Texts(Expanded(parent, e)), "\n\n")) <= config.expandedMaxTokens
  {
    hide TokenCount;
    if e == Expansion([], []) {
      assert Expanded(parent, e) == [parent];
      assert Texts([parent]) == [parent.row.section.text] + Texts([parent][1..]);
    }
  }

  lemma ResolveOk(rows: Rows, config: Config, seen: set<RowKey>, candidates: seq<Candidate>, rank: nat)
    requires RowsOk(rows) && rank < |candidates| && candidates[rank].parent !in seen
    ensures var pick := Resolve(rows, config, seen, candidates[rank], rank);
            && (pick.Some? ==> && pick.value.rank == rank
                               && PickOk(rows, config, candidates, pick.value)
                               && SetOf(pick.value.keys) !! seen)
            && (pick.None? <==> Unresolvable(rows, candidates[rank]))
  {
    hide Expand, FitsExpansion, TokenCount, Join, RowsOk, ConsecutiveKeys;
    var c := candidates[rank];
    var found := Lookup(rows, c.parent.doc, c.parent.id);
    assert RowKey(c.parent.doc, c.parent.id) == c.parent;
    if found.Some? {
      var e := Expand(rows, config, seen, found.value);
      ExpandIsConsecutive(rows, config, seen, found.value);
      WholeKeys(rows, config, seen, found.value, e);
      TextsAtKeys(rows, Expanded(found.value, e));
      if TokenCount(found.value.row.section.text) <= config.expandedMaxTokens {
        ExpandedCost(rows, config, seen, found.value, e);
      }
    } else {
      assert [c.parent][0] == c.parent;
    }
  }

  /** Neither the store nor the candidate itself has the parent's text. */
  predicate Unresolvable(rows: Rows, c: Candidate) {
    c.parent !in rows && (c.inlineParent == None || c.inlineParent == Some(""))
  }

  ghost predicate AllPicksOk(rows: Rows, config: Config, candidates: seq<Candidate>, picks: seq<Pick>) {
    forall i :: 0 <= i < |picks| ==> PickOk(rows, config, candidates, picks[i])
  }

  predicate Ranked(picks: seq<Pick>) {
    forall i, j :: 0 <= i < j < |picks| ==> picks[i].rank < picks[j].rank
  }

  /** No parent is shown in two contexts. */
  predicate Disjoint(picks: seq<Pick>) {
    forall i, j :: 0 <= i < j < |picks| ==> SetOf(picks[i].keys) !! SetOf(picks[j].keys)
  }

  ghost predicate Covered(picks: seq<Pick>, key: RowKey) {
    exists i :: 0 <= i < |picks| && key in SetOf(picks[i].keys)
  }

  /**
   A pick comes when all better ranked candidates are shown, and its parent is not; if the store has it, the
   pick is its expansion with what is shown left out.
   */
  ghost predicate PickPlaced(rows: Rows, config: Config, candidates: seq<Candidate>, picks: seq<Pick>, i: nat)
    requires i < |picks|
  {
    var pick := picks[i];
    && pick.rank < |candidates|
    && (forall r :: 0 <= r <= pick.rank ==> Covered(picks[..i + 1], candidates[r].parent))
    && !Covered(picks[..i], candidates[pick.rank].parent)
    && (candidates[pick.rank].parent in rows ==>
          exists shown :: && Shows(picks[..i], shown)
                          && ExpandsTo(rows, config, shown, candidates[pick.rank].parent, pick.keys))
  }

  ghost predicate Shows(picks: seq<Pick>, shown: set<RowKey>) {
    forall key :: key in shown <==> Covered(picks, key)
  }

  predicate ExpandsTo(rows: Rows, config: Config, shown: set<RowKey>, key: RowKey, keys: seq<RowKey>)
    requires key in rows
  {
    var parent := Parent(key, rows[key]);
    keys == KeysOf(Expanded(parent, Expand(rows, config, shown, parent)))
  }

  ghost predicate AllPlaced(rows: Rows, config: Config, candidates: seq<Candidate>, picks: seq<Pick>) {
    forall i: nat :: i < |picks| ==> PickPlaced(rows, config, candidates, picks, i)
  }

  lemma PlacedAppend(rows: Rows, config: Config, picks: seq<Pick>, seen: set<RowKey>, candidates: seq<Candidate>,
                     rank: nat, pick: Pick)
    requires LoopOk(rows, config, picks, seen, candidates, rank) && rank < |candidates|
    requires candidates[rank].parent !in seen && Resolve(rows, config, seen, candidates[rank], rank) == Some(pick)
    requires candidates[rank].parent in SetOf(pick.keys)
    ensures AllPlaced(rows, config, candidates, picks + [pick])
  {
    hide AllPicksOk, Expand, Join, Ranked, Disjoint, SetOf;
    var more := picks + [pick];
    assert more[..|picks|] == picks && more[..|picks| + 1] == more;
    forall i: nat | i < |more| ensures PickPlaced(rows, config, candidates, more, i) {
      if i < |picks| {
        assert PickPlaced(rows, config, candidates, picks, i);
        assert more[..i] == picks[..i] && more[..i + 1] == picks[..i + 1];
      } else {
        forall r | 0 <= r <= rank ensures Covered(more, candidates[r].parent) {
          if r < rank {
            assert candidates[r].parent in seen;
            var k :| 0 <= k < |picks| && candidates[r].parent in SetOf(picks[k].keys);
            assert more[k] == picks[k];
          } else {
            assert more[|picks|] == pick;
          }
        }
        assert Shows(picks, seen);
      }
    }
  }

  /** What holds of the picks and the seen keys when the loop reaches a rank. */
  ghost predicate LoopOk(rows: Rows, config: Config, picks: seq<Pick>, seen: set<RowKey>,
                         candidates: seq<Candidate>, rank: nat) {
    && rank <= |candidates|
    && AllPicksOk(rows, config, candidates, picks) && Ranked(picks) && Disjoint(picks)
    && AllPlaced(rows, config, candidates, picks)
    && (forall i :: 0 <= i < |picks| ==> picks[i].rank < rank)
    && (forall key :: key in seen <==> Covered(picks, key))
    && (forall r :: 0 <= r < rank ==> candidates[r].parent in seen)
  }

  lemma LoopStep(rows: Rows, config: Config, picks: seq<Pick>, seen: set<RowKey>, candidates: seq<Candidate>,
                 rank: nat, pick: Pick)
    requires LoopOk(rows, config, picks, seen, candidates, rank) && rank < |candidates|
    requires pick.rank == rank && PickOk(rows, config, candidates, pick) && SetOf(pick.keys) !! seen
    requires candidates[rank].parent !in seen && Resolve(rows, config, seen, candidates[rank], rank) == Some(pick)
    ensures LoopOk(rows, config, picks + [pick], seen + {candidates[rank].parent} + SetOf(pick.keys),
                   candidates, rank + 1)
  {
    hide PickOk, SetOf, Resolve, AllPlaced, Covered;
    var more := picks + [pick];
    assert candidates[rank].parent in SetOf(pick.keys) by { PickShowsItsMatch(rows, config, candidates, pick); }
    PlacedAppend(rows, config, picks, seen, candidates, rank, pick);
    forall key ensures key in seen + {candidates[rank].parent} + SetOf(pick.keys) <==> Covered(more, key) {
      CoveredByMore(picks, pick, key);
    }
    forall i, j | 0 <= i < j < |more| ensures SetOf(more[i].keys) !! SetOf(more[j].keys) {
      if j == |picks| {
        forall key | key in SetOf(picks[i].keys) ensures key in seen {
          assert Covered(picks, key) by { CoveredAt(picks, i, key); }
        }
      }
    }
  }

  lemma PickShowsItsMatch(rows: Rows, config: Config, candidates: seq<Candidate>, pick: Pick)
    requires PickOk(rows, config, candidates, pick)
    ensures pick.rank < |candidates| && candidates[pick.rank].parent in SetOf(pick.keys)
  {
    hide SetOf;
  }

  lemma CoveredAt(picks: seq<Pick>, i: nat, key: RowKey)
    requires i < |picks| && key in SetOf(picks[i].keys)
    ensures Covered(picks, key)
  {
    hide SetOf;
  }

  lemma CoveredByMore(picks: seq<Pick>, pick: Pick, key: RowKey)
    ensures Covered(picks + [pick], key) <==> Covered(picks, key) || key in SetOf(pick.keys)
  {
    hide SetOf;
    var more := picks + [pick];
    if Covered(picks, key) {
      var i :| 0 <= i < |picks| && key in SetOf(picks[i].keys);
      assert more[i] == picks[i];
    }
    if key in SetOf(pick.keys) { assert more[|picks|] == pick; }
  }

  /** What the caller of assembly gets. */
  ghost predicate AssemblyOk(rows: Rows, config: Config, candidates: seq<Candidate>, picks: seq<Pick>) {
    && AllPicksOk(rows, config, candidates, picks) && Ranked(picks) && Disjoint(picks)
    && AllPlaced(rows, config, candidates, picks)
    && |picks| <= (if config.limit >= 1 then config.limit else 1)
    && (|picks| < config.limit ==> forall r :: 0 <= r < |candidates| ==> Covered(picks, candidates[r].parent))
  }

  lemma {:induction false} AssembleFromOk(rows: Rows, config: Config, picks: seq<Pick>, seen: set<RowKey>,
                                          candidates: seq<Candidate>, rank: nat)
    requires RowsOk(rows) && LoopOk(rows, config, picks, seen, candidates, rank)
    requires picks == [] || |picks| < config.limit
    ensures var result := AssembleFrom(rows, config, picks, seen, candidates, rank);
            && (result.Ok? ==> AssemblyOk(rows, config, candidates, result.value))
            && (result.Raised? ==> exists r :: rank <= r < |candidates| && Unresolvable(rows, candidates[r])
                                                && candidates[r].parent == result.error.key)
    decreases |candidates| - rank
  {
    hide RowsOk, PickOk, SetOf, Resolve, Covered, Unresolvable, PickPlaced;
    if rank < |candidates| {
      if candidates[rank].parent in seen {
        AssembleFromOk(rows, config, picks, seen, candidates, rank + 1);
      } else {
        ResolveOk(rows, config, seen, candidates, rank);
        var pick := Resolve(rows, config, seen, candidates[rank], rank);
        if pick.Some? {
          LoopStep(rows, config, picks, seen, candidates, rank, pick.value);
          var more := picks + [pick.value];
          if |more| < config.limit {
            AssembleFromOk(rows, config, more, seen + {candidates[rank].parent} + SetOf(pick.value.keys),
                           candidates, rank + 1);
          }
        }
      }
    }
  }

  /**
   The contexts are at most `limit`, in rank order, pairwise disjoint, each a run of consecutive parts
   within the cap; when fewer than `limit` come back, every candidate's parent is shown in one of them.
   It raises only for a candidate whose text neither the store nor the candidate has.
   */
  lemma AssemblyIsCorrect(rows: Rows, config: Config, candidates: seq<Candidate>)
    requires RowsOk(rows)
    ensures var result := Assembled(rows, config, candidates);
            && (result.Ok? ==> AssemblyOk(rows, config, candidates, result.value))
            && (result.Raised? ==> exists r :: 0 <= r < |candidates| && Unresolvable(rows, candidates[r])
                                                && candidates[r].parent == result.error.key)
  {
    hide RowsOk, PickOk, Unresolvable;
    AssembleFromOk(rows, config, [], {}, candidates, 0);
  }

  /** A candidate is a hit on the index: it names the document and parent of a point a search may return. */
  ghost predicate IsHit(points: Points, c: Candidate) {
    exists id :: id in points && Searchable(points[id]) && c.parent == RowKey(points[id].doc, points[id].parent)
                 && c.inlineParent == points[id].inlineParent && points[id].inlineParent != Some("")
  }

  /**
   In any state of any run, crashed or not, assembling the hits of that state never fails and its
   contexts are runs of consecutive parts.
   */
  lemma HitsAlwaysAssemble(states: seq<State>, labels: seq<Label>, i: nat, config: Config, candidates: seq<Candidate>)
    requires IsRun(states, labels) && i < |states|
    requires forall r :: 0 <= r < |candidates| ==> IsHit(states[i].points, candidates[r])
    ensures var result := Assembled(states[i].rows, config, candidates);
            result.Ok? && AssemblyOk(states[i].rows, config, candidates, result.value)
  {
    hide WorkersOk, AssemblyOk, Assembled;
    RunKeepsInv(states, labels, i);
    AssemblyIsCorrect(states[i].rows, config, candidates);
    forall r | 0 <= r < |candidates| ensures !Unresolvable(states[i].rows, candidates[r]) {
      var id :| id in states[i].points && Searchable(states[i].points[id])
                && candidates[r].parent == RowKey(states[i].points[id].doc, states[i].points[id].parent)
                && candidates[r].inlineParent == states[i].points[id].inlineParent
                && states[i].points[id].inlineParent != Some("");
      assert PointOk(states[i].rows, id, states[i].points[id]);
    }
  }
}
