/** The records the pipeline hands on: parent sections and their content-addressed ids. */
module Records {
  import opened Results

  /**
   The id of a section: a digest of heading, order and text, taken as injective, so that it is its
   preimage. `Named` stands for any other id an older index may hold.
   */
  datatype SectionId = Hashed(heading: string, order: int, text: string) | Named(name: string)

  datatype Section = Section(
    id: SectionId, heading: string, text: string, order: nat, part: nat, partCount: nat,
    previous: Option<SectionId>, next: Option<SectionId>)

  /** A link that names a section of the same heading at the given order, or no section. */
  predicate LinksTo(link: Option<SectionId>, heading: string, order: int) {
    link.Some? ==> link.value.Hashed? && link.value.heading == heading && link.value.order == order
  }

  /** The id is the digest of the section's content, and its links name the orders next to its own. */
  predicate WellLinked(section: Section) {
    && section.id == Hashed(section.heading, section.order, section.text)
    && LinksTo(section.previous, section.heading, section.order - 1)
    && LinksTo(section.next, section.heading, section.order + 1)
  }

  predicate AllWellLinked(sections: seq<Section>) {
    forall i :: 0 <= i < |sections| ==> WellLinked(sections[i])
  }

  /** The section at `i` knows its place, and links exactly to the parts beside it in its heading section. */
  predicate Placed(sections: seq<Section>, i: nat)
    requires i < |sections|
  {
    var section := sections[i];
    && section.id == Hashed(section.heading, i, section.text)
    && section.order == i
    && 1 <= section.part <= section.partCount
    && (if section.part > 1
        then i > 0 && Follows(sections[i - 1], section) && section.previous == Some(sections[i - 1].id)
        else section.previous == None)
    && (if section.part < section.partCount
        then i + 1 < |sections| && Follows(section, sections[i + 1]) && section.next == Some(sections[i + 1].id)
        else section.next == None)
  }

  /** `b` is the next part of the heading section that `a` is a part of. */
  predicate Follows(a: Section, b: Section) {
    b.heading == a.heading && b.partCount == a.partCount && b.part == a.part + 1
  }

  predicate IsLinkedList(sections: seq<Section>) {
    forall i: nat :: i < |sections| ==> Placed(sections, i)
  }

  lemma LinkedListLinksWell(sections: seq<Section>)
    requires IsLinkedList(sections)
    ensures AllWellLinked(sections)
    ensures forall i, j :: 0 <= i < j < |sections| ==> sections[i].id != sections[j].id
  {
    forall i: nat | i < |sections| ensures WellLinked(sections[i]) {
      assert Placed(sections, i);
      if i > 0 { assert Placed(sections, i - 1); }
      if i + 1 < |sections| { assert Placed(sections, i + 1); }
    }
    forall i: nat, j: nat | i < j < |sections| ensures sections[i].id != sections[j].id {
      assert Placed(sections, i) && Placed(sections, j);
    }
  }
}
