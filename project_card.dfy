/** The project card: a project's tile in the listings, with an author
    label and a favorite button that reports the project's id. */
module ProjectCard {
  import opened Text
  import opened Models

  const GroupSuffix := " personnes"

  /** `isGroup`: more than one author. */
  predicate IsGroup(p: Project)
  {
    |p.authors| > 1
  }

  /** `authorLabel`: a group shows its head count, `${n} personnes`; a
      single author shows that author's name. The card reads the first
      author, so it needs one. */
  function AuthorLabel(p: Project): (r: string)
    requires |p.authors| >= 1
    ensures IsGroup(p) ==> r == NatToString(|p.authors|) + GroupSuffix
    ensures !IsGroup(p) ==> r == p.authors[0].name
  {
    if IsGroup(p) then NatToString(|p.authors|) + GroupSuffix else p.authors[0].name
  }

  /** A group label starts with the decimal head count, which reads back as
      the number of authors, and ends with the suffix. */
  lemma {:induction false} GroupLabelCounts(p: Project)
    requires IsGroup(p)
    ensures var r := AuthorLabel(p);
      && |r| > |GroupSuffix|
      && r[|r| - |GroupSuffix|..] == GroupSuffix
      && (forall i :: 0 <= i < |r| - |GroupSuffix| ==> IsDigit(r[i]))
      && DecimalValue(r[..|r| - |GroupSuffix|]) == |p.authors|
  {
    var r := AuthorLabel(p);
    var digits := NatToString(|p.authors|);
    assert r == digits + GroupSuffix;
    assert r[..|r| - |GroupSuffix|] == digits;
    assert r[|r| - |GroupSuffix|..] == GroupSuffix;
    DecimalRoundTrip(|p.authors|);
  }

  class Card {
    /** The required `project` input. */
    var project: Project

    constructor (p: Project)
      ensures project == p
    {
      project := p;
    }

    /** `onFavoriteClick(event)`: the click is kept from opening the
        project and the card's id is emitted on `toggleFavorite`. */
    method OnFavoriteClick() returns (emitted: int)
      ensures emitted == project.id
    {
      emitted := project.id;
    }
  }
}
