/** The avatar badge: when no picture is shown it displays the initials of
    the name it is given, recomputed whenever that input changes. */
module Avatar {
  import opened Wrappers
  import opened Text

  /** `calculateInitials()`: the empty name has no initials. Otherwise the
      trimmed name is split on single spaces; one piece gives its first
      character, several pieces the first characters of the first and the
      last piece, upper-cased. A name of white space only also gives none. */
  function Initials(name: string): (r: string)
    ensures |r| <= 2
    ensures forall i :: 0 <= i < |r| ==> !('a' <= r[i] <= 'z')
    ensures IsBlank(name) ==> r == ""
  {
    if name == "" then ""
    else
      WordInitials(Trim(name))
  }

  /** The initials of a name that is not blank: the upper-cased first
      character of a one-word name, and the upper-cased first characters of
      the first and the last word of a name with several. */
  lemma InitialsOfWords(name: string)
    requires !IsBlank(name)
    ensures ' ' !in Trim(name) ==> Initials(name) == [UpperChar(Trim(name)[0])]
    ensures ' ' in Trim(name) ==>
      var t := Trim(name);
      LastIndex(t, ' ') + 1 < |t| && Initials(name) == [UpperChar(t[0]), UpperChar(t[LastIndex(t, ' ') + 1])]
  {
    var t := Trim(name);
    assert t != [] && t[0] != ' ' && t[|t| - 1] != ' ';
    assert Initials(name) == WordInitials(t);
    if ' ' in t {
      PairInitials(t);
    } else {
      assert Split(t) == [t];
    }
  }

  /** The initials computed from an already trimmed name. */
  function WordInitials(t: string): string
  {
    var parts := Split(t);
    if |parts| == 1 then Upper(FirstChar(parts[0]))
    else Upper(FirstChar(parts[0]) + FirstChar(parts[|parts| - 1]))
  }

  /** A name with a space, starting and ending with something else, gives
      the first character and the one after the last space. */
  lemma PairInitials(t: string)
    requires ' ' in t && t[0] != ' ' && t[|t| - 1] != ' '
    ensures LastIndex(t, ' ') + 1 < |t|
    ensures WordInitials(t) == [UpperChar(t[0]), UpperChar(t[LastIndex(t, ' ') + 1])]
  {
    PieceHeads(t);
    EndInitials(Split(t));
  }

  /** Without a space at either end, the first piece starts with the first
      character and the last piece with the one after the last space. */
  lemma PieceHeads(t: string)
    requires ' ' in t && t[0] != ' ' && t[|t| - 1] != ' '
    ensures LastIndex(t, ' ') + 1 < |t|
    ensures |Split(t)| >= 2 && Split(t)[0] != [] && Split(t)[0][0] == t[0]
    ensures Split(t)[|Split(t)| - 1] != [] && Split(t)[|Split(t)| - 1][0] == t[LastIndex(t, ' ') + 1]
  {
    SplitFirst(t);
    SplitLast(t);
    assert 0 < FirstIndex(t, ' ');
  }

  /** The badge of two or more non-empty pieces: the first character of the
      first and of the last, upper-cased. */
  lemma EndInitials(parts: seq<string>)
    requires |parts| >= 2 && parts[0] != [] && parts[|parts| - 1] != []
    ensures Upper(FirstChar(parts[0]) + FirstChar(parts[|parts| - 1]))
      == [UpperChar(parts[0][0]), UpperChar(parts[|parts| - 1][0])]
  {
    assert FirstChar(parts[0]) + FirstChar(parts[|parts| - 1])
      == [parts[0][0], parts[|parts| - 1][0]];
  }

  /** Two names that trim to the same text have the same initials: padding
      around a name never shows in the badge. */
  lemma InitialsIgnorePadding(a: string, b: string)
    requires Trim(a) == Trim(b)
    ensures Initials(a) == Initials(b)
  {
  }

  class AvatarBadge {
    /** The `name` input. */
    var name: string
    var initials: string

    constructor ()
      ensures name == "" && initials == ""
    {
      name := "";
      initials := "";
    }

    /** `ngOnChanges(changes)`: `nameChange` is `changes['name']`'s new
        value, present only when the name input changed; only then are the
        initials recomputed. */
    method OnChanges(nameChange: Option<string>)
      modifies this
      ensures nameChange.Some? ==> name == nameChange.value && initials == Initials(name)
      ensures nameChange.None? ==> unchanged(this)
    {
      if nameChange.Some? {
        name := nameChange.value;
        initials := Initials(name);
      }
    }
  }
}
