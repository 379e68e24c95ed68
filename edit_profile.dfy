/** The profile editor: the form's name and description fields, the
    reorderable link rows with their type picker, and the submit that sends
    the merged profile to the session service. The form controls are
    modelled by their values. */
module EditProfile {
  import opened Wrappers
  import opened Seqs
  import opened Models
  import Session

  /** An entry of `linkTypes`. */
  datatype LinkType = LinkType(value: string, display: string, icon: string)

  /** The supported networks, in the order the picker lists them. */
  const LinkTypes: seq<LinkType> := [
    LinkType("linkedin", "LinkedIn", "assets/icons/linkedin.svg"),
    LinkType("github", "GitHub", "assets/icons/github.svg"),
    LinkType("instagram", "Instagram", "assets/icons/instagram.svg"),
    LinkType("website", "Site Web", "assets/icons/globe.svg"),
    LinkType("portfolio", "Portfolio", "assets/icons/briefcase.svg")
  ]

  /** The row `addLink(data)` creates: `{ type: data?.type || '', url: data?.url || '' }`.
      Both properties of a given link are strings, for which `|| ''` changes
      nothing, so the row is the link itself; no argument gives an empty row. */
  function Row(data: Option<UserLink>): (r: UserLink)
    ensures data.Some? ==> r == data.value
    ensures data.None? ==> r.linkType == "" && r.url == ""
  {
    match data
    case Some(link) => UserLink(link.linkType, link.url)
    case None => UserLink("", "")
  }

  /** The picker filter for row `i`: a type is offered unless another row
      already uses it. */
  predicate Offered(t: LinkType, links: seq<UserLink>, i: nat)
    requires i < |links|
  {
    (forall k :: 0 <= k < |links| ==> links[k].linkType != t.value) || t.value == links[i].linkType
  }

  /** The profile `onSubmit` sends: the current user with the form's names,
      description and links. */
  function UpdatedUser(user: User, firstName: string, lastName: string, description: string, links: seq<UserLink>): (r: User)
    ensures r.firstName == firstName && r.lastName == lastName
    ensures r.description == Some(description) && r.links == Some(links)
    ensures r.(firstName := user.firstName, lastName := user.lastName,
               description := user.description, links := user.links) == user
  {
    user.(firstName := firstName, lastName := lastName, description := Some(description), links := Some(links))
  }

  /** Saving an edited profile stores exactly the form's names, description
      and links, keeps the stored email and password, and keeps the rest of
      the session's view of the user (id, promo, avatar). */
  lemma SavedProfile(stored: User, session: User, firstName: string, lastName: string,
                     description: string, links: seq<UserLink>)
    ensures var saved := Session.Merge(stored, UpdatedUser(session, firstName, lastName, description, links));
      && saved.email == stored.email && saved.password == stored.password
      && saved.firstName == firstName && saved.lastName == lastName
      && saved.description == Some(description) && saved.links == Some(links)
      && saved.id == session.id
      && saved.promo == (if session.promo.Some? then session.promo else stored.promo)
      && saved.avatarUrl == (if session.avatarUrl.Some? then session.avatarUrl else stored.avatarUrl)
  {
  }

  class EditProfilePage {
    var currentUser: Option<User>
    var firstName: string
    var lastName: string
    var description: string
    /** The values of the `links` form array, one per row. */
    var links: seq<UserLink>

    constructor ()
      ensures currentUser.None? && firstName == "" && lastName == "" && description == "" && links == []
    {
      currentUser := None;
      firstName, lastName, description := "", "", "";
      links := [];
    }

    /** The `currentUser$` subscription: store the user; when there is one,
        fill the names, the description (`|| ''`) and, after clearing,
        exactly the user's links, in order, one `addLink` per link. */
    method OnUser(user: Option<User>)
      modifies this
      ensures currentUser == user
      ensures user.None? ==> firstName == old(firstName) && lastName == old(lastName)
      ensures user.None? ==> description == old(description) && links == old(links)
      ensures user.Some? ==> firstName == user.value.firstName && lastName == user.value.lastName
      ensures user.Some? ==> description == user.value.description.GetOr("")
      ensures user.Some? ==> links == user.value.links.GetOr([])
    {
      currentUser := user;
      if user.Some? {
        var u := user.value;
        firstName := u.firstName;
        lastName := u.lastName;
        description := u.description.GetOr("");
        links := [];
        if u.links.Some? {
          var source := u.links.value;
          var i := 0;
          while i < |source|
            invariant 0 <= i <= |source|
            invariant links == source[..i]
            invariant currentUser == user && firstName == u.firstName && lastName == u.lastName
            invariant description == u.description.GetOr("")
          {
            AddLink(Some(source[i]));
            assert source[..i + 1] == source[..i] + [source[i]];
            i := i + 1;
          }
          assert source[..i] == source;
        }
      }
    }

    /** `addLink(data)`: one more row at the end. */
    method AddLink(data: Option<UserLink>)
      modifies this`links
      ensures links == old(links) + [Row(data)]
    {
      links := links + [Row(data)];
    }

    /** `removeLink(i)`: that row goes; an index past the end changes nothing. */
    method RemoveLink(index: nat)
      modifies this`links
      ensures links == RemoveAt(old(links), index)
    {
      links := RemoveAt(links, index);
    }

    /** `drop(event)`: CDK's `moveItemInArray`, which clamps both indices
        to the list and does nothing on an empty list. */
    method Drop(previousIndex: nat, currentIndex: nat)
      modifies this`links
      ensures old(links) == [] ==> links == []
      ensures old(links) != [] ==> links == Move(old(links), Clamp(previousIndex, |old(links)|), currentIndex)
      ensures multiset(links) == multiset(old(links))
    {
      if |links| > 0 {
        links := Move(links, Clamp(previousIndex, |links|), currentIndex);
      }
    }

    /** `getAvailableTypes(i)`: the types no other row uses, plus row `i`'s
        own, in picker order. The row must exist (the lookup of its type
        would fail otherwise). */
    function AvailableTypes(currentIndex: nat): (r: seq<LinkType>)
      requires currentIndex < |links|
      reads this
      ensures forall t :: t in r <==> t in LinkTypes && Offered(t, links, currentIndex)
      ensures IsSubsequence(r, LinkTypes)
      ensures forall t :: t in LinkTypes && t.value == links[currentIndex].linkType ==> t in r
    {
      var rows := links;
      Filter(LinkTypes, (t: LinkType) => Offered(t, rows, currentIndex))
    }

    /** `onSubmit()` with the form's validity as `valid`: an invalid form or
        a missing user sends nothing; otherwise the updated profile is sent
        to `updateUser`, and `sent` is that profile. A known id has its
        stored entry replaced by the merge, which becomes the session. */
    method OnSubmit(valid: bool, auth: Session.AuthService) returns (sent: Option<User>)
      modifies auth
      ensures sent.Some? <==> valid && currentUser.Some?
      ensures sent.None? ==> unchanged(auth)
      ensures sent.Some? ==> sent.value == UpdatedUser(currentUser.value, firstName, lastName, description, links)
      ensures sent.Some? && Session.FindUser(old(auth.Users()), sent.value.id).None? ==> unchanged(auth)
      ensures sent.Some? && Session.FindUser(old(auth.Users()), sent.value.id).Some? ==>
        var i := Session.FindUser(old(auth.Users()), sent.value.id).value;
        && auth.storedUsers == Some(old(auth.Users())[i := Session.Merge(old(auth.Users())[i], sent.value)])
        && auth.currentUser == Some(Session.Redact(Session.Merge(old(auth.Users())[i], sent.value)))
        && auth.SessionSafe()
    {
      if !valid {
        return None;
      }
      if currentUser.None? {
        return None;
      }
      var updated := UpdatedUser(currentUser.value, firstName, lastName, description, links);
      auth.UpdateUser(updated);
      sent := Some(updated);
    }
  }

  /** `clamp(value, length - 1)` of `moveItemInArray`, for a non-empty list. */
  function Clamp(i: nat, length: nat): (r: nat)
    requires length > 0
    ensures r < length
    ensures i < length ==> r == i
  {
    if i < length then i else length - 1
  }
}
