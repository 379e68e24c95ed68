/** The records the components exchange, with the fields the code actually
    reads and writes (several are missing from the declared interfaces). */
module Models {
  import opened Wrappers

  /** An author reference stored inside a project: the user id plus a
      snapshot of the display name and avatar. */
  datatype Author = Author(id: int, name: string, avatarUrl: Option<string>)

  /** A social link on a profile: `{ type, url }`. */
  datatype UserLink = UserLink(linkType: string, url: string)

  /** A registered user. Absent optional properties are `None`. */
  datatype User = User(
    id: int,
    email: string,
    password: Option<string>,
    firstName: string,
    lastName: string,
    promo: Option<string>,
    avatarUrl: Option<string>,
    description: Option<string>,
    links: Option<seq<UserLink>>)

  /** A link on a project: `{ title, url }`. */
  datatype ProjectLink = ProjectLink(title: string, url: string)

  /** A project. `modules` may be absent in stored data; `isFavorite` is the
      flag the views toggle. */
  datatype Project = Project(
    id: int,
    title: string,
    description: string,
    imageUrl: string,
    additionalImages: seq<string>,
    authors: seq<Author>,
    isFavorite: bool,
    tags: seq<string>,
    modules: Option<seq<string>>,
    promo: string,
    origin: string,
    skillsLearned: string,
    links: seq<ProjectLink>)

  /** `projects.findIndex(p => p.id === id)`, as an optional index. */
  function FindProject(s: seq<Project>, id: int): (r: Option<nat>)
    ensures r.None? <==> forall k :: 0 <= k < |s| ==> s[k].id != id
    ensures r.Some? ==> r.value < |s| && s[r.value].id == id
    ensures r.Some? ==> forall k :: 0 <= k < r.value ==> s[k].id != id
  {
    if s == [] then None
    else if s[0].id == id then Some(0)
    else
      match FindProject(s[1..], id)
      case None => None
      case Some(k) => Some(k + 1)
  }

  /** The truthiness test `if (this.pendingId)` on a `number | null` field:
      a pending id of 0 is falsy and counts as none. */
  predicate HasPending(id: Option<int>)
  {
    id.Some? && id.value != 0
  }

  /** No two projects in the list share an id. */
  predicate UniqueIds(s: seq<Project>)
  {
    forall i, j :: 0 <= i < j < |s| ==> s[i].id != s[j].id
  }

  /** `authors.some(a => a.id === userId)`. */
  predicate HasAuthor(p: Project, userId: int)
  {
    exists k :: 0 <= k < |p.authors| && p.authors[k].id == userId
  }

  /** The same facts as `UniqueIds`, stated on the multiset of the list, so
      that they carry over to any reordering or sub-collection. */
  ghost predicate UniqueIdsIn(m: multiset<Project>)
  {
    && (forall x :: x in m ==> m[x] == 1)
    && (forall x, y :: x in m && y in m && x != y ==> x.id != y.id)
  }

  lemma {:induction false} UniqueIdsToMultiset(s: seq<Project>)
    requires UniqueIds(s)
    ensures UniqueIdsIn(multiset(s))
  {
    if s != [] {
      var t := s[1..];
      assert s == [s[0]] + t;
      assert UniqueIds(t) by {
        forall i, j | 0 <= i < j < |t| ensures t[i].id != t[j].id {
          assert t[i] == s[i + 1] && t[j] == s[j + 1];
        }
      }
      UniqueIdsToMultiset(t);
      assert s[0] !in t by {
        forall k | 0 <= k < |t| ensures t[k] != s[0] {
          assert t[k] == s[k + 1];
        }
      }
      forall x, y | x in multiset(s) && y in multiset(s) && x != y ensures x.id != y.id {
        var i :| 0 <= i < |s| && s[i] == x;
        var j :| 0 <= j < |s| && s[j] == y;
        assert i != j;
      }
    }
  }

  lemma MultisetToUniqueIds(s: seq<Project>)
    requires UniqueIdsIn(multiset(s))
    ensures UniqueIds(s)
  {
    forall i, j | 0 <= i < j < |s| ensures s[i].id != s[j].id {
      assert s == s[..j] + [s[j]] + s[j + 1..];
      assert s[i] in s[..j];
    }
  }

  /** Reordering or shrinking a list keeps its ids unique. */
  lemma UniqueIdsSubMultiset(r: seq<Project>, s: seq<Project>)
    requires UniqueIds(s) && multiset(r) <= multiset(s)
    ensures UniqueIds(r)
  {
    UniqueIdsToMultiset(s);
    MultisetToUniqueIds(r);
  }
}
