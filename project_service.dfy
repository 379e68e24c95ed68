/** The project service: an in-memory cache of the project list, loaded
    once, and the favorite toggle that flips one project's flag and
    re-emits the list. */
module ProjectStore {
  import opened Wrappers
  import opened Models

  /** The list after `toggleFavorite(id)`: the first project carrying `id`
      (the one `find` returns) has its flag inverted; nothing else differs. */
  function Toggled(s: seq<Project>, id: int): (r: seq<Project>)
    ensures |r| == |s|
    ensures forall k :: 0 <= k < |s| ==> r[k].(isFavorite := s[k].isFavorite) == s[k]
    ensures forall k :: 0 <= k < |s| ==>
      (r[k].isFavorite != s[k].isFavorite <==> FindProject(s, id) == Some(k))
    ensures FindProject(s, id).None? ==> r == s
  {
    match FindProject(s, id)
    case None => s
    case Some(i) => s[i := s[i].(isFavorite := !s[i].isFavorite)]
  }

  /** Toggling the same id twice restores every flag. */
  lemma ToggleTwice(s: seq<Project>, id: int)
    ensures Toggled(Toggled(s, id), id) == s
  {
    var once := Toggled(s, id);
    assert forall k :: 0 <= k < |s| ==> once[k].id == s[k].id;
    assert FindProject(once, id) == FindProject(s, id) by {
      FindProjectSameIds(s, once, id);
    }
    var twice := Toggled(once, id);
    assert forall k :: 0 <= k < |s| ==> twice[k] == s[k];
  }

  /** `find` by id only looks at the ids. */
  lemma {:induction false} FindProjectSameIds(a: seq<Project>, b: seq<Project>, id: int)
    requires |a| == |b| && forall k :: 0 <= k < |a| ==> a[k].id == b[k].id
    ensures FindProject(a, id) == FindProject(b, id)
  {
    if a != [] {
      FindProjectSameIds(a[1..], b[1..], id);
    }
  }

  /** With unique ids, exactly the project carrying `id` changes flag. */
  lemma ToggleUniqueFlipsThatProject(s: seq<Project>, id: int, k: nat)
    requires UniqueIds(s) && k < |s|
    ensures Toggled(s, id)[k].isFavorite == (if s[k].id == id then !s[k].isFavorite else s[k].isFavorite)
  {
  }

  class ProjectService {
    /** Current value of the `projectsSubject` behaviour subject. */
    var projects: seq<Project>
    /** Whether the fixture has been loaded into the cache. */
    var isLoaded: bool

    constructor ()
      ensures projects == [] && !isLoaded
    {
      projects := [];
      isLoaded := false;
    }

    /** `getProjects()`: the first call stores the fetched fixture
        `fetched` (the HTTP response) and marks the cache loaded; every
        later call returns the cache and ignores `fetched`. */
    method GetProjects(fetched: seq<Project>) returns (r: seq<Project>)
      modifies this
      ensures isLoaded
      ensures old(isLoaded) ==> r == old(projects) && projects == old(projects)
      ensures !old(isLoaded) ==> r == fetched && projects == fetched
    {
      if isLoaded {
        r := projects;
      } else {
        projects := fetched;
        isLoaded := true;
        r := fetched;
      }
    }

    /** `toggleFavorite(id)`: flips the flag of the project with `id` and
        re-emits the list; an unknown id changes nothing and emits nothing. */
    method ToggleFavorite(id: int) returns (emitted: bool)
      modifies this
      ensures projects == Toggled(old(projects), id)
      ensures emitted <==> FindProject(old(projects), id).Some?
      ensures isLoaded == old(isLoaded)
    {
      var i := FindProject(projects, id);
      if i.Some? {
        var p := projects[i.value];
        projects := projects[i.value := p.(isFavorite := !p.isFavorite)];
        emitted := true;
      } else {
        emitted := false;
      }
    }
  }
}
