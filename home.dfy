/** The home page: every project, a hero strip of the first five, a search
    over titles and tags, twelve projects per page, and a favorite toggle. */
module Home {
  import opened Text
  import opened Seqs
  import opened Models
  import opened Pagination
  import ProjectStore

  const ItemsPerPage: nat := 12
  const HeroCount: nat := 5

  /** The home search: the lower-cased title, or any lower-cased tag,
      contains the lower-cased term. */
  predicate HomeMatches(p: Project, term: string)
  {
    Contains(Lower(p.title), Lower(term))
      || exists i :: 0 <= i < |p.tags| && Contains(Lower(p.tags[i]), Lower(term))
  }

  /** `allProjects.filter(...)` for a non-blank term: exactly the matching
      projects, in their original order. */
  function HomeSearch(s: seq<Project>, term: string): (r: seq<Project>)
    ensures forall p :: p in r <==> p in s && HomeMatches(p, term)
    ensures IsSubsequence(r, s)
  {
    Filter(s, (p: Project) => HomeMatches(p, term))
  }

  /** `data.slice(0, 5)`. */
  function Hero(data: seq<Project>): (r: seq<Project>)
    ensures |r| == if |data| < HeroCount then |data| else HeroCount
    ensures forall k :: 0 <= k < |r| ==> r[k] == data[k]
  {
    if |data| < HeroCount then data else data[..HeroCount]
  }

  class HomePage {
    var allProjects: seq<Project>
    var filteredProjects: seq<Project>
    var paginatedProjects: seq<Project>
    var heroImages: seq<Project>
    var currentPage: PageNo
    var totalPages: nat

    constructor ()
      ensures allProjects == [] && filteredProjects == [] && paginatedProjects == [] && heroImages == []
      ensures currentPage == 1 && totalPages == 1
    {
      allProjects, filteredProjects, paginatedProjects, heroImages := [], [], [], [];
      currentPage, totalPages := 1, 1;
    }

    /** The page count and the window shown follow the filtered list. The
        current page is not clamped, so it may lie past the last page
        (the window is then empty). */
    ghost predicate Paged()
      reads this
    {
      && totalPages == TotalPages(|filteredProjects|, ItemsPerPage)
      && paginatedProjects == PageSlice(filteredProjects, currentPage, ItemsPerPage)
    }

    /** The `getProjects()` subscription: show everything, hero the first five. */
    method OnProjects(data: seq<Project>)
      modifies this
      ensures allProjects == data && filteredProjects == data
      ensures heroImages == Hero(data)
      ensures currentPage == old(currentPage)
      ensures Paged()
    {
      allProjects := data;
      filteredProjects := data;
      heroImages := Hero(data);
      UpdatePagination();
    }

    /** `updatePagination()`: `totalPages = ceil(n / 12)` and the window of
        the current page, which is left as it is. */
    method UpdatePagination()
      modifies this`totalPages, this`paginatedProjects
      ensures totalPages == TotalPages(|filteredProjects|, ItemsPerPage)
      ensures paginatedProjects == PageSlice(filteredProjects, currentPage, ItemsPerPage)
      ensures Paged()
    {
      totalPages := TotalPages(|filteredProjects|, ItemsPerPage);
      paginatedProjects := PageSlice(filteredProjects, currentPage, ItemsPerPage);
    }

    /** Only pages `1..totalPages` are accepted. */
    method GoToPage(page: int)
      modifies this`currentPage, this`totalPages, this`paginatedProjects
      ensures AcceptsPage(page, old(totalPages)) ==> currentPage == page && Paged()
      ensures !AcceptsPage(page, old(totalPages)) ==> unchanged(this)
    {
      if page >= 1 && page <= totalPages {
        currentPage := page;
        UpdatePagination();
      }
    }

    /** `pageNumbers`: the buttons `1..totalPages`. */
    function PageButtons(): (r: seq<int>)
      reads this
      ensures |r| == totalPages
      ensures forall i :: 0 <= i < |r| ==> r[i] == i + 1
    {
      PageNumbers(totalPages)
    }

    /** `onSearch(term)`: back to page 1; a blank term shows every project,
        any other term the projects matching in title or tags. */
    method OnSearch(term: string)
      modifies this`currentPage, this`filteredProjects, this`totalPages, this`paginatedProjects
      ensures currentPage == 1
      ensures IsBlank(term) ==> filteredProjects == allProjects
      ensures !IsBlank(term) ==> filteredProjects == HomeSearch(allProjects, term)
      ensures Paged()
    {
      currentPage := 1;
      if IsBlank(term) {
        filteredProjects := allProjects;
      } else {
        filteredProjects := HomeSearch(allProjects, term);
      }
      UpdatePagination();
    }

    /** `onToggleFavorite(id)`: the service flips its copy; the page flips
        the first local project with that id. The local lists hold the same
        objects, so the flip shows in each of them; here every list is
        updated by id. */
    method OnToggleFavorite(id: int, service: ProjectStore.ProjectService)
      modifies this`allProjects, this`filteredProjects, this`paginatedProjects, this`heroImages, service
      ensures service.projects == ProjectStore.Toggled(old(service.projects), id)
      ensures allProjects == ProjectStore.Toggled(old(allProjects), id)
      ensures filteredProjects == ProjectStore.Toggled(old(filteredProjects), id)
      ensures paginatedProjects == ProjectStore.Toggled(old(paginatedProjects), id)
      ensures heroImages == ProjectStore.Toggled(old(heroImages), id)
      ensures service.isLoaded == old(service.isLoaded)
    {
      var _ := service.ToggleFavorite(id);
      allProjects := ProjectStore.Toggled(allProjects, id);
      filteredProjects := ProjectStore.Toggled(filteredProjects, id);
      paginatedProjects := ProjectStore.Toggled(paginatedProjects, id);
      heroImages := ProjectStore.Toggled(heroImages, id);
    }
  }
}
