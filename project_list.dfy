/** The project list: every project, twelve per page, with the page count
    fixed when the list arrives. */
module ProjectList {
  import opened Models
  import opened Pagination

  const ItemsPerPage: nat := 12

  class ProjectListPage {
    var allProjects: seq<Project>
    var paginatedProjects: seq<Project>
    var currentPage: PageNo
    var totalPages: nat

    constructor ()
      ensures allProjects == [] && paginatedProjects == []
      ensures currentPage == 1 && totalPages == 0
    {
      allProjects, paginatedProjects := [], [];
      currentPage, totalPages := 1, 0;
    }

    /** The `getProjects()` subscription: store the list, count its pages
        (`ceil(n / 12)`) and show the current page's window. */
    method OnProjects(projects: seq<Project>)
      modifies this
      ensures allProjects == projects && currentPage == old(currentPage)
      ensures totalPages == TotalPages(|projects|, ItemsPerPage)
      ensures paginatedProjects == PageSlice(projects, currentPage, ItemsPerPage)
    {
      allProjects := projects;
      totalPages := TotalPages(|allProjects|, ItemsPerPage);
      UpdatePaginatedProjects();
    }

    /** `updatePaginatedProjects()`: at most twelve projects, those of the current page. */
    method UpdatePaginatedProjects()
      modifies this`paginatedProjects
      ensures paginatedProjects == PageSlice(allProjects, currentPage, ItemsPerPage)
      ensures |paginatedProjects| <= ItemsPerPage
    {
      paginatedProjects := PageSlice(allProjects, currentPage, ItemsPerPage);
    }

    /** Only pages `1..totalPages` are accepted. */
    method GoToPage(page: int)
      modifies this`currentPage, this`paginatedProjects
      ensures AcceptsPage(page, totalPages) ==>
        currentPage == page && paginatedProjects == PageSlice(allProjects, page, ItemsPerPage)
      ensures !AcceptsPage(page, totalPages) ==> unchanged(this)
    {
      if page >= 1 && page <= totalPages {
        currentPage := page;
        UpdatePaginatedProjects();
      }
    }

    /** `pages`: `1..totalPages`. */
    function Pages(): (r: seq<int>)
      reads this
      ensures |r| == totalPages
      ensures forall i :: 0 <= i < |r| ==> r[i] == i + 1
    {
      PageNumbers(totalPages)
    }
  }
}
