/** The profile page: the current user's own projects, four per page, the
    user's description with a fallback text, and a pending deletion. */
module Profile {
  import opened Wrappers
  import opened Seqs
  import opened Models
  import opened Pagination
  import ProjectStore

  const ItemsPerPage: nat := 4
  const NoDescription := "Aucune description renseignée pour le moment."

  /** `projects.filter(p => p.authors.some(a => a.id === userId))`. */
  function AuthoredBy(projects: seq<Project>, userId: int): (r: seq<Project>)
    ensures forall p :: p in r <==> p in projects && HasAuthor(p, userId)
    ensures IsSubsequence(r, projects)
  {
    Filter(projects, (p: Project) => HasAuthor(p, userId))
  }

  /** `currentUser?.description || fallback`: an absent user, an absent
      description and the empty description all give the fallback. */
  function Description(user: Option<User>): (r: string)
    ensures r == NoDescription <==>
      user.None? || user.value.description.None? || user.value.description.value in {"", NoDescription}
    ensures r != NoDescription ==> user.Some? && user.value.description == Some(r)
  {
    if user.Some? && user.value.description.Some? && user.value.description.value != "" then
      user.value.description.value
    else
      NoDescription
  }

  class ProfilePage {
    var currentUser: Option<User>
    var userProjects: seq<Project>
    var paginatedProjects: seq<Project>
    var currentPage: PageNo
    var totalPages: nat
    var projectToDeleteId: Option<int>

    constructor ()
      ensures currentUser.None? && userProjects == [] && paginatedProjects == []
      ensures currentPage == 1 && totalPages == 1 && projectToDeleteId.None?
    {
      currentUser := None;
      userProjects, paginatedProjects := [], [];
      currentPage, totalPages := 1, 1;
      projectToDeleteId := None;
    }

    /** The page count is the ceiling, the current page is in range (or
        1), and the window shown is the current page's. */
    ghost predicate Paged()
      reads this
    {
      && totalPages == TotalPages(|userProjects|, ItemsPerPage)
      && (currentPage <= totalPages || currentPage == 1)
      && paginatedProjects == PageSlice(userProjects, currentPage, ItemsPerPage)
    }

    /** The `currentUser$` subscription; `projects` is the list the project
        service delivers to the nested `getProjects()` subscription. */
    method OnUser(user: Option<User>, projects: seq<Project>)
      modifies this
      ensures currentUser == user && projectToDeleteId == old(projectToDeleteId)
      ensures user.None? ==> userProjects == old(userProjects) && paginatedProjects == old(paginatedProjects)
      ensures user.None? ==> currentPage == old(currentPage) && totalPages == old(totalPages)
      ensures user.Some? ==> userProjects == AuthoredBy(projects, user.value.id) && Paged()
      ensures user.Some? ==> currentPage == ResetPage(old(currentPage), totalPages)
    {
      currentUser := user;
      if currentUser.Some? {
        LoadUserProjects(projects);
      }
    }

    /** `loadUserProjects()`: without a user nothing happens; otherwise the
        user's projects (by author id, in order) and their first valid page. */
    method LoadUserProjects(projects: seq<Project>)
      modifies this`userProjects, this`paginatedProjects, this`currentPage, this`totalPages
      ensures currentUser.None? ==> unchanged(this)
      ensures currentUser.Some? ==>
        && userProjects == AuthoredBy(projects, currentUser.value.id)
        && currentPage == ResetPage(old(currentPage), totalPages)
        && Paged()
    {
      if currentUser.None? {
        return;
      }
      userProjects := AuthoredBy(projects, currentUser.value.id);
      UpdatePagination();
    }

    /** `updatePagination()`, with the reset to page 1. */
    method UpdatePagination()
      modifies this`paginatedProjects, this`currentPage, this`totalPages
      ensures totalPages == TotalPages(|userProjects|, ItemsPerPage)
      ensures currentPage == ResetPage(old(currentPage), totalPages)
      ensures Paged()
    {
      totalPages := TotalPages(|userProjects|, ItemsPerPage);
      if currentPage > totalPages { currentPage := 1; }
      if totalPages == 0 { currentPage := 1; }
      paginatedProjects := PageSlice(userProjects, currentPage, ItemsPerPage);
    }

    /** Only pages `1..totalPages` are accepted. */
    method GoToPage(page: int)
      modifies this`paginatedProjects, this`currentPage, this`totalPages
      ensures !AcceptsPage(page, old(totalPages)) ==> unchanged(this)
      ensures AcceptsPage(page, old(totalPages)) ==> Paged()
      ensures AcceptsPage(page, old(totalPages)) && old(totalPages) == TotalPages(|userProjects|, ItemsPerPage) ==>
        currentPage == page
    {
      if page >= 1 && page <= totalPages {
        currentPage := page;
        UpdatePagination();
      }
    }

    /** `pageNumbers`: the buttons `1..totalPages`. */
    function PageButtons(): (r: seq<int>)
      reads this
      ensures |r| == totalPages
      ensures forall i :: 0 <= i < |r| ==> r[i] == i + 1
    {
      PageNumbers(totalPages)
    }

    /** `userDescription`. */
    function UserDescription(): (r: string)
      reads this
      ensures r == NoDescription <==>
        currentUser.None? || currentUser.value.description.None?
          || currentUser.value.description.value in {"", NoDescription}
      ensures r != NoDescription ==> currentUser.Some? && currentUser.value.description == Some(r)
    {
      Description(currentUser)
    }

    /** `onToggleFavorite(id)`: delegated to the service. */
    method OnToggleFavorite(projectId: int, service: ProjectStore.ProjectService)
      modifies service
      ensures service.projects == ProjectStore.Toggled(old(service.projects), projectId)
      ensures service.isLoaded == old(service.isLoaded)
    {
      var _ := service.ToggleFavorite(projectId);
    }

    method OnDeleteRequest(projectId: int)
      modifies this`projectToDeleteId
      ensures projectToDeleteId == Some(projectId)
    {
      projectToDeleteId := Some(projectId);
    }

    method CancelDelete()
      modifies this`projectToDeleteId
      ensures projectToDeleteId.None?
    {
      projectToDeleteId := None;
    }

    /** `confirmDelete()`: with an id pending, the deletion is requested
        (returned as `deleted`; the service's `deleteProject` is not part of
        this model), the list is reloaded from `remaining`, the list the
        service then delivers, and the pending id is cleared. With none
        (or id 0) nothing happens. */
    method ConfirmDelete(remaining: seq<Project>) returns (deleted: Option<int>)
      modifies this`projectToDeleteId, this`userProjects, this`paginatedProjects, this`currentPage, this`totalPages
      ensures !HasPending(old(projectToDeleteId)) ==> deleted.None? && unchanged(this)
      ensures HasPending(old(projectToDeleteId)) ==> deleted == old(projectToDeleteId) && projectToDeleteId.None?
      ensures HasPending(old(projectToDeleteId)) && currentUser.Some? ==>
        userProjects == AuthoredBy(remaining, currentUser.value.id) && Paged()
      ensures HasPending(old(projectToDeleteId)) && currentUser.Some? ==>
        currentPage == ResetPage(old(currentPage), totalPages)
      ensures HasPending(old(projectToDeleteId)) && currentUser.None? ==>
        userProjects == old(userProjects) && paginatedProjects == old(paginatedProjects)
      ensures HasPending(old(projectToDeleteId)) && currentUser.None? ==>
        currentPage == old(currentPage) && totalPages == old(totalPages)
    {
      deleted := None;
      if HasPending(projectToDeleteId) {
        deleted := projectToDeleteId;
        LoadUserProjects(remaining);
        projectToDeleteId := None;
      }
    }
  }
}
