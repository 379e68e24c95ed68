/** The project detail page: the project named by the route, whether the
    current user may edit it, the favorite toggle, and the action menu
    with its delete confirmation. */
module ProjectDetail {
  import opened Wrappers
  import opened Models
  import Profile
  import ProjectStore

  /** What `Number(paramMap.get('id'))` yields: not a number, an integer
      (a missing parameter and the empty string give 0), or some other
      number such as a fraction or an infinity. */
  datatype RouteNumber = NotANumber | Whole(value: int) | NonInteger

  /** `if (id)`: NaN and 0 are falsy. */
  predicate Truthy(n: RouteNumber)
  {
    (n.Whole? && n.value != 0) || n.NonInteger?
  }

  /** `projects.find(p => p.id === id) || null`: a project id is an
      integer, so only a whole number can match; the first match is taken. */
  function Lookup(projects: seq<Project>, id: RouteNumber): (r: Option<Project>)
    ensures r.Some? <==> id.Whole? && exists k :: 0 <= k < |projects| && projects[k].id == id.value
    ensures r.Some? ==> r.value in projects && r.value.id == id.value
    ensures r.Some? ==> r.value == projects[FindProject(projects, id.value).value]
  {
    if id.Whole? then
      match FindProject(projects, id.value)
      case None => None
      case Some(k) => Some(projects[k])
    else
      None
  }

  /** `isEditable`: no project or no user means no; otherwise the user must
      be one of the project's authors. */
  predicate Editable(project: Option<Project>, user: Option<User>)
  {
    project.Some? && user.Some? && HasAuthor(project.value, user.value.id)
  }

  /** A project of the list is editable by a user exactly when it is one
      of the projects that user's profile page lists. */
  lemma EditableIffOnProfile(projects: seq<Project>, p: Project, user: User)
    requires p in projects
    ensures Editable(Some(p), Some(user)) <==> p in Profile.AuthoredBy(projects, user.id)
  {
  }

  class DetailPage {
    var project: Option<Project>
    /** The user read from the session service when the page is built. */
    var currentUser: Option<User>
    var isMenuOpen: bool
    var isDeleteModalOpen: bool

    constructor (user: Option<User>)
      ensures project.None? && currentUser == user
      ensures !isMenuOpen && !isDeleteModalOpen
    {
      project := None;
      currentUser := user;
      isMenuOpen, isDeleteModalOpen := false, false;
    }

    /** `ngOnInit()`, with the route parameter already converted to `id`
        and `projects` the list the project service delivers. A falsy id
        leaves the page as it is; otherwise the project becomes the first
        one with that id, or none. */
    method OnInit(id: RouteNumber, projects: seq<Project>)
      modifies this`project
      ensures !Truthy(id) ==> project == old(project)
      ensures Truthy(id) ==> project == Lookup(projects, id)
    {
      if Truthy(id) {
        project := Lookup(projects, id);
      }
    }

    /** `isEditable`. */
    function IsEditable(): (r: bool)
      reads this
      ensures r <==>
        && project.Some? && currentUser.Some?
        && exists k :: 0 <= k < |project.value.authors| && project.value.authors[k].id == currentUser.value.id
    {
      Editable(project, currentUser)
    }

    /** `toggleFavorite()`: with a project, the service flips the flag of
        that id. The page holds the very object the service's list holds, so
        when the service finds the id the page's copy flips with it. */
    method ToggleFavorite(service: ProjectStore.ProjectService)
      modifies this`project, service
      ensures old(project).None? ==> project.None? && unchanged(service)
      ensures old(project).Some? ==>
        service.projects == ProjectStore.Toggled(old(service.projects), old(project).value.id)
      ensures old(project).Some? ==> service.isLoaded == old(service.isLoaded)
      ensures old(project).Some? && FindProject(old(service.projects), old(project).value.id).Some? ==>
        project == Some(old(project).value.(isFavorite := !old(project).value.isFavorite))
      ensures old(project).Some? && FindProject(old(service.projects), old(project).value.id).None? ==>
        project == old(project)
    {
      if project.Some? {
        var p := project.value;
        var emitted := service.ToggleFavorite(p.id);
        if emitted {
          project := Some(p.(isFavorite := !p.isFavorite));
        }
      }
    }

    /** `toggleMenu()`. */
    method ToggleMenu()
      modifies this`isMenuOpen
      ensures isMenuOpen == !old(isMenuOpen)
    {
      isMenuOpen := !isMenuOpen;
    }

    /** `onEdit()`: the menu closes. */
    method OnEdit()
      modifies this`isMenuOpen
      ensures !isMenuOpen
    {
      isMenuOpen := false;
    }

    /** `onDeleteRequest()`: the menu closes and the confirmation opens. */
    method OnDeleteRequest()
      modifies this`isMenuOpen, this`isDeleteModalOpen
      ensures !isMenuOpen && isDeleteModalOpen
    {
      isMenuOpen := false;
      isDeleteModalOpen := true;
    }

    /** `confirmDelete()`: without a project nothing happens; otherwise the
        deletion of its id is requested (returned as `deleted`; the
        service's `deleteProject` is not part of this model), the
        confirmation closes and the page navigates to the profile. */
    method ConfirmDelete() returns (deleted: Option<int>)
      modifies this`isDeleteModalOpen
      ensures project.None? ==> deleted.None? && isDeleteModalOpen == old(isDeleteModalOpen)
      ensures project.Some? ==> deleted == Some(project.value.id) && !isDeleteModalOpen
    {
      deleted := None;
      if project.Some? {
        deleted := Some(project.value.id);
        isDeleteModalOpen := false;
      }
    }

    /** `cancelDelete()`: the confirmation closes; nothing else changes. */
    method CancelDelete()
      modifies this`isDeleteModalOpen
      ensures !isDeleteModalOpen
    {
      isDeleteModalOpen := false;
    }
  }
}
