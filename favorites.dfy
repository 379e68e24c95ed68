/** The favorites page: the user's favorite projects, narrowed by a title
    search and three facet filters, sorted by one of four keys, and shown
    twelve per page; plus a pending "remove from favorites" confirmation. */
module Favorites {
  import opened Wrappers
  import opened Text
  import opened Seqs
  import opened Models
  import opened Pagination
  import ProjectStore

  /** `sectionsActive` of the filter panel: whether each facet section is switched on. */
  datatype SectionsActive = SectionsActive(tags: bool, modules: bool, promos: bool)

  /** `ProjectFilters`: the selected values of each facet. */
  datatype ProjectFilters = ProjectFilters(
    tags: seq<string>,
    modules: seq<string>,
    promos: seq<string>,
    sectionsActive: SectionsActive)

  const ItemsPerPage: nat := 12

  /** The filters the page starts with: nothing selected, every section on. */
  const DefaultFilters := ProjectFilters([], [], [], SectionsActive(true, true, true))

  // ---------------------------------------------------------------------
  // the stages of applyGlobalFilters
  // ---------------------------------------------------------------------

  predicate IsFavoriteProject(p: Project)
  {
    p.isFavorite
  }

  /** The page keeps only the favorites of the list it receives. */
  function FavoritesOf(data: seq<Project>): (r: seq<Project>)
    ensures forall p :: p in r <==> p in data && p.isFavorite
  {
    Filter(data, IsFavoriteProject)
  }

  /** `p.title.toLowerCase().includes(term.toLowerCase())`; the term itself is not trimmed. */
  predicate TitleMatches(p: Project, term: string)
  {
    Contains(Lower(p.title), Lower(term))
  }

  /** `values.some(v => selected.includes(v))`. */
  predicate SharesAny(values: seq<string>, selected: seq<string>)
  {
    exists i :: 0 <= i < |values| && values[i] in selected
  }

  predicate TagFacetOn(f: ProjectFilters)
  {
    f.sectionsActive.tags && |f.tags| > 0
  }

  predicate ModuleFacetOn(f: ProjectFilters)
  {
    f.sectionsActive.modules && |f.modules| > 0
  }

  predicate PromoFacetOn(f: ProjectFilters)
  {
    f.sectionsActive.promos && |f.promos| > 0
  }

  function TitleFilter(s: seq<Project>, term: string): (r: seq<Project>)
    ensures forall p :: p in r <==> p in s && TitleMatches(p, term)
    ensures IsSubsequence(r, s)
  {
    Filter(s, (p: Project) => TitleMatches(p, term))
  }

  /** The search is skipped when the term is blank (`term.trim()` is falsy). */
  function SearchStage(s: seq<Project>, term: string): (r: seq<Project>)
    ensures IsBlank(term) ==> r == s
    ensures !IsBlank(term) ==> forall p :: p in r <==> p in s && TitleMatches(p, term)
  {
    if IsBlank(term) then s else TitleFilter(s, term)
  }

  function TagStage(s: seq<Project>, f: ProjectFilters): (r: seq<Project>)
    ensures !TagFacetOn(f) ==> r == s
    ensures TagFacetOn(f) ==> forall p :: p in r <==> p in s && SharesAny(p.tags, f.tags)
  {
    if TagFacetOn(f) then Filter(s, (p: Project) => SharesAny(p.tags, f.tags)) else s
  }

  /** Missing modules count as no modules (`p.modules || []`). */
  function ModuleStage(s: seq<Project>, f: ProjectFilters): (r: seq<Project>)
    ensures !ModuleFacetOn(f) ==> r == s
    ensures ModuleFacetOn(f) ==> forall p :: p in r <==> p in s && SharesAny(p.modules.GetOr([]), f.modules)
  {
    if ModuleFacetOn(f) then Filter(s, (p: Project) => SharesAny(p.modules.GetOr([]), f.modules)) else s
  }

  function PromoStage(s: seq<Project>, f: ProjectFilters): (r: seq<Project>)
    ensures !PromoFacetOn(f) ==> r == s
    ensures PromoFacetOn(f) ==> forall p :: p in r <==> p in s && p.promo in f.promos
  {
    if PromoFacetOn(f) then Filter(s, (p: Project) => p.promo in f.promos) else s
  }

  /** The reference definition of which favorites survive the search and the
      facet filters: a blank term keeps everything, and an inactive or
      empty facet imposes nothing. */
  predicate Survives(p: Project, term: string, f: ProjectFilters)
  {
    && (IsBlank(term) || TitleMatches(p, term))
    && (TagFacetOn(f) ==> SharesAny(p.tags, f.tags))
    && (ModuleFacetOn(f) ==> SharesAny(p.modules.GetOr([]), f.modules))
    && (PromoFacetOn(f) ==> p.promo in f.promos)
  }

  // ---------------------------------------------------------------------
  // sorting
  // ---------------------------------------------------------------------

  /** The order the `switch (currentSortType)` selects, as "a may precede b".
      Only 'oldest', 'az' and 'za' have their own branch; 'recent' and every
      other key (including the 'alpha'/'alpha-reverse' keys the search bar
      declares) sort by decreasing id. */
  predicate Before(key: string, a: Project, b: Project)
  {
    if key == "recent" then a.id >= b.id
    else if key == "oldest" then a.id <= b.id
    else if key == "az" then LexLe(a.title, b.title)
    else if key == "za" then LexLe(b.title, a.title)
    else a.id >= b.id
  }

  lemma BeforeTotal(key: string, a: Project, b: Project)
    ensures Before(key, a, b) || Before(key, b, a)
  {
    LexLeTotal(a.title, b.title);
  }

  lemma BeforeTransitive(key: string, a: Project, b: Project, c: Project)
    requires Before(key, a, b) && Before(key, b, c)
    ensures Before(key, a, c)
  {
    if key == "az" {
      LexLeTransitive(a.title, b.title, c.title);
    } else if key == "za" {
      LexLeTransitive(c.title, b.title, a.title);
    }
  }

  ghost predicate Sorted(key: string, s: seq<Project>)
  {
    forall i, j :: 0 <= i < j < |s| ==> Before(key, s[i], s[j])
  }

  /** Places `x` before the first element it may precede. */
  function Insert(key: string, x: Project, s: seq<Project>): (r: seq<Project>)
    requires Sorted(key, s)
    ensures Sorted(key, r)
    ensures multiset(r) == multiset(s) + multiset{x}
  {
    if s == [] then [x]
    else if Before(key, x, s[0]) then
      HeadPrecedesAll(key, x, s);
      PrependSorted(key, x, s);
      [x] + s
    else
      var t := s[1..];
      assert s == [s[0]] + t;
      var tail := Insert(key, x, t);
      HeadPrecedesInserted(key, x, s, tail);
      PrependSorted(key, s[0], tail);
      [s[0]] + tail
  }

  /** What may precede the head of a sorted list may precede all of it. */
  lemma HeadPrecedesAll(key: string, x: Project, s: seq<Project>)
    requires Sorted(key, s) && s != [] && Before(key, x, s[0])
    ensures forall y :: y in multiset(s) ==> Before(key, x, y)
  {
    forall y | y in multiset(s) ensures Before(key, x, y) {
      var k :| 0 <= k < |s| && s[k] == y;
      if k > 0 { BeforeTransitive(key, x, s[0], s[k]); }
    }
  }

  /** The head of a sorted list may precede the rest of it with an
      element added that it does not follow. */
  lemma HeadPrecedesInserted(key: string, x: Project, s: seq<Project>, tail: seq<Project>)
    requires Sorted(key, s) && s != [] && !Before(key, x, s[0])
    requires multiset(tail) == multiset(s[1..]) + multiset{x}
    ensures forall y :: y in multiset(tail) ==> Before(key, s[0], y)
  {
    var t := s[1..];
    forall y | y in multiset(tail) ensures Before(key, s[0], y) {
      if y == x {
        BeforeTotal(key, x, s[0]);
      } else {
        assert y in multiset(t);
        var k :| 0 <= k < |t| && t[k] == y;
        assert s[k + 1] == y;
      }
    }
  }

  /** An element that may precede everything in a sorted list can head it. */
  lemma PrependSorted(key: string, a: Project, t: seq<Project>)
    requires Sorted(key, t)
    requires forall y :: y in multiset(t) ==> Before(key, a, y)
    ensures Sorted(key, [a] + t)
  {
    var r := [a] + t;
    forall i, j | 0 <= i < j < |r| ensures Before(key, r[i], r[j]) {
      assert r[j] == t[j - 1];
      assert t[j - 1] in multiset(t);
      if i > 0 { assert r[i] == t[i - 1]; }
    }
  }

  /** `result.sort(comparator)` for the selected key: a permutation of the
      input in which every element may precede every later one. */
  function SortBy(key: string, s: seq<Project>): (r: seq<Project>)
    ensures Sorted(key, r)
    ensures multiset(r) == multiset(s)
  {
    if s == [] then []
    else
      assert s == [s[0]] + s[1..];
      Insert(key, s[0], SortBy(key, s[1..]))
  }

  // ---------------------------------------------------------------------
  // the whole pipeline
  // ---------------------------------------------------------------------

  /** `filteredFavorites` as `applyGlobalFilters` computes it: search, the
      three facets, then the sort. */
  function Pipeline(all: seq<Project>, term: string, f: ProjectFilters, key: string): seq<Project>
  {
    SortBy(key, PromoStage(ModuleStage(TagStage(SearchStage(all, term), f), f), f))
  }

  /** Every stage only removes elements, so the result is a reordering of a
      sub-collection of `all`; it holds exactly the favorites that survive
      the search and the facets; and it is in the selected order. */
  lemma PipelineSpec(all: seq<Project>, term: string, f: ProjectFilters, key: string)
    ensures multiset(Pipeline(all, term, f, key)) <= multiset(all)
    ensures forall p :: p in Pipeline(all, term, f, key) <==> p in all && Survives(p, term, f)
    ensures Sorted(key, Pipeline(all, term, f, key))
  {
    var s1 := SearchStage(all, term);
    var s2 := TagStage(s1, f);
    var s3 := ModuleStage(s2, f);
    var s4 := PromoStage(s3, f);
    if !IsBlank(term) { SubsequenceCounts(s1, all); }
    if TagFacetOn(f) { SubsequenceCounts(s2, s1); }
    if ModuleFacetOn(f) { SubsequenceCounts(s3, s2); }
    if PromoFacetOn(f) { SubsequenceCounts(s4, s3); }
    var r := Pipeline(all, term, f, key);
    forall p ensures p in r <==> p in s4 {
      assert p in r <==> p in multiset(r);
      assert p in s4 <==> p in multiset(s4);
    }
  }

  /** With a blank term and no facet in force, nothing is removed: the
      result is a reordering of all favorites. */
  lemma NoCriteriaKeepsAll(all: seq<Project>, term: string, f: ProjectFilters, key: string)
    requires IsBlank(term) && !TagFacetOn(f) && !ModuleFacetOn(f) && !PromoFacetOn(f)
    ensures multiset(Pipeline(all, term, f, key)) == multiset(all)
  {
  }

  /** With unique ids, 'oldest' gives strictly increasing ids, and 'recent'
      and every key without a branch of its own give strictly decreasing
      ids; 'az' orders titles ascending and 'za' descending. */
  lemma PipelineOrder(all: seq<Project>, term: string, f: ProjectFilters, key: string)
    requires UniqueIds(all)
    ensures var r := Pipeline(all, term, f, key);
      key == "oldest" ==> forall i, j :: 0 <= i < j < |r| ==> r[i].id < r[j].id
    ensures var r := Pipeline(all, term, f, key);
      key != "oldest" && key != "az" && key != "za" ==>
        forall i, j :: 0 <= i < j < |r| ==> r[i].id > r[j].id
    ensures var r := Pipeline(all, term, f, key);
      key == "az" ==> forall i, j :: 0 <= i < j < |r| ==> LexLe(r[i].title, r[j].title)
    ensures var r := Pipeline(all, term, f, key);
      key == "za" ==> forall i, j :: 0 <= i < j < |r| ==> LexLe(r[j].title, r[i].title)
  {
    var r := Pipeline(all, term, f, key);
    PipelineSpec(all, term, f, key);
    UniqueIdsSubMultiset(r, all);
  }

  /** `allFavorites.filter(p => p.id !== id)`. */
  function WithoutId(s: seq<Project>, id: int): (r: seq<Project>)
    ensures forall p :: p in r <==> p in s && p.id != id
    ensures IsSubsequence(r, s)
  {
    Filter(s, (p: Project) => p.id != id)
  }

  // ---------------------------------------------------------------------
  // the component
  // ---------------------------------------------------------------------

  class FavoritesPage {
    var allFavorites: seq<Project>
    var filteredFavorites: seq<Project>
    var paginatedFavorites: seq<Project>
    var currentPage: PageNo
    var totalPages: nat
    var currentSearchTerm: string
    var currentSortType: string
    var currentFilters: ProjectFilters
    var itemToDeleteId: Option<int>

    /** The page shows what its state describes: the filtered list is the
        pipeline's result, the page count is its ceiling, the current page is
        in range (or 1), and the page shown is that window. */
    ghost predicate Valid()
      reads this
    {
      && filteredFavorites == Pipeline(allFavorites, currentSearchTerm, currentFilters, currentSortType)
      && totalPages == TotalPages(|filteredFavorites|, ItemsPerPage)
      && (currentPage <= totalPages || currentPage == 1)
      && paginatedFavorites == PageSlice(filteredFavorites, currentPage, ItemsPerPage)
    }

    constructor ()
      ensures allFavorites == [] && filteredFavorites == [] && paginatedFavorites == []
      ensures currentPage == 1 && totalPages == 1
      ensures currentSearchTerm == [] && currentSortType == "recent"
      ensures currentFilters == DefaultFilters && itemToDeleteId == None
    {
      allFavorites, filteredFavorites, paginatedFavorites := [], [], [];
      currentPage, totalPages := 1, 1;
      currentSearchTerm, currentSortType := [], "recent";
      currentFilters := DefaultFilters;
      itemToDeleteId := None;
    }

    /** The `getProjects()` subscription: keep the favorites, then re-run the pipeline. */
    method OnProjects(data: seq<Project>)
      modifies this`allFavorites, this`filteredFavorites, this`paginatedFavorites, this`currentPage, this`totalPages
      ensures allFavorites == FavoritesOf(data)
      ensures currentPage == ResetPage(old(currentPage), totalPages)
      ensures Valid()
    {
      allFavorites := FavoritesOf(data);
      ApplyGlobalFilters();
    }

    method OnSearch(term: string)
      modifies this`currentSearchTerm, this`filteredFavorites, this`paginatedFavorites, this`currentPage, this`totalPages
      ensures currentSearchTerm == term && currentPage == 1
      ensures Valid()
    {
      currentSearchTerm := term;
      currentPage := 1;
      ApplyGlobalFilters();
    }

    /** Changing the sort keeps the current page (unless it falls out of range). */
    method OnSort(sortType: string)
      modifies this`currentSortType, this`filteredFavorites, this`paginatedFavorites, this`currentPage, this`totalPages
      ensures currentSortType == sortType
      ensures currentPage == ResetPage(old(currentPage), totalPages)
      ensures Valid()
    {
      currentSortType := sortType;
      ApplyGlobalFilters();
    }

    method OnFilter(filters: ProjectFilters)
      modifies this`currentFilters, this`filteredFavorites, this`paginatedFavorites, this`currentPage, this`totalPages
      ensures currentFilters == filters && currentPage == 1
      ensures Valid()
    {
      currentFilters := filters;
      currentPage := 1;
      ApplyGlobalFilters();
    }

    /** Search, facet filters and sort, written stage by stage into `filteredFavorites`. */
    method ApplyGlobalFilters()
      modifies this`filteredFavorites, this`paginatedFavorites, this`currentPage, this`totalPages
      ensures filteredFavorites == Pipeline(allFavorites, currentSearchTerm, currentFilters, currentSortType)
      ensures currentPage == ResetPage(old(currentPage), totalPages)
      ensures Valid()
    {
      var result := allFavorites;
      if !IsBlank(currentSearchTerm) {
        result := TitleFilter(result, currentSearchTerm);
      }
      result := TagStage(result, currentFilters);
      result := ModuleStage(result, currentFilters);
      result := PromoStage(result, currentFilters);
      result := SortBy(currentSortType, result);
      filteredFavorites := result;
      UpdatePagination();
    }

    method UpdatePagination()
      modifies this`paginatedFavorites, this`currentPage, this`totalPages
      ensures totalPages == TotalPages(|filteredFavorites|, ItemsPerPage)
      ensures currentPage == ResetPage(old(currentPage), totalPages)
      ensures paginatedFavorites == PageSlice(filteredFavorites, currentPage, ItemsPerPage)
    {
      totalPages := TotalPages(|filteredFavorites|, ItemsPerPage);
      if currentPage > totalPages { currentPage := 1; }
      if totalPages == 0 { currentPage := 1; }
      paginatedFavorites := PageSlice(filteredFavorites, currentPage, ItemsPerPage);
    }

    /** Only a page in `1..totalPages` is accepted; on a consistent page it is
        then the page shown. */
    method GoToPage(page: int)
      modifies this`paginatedFavorites, this`currentPage, this`totalPages
      ensures !AcceptsPage(page, old(totalPages)) ==>
        currentPage == old(currentPage) && totalPages == old(totalPages)
          && paginatedFavorites == old(paginatedFavorites)
      ensures AcceptsPage(page, old(totalPages)) ==>
        currentPage == ResetPage(page, totalPages)
          && totalPages == TotalPages(|filteredFavorites|, ItemsPerPage)
          && paginatedFavorites == PageSlice(filteredFavorites, currentPage, ItemsPerPage)
      ensures old(Valid()) && AcceptsPage(page, old(totalPages)) ==> currentPage == page && Valid()
    {
      if page >= 1 && page <= totalPages {
        currentPage := page;
        UpdatePagination();
      }
    }

    /** `pageNumbers`: the buttons `1..totalPages`. */
    function PageButtons(): (r: seq<int>)
      reads this
      ensures |r| == totalPages
      ensures forall i :: 0 <= i < |r| ==> r[i] == i + 1
    {
      PageNumbers(totalPages)
    }

    method InitDelete(id: int)
      modifies this`itemToDeleteId
      ensures itemToDeleteId == Some(id)
    {
      itemToDeleteId := Some(id);
    }

    method CancelDelete()
      modifies this`itemToDeleteId
      ensures itemToDeleteId == None
    {
      itemToDeleteId := None;
    }

    /** With an id pending: un-favorite it in the service, drop it from
        `allFavorites`, re-run the pipeline and clear the pending id.
        Without one (or with id 0, which is falsy) nothing happens. */
    method ConfirmDelete(service: ProjectStore.ProjectService)
      modifies this`allFavorites, this`filteredFavorites, this`paginatedFavorites, this`currentPage, this`totalPages, this`itemToDeleteId, service
      ensures !HasPending(old(itemToDeleteId)) ==> unchanged(this) && unchanged(service)
      ensures HasPending(old(itemToDeleteId)) ==>
        service.projects == ProjectStore.Toggled(old(service.projects), old(itemToDeleteId).value)
      ensures HasPending(old(itemToDeleteId)) ==>
        allFavorites == WithoutId(old(allFavorites), old(itemToDeleteId).value)
      ensures HasPending(old(itemToDeleteId)) ==> itemToDeleteId == None && Valid()
      ensures HasPending(old(itemToDeleteId)) ==> currentPage == ResetPage(old(currentPage), totalPages)
      ensures service.isLoaded == old(service.isLoaded)
    {
      if itemToDeleteId.Some? && itemToDeleteId.value != 0 {
        var id := itemToDeleteId.value;
        var _ := service.ToggleFavorite(id);
        allFavorites := WithoutId(allFavorites, id);
        ApplyGlobalFilters();
        itemToDeleteId := None;
      }
    }
  }
}
