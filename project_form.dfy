/** The project editor: the form's text fields and its lists (images,
    tags, modules, authors, links), the smart-casing tag and module entry,
    author suggestions, drag-and-drop reordering, loading an existing
    project into the form, and the normalisation performed on submit.
    Form arrays are modelled by the sequences of their values. */
module ProjectFormPage {
  import opened Wrappers
  import opened Text
  import opened Seqs
  import opened Models
  import Session

  const MaxImages: nat := 5

  /** An entry of the authors form array: a full user (added through
      `addAuthor`) or the stored author reference itself (the fallback
      of `loadProjectData` for an author whose user no longer exists). */
  datatype AuthorEntry = Registered(user: User) | Fallback(author: Author)

  function EntryId(e: AuthorEntry): int
  {
    match e
    case Registered(u) => u.id
    case Fallback(a) => a.id
  }

  /** `authorsArr.value.some(a => a.id === id)`. */
  predicate HasAuthorId(entries: seq<AuthorEntry>, id: int)
  {
    exists k :: 0 <= k < |entries| && EntryId(entries[k]) == id
  }

  predicate UniqueAuthorIds(entries: seq<AuthorEntry>)
  {
    forall i, j :: 0 <= i < j < |entries| ==> EntryId(entries[i]) != EntryId(entries[j])
  }

  // ---------------------------------------------------------------------
  // smart casing of tags and modules
  // ---------------------------------------------------------------------

  /** No two entries are equal ignoring case. */
  predicate NoCaseDuplicates(s: seq<string>)
  {
    forall i, j :: 0 <= i < j < |s| ==> !SameIgnoringCase(s[i], s[j])
  }

  /** Some entry equals `v` ignoring case. */
  predicate HasIgnoringCase(s: seq<string>, v: string)
  {
    exists k :: 0 <= k < |s| && SameIgnoringCase(s[k], v)
  }

  /** `existing.find(t => t.toLowerCase() === v.toLowerCase())`, as an index. */
  function FindIgnoringCase(s: seq<string>, v: string): (r: Option<nat>)
    ensures r.None? <==> !HasIgnoringCase(s, v)
    ensures r.Some? ==> r.value < |s| && SameIgnoringCase(s[r.value], v)
    ensures r.Some? ==> forall k :: 0 <= k < r.value ==> !SameIgnoringCase(s[k], v)
  {
    if s == [] then None
    else if SameIgnoringCase(s[0], v) then Some(0)
    else
      match FindIgnoringCase(s[1..], v)
      case None =>
        assert !HasIgnoringCase(s, v) by {
          forall k | 0 <= k < |s| ensures !SameIgnoringCase(s[k], v) {
            if k > 0 { assert s[k] == s[1..][k - 1]; }
          }
        }
        None
      case Some(k) => Some(k + 1)
  }

  /** `existingMatch || trimmedVal`: the first known spelling of the value,
      or the value itself when none is known. (A known spelling equal to the
      non-empty value ignoring case is itself non-empty, so `||` never
      falls through on it.) */
  function Spelling(existing: seq<string>, trimmed: string): (r: string)
    ensures SameIgnoringCase(r, trimmed)
    ensures HasIgnoringCase(existing, trimmed) ==> r == existing[FindIgnoringCase(existing, trimmed).value]
    ensures !HasIgnoringCase(existing, trimmed) ==> r == trimmed
  {
    match FindIgnoringCase(existing, trimmed)
    case Some(k) => existing[k]
    case None => trimmed
  }

  /** The list after `addTag(val)` / `addModule(val)`: a value blank after
      trimming is ignored; otherwise the known spelling of the trimmed value
      is appended unless the list already holds it ignoring case. */
  function WithValue(selected: seq<string>, existing: seq<string>, val: string): (r: seq<string>)
    ensures IsBlank(val) ==> r == selected
    ensures !IsBlank(val) && HasIgnoringCase(selected, Trim(val)) ==> r == selected
    ensures !IsBlank(val) && !HasIgnoringCase(selected, Trim(val)) ==>
      r == selected + [Spelling(existing, Trim(val))]
    ensures NoCaseDuplicates(selected) ==> NoCaseDuplicates(r)
  {
    var trimmed := Trim(val);
    if trimmed == [] then selected
    else
      var final := Spelling(existing, trimmed);
      if HasIgnoringCase(selected, final) then selected
      else
        assert !HasIgnoringCase(selected, trimmed);
        var r := selected + [final];
        assert NoCaseDuplicates(selected) ==> NoCaseDuplicates(r) by {
          if NoCaseDuplicates(selected) {
            forall i, j | 0 <= i < j < |r| ensures !SameIgnoringCase(r[i], r[j]) {
              if j == |selected| {
                assert !SameIgnoringCase(selected[i], final);
              }
            }
          }
        }
        r
  }

  /** Adding every value of `vals` in turn, as `forEach(v => this.addTag(v))` does. */
  function WithValues(selected: seq<string>, existing: seq<string>, vals: seq<string>): (r: seq<string>)
    ensures NoCaseDuplicates(selected) ==> NoCaseDuplicates(r)
    ensures forall k :: 0 <= k < |vals| && !IsBlank(vals[k]) ==> HasIgnoringCase(r, Trim(vals[k]))
    decreases |vals|, 0
  {
    if vals == [] then selected
    else
      var next := WithValue(selected, existing, vals[0]);
      var r := WithValues(next, existing, vals[1..]);
      assert forall k :: 0 <= k < |vals| && !IsBlank(vals[k]) ==> HasIgnoringCase(r, Trim(vals[k])) by {
        forall k | 0 <= k < |vals| && !IsBlank(vals[k]) ensures HasIgnoringCase(r, Trim(vals[k])) {
          if k == 0 {
            assert HasIgnoringCase(next, Trim(vals[0])) by {
              if !HasIgnoringCase(selected, Trim(vals[0])) {
                assert next[|selected|] == Spelling(existing, Trim(vals[0]));
              } else {
                var m :| 0 <= m < |selected| && SameIgnoringCase(selected[m], Trim(vals[0]));
                assert next[m] == selected[m];
              }
            }
            WithValuesKeeps(next, existing, vals[1..], Trim(vals[0]));
          } else {
            assert vals[k] == vals[1..][k - 1];
          }
        }
      }
      r
  }

  /** Adding values never loses one already present ignoring case. */
  lemma {:induction false} WithValuesKeeps(selected: seq<string>, existing: seq<string>, vals: seq<string>, v: string)
    requires HasIgnoringCase(selected, v)
    ensures HasIgnoringCase(WithValues(selected, existing, vals), v)
    decreases |vals|, 1
  {
    if vals != [] {
      var next := WithValue(selected, existing, vals[0]);
      var m :| 0 <= m < |selected| && SameIgnoringCase(selected[m], v);
      assert next[m] == selected[m];
      WithValuesKeeps(next, existing, vals[1..], v);
    }
  }

  /** Adding a value twice is the same as adding it once. */
  lemma AddValueIdempotent(selected: seq<string>, existing: seq<string>, val: string)
    ensures WithValue(WithValue(selected, existing, val), existing, val) == WithValue(selected, existing, val)
  {
    var once := WithValue(selected, existing, val);
    if !IsBlank(val) && !HasIgnoringCase(selected, Trim(val)) {
      var s := Spelling(existing, Trim(val));
      assert once[|selected|] == s;
      assert SameIgnoringCase(once[|selected|], Trim(val));
    }
  }

  /** `existing.filter(t => t.toLowerCase().includes(value.toLowerCase()))`. */
  function Suggestions(existing: seq<string>, value: string): (r: seq<string>)
    ensures forall t :: t in r <==> t in existing && Contains(Lower(t), Lower(value))
    ensures IsSubsequence(r, existing)
  {
    Filter(existing, (t: string) => Contains(Lower(t), Lower(value)))
  }

  // ---------------------------------------------------------------------
  // authors
  // ---------------------------------------------------------------------

  /** The search of `onAuthorInput`. */
  predicate NameMatches(u: User, value: string)
  {
    Contains(Lower(u.firstName), Lower(value)) || Contains(Lower(u.lastName), Lower(value))
  }

  /** The users offered by `onAuthorInput`: those not yet authors whose
      first or last name contains the input, ignoring case. */
  function AuthorSuggestions(users: seq<User>, authors: seq<AuthorEntry>, value: string): (r: seq<User>)
    ensures forall u :: u in r <==> u in users && !HasAuthorId(authors, u.id) && NameMatches(u, value)
    ensures forall k :: 0 <= k < |r| ==> !HasAuthorId(authors, r[k].id)
    ensures IsSubsequence(r, users)
  {
    var r := Filter(users, (u: User) => !HasAuthorId(authors, u.id) && NameMatches(u, value));
    assert forall k :: 0 <= k < |r| ==> r[k] in r;
    r
  }

  /** `addAuthor(user)` on the author list: a user whose id is already
      present is not added again. */
  function WithAuthor(entries: seq<AuthorEntry>, user: User): (r: seq<AuthorEntry>)
    ensures HasAuthorId(entries, user.id) ==> r == entries
    ensures !HasAuthorId(entries, user.id) ==> r == entries + [Registered(user)]
    ensures UniqueAuthorIds(entries) ==> UniqueAuthorIds(r)
    ensures HasAuthorId(r, user.id)
  {
    if HasAuthorId(entries, user.id) then entries
    else
      var r := entries + [Registered(user)];
      assert EntryId(r[|entries|]) == user.id;
      r
  }

  /** One author of a loaded project: its full user when `allUsers` still
      has one (through `addAuthor`), the stored reference otherwise. */
  function LoadStep(users: seq<User>, entries: seq<AuthorEntry>, a: Author): seq<AuthorEntry>
  {
    match Session.FindUser(users, a.id)
    case Some(k) => WithAuthor(entries, users[k])
    case None => entries + [Fallback(a)]
  }

  /** After one step the stored author is represented; nothing already in
      the list is lost; anything new carries the author's id; and every
      new full user comes from the registry. */
  lemma LoadStepKeeps(users: seq<User>, entries: seq<AuthorEntry>, a: Author)
    ensures var r := LoadStep(users, entries, a);
      && HasAuthorId(r, a.id)
      && (forall e :: e in entries ==> e in r)
      && (forall e :: e in r ==> e in entries || EntryId(e) == a.id)
      && (forall e :: e in r && e.Registered? ==> e in entries || e.user in users)
  {
    if Session.FindUser(users, a.id).None? {
      var r := entries + [Fallback(a)];
      assert EntryId(r[|entries|]) == a.id;
    }
  }

  /** The author list `loadProjectData` builds from a cleared list. */
  function LoadedAuthors(users: seq<User>, authors: seq<Author>): seq<AuthorEntry>
    decreases |authors|
  {
    if authors == [] then []
    else LoadStep(users, LoadedAuthors(users, authors[..|authors| - 1]), authors[|authors| - 1])
  }

  /** Every stored author is represented in the loaded list, every entry
      carries a stored id, and every full user is from the registry. */
  lemma {:induction false} LoadedAuthorsCover(users: seq<User>, authors: seq<Author>)
    ensures var r := LoadedAuthors(users, authors);
      && (forall k :: 0 <= k < |authors| ==> HasAuthorId(r, authors[k].id))
      && (forall e :: e in r ==> exists k :: 0 <= k < |authors| && EntryId(e) == authors[k].id)
      && (forall e :: e in r && e.Registered? ==> e.user in users)
    decreases |authors|
  {
    if authors != [] {
      var i := |authors| - 1;
      var init := authors[..i];
      var prev := LoadedAuthors(users, init);
      var r := LoadedAuthors(users, authors);
      LoadedAuthorsCover(users, init);
      LoadStepKeeps(users, prev, authors[i]);
      assert r == LoadStep(users, prev, authors[i]);
      assert forall k :: 0 <= k < i ==> init[k] == authors[k];
      forall k | 0 <= k < |authors| ensures HasAuthorId(r, authors[k].id) {
        if k < i {
          assert HasAuthorId(prev, init[k].id);
          var m :| 0 <= m < |prev| && EntryId(prev[m]) == init[k].id;
          assert prev[m] in r;
        }
      }
      forall e | e in r ensures exists k :: 0 <= k < |authors| && EntryId(e) == authors[k].id {
        if e in prev {
          var k :| 0 <= k < i && EntryId(e) == init[k].id;
          assert EntryId(e) == authors[k].id;
        } else {
          assert EntryId(e) == authors[i].id;
        }
      }
    }
  }

  /** Loading one more stored author is one more `LoadStep`. */
  lemma LoadedAuthorsSnoc(users: seq<User>, stored: seq<Author>, i: nat)
    requires i < |stored|
    ensures LoadedAuthors(users, stored[..i + 1]) == LoadStep(users, LoadedAuthors(users, stored[..i]), stored[i])
  {
    assert stored[..i + 1][..i] == stored[..i];
  }

  /** Some value of `vals` is not blank, so adding them one by one closes
      the suggestions at least once. */
  predicate SomeNonBlank(vals: seq<string>)
    decreases |vals|
  {
    vals != [] && (SomeNonBlank(vals[..|vals| - 1]) || !IsBlank(vals[|vals| - 1]))
  }

  /** `SomeNonBlank` is "some value is not blank". */
  lemma {:induction false} SomeNonBlankIff(vals: seq<string>)
    ensures SomeNonBlank(vals) <==> exists k :: 0 <= k < |vals| && !IsBlank(vals[k])
    decreases |vals|
  {
    if vals != [] {
      var init := vals[..|vals| - 1];
      SomeNonBlankIff(init);
      if SomeNonBlank(init) {
        var k :| 0 <= k < |init| && !IsBlank(init[k]);
        assert vals[k] == init[k];
      }
      if exists k :: 0 <= k < |vals| && !IsBlank(vals[k]) {
        var k :| 0 <= k < |vals| && !IsBlank(vals[k]);
        if k < |init| { assert init[k] == vals[k]; }
      }
    }
  }

  lemma SomeNonBlankSnoc(vals: seq<string>, i: nat)
    requires i < |vals|
    ensures SomeNonBlank(vals[..i + 1]) <==> SomeNonBlank(vals[..i]) || !IsBlank(vals[i])
  {
    assert vals[..i + 1][..i] == vals[..i];
  }

  /** Some stored author still has a user in the registry, so loading the
      authors goes through `addAuthor` at least once. */
  predicate SomeRegistered(users: seq<User>, stored: seq<Author>)
    decreases |stored|
  {
    stored != [] &&
      (SomeRegistered(users, stored[..|stored| - 1]) || Session.FindUser(users, stored[|stored| - 1].id).Some?)
  }

  /** `SomeRegistered` is "some stored author has a user". */
  lemma {:induction false} SomeRegisteredIff(users: seq<User>, stored: seq<Author>)
    ensures SomeRegistered(users, stored) <==>
      exists k :: 0 <= k < |stored| && Session.FindUser(users, stored[k].id).Some?
    decreases |stored|
  {
    if stored != [] {
      var init := stored[..|stored| - 1];
      SomeRegisteredIff(users, init);
      if SomeRegistered(users, init) {
        var k :| 0 <= k < |init| && Session.FindUser(users, init[k].id).Some?;
        assert stored[k] == init[k];
      }
      if exists k :: 0 <= k < |stored| && Session.FindUser(users, stored[k].id).Some? {
        var k :| 0 <= k < |stored| && Session.FindUser(users, stored[k].id).Some?;
        if k < |init| { assert init[k] == stored[k]; }
      }
    }
  }

  lemma SomeRegisteredSnoc(users: seq<User>, stored: seq<Author>, i: nat)
    requires i < |stored|
    ensures SomeRegistered(users, stored[..i + 1]) <==>
      SomeRegistered(users, stored[..i]) || Session.FindUser(users, stored[i].id).Some?
  {
    assert stored[..i + 1][..i] == stored[..i];
  }

  /** The author ids of a stored project are pairwise distinct. */
  predicate DistinctAuthors(authors: seq<Author>)
  {
    forall i, j :: 0 <= i < j < |authors| ==> authors[i].id != authors[j].id
  }

  /** The entry `loadProjectData` makes for stored author `a`. */
  function EntryFor(users: seq<User>, a: Author): (e: AuthorEntry)
    ensures EntryId(e) == a.id
  {
    match Session.FindUser(users, a.id)
    case Some(k) => Registered(users[k])
    case None => Fallback(a)
  }

  /** A stored author whose id is not in the list yet gets its own entry
      at the end. */
  lemma LoadStepFresh(users: seq<User>, entries: seq<AuthorEntry>, a: Author)
    requires !HasAuthorId(entries, a.id)
    ensures LoadStep(users, entries, a) == entries + [EntryFor(users, a)]
  {
  }

  /** With distinct stored ids no author is skipped: the loaded list has
      exactly one entry per stored author, in order. */
  lemma {:induction false} LoadedAuthorsOneEach(users: seq<User>, authors: seq<Author>)
    requires DistinctAuthors(authors)
    ensures |LoadedAuthors(users, authors)| == |authors|
    ensures forall k :: 0 <= k < |authors| ==> LoadedAuthors(users, authors)[k] == EntryFor(users, authors[k])
    decreases |authors|
  {
    if authors != [] {
      var i := |authors| - 1;
      var init := authors[..i];
      assert forall k :: 0 <= k < i ==> init[k] == authors[k];
      LoadedAuthorsOneEach(users, init);
      var prev := LoadedAuthors(users, init);
      assert !HasAuthorId(prev, authors[i].id) by {
        forall m | 0 <= m < |prev| ensures EntryId(prev[m]) != authors[i].id {
          assert prev[m] == EntryFor(users, init[m]);
        }
      }
      LoadStepFresh(users, prev, authors[i]);
      var r := LoadedAuthors(users, authors);
      assert r == prev + [EntryFor(users, authors[i])];
      forall k | 0 <= k < |authors| ensures r[k] == EntryFor(users, authors[k]) {
        if k < i {
          assert r[k] == prev[k] == EntryFor(users, init[k]);
          assert init[k] == authors[k];
        } else {
          assert r[k] == EntryFor(users, authors[i]);
        }
      }
    }
  }

  // ---------------------------------------------------------------------
  // images
  // ---------------------------------------------------------------------

  /** `addImage(url)` on the image list: appended only below five images. */
  function WithImage(images: seq<string>, url: string): (r: seq<string>)
    ensures |images| < MaxImages ==> r == images + [url]
    ensures |images| >= MaxImages ==> r == images
  {
    if |images| < MaxImages then images + [url] else images
  }

  /** Adding the urls one by one: the list grows to at most five, keeping
      the first urls that fit and dropping the rest. */
  function WithImages(images: seq<string>, urls: seq<string>): (r: seq<string>)
    ensures |images| >= MaxImages ==> r == images
    ensures |images| < MaxImages ==>
      r == (images + urls)[..if |images| + |urls| < MaxImages then |images| + |urls| else MaxImages]
    decreases |urls|
  {
    if urls == [] then
      assert images + urls == images;
      images
    else
      var init := urls[..|urls| - 1];
      var prev := WithImages(images, init);
      assert urls == init + [urls[|urls| - 1]];
      assert images + urls == (images + init) + [urls[|urls| - 1]];
      WithImage(prev, urls[|urls| - 1])
  }

  // ---------------------------------------------------------------------
  // submit
  // ---------------------------------------------------------------------

  /** The author reference built on submit, as written:
      `{ id: u.id, name: `${u.firstName} ${u.lastName}`, avatarUrl: u.avatarUrl }`.
      A fallback entry is an author reference, which has no `firstName` or
      `lastName`, so its name becomes the text "undefined undefined". */
  function CleanAuthorAsWritten(e: AuthorEntry): (r: Author)
    ensures r.id == EntryId(e)
    ensures e.Registered? ==> r.name == e.user.firstName + " " + e.user.lastName && r.avatarUrl == e.user.avatarUrl
    ensures e.Fallback? ==> r.name == "undefined undefined" && r.avatarUrl == e.author.avatarUrl
  {
    match e
    case Registered(u) => Author(u.id, u.firstName + " " + u.lastName, u.avatarUrl)
    case Fallback(a) => Author(a.id, "undefined undefined", a.avatarUrl)
  }

  /** On an entry with a full user the corrected mapping is the one the
      code computes; they differ only on fallback entries. */
  lemma CleanAuthorAgrees(e: AuthorEntry)
    ensures e.Registered? ==> CleanAuthor(e) == CleanAuthorAsWritten(e)
    ensures e.Fallback? ==> (CleanAuthor(e) == CleanAuthorAsWritten(e) <==> e.author.name == "undefined undefined")
  {
  }

  /** Loading a stored project whose author no longer has a user and
      submitting it again, as written, replaces that author's stored name. */
  lemma FallbackNameLost(users: seq<User>, authors: seq<Author>, k: nat)
    requires DistinctAuthors(authors) && k < |authors|
    requires Session.FindUser(users, authors[k].id).None? && authors[k].name != "undefined undefined"
    ensures k < |LoadedAuthors(users, authors)|
    ensures CleanAuthorAsWritten(LoadedAuthors(users, authors)[k]).id == authors[k].id
    ensures CleanAuthorAsWritten(LoadedAuthors(users, authors)[k]).name != authors[k].name
  {
    LoadedAuthorsOneEach(users, authors);
  }

  /** The author reference built on submit, with a fallback entry kept as
      the stored reference it already is. */
  function CleanAuthor(e: AuthorEntry): (r: Author)
    ensures r.id == EntryId(e)
    ensures e.Registered? ==> r.name == e.user.firstName + " " + e.user.lastName && r.avatarUrl == e.user.avatarUrl
    ensures e.Fallback? ==> r == e.author
  {
    match e
    case Registered(u) => Author(u.id, u.firstName + " " + u.lastName, u.avatarUrl)
    case Fallback(a) => a
  }

  /** `formVal.authors.map(...)`: one reference per entry, in order. */
  function CleanAuthors(entries: seq<AuthorEntry>): (r: seq<Author>)
    ensures |r| == |entries|
    ensures forall k :: 0 <= k < |r| ==> r[k] == CleanAuthor(entries[k])
  {
    seq(|entries|, k requires 0 <= k < |entries| => CleanAuthor(entries[k]))
  }

  /** Loading a stored project and submitting it again without touching its
      authors gives one reference per stored author, in order and with the
      same ids; an author whose user no longer exists comes back exactly as
      stored, and one whose user exists carries that user's current name. */
  lemma {:induction false} FallbacksSurviveSubmit(users: seq<User>, authors: seq<Author>)
    requires DistinctAuthors(authors)
    ensures var r := CleanAuthors(LoadedAuthors(users, authors));
      && |r| == |authors|
      && (forall k :: 0 <= k < |authors| ==> r[k].id == authors[k].id)
      && (forall k :: 0 <= k < |authors| && Session.FindUser(users, authors[k].id).None? ==> r[k] == authors[k])
      && (forall k :: 0 <= k < |authors| && Session.FindUser(users, authors[k].id).Some? ==>
            var u := users[Session.FindUser(users, authors[k].id).value];
            r[k].name == u.firstName + " " + u.lastName)
  {
    LoadedAuthorsOneEach(users, authors);
  }

  class ProjectForm {
    var title: string
    var description: string
    var origin: string
    var promo: string
    var skillsLearned: string
    var images: seq<string>
    var tags: seq<string>
    var modules: seq<string>
    var authors: seq<AuthorEntry>
    var links: seq<ProjectLink>

    var projectId: Option<int>
    var isEditMode: bool
    var currentUser: Option<User>
    var existingTags: seq<string>
    var filteredTags: seq<string>
    var existingModules: seq<string>
    var filteredModules: seq<string>
    var allUsers: seq<User>
    var filteredUsers: seq<User>
    var draggedImageIndex: Option<nat>
    var draggedLinkIndex: Option<nat>

    /** What the editing methods maintain: at most five images and no two
        tags, or two modules, equal ignoring case. */
    ghost predicate Valid()
      reads this
    {
      |images| <= MaxImages && NoCaseDuplicates(tags) && NoCaseDuplicates(modules)
    }

    /** `ngOnInit` up to the route: the current user, the known tags and
        modules (from the project service's `getAllTags`/`getAllModules`,
        passed in), the stored registry (an absent one is empty, and an
        empty one falls back to the current user), and an empty form with
        promo 'A1'. */
    constructor (user: Option<User>, knownTags: seq<string>, knownModules: seq<string>, storedUsers: Option<seq<User>>)
      ensures Valid()
      ensures currentUser == user && existingTags == knownTags && existingModules == knownModules
      ensures storedUsers.GetOr([]) != [] ==> allUsers == storedUsers.value
      ensures storedUsers.GetOr([]) == [] ==> allUsers == (if user.Some? then [user.value] else [])
      ensures title == "" && description == "" && origin == "" && promo == "A1" && skillsLearned == ""
      ensures images == [] && tags == [] && modules == [] && authors == [] && links == []
      ensures projectId.None? && !isEditMode
      ensures filteredTags == [] && filteredModules == [] && filteredUsers == []
      ensures draggedImageIndex.None? && draggedLinkIndex.None?
    {
      currentUser := user;
      existingTags := knownTags;
      existingModules := knownModules;
      var users := storedUsers.GetOr([]);
      if |users| == 0 && user.Some? {
        users := [user.value];
      }
      allUsers := users;
      title, description, origin, promo, skillsLearned := "", "", "", "A1", "";
      images, tags, modules, authors, links := [], [], [], [], [];
      projectId, isEditMode := None, false;
      filteredTags, filteredModules, filteredUsers := [], [], [];
      draggedImageIndex, draggedLinkIndex := None, None;
    }

    /** The `paramMap` subscription. With an id (`Number(id)` passed in as
        `routeId`) the form enters edit mode and loads that project from
        `projects`; without one the current user, if any, becomes the first
        author. */
    method OnRoute(routeId: Option<int>, projects: seq<Project>)
      modifies this`isEditMode, this`projectId
      modifies this`title, this`description, this`origin, this`promo, this`skillsLearned
      modifies this`tags, this`filteredTags, this`modules, this`filteredModules, this`images
      modifies this`authors, this`filteredUsers, this`links
      ensures old(Valid()) ==> Valid()
      ensures routeId.Some? ==> isEditMode && projectId == routeId
      ensures routeId.Some? && FindProject(projects, routeId.value).None? ==> FormUnchanged()
      ensures routeId.Some? && FindProject(projects, routeId.value).Some? ==>
        Loaded(projects[FindProject(projects, routeId.value).value])
      ensures routeId.None? && currentUser.Some? ==> authors == WithAuthor(old(authors), currentUser.value)
      ensures routeId.None? && currentUser.Some? ==> filteredUsers == []
      ensures routeId.None? && currentUser.None? ==> authors == old(authors) && filteredUsers == old(filteredUsers)
      ensures routeId.None? ==> images == old(images) && tags == old(tags) && modules == old(modules)
      ensures routeId.None? ==> links == old(links) && projectId == old(projectId) && isEditMode == old(isEditMode)
      ensures routeId.None? ==> title == old(title) && description == old(description) && origin == old(origin)
      ensures routeId.None? ==> promo == old(promo) && skillsLearned == old(skillsLearned)
      ensures routeId.None? ==> filteredTags == old(filteredTags) && filteredModules == old(filteredModules)
    {
      if routeId.Some? {
        isEditMode := true;
        projectId := routeId;
        LoadProjectData(routeId.value, projects);
      } else if currentUser.Some? {
        AddAuthor(currentUser.value);
      }
    }

    /** `loadProjectData(id)` with the list the service delivers: an unknown
        id changes nothing; otherwise that project is loaded into the form. */
    method LoadProjectData(id: int, projects: seq<Project>)
      modifies this`title, this`description, this`origin, this`promo, this`skillsLearned
      modifies this`tags, this`filteredTags, this`modules, this`filteredModules, this`images
      modifies this`authors, this`filteredUsers, this`links
      ensures old(Valid()) ==> Valid()
      ensures FindProject(projects, id).None? ==> FormUnchanged()
      ensures FindProject(projects, id).Some? ==> Loaded(projects[FindProject(projects, id).value])
    {
      var found := FindProject(projects, id);
      if found.None? {
        return;
      }
      Fill(projects[found.value]);
    }

    /** The form state `Fill(p)` leaves behind, relative to the state before. */
    twostate predicate Loaded(p: Project)
      reads this
    {
      && title == p.title && description == p.description && origin == p.origin
      && promo == p.promo && skillsLearned == p.skillsLearned
      && tags == WithValues(old(tags), existingTags, p.tags)
      && modules == WithValues(old(modules), existingModules, p.modules.GetOr([]))
      && images == WithImages(old(images), [p.imageUrl] + p.additionalImages)
      && authors == LoadedAuthors(allUsers, p.authors)
      && links == old(links) + p.links
      && filteredTags == (if SomeNonBlank(p.tags) then [] else old(filteredTags))
      && filteredModules == (if SomeNonBlank(p.modules.GetOr([])) then [] else old(filteredModules))
      && filteredUsers == (if SomeRegistered(allUsers, p.authors) then [] else old(filteredUsers))
    }

    /** None of the fields `Fill` may change has changed. */
    twostate predicate FormUnchanged()
      reads this
    {
      && title == old(title) && description == old(description) && origin == old(origin)
      && promo == old(promo) && skillsLearned == old(skillsLearned)
      && tags == old(tags) && filteredTags == old(filteredTags)
      && modules == old(modules) && filteredModules == old(filteredModules)
      && images == old(images) && authors == old(authors) && filteredUsers == old(filteredUsers)
      && links == old(links)
    }

    /** The body of `loadProjectData` for a found project: the text fields
        are overwritten, and the project's tags, modules, images, authors and
        links are added through the same operations the user has (the
        author list is cleared first). */
    method Fill(p: Project)
      modifies this`title, this`description, this`origin, this`promo, this`skillsLearned
      modifies this`tags, this`filteredTags, this`modules, this`filteredModules, this`images
      modifies this`authors, this`filteredUsers, this`links
      ensures Loaded(p)
      ensures old(Valid()) ==> Valid()
    {
      FillFields(p);
      FillRest(p);
    }

    /** The text fields, tags and modules of `loadProjectData`. */
    method FillFields(p: Project)
      modifies this`title, this`description, this`origin, this`promo, this`skillsLearned
      modifies this`tags, this`filteredTags, this`modules, this`filteredModules
      ensures title == p.title && description == p.description && origin == p.origin
      ensures promo == p.promo && skillsLearned == p.skillsLearned
      ensures tags == WithValues(old(tags), existingTags, p.tags)
      ensures modules == WithValues(old(modules), existingModules, p.modules.GetOr([]))
      ensures filteredTags == (if SomeNonBlank(p.tags) then [] else old(filteredTags))
      ensures filteredModules == (if SomeNonBlank(p.modules.GetOr([])) then [] else old(filteredModules))
    {
      FillText(p);
      FillValues(p);
    }

    /** The `patchValue` of `loadProjectData`: the five text fields. */
    method FillText(p: Project)
      modifies this`title, this`description, this`origin, this`promo, this`skillsLearned
      ensures title == p.title && description == p.description && origin == p.origin
      ensures promo == p.promo && skillsLearned == p.skillsLearned
    {
      title, description, origin, promo, skillsLearned := p.title, p.description, p.origin, p.promo, p.skillsLearned;
    }

    /** The tags and modules of `loadProjectData`; each suggestion list is
        closed by the first value that is not blank. */
    method FillValues(p: Project)
      modifies this`tags, this`filteredTags, this`modules, this`filteredModules
      ensures tags == WithValues(old(tags), existingTags, p.tags)
      ensures modules == WithValues(old(modules), existingModules, p.modules.GetOr([]))
      ensures filteredTags == (if SomeNonBlank(p.tags) then [] else old(filteredTags))
      ensures filteredModules == (if SomeNonBlank(p.modules.GetOr([])) then [] else old(filteredModules))
    {
      LoadTags(p.tags);
      var mods := p.modules.GetOr([]);
      LoadModules(mods);
    }

    /** The images, authors and links of `loadProjectData`; the user
        suggestions are closed by the first author added by its user. */
    method FillRest(p: Project)
      modifies this`images, this`authors, this`filteredUsers, this`links
      ensures images == WithImages(old(images), [p.imageUrl] + p.additionalImages)
      ensures authors == LoadedAuthors(allUsers, p.authors)
      ensures links == old(links) + p.links
      ensures filteredUsers == (if SomeRegistered(allUsers, p.authors) then [] else old(filteredUsers))
    {
      LoadImages([p.imageUrl] + p.additionalImages);
      LoadAuthors(p.authors);
      LoadLinks(p.links);
    }

    /** `project.tags.forEach(t => this.addTag(t))`. */
    method LoadTags(vals: seq<string>)
      modifies this`tags, this`filteredTags
      ensures tags == WithValues(old(tags), existingTags, vals)
      ensures NoCaseDuplicates(old(tags)) ==> NoCaseDuplicates(tags)
      ensures filteredTags == (if SomeNonBlank(vals) then [] else old(filteredTags))
    {
      var i := 0;
      while i < |vals|
        invariant 0 <= i <= |vals|
        invariant WithValues(tags, existingTags, vals[i..]) == WithValues(old(tags), existingTags, vals)
        invariant NoCaseDuplicates(old(tags)) ==> NoCaseDuplicates(tags)
        invariant filteredTags == (if SomeNonBlank(vals[..i]) then [] else old(filteredTags))
      {
        assert vals[i..][1..] == vals[i + 1..];
        SomeNonBlankSnoc(vals, i);
        AddTag(vals[i]);
        i := i + 1;
      }
      assert vals[..i] == vals;
    }

    /** `project.modules?.forEach(m => this.addModule(m))`. */
    method LoadModules(vals: seq<string>)
      modifies this`modules, this`filteredModules
      ensures modules == WithValues(old(modules), existingModules, vals)
      ensures NoCaseDuplicates(old(modules)) ==> NoCaseDuplicates(modules)
      ensures filteredModules == (if SomeNonBlank(vals) then [] else old(filteredModules))
    {
      var i := 0;
      while i < |vals|
        invariant 0 <= i <= |vals|
        invariant WithValues(modules, existingModules, vals[i..]) == WithValues(old(modules), existingModules, vals)
        invariant NoCaseDuplicates(old(modules)) ==> NoCaseDuplicates(modules)
        invariant filteredModules == (if SomeNonBlank(vals[..i]) then [] else old(filteredModules))
      {
        assert vals[i..][1..] == vals[i + 1..];
        SomeNonBlankSnoc(vals, i);
        AddModule(vals[i]);
        i := i + 1;
      }
      assert vals[..i] == vals;
    }

    /** The cover image, then each additional image, through `addImage`. */
    method LoadImages(urls: seq<string>)
      modifies this`images
      ensures images == WithImages(old(images), urls)
    {
      var i := 0;
      while i < |urls|
        invariant 0 <= i <= |urls|
        invariant images == WithImages(old(images), urls[..i])
      {
        assert urls[..i + 1][..i] == urls[..i];
        AddImage(urls[i]);
        i := i + 1;
      }
      assert urls[..i] == urls;
    }

    /** Clear the authors, then add each stored author, by its user when
        there is one. */
    method LoadAuthors(stored: seq<Author>)
      modifies this`authors, this`filteredUsers
      ensures authors == LoadedAuthors(allUsers, stored)
      ensures filteredUsers == (if SomeRegistered(allUsers, stored) then [] else old(filteredUsers))
    {
      authors := [];
      var i := 0;
      while i < |stored|
        invariant 0 <= i <= |stored|
        invariant authors == LoadedAuthors(allUsers, stored[..i])
        invariant filteredUsers == (if SomeRegistered(allUsers, stored[..i]) then [] else old(filteredUsers))
      {
        LoadedAuthorsSnoc(allUsers, stored, i);
        SomeRegisteredSnoc(allUsers, stored, i);
        LoadAuthor(stored[i]);
        i := i + 1;
      }
      assert stored[..i] == stored;
    }

    /** The body of that loop for one stored author `a`. */
    method LoadAuthor(a: Author)
      modifies this`authors, this`filteredUsers
      ensures authors == LoadStep(allUsers, old(authors), a)
      ensures Session.FindUser(allUsers, a.id).Some? ==> filteredUsers == []
      ensures Session.FindUser(allUsers, a.id).None? ==> filteredUsers == old(filteredUsers)
    {
      var fullUser := Session.FindUser(allUsers, a.id);
      if fullUser.Some? {
        AddAuthor(allUsers[fullUser.value]);
      } else {
        authors := authors + [Fallback(a)];
      }
    }

    /** `project.links.forEach(l => this.addLink(l.title, l.url))`. */
    method LoadLinks(stored: seq<ProjectLink>)
      modifies this`links
      ensures links == old(links) + stored
    {
      var i := 0;
      while i < |stored|
        invariant 0 <= i <= |stored|
        invariant links == old(links) + stored[..i]
      {
        assert stored[..i + 1] == stored[..i] + [stored[i]];
        AddLink(stored[i].title, stored[i].url);
        i := i + 1;
      }
      assert stored[..i] == stored;
    }

    // --- images ---

    /** `addImage(url)`: refused at five images. */
    method AddImage(url: string)
      modifies this`images
      ensures old(Valid()) ==> Valid()
      ensures images == WithImage(old(images), url)
      ensures |old(images)| <= MaxImages ==> |images| <= MaxImages
    {
      if |images| < MaxImages {
        images := images + [url];
      }
    }

    method RemoveImage(index: nat)
      modifies this`images
      ensures old(Valid()) ==> Valid()
      ensures images == RemoveAt(old(images), index)
      ensures |images| <= |old(images)|
    {
      images := RemoveAt(images, index);
    }

    method OnImgDragStart(index: nat)
      modifies this`draggedImageIndex
      ensures draggedImageIndex == Some(index)
    {
      draggedImageIndex := Some(index);
    }

    /** `onImgDrop(index)`: the dragged image moves to `index`; no drag in
        progress, or a drop on itself, changes nothing. The drag ends in
        every case. A dragged index that no longer names an image would make
        `insert` receive `undefined` and throw, so the caller must not drop
        one. */
    method OnImgDrop(index: nat)
      requires draggedImageIndex.Some? && draggedImageIndex.value != index ==> draggedImageIndex.value < |images|
      modifies this`images, this`draggedImageIndex
      ensures old(Valid()) ==> Valid()
      ensures draggedImageIndex.None?
      ensures old(draggedImageIndex).None? || old(draggedImageIndex) == Some(index) ==> images == old(images)
      ensures old(draggedImageIndex).Some? && old(draggedImageIndex) != Some(index) ==>
        images == Move(old(images), old(draggedImageIndex).value, index)
      ensures multiset(images) == multiset(old(images))
    {
      if draggedImageIndex.Some? && draggedImageIndex.value != index {
        images := Move(images, draggedImageIndex.value, index);
      }
      draggedImageIndex := None;
    }

    // --- tags and modules ---

    /** `onTagInput`: the known tags containing the input, ignoring case. */
    method OnTagInput(value: string)
      modifies this`filteredTags
      ensures filteredTags == Suggestions(existingTags, value)
    {
      filteredTags := Suggestions(existingTags, value);
    }

    /** `addTag(val)`: see `WithValue`; the suggestions close unless the
        input was blank. */
    method AddTag(val: string)
      modifies this`tags, this`filteredTags
      ensures old(Valid()) ==> Valid()
      ensures tags == WithValue(old(tags), existingTags, val)
      ensures IsBlank(val) ==> filteredTags == old(filteredTags)
      ensures !IsBlank(val) ==> filteredTags == []
      ensures NoCaseDuplicates(old(tags)) ==> NoCaseDuplicates(tags)
    {
      var trimmed := Trim(val);
      if trimmed == [] {
        return;
      }
      var final := Spelling(existingTags, trimmed);
      if !HasIgnoringCase(tags, final) {
        tags := tags + [final];
      }
      filteredTags := [];
    }

    method RemoveTag(index: nat)
      modifies this`tags
      ensures old(Valid()) ==> Valid()
      ensures tags == RemoveAt(old(tags), index)
      ensures NoCaseDuplicates(old(tags)) ==> NoCaseDuplicates(tags)
    {
      tags := RemoveAt(tags, index);
    }

    /** `onModuleInput`: the known modules containing the input, ignoring case. */
    method OnModuleInput(value: string)
      modifies this`filteredModules
      ensures filteredModules == Suggestions(existingModules, value)
    {
      filteredModules := Suggestions(existingModules, value);
    }

    /** `addModule(val)`: the same rules as `addTag` over the module lists. */
    method AddModule(val: string)
      modifies this`modules, this`filteredModules
      ensures old(Valid()) ==> Valid()
      ensures modules == WithValue(old(modules), existingModules, val)
      ensures IsBlank(val) ==> filteredModules == old(filteredModules)
      ensures !IsBlank(val) ==> filteredModules == []
      ensures NoCaseDuplicates(old(modules)) ==> NoCaseDuplicates(modules)
    {
      var trimmed := Trim(val);
      if trimmed == [] {
        return;
      }
      var final := Spelling(existingModules, trimmed);
      if !HasIgnoringCase(modules, final) {
        modules := modules + [final];
      }
      filteredModules := [];
    }

    method RemoveModule(index: nat)
      modifies this`modules
      ensures old(Valid()) ==> Valid()
      ensures modules == RemoveAt(old(modules), index)
      ensures NoCaseDuplicates(old(modules)) ==> NoCaseDuplicates(modules)
    {
      modules := RemoveAt(modules, index);
    }

    // --- authors ---

    /** `onAuthorInput`: see `AuthorSuggestions`. */
    method OnAuthorInput(value: string)
      modifies this`filteredUsers
      ensures filteredUsers == AuthorSuggestions(allUsers, authors, value)
      ensures forall k :: 0 <= k < |filteredUsers| ==> !HasAuthorId(authors, filteredUsers[k].id)
    {
      filteredUsers := AuthorSuggestions(allUsers, authors, value);
    }

    /** `addAuthor(user)`: never a second entry with the same id; the
        suggestions close. */
    method AddAuthor(user: User)
      modifies this`authors, this`filteredUsers
      ensures authors == WithAuthor(old(authors), user)
      ensures filteredUsers == []
      ensures UniqueAuthorIds(old(authors)) ==> UniqueAuthorIds(authors)
    {
      if !HasAuthorId(authors, user.id) {
        authors := authors + [Registered(user)];
      }
      filteredUsers := [];
    }

    /** `removeAuthor(index)`: refused when only one author is left, so a
        list with authors never becomes empty. */
    method RemoveAuthor(index: nat)
      modifies this`authors
      ensures |old(authors)| <= 1 ==> authors == old(authors)
      ensures |old(authors)| > 1 ==> authors == RemoveAt(old(authors), index)
      ensures |old(authors)| >= 1 ==> |authors| >= 1
    {
      if |authors| > 1 {
        authors := RemoveAt(authors, index);
      }
    }

    // --- links ---

    /** `addLink(title, url)`: one more row at the end. */
    method AddLink(linkTitle: string, url: string)
      modifies this`links
      ensures links == old(links) + [ProjectLink(linkTitle, url)]
    {
      links := links + [ProjectLink(linkTitle, url)];
    }

    method RemoveLink(index: nat)
      modifies this`links
      ensures links == RemoveAt(old(links), index)
    {
      links := RemoveAt(links, index);
    }

    method OnLinkDragStart(index: nat)
      modifies this`draggedLinkIndex
      ensures draggedLinkIndex == Some(index)
    {
      draggedLinkIndex := Some(index);
    }

    /** `onLinkDrop(index)`: as `onImgDrop`, over the link rows. */
    method OnLinkDrop(index: nat)
      requires draggedLinkIndex.Some? && draggedLinkIndex.value != index ==> draggedLinkIndex.value < |links|
      modifies this`links, this`draggedLinkIndex
      ensures draggedLinkIndex.None?
      ensures old(draggedLinkIndex).None? || old(draggedLinkIndex) == Some(index) ==> links == old(links)
      ensures old(draggedLinkIndex).Some? && old(draggedLinkIndex) != Some(index) ==>
        links == Move(old(links), old(draggedLinkIndex).value, index)
      ensures multiset(links) == multiset(old(links))
    {
      if draggedLinkIndex.Some? && draggedLinkIndex.value != index {
        links := Move(links, draggedLinkIndex.value, index);
      }
      draggedLinkIndex := None;
    }

    // --- submit ---

    /** `onSubmit()` with the form's validity as `valid`: nothing when
        invalid; otherwise the project handed to `saveProject`, with id
        `projectId || 0`, the first image as cover, the rest as additional
        images, one author reference per entry and the flag cleared. */
    method OnSubmit(valid: bool) returns (saved: Option<Project>)
      ensures !valid ==> saved.None?
      ensures valid ==> saved.Some?
      ensures valid ==> saved.value.id == (if projectId.Some? then projectId.value else 0)
      ensures valid ==> saved.value.imageUrl == (if |images| > 0 then images[0] else "")
      ensures valid ==> saved.value.additionalImages == (if |images| > 1 then images[1..] else [])
      ensures valid ==> [saved.value.imageUrl] + saved.value.additionalImages == (if |images| > 0 then images else [""])
      ensures valid ==> saved.value.authors == CleanAuthors(authors)
      ensures valid ==> forall k :: 0 <= k < |authors| && authors[k].Registered? ==>
        saved.value.authors[k] == CleanAuthorAsWritten(authors[k])
      ensures valid ==> saved.value.tags == tags && saved.value.modules == Some(modules) && saved.value.links == links
      ensures valid ==> saved.value.title == title && saved.value.description == description
      ensures valid ==> saved.value.origin == origin && saved.value.promo == promo
      ensures valid ==> saved.value.skillsLearned == skillsLearned && !saved.value.isFavorite
    {
      if !valid {
        return None;
      }
      var mainImg := if |images| > 0 then images[0] else "";
      var addImg := if |images| > 1 then images[1..] else [];
      var id := if projectId.Some? then projectId.value else 0;
      saved := Some(Project(id, title, description, mainImg, addImg, CleanAuthors(authors), false,
                            tags, Some(modules), promo, origin, skillsLearned, links));
      forall k | 0 <= k < |authors| && authors[k].Registered?
        ensures saved.value.authors[k] == CleanAuthorAsWritten(authors[k])
      {
        CleanAuthorAgrees(authors[k]);
      }
    }
  }
}
