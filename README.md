# PortFILio in Dafny

PortFILio is an Angular front end where students publish school projects.
The app has no backend: projects come from a JSON fixture, users and the
session live in browser storage, and every page filters, sorts and pages in
memory. This project models that logic and proves what it promises:

- the favorites page: search, three facet filters, a four-way sort and
  twelve items per page;
- the two session services: the current one on browser storage and the
  older one with an in-memory user table;
- the project form: images, tags, modules, authors and links kept under
  their invariants, loading a stored project, and the record built on submit;
- the project service's favorite toggle and load-once cache;
- the home, profile and project list pages;
- the profile editor;
- the project detail page, the avatar initials, the project card label and
  the sign-up form.

Each source file is one module. Angular components and services are
classes with `modifies` clauses. Their subscriptions become methods that
take the delivered value as a parameter. Form arrays are sequences of their
values. Pure pieces are functions with lemmas:

- `Array.prototype.filter` is `Seqs.Filter`;
- `sort` is the stable insertion sort `Favorites.SortBy`;
- `trim` is `Text.Trim`, over ECMAScript white space;
- `toLowerCase` and `toUpperCase` map ASCII letters only;
- `localeCompare` becomes code-point lexicographic order;
- `Math.ceil` becomes `Pagination.TotalPages`.

These are passed in as parameters:

- `Date.now()`;
- the HTTP fixture responses;
- the conversion `Number(...)` of a route parameter;
- the form's validity.

Shared modules: `Wrappers` (Option, Result), `Text`, `Seqs`, `Models` (the
records), `Pagination`.

## Model

| member | source | states |
|---|---|---|
| Text.Trim | portfilio/src/app/pages/favorites/favorites.component.ts:90 | the result is the input with its leading and its trailing ECMAScript white space cut: a slice of the input, starting after the leading white space, with only white space after it; empty exactly when the input is all white space, otherwise neither starting nor ending with white space |
| Text.TrimUnique | portfilio/src/app/pages/favorites/favorites.component.ts:90 | any slice with only white space before and after it, and with no white space at either end, is the trimmed text: `trim` has one possible result |
| Text.Lower | portfilio/src/app/pages/favorites/favorites.component.ts:91 | same length, each character mapped by the ASCII lower-case map |
| Text.Upper | portfilio/src/app/shared/components/avatar/avatar.component.ts:34-37 | same length, each character mapped by the ASCII upper-case map |
| Text.ContainsIff | portfilio/src/app/pages/favorites/favorites.component.ts:93 | `includes` holds exactly when the term occurs at some position of the string |
| Text.Split | portfilio/src/app/shared/components/avatar/avatar.component.ts:31 | `split(' ')` yields at least one piece and no piece contains a space |
| Text.JoinSplit | portfilio/src/app/shared/components/avatar/avatar.component.ts:31 | joining the pieces with single spaces gives the string back |
| Text.SplitFirst | portfilio/src/app/shared/components/avatar/avatar.component.ts:31-37 | with a space present there are at least two pieces and the first ends at the first space |
| Text.SplitLast | portfilio/src/app/shared/components/avatar/avatar.component.ts:31-37 | with a space present the last piece starts after the last space |
| Text.NatToString | portfilio/src/app/shared/components/project-card/project-card.component.ts:31 | the decimal text of a count is a non-empty string of digits |
| Text.DecimalRoundTrip | portfilio/src/app/shared/components/project-card/project-card.component.ts:31 | reading the decimal text back gives the number |
| Text.LexLeTotal | portfilio/src/app/pages/favorites/favorites.component.ts:122-123 | the title order standing in for `localeCompare` is total |
| Text.LexLeTransitive | portfilio/src/app/pages/favorites/favorites.component.ts:122-123 | the title order is transitive |
| Text.LexLeAntisymmetric | portfilio/src/app/pages/favorites/favorites.component.ts:122-123 | titles ordered both ways are equal |
| Seqs.Filter | portfilio/src/app/pages/favorites/favorites.component.ts:92-95 | `filter` keeps exactly the elements satisfying the test, in order, and never grows the list |
| Seqs.FilterCounts | portfilio/src/app/pages/favorites/favorites.component.ts:92-95 | `filter` keeps every copy of a kept element and none of the others |
| Seqs.SubsequenceCounts | portfilio/src/app/pages/favorites/favorites.component.ts:87-95 | a list taken in order from another holds no element more often than that one |
| Seqs.FilterKeepsAll | portfilio/src/app/pages/favorites/favorites.component.ts:87-95 | a test every element passes leaves the list as it is |
| Seqs.RemoveAt | portfilio/src/app/pages/project-form/project-form.component.ts:155-157 | `removeAt(i)` drops element i and shifts the rest down; an index past the end changes nothing |
| Seqs.InsertAt | portfilio/src/app/pages/project-form/project-form.component.ts:165 | `insert(i, x)` places x at i (at the end past the end); removing it again gives the list back |
| Seqs.Move | portfilio/src/app/pages/project-form/project-form.component.ts:161-166 | remove-then-insert keeps length and multiset, puts the dragged element at the target, and leaves the other elements in order |
| Models.FindProject | portfilio/src/app/core/services/project.service.ts:41 | `find` by id: absent iff no project has the id, otherwise the first index carrying it |
| Pagination.TotalPages | portfilio/src/app/pages/favorites/favorites.component.ts:135 | `Math.ceil(n / size)`: the least page count whose pages hold n items; zero exactly for the empty list |
| Pagination.PageSlice | portfilio/src/app/pages/favorites/favorites.component.ts:139-141 | the window `[(p-1)*size, p*size)`: at most size items, empty past the end, each item the one at its offset |
| Pagination.ResetPage | portfilio/src/app/pages/favorites/favorites.component.ts:136-137 | a page beyond the last, or any page of an empty list, becomes page 1; any other page is kept |
| Pagination.PageNumbers | portfilio/src/app/pages/favorites/favorites.component.ts:152-154 | the buttons are exactly 1..totalPages |
| Pagination.ItemOnPage | portfilio/src/app/pages/favorites/favorites.component.ts:134-142 | every item appears on a page that exists, at offset k mod size of page k div size + 1 |
| Pagination.ResetPageShowsItems | portfilio/src/app/pages/favorites/favorites.component.ts:134-142 | after the reset, a non-empty list never shows an empty page |
| Favorites.FavoritesOf | portfilio/src/app/pages/favorites/favorites.component.ts:58 | exactly the projects flagged favorite are kept |
| Favorites.TitleFilter | portfilio/src/app/pages/favorites/favorites.component.ts:92-94 | exactly, in order, the projects whose lower-cased title contains the lower-cased term |
| Favorites.SearchStage | portfilio/src/app/pages/favorites/favorites.component.ts:90-95 | a blank term keeps every project; otherwise exactly the title matches survive |
| Favorites.TagStage | portfilio/src/app/pages/favorites/favorites.component.ts:98-102 | inactive or empty selection keeps all; otherwise exactly the projects sharing a tag with the selection |
| Favorites.ModuleStage | portfilio/src/app/pages/favorites/favorites.component.ts:105-109 | as the tag stage, over modules, with missing modules counted as none |
| Favorites.PromoStage | portfilio/src/app/pages/favorites/favorites.component.ts:112-116 | inactive or empty selection keeps all; otherwise exactly the projects whose promo is selected |
| Favorites.Before | portfilio/src/app/pages/favorites/favorites.component.ts:119-125 | definition, no contract: the order each `switch` branch sorts by (decreasing id for `recent` and the default, increasing for `oldest`, title order for `az`, reversed for `za`); its properties are the rows below |
| Favorites.BeforeTotal | portfilio/src/app/pages/favorites/favorites.component.ts:119-125 | any two projects are comparable under each sort key |
| Favorites.BeforeTransitive | portfilio/src/app/pages/favorites/favorites.component.ts:119-125 | each sort key's order is transitive |
| Favorites.Insert | portfilio/src/app/pages/favorites/favorites.component.ts:119-125 | inserting into a sorted list gives a sorted list with one more copy of the element |
| Favorites.PrependSorted | portfilio/src/app/pages/favorites/favorites.component.ts:119-125 | an element that may precede every element of a sorted list can head it |
| Favorites.SortBy | portfilio/src/app/pages/favorites/favorites.component.ts:119-125 | the sort returns a permutation of its input, ordered by the selected key |
| Favorites.Pipeline | portfilio/src/app/pages/favorites/favorites.component.ts:86-127 | definition, no contract: `applyGlobalFilters` as the search stage, then the tag, module and promo stages, then the sort; its properties are `PipelineSpec`, `NoCriteriaKeepsAll` and `PipelineOrder` |
| Favorites.PipelineSpec | portfilio/src/app/pages/favorites/favorites.component.ts:86-127 | the filtered list is a permutation of a sub-collection of all favorites, holds exactly the favorites meeting the search and every active facet, and is in sort order |
| Favorites.NoCriteriaKeepsAll | portfilio/src/app/pages/favorites/favorites.component.ts:86-127 | with a blank term and no facet in force the filtered list is a permutation of all favorites |
| Favorites.PipelineOrder | portfilio/src/app/pages/favorites/favorites.component.ts:119-125 | with unique ids: `oldest` gives strictly increasing ids, `recent` and every key without a branch strictly decreasing ids, `az`/`za` ascending/descending titles |
| Favorites.WithoutId | portfilio/src/app/pages/favorites/favorites.component.ts:171 | exactly the projects with another id remain, in order |
| Favorites.FavoritesPage.constructor | portfilio/src/app/pages/favorites/favorites.component.ts:34-52 | empty lists, page 1 of 1, term empty, sort `recent`, default filters, nothing pending |
| Favorites.FavoritesPage.OnProjects | portfilio/src/app/pages/favorites/favorites.component.ts:54-63 | the favorites of the delivered list are stored and the page state is consistent with them |
| Favorites.FavoritesPage.OnSearch | portfilio/src/app/pages/favorites/favorites.component.ts:67-71 | the term is stored, the page reset to 1, and the page state is consistent |
| Favorites.FavoritesPage.OnSort | portfilio/src/app/pages/favorites/favorites.component.ts:73-76 | the key is stored; the current page is kept unless out of range; the page state is consistent |
| Favorites.FavoritesPage.OnFilter | portfilio/src/app/pages/favorites/favorites.component.ts:78-82 | the filters are stored, the page reset to 1, and the page state is consistent |
| Favorites.FavoritesPage.ApplyGlobalFilters | portfilio/src/app/pages/favorites/favorites.component.ts:86-130 | the stage-by-stage computation yields the pipeline result and a consistent page state |
| Favorites.FavoritesPage.UpdatePagination | portfilio/src/app/pages/favorites/favorites.component.ts:134-142 | page count is the ceiling, the page resets to 1 when out of range or empty, and the window of that page is shown |
| Favorites.FavoritesPage.GoToPage | portfilio/src/app/pages/favorites/favorites.component.ts:144-150 | a page outside 1..totalPages changes nothing; an accepted page becomes current and keeps the state consistent |
| Favorites.FavoritesPage.PageButtons | portfilio/src/app/pages/favorites/favorites.component.ts:152-154 | the buttons 1..totalPages |
| Favorites.FavoritesPage.InitDelete | portfilio/src/app/pages/favorites/favorites.component.ts:158-160 | the id becomes pending |
| Favorites.FavoritesPage.CancelDelete | portfilio/src/app/pages/favorites/favorites.component.ts:162-164 | nothing is pending |
| Favorites.FavoritesPage.ConfirmDelete | portfilio/src/app/pages/favorites/favorites.component.ts:166-178 | with no (or a falsy) pending id nothing changes; otherwise the service toggles that id, exactly the favorites with another id remain, the pending id clears, the page is kept if still in range and reset to 1 otherwise, and the page state is consistent; the service's load-once flag is kept |
| ProjectStore.Toggled | portfilio/src/app/core/services/project.service.ts:39-48 | only the first project with the id changes, and only its flag; list length and order are kept; an unknown id leaves the list as it is |
| ProjectStore.ToggleTwice | portfilio/src/app/core/services/project.service.ts:45 | toggling the same id twice restores the list |
| ProjectStore.FindProjectSameIds | portfilio/src/app/core/services/project.service.ts:41 | the lookup depends only on the ids |
| ProjectStore.ToggleUniqueFlipsThatProject | portfilio/src/app/core/services/project.service.ts:41-45 | with unique ids exactly the project carrying the id flips |
| ProjectStore.ProjectService.constructor | portfilio/src/app/core/services/project.service.ts:14-20 | an empty cache, not loaded |
| ProjectStore.ProjectService.GetProjects | portfilio/src/app/core/services/project.service.ts:23-36 | the first call stores the fetched list; later calls return the cache and ignore the fetch |
| ProjectStore.ProjectService.ToggleFavorite | portfilio/src/app/core/services/project.service.ts:39-49 | the list becomes the toggled list; the emission happens iff the id is present |
| Session.FindLogin | portfilio/src/app/core/services/auth.service.ts:65 | absent iff no user has both the email and the password; otherwise the first such user |
| Session.FindUser | portfilio/src/app/core/services/auth.service.ts:119 | absent iff no user has the id; otherwise the first index carrying it |
| Session.Redact | portfilio/src/app/core/services/auth.service.ts:109 | the same user, with the password removed and nothing else changed |
| Session.Merge | portfilio/src/app/core/services/auth.service.ts:127-132 | stored password and email always kept; id and names from the update; an optional property the update carries replaces the stored one |
| Session.RegisterThenLogin | portfilio/src/app/core/services/auth.service.ts:77-98 | a user registered with an unused email logs in with its own password and the login finds that new, last entry |
| Session.RegisterKeepsEmailsUnique | portfilio/src/app/core/services/auth.service.ts:80-91 | appending a user with an unused email keeps emails unique |
| Session.UpdateKeepsCredentials | portfilio/src/app/core/services/auth.service.ts:127-135 | a profile update matches the same credentials on the same entries, so login finds the same user |
| Session.SameCredentialsSameLogin | portfilio/src/app/core/services/auth.service.ts:65 | login depends only on the emails and passwords |
| Session.UpdateKeepsEmailsUnique | portfilio/src/app/core/services/auth.service.ts:127-135 | a profile update keeps emails unique |
| Session.AuthService.Users | portfilio/src/app/core/services/auth.service.ts:55-58 | an absent registry key reads as the empty registry, a present one as its contents |
| Session.AuthService.constructor | portfilio/src/app/core/services/auth.service.ts:24-27 | storage as found, and the stored session restored |
| Session.AuthService.RestoreSession | portfilio/src/app/core/services/auth.service.ts:47-52 | a stored session becomes the current user; otherwise nothing changes |
| Session.AuthService.SetCurrentUser | portfilio/src/app/core/services/auth.service.ts:107-112 | the session and its stored copy are the user without a password |
| Session.AuthService.Login | portfilio/src/app/core/services/auth.service.ts:62-75 | true iff some stored user matches email and password exactly; the session becomes the first match, password removed; failure changes nothing; the registry never changes |
| Session.AuthService.Register | portfilio/src/app/core/services/auth.service.ts:77-98 | refused (nothing written) iff the email is taken; otherwise exactly the user with the new id is appended and becomes the password-free session |
| Session.AuthService.Logout | portfilio/src/app/core/services/auth.service.ts:100-105 | no session, stored or current |
| Session.AuthService.UpdateUser | portfilio/src/app/core/services/auth.service.ts:116-141 | an unknown id changes nothing; otherwise only that entry is replaced by the merge and the merge becomes the password-free session |
| LegacySession.NewUser | portfilio/src/app/core/auth/auth.service.ts:69-75 | only id, email, password and the two names are copied; every other property is absent |
| LegacySession.RegisteredCanLogin | portfilio/src/app/core/auth/auth.service.ts:63-79 | a user registered with a password can log in with it and is found as the new entry |
| LegacySession.AuthService.constructor | portfilio/src/app/core/auth/auth.service.ts:17-34 | the table is the stored one, or empty without one; no session yet |
| LegacySession.AuthService.AutoLogin | portfilio/src/app/core/auth/auth.service.ts:40-46 | a persisted user becomes current; otherwise nothing changes |
| LegacySession.AuthService.Login | portfilio/src/app/core/auth/auth.service.ts:48-56 | success iff some user has exactly these credentials; the session and its stored copy are that user, password included; failure is the fixed error and changes nothing |
| LegacySession.AuthService.Logout | portfilio/src/app/core/auth/auth.service.ts:58-61 | no session, stored or current |
| LegacySession.AuthService.Register | portfilio/src/app/core/auth/auth.service.ts:63-83 | a taken email is the fixed error and changes nothing; otherwise the reduced record is appended and the table saved |
| Home.HomeMatches | portfilio/src/app/pages/home/home.component.ts:72-75 | definition, no contract: the lower-cased title, or some lower-cased tag, contains the lower-cased term; `HomeSearch` states what the filter keeps by it |
| Home.HomeSearch | portfilio/src/app/pages/home/home.component.ts:71-75 | exactly, in order, the projects whose lower-cased title or some lower-cased tag contains the lower-cased term |
| Home.Hero | portfilio/src/app/pages/home/home.component.ts:35 | the first min(5, n) projects |
| Home.HomePage.constructor | portfilio/src/app/pages/home/home.component.ts:21-28 | empty lists, page 1 of 1 |
| Home.HomePage.OnProjects | portfilio/src/app/pages/home/home.component.ts:30-38 | all and filtered lists are the data, the hero strip its first five, the page unchanged and the window consistent |
| Home.HomePage.UpdatePagination | portfilio/src/app/pages/home/home.component.ts:46-51 | page count is the ceiling and the window is the current page's, with no clamping of the page |
| Home.HomePage.GoToPage | portfilio/src/app/pages/home/home.component.ts:53-59 | only a page in 1..totalPages is accepted and then shown; others change nothing |
| Home.HomePage.PageButtons | portfilio/src/app/pages/home/home.component.ts:61-63 | the buttons 1..totalPages |
| Home.HomePage.OnSearch | portfilio/src/app/pages/home/home.component.ts:66-78 | page 1; a blank term restores every project, any other term keeps the title-or-tag matches |
| Home.HomePage.OnToggleFavorite | portfilio/src/app/pages/home/home.component.ts:90-94 | the service's list and each local list flip their first project with the id, and nothing else in those lists changes; the service's load-once flag is kept |
| Profile.AuthoredBy | portfilio/src/app/pages/profile/profile.component.ts:51-53 | exactly, in order, the projects with an author carrying the user's id |
| Profile.Description | portfilio/src/app/pages/profile/profile.component.ts:82 | the fallback text exactly when there is no user, no description, an empty one, or one equal to the fallback; otherwise the description |
| Profile.ProfilePage.constructor | portfilio/src/app/pages/profile/profile.component.ts:26-34 | no user, empty lists, page 1 of 1, nothing pending |
| Profile.ProfilePage.OnUser | portfilio/src/app/pages/profile/profile.component.ts:36-43 | the user is stored; with a user the list is that user's projects, the page is kept if still in range and reset to 1 otherwise, and the pages are consistent; without one nothing else changes |
| Profile.ProfilePage.LoadUserProjects | portfilio/src/app/pages/profile/profile.component.ts:45-58 | no user changes nothing; otherwise the user's projects, on the reset page, with consistent pages |
| Profile.ProfilePage.UpdatePagination | portfilio/src/app/pages/profile/profile.component.ts:60-67 | four per page, ceiling page count, reset to 1 when out of range or empty, consistent window |
| Profile.ProfilePage.GoToPage | portfilio/src/app/pages/profile/profile.component.ts:69-75 | only a page in 1..totalPages is accepted; others change nothing |
| Profile.ProfilePage.PageButtons | portfilio/src/app/pages/profile/profile.component.ts:77-79 | the buttons 1..totalPages |
| Profile.ProfilePage.UserDescription | portfilio/src/app/pages/profile/profile.component.ts:81-83 | as `Description` on the current user |
| Profile.ProfilePage.OnToggleFavorite | portfilio/src/app/pages/profile/profile.component.ts:86-90 | the service toggles that id and keeps its load-once flag, so later reads still serve the toggled cache |
| Profile.ProfilePage.OnDeleteRequest | portfilio/src/app/pages/profile/profile.component.ts:98-100 | the id becomes pending |
| Profile.ProfilePage.CancelDelete | portfilio/src/app/pages/profile/profile.component.ts:103-105 | nothing is pending |
| Profile.ProfilePage.ConfirmDelete | portfilio/src/app/pages/profile/profile.component.ts:108-119 | no (or a falsy) pending id changes nothing; otherwise its deletion is requested and the pending id cleared; with a user the list is that user's remaining projects, the page kept if in range and reset to 1 otherwise, with consistent pages; without a user the lists, the page and the page count stay |
| ProjectList.ProjectListPage.constructor | portfilio/src/app/features/projects/project-list/project-list.component.ts:23-28 | empty lists, page 1, zero pages |
| ProjectList.ProjectListPage.OnProjects | portfilio/src/app/features/projects/project-list/project-list.component.ts:30-38 | the list is stored, its page count is the ceiling and the current window is shown |
| ProjectList.ProjectListPage.UpdatePaginatedProjects | portfilio/src/app/features/projects/project-list/project-list.component.ts:40-44 | the current page's window, at most twelve projects |
| ProjectList.ProjectListPage.GoToPage | portfilio/src/app/features/projects/project-list/project-list.component.ts:46-51 | only a page in 1..totalPages is accepted and then shown; others change nothing |
| ProjectList.ProjectListPage.Pages | portfilio/src/app/features/projects/project-list/project-list.component.ts:53-55 | the pages 1..totalPages |
| EditProfile.Row | portfilio/src/app/pages/profile/edit-profile.component.ts:74-78 | a given link is kept as it is; no link gives an empty row |
| EditProfile.UpdatedUser | portfilio/src/app/pages/profile/edit-profile.component.ts:121-127 | the current user with the form's names, description and links, and nothing else changed |
| EditProfile.SavedProfile | portfilio/src/app/pages/profile/edit-profile.component.ts:121-130 | the stored result of a profile save keeps email and password, takes the form's fields, and the session's id, promo and avatar when present |
| EditProfile.EditProfilePage.constructor | portfilio/src/app/pages/profile/edit-profile.component.ts:38-45 | an empty form and no user |
| EditProfile.EditProfilePage.OnUser | portfilio/src/app/pages/profile/edit-profile.component.ts:48-63 | the user is stored; with a user the fields are filled and the rows are exactly the user's links, in order; without one nothing else changes |
| EditProfile.EditProfilePage.AddLink | portfilio/src/app/pages/profile/edit-profile.component.ts:74-80 | exactly one row appended |
| EditProfile.EditProfilePage.RemoveLink | portfilio/src/app/pages/profile/edit-profile.component.ts:82-84 | only that row goes; an index past the end changes nothing |
| EditProfile.EditProfilePage.Drop | portfilio/src/app/pages/profile/edit-profile.component.ts:87-91 | a clamped move that only permutes the rows; an empty list stays empty |
| EditProfile.EditProfilePage.AvailableTypes | portfilio/src/app/pages/profile/edit-profile.component.ts:97-105 | a type is offered iff no row uses it or it is this row's; picker order is kept; the row's own type is always offered |
| EditProfile.EditProfilePage.OnSubmit | portfilio/src/app/pages/profile/edit-profile.component.ts:109-133 | an invalid form or no user sends nothing and leaves the session service unchanged; otherwise the updated profile is sent, an unknown id changes nothing, and a known one has its stored entry replaced by the merge, which becomes the password-free session |
| EditProfile.Clamp | portfilio/src/app/pages/profile/edit-profile.component.ts:88 | the result always lies inside the list, and an index already inside it is kept |
| ProjectDetail.Lookup | portfilio/src/app/pages/project-detail/project-detail.component.ts:47 | the first project with the route id, or none when no project has it or the id is not an integer |
| ProjectDetail.EditableIffOnProfile | portfilio/src/app/pages/project-detail/project-detail.component.ts:53-57 | a project is editable by a user exactly when it is on that user's profile list |
| ProjectDetail.DetailPage.constructor | portfilio/src/app/pages/project-detail/project-detail.component.ts:35-40 | no project, the session's user, menu and modal closed |
| ProjectDetail.DetailPage.OnInit | portfilio/src/app/pages/project-detail/project-detail.component.ts:42-50 | a falsy id leaves the page as it is; otherwise the project is the lookup result |
| ProjectDetail.DetailPage.IsEditable | portfilio/src/app/pages/project-detail/project-detail.component.ts:53-57 | false without a project or a user; otherwise true iff some author id is the user's id |
| ProjectDetail.DetailPage.ToggleFavorite | portfilio/src/app/pages/project-detail/project-detail.component.ts:61-65 | no project changes nothing; otherwise the service toggles its id, keeping its load-once flag, and the page's copy flips with the service's |
| ProjectDetail.DetailPage.ToggleMenu | portfilio/src/app/pages/project-detail/project-detail.component.ts:67-69 | the menu flag is inverted |
| ProjectDetail.DetailPage.OnEdit | portfilio/src/app/pages/project-detail/project-detail.component.ts:72-76 | the menu is closed |
| ProjectDetail.DetailPage.OnDeleteRequest | portfilio/src/app/pages/project-detail/project-detail.component.ts:78-81 | the menu is closed and the modal open |
| ProjectDetail.DetailPage.ConfirmDelete | portfilio/src/app/pages/project-detail/project-detail.component.ts:83-89 | no project changes nothing; otherwise its deletion is requested and the modal closes |
| ProjectDetail.DetailPage.CancelDelete | portfilio/src/app/pages/project-detail/project-detail.component.ts:91-93 | the modal is closed |
| Avatar.Initials | portfilio/src/app/shared/components/avatar/avatar.component.ts:26-39 | at most two characters with no lower-case letter; none for a blank name |
| Avatar.InitialsOfWords | portfilio/src/app/shared/components/avatar/avatar.component.ts:30-38 | a name that is not blank gives the upper-cased first character of a one-word name, and the upper-cased first characters of the first and last words otherwise |
| Avatar.PairInitials | portfilio/src/app/shared/components/avatar/avatar.component.ts:35-37 | a trimmed name with a space gives its first character and the character after its last space |
| Avatar.InitialsIgnorePadding | portfilio/src/app/shared/components/avatar/avatar.component.ts:31 | names equal after trimming have the same initials |
| Avatar.AvatarBadge.constructor | portfilio/src/app/shared/components/avatar/avatar.component.ts:12-16 | empty name and initials |
| Avatar.AvatarBadge.OnChanges | portfilio/src/app/shared/components/avatar/avatar.component.ts:20-24 | a changed name is stored with its initials; any other change leaves both |
| ProjectCard.AuthorLabel | portfilio/src/app/shared/components/project-card/project-card.component.ts:29-34 | a group gets its head count with the suffix, a single author its name |
| ProjectCard.GroupLabelCounts | portfilio/src/app/shared/components/project-card/project-card.component.ts:31 | a group label is a digit string that reads back as the number of authors, followed by the suffix |
| ProjectCard.Card.constructor | portfilio/src/app/shared/components/project-card/project-card.component.ts:17 | the card shows the given project |
| ProjectCard.Card.OnFavoriteClick | portfilio/src/app/shared/components/project-card/project-card.component.ts:37-41 | the emitted id is the card's project id |
| RegisterPage.Applicant | portfilio/src/app/pages/auth/register/register.component.ts:42-49 | trimmed names and email, the raw password, promo A1, id 0 and nothing else |
| RegisterPage.CompleteApplicantIsClean | portfilio/src/app/pages/auth/register/register.component.ts:58-69 | a complete form gives non-empty names and email with no white space at either end, and a non-empty password |
| RegisterPage.RegisterForm.constructor | portfilio/src/app/pages/auth/register/register.component.ts:23-27 | all five fields empty |
| RegisterPage.RegisterForm.ValidateForm | portfilio/src/app/pages/auth/register/register.component.ts:58-69 | false exactly when a name or the email is blank or a password field is empty |
| RegisterPage.RegisterForm.OnSubmit | portfilio/src/app/pages/auth/register/register.component.ts:29-55 | incomplete form and differing passwords stop before the service and change nothing; a taken email is refused; otherwise the applicant is stored with the new id, becomes the session, and can log in with the trimmed email and the password |
| ProjectFormPage.FindIgnoringCase | portfilio/src/app/pages/project-form/project-form.component.ts:181 | absent iff no entry equals the value ignoring case; otherwise the first such entry |
| ProjectFormPage.Spelling | portfilio/src/app/pages/project-form/project-form.component.ts:181-184 | the first known spelling equal ignoring case, or the value itself; always equal to it ignoring case |
| ProjectFormPage.WithValue | portfilio/src/app/pages/project-form/project-form.component.ts:176-195 | blank input ignored; a value already selected ignoring case is not added again; otherwise the known spelling is appended; no case-insensitive duplicate is ever created |
| ProjectFormPage.WithValues | portfilio/src/app/pages/project-form/project-form.component.ts:107-108 | adding a list of values keeps the no-duplicate invariant and ends with every non-blank value present ignoring case |
| ProjectFormPage.WithValuesKeeps | portfilio/src/app/pages/project-form/project-form.component.ts:107 | adding values never loses one already present |
| ProjectFormPage.SomeNonBlankIff | portfilio/src/app/pages/project-form/project-form.component.ts:176-195 | some value of the list is non-blank exactly when some `addTag`/`addModule` call of the loop gets past the blank check and closes the suggestions |
| ProjectFormPage.AddValueIdempotent | portfilio/src/app/pages/project-form/project-form.component.ts:186-191 | adding the same value twice is adding it once |
| ProjectFormPage.Suggestions | portfilio/src/app/pages/project-form/project-form.component.ts:171-174 | exactly, in order, the known values containing the input ignoring case |
| ProjectFormPage.AuthorSuggestions | portfilio/src/app/pages/project-form/project-form.component.ts:230-236 | exactly, in order, the users not yet authors whose first or last name contains the input; none is already an author |
| ProjectFormPage.WithAuthor | portfilio/src/app/pages/project-form/project-form.component.ts:238-245 | a user whose id is present is not added again, otherwise appended; author ids stay unique and the id is present afterwards |
| ProjectFormPage.LoadStep | portfilio/src/app/pages/project-form/project-form.component.ts:114-117 | definition, no contract: one stored author becomes its full user through `addAuthor` when the registry has one, and is pushed as the stored reference otherwise; its properties are `LoadStepKeeps` and `LoadStepFresh` |
| ProjectFormPage.LoadStepKeeps | portfilio/src/app/pages/project-form/project-form.component.ts:114-117 | a stored author is represented afterwards; nothing is lost; anything new carries its id; every full user comes from the registry |
| ProjectFormPage.LoadStepFresh | portfilio/src/app/pages/project-form/project-form.component.ts:114-117 | a stored author whose id is not in the list yet gets its own entry at the end |
| ProjectFormPage.SomeRegisteredIff | portfilio/src/app/pages/project-form/project-form.component.ts:114-117 | some stored author has a user in the registry exactly when the load calls `addAuthor`, which closes the author suggestions |
| ProjectFormPage.LoadedAuthorsCover | portfilio/src/app/pages/project-form/project-form.component.ts:113-118 | every stored author is represented, every entry carries a stored id, every full user is from the registry |
| ProjectFormPage.LoadedAuthorsSnoc | portfilio/src/app/pages/project-form/project-form.component.ts:113-118 | loading one more stored author is one more `LoadStep` on the list loaded so far |
| ProjectFormPage.EntryFor | portfilio/src/app/pages/project-form/project-form.component.ts:115-117 | the entry made for a stored author carries its id |
| ProjectFormPage.LoadedAuthorsOneEach | portfilio/src/app/pages/project-form/project-form.component.ts:113-118 | with distinct stored ids the loaded list has exactly one entry per stored author, in order |
| ProjectFormPage.WithImage | portfilio/src/app/pages/project-form/project-form.component.ts:149-153 | appended below five images, refused at five |
| ProjectFormPage.WithImages | portfilio/src/app/pages/project-form/project-form.component.ts:110-111 | at five images nothing is added; otherwise the urls are appended in order and the list is cut at five |
| ProjectFormPage.FallbackNameLost | portfilio/src/app/pages/project-form/project-form.component.ts:306-310 | as written, an author whose user is gone loses its stored name on load-then-submit |
| ProjectFormPage.CleanAuthorAsWritten | portfilio/src/app/pages/project-form/project-form.component.ts:306-310 | the `cleanAuthors` map as written: every entry read as a full user; for a fallback entry the name is "undefined undefined" while the id and avatar come from the stored reference |
| ProjectFormPage.CleanAuthor | portfilio/src/app/pages/project-form/project-form.component.ts:306-310 | corrected (see ## Findings): the reference keeps the entry's id; a full user gives its full name and avatar; a fallback entry is kept as stored |
| ProjectFormPage.CleanAuthors | portfilio/src/app/pages/project-form/project-form.component.ts:306-310 | corrected (see ## Findings): one reference per entry, in order |
| ProjectFormPage.CleanAuthorAgrees | portfilio/src/app/pages/project-form/project-form.component.ts:306-310 | the corrected and the as-written map agree on every full user; on a fallback entry they agree exactly when its stored name is "undefined undefined" |
| ProjectFormPage.FallbacksSurviveSubmit | portfilio/src/app/pages/project-form/project-form.component.ts:306-310 | load-then-submit gives one reference per stored author, same ids and order; a missing user's author comes back exactly as stored |
| ProjectFormPage.ProjectForm.constructor | portfilio/src/app/pages/project-form/project-form.component.ts:50-63 | known tags, modules and users as found (an empty registry falls back to the current user), an empty form with promo A1, the invariant holds |
| ProjectFormPage.ProjectForm.OnRoute | portfilio/src/app/pages/project-form/project-form.component.ts:65-77 | with an id: edit mode and that id; an unknown id leaves every form field and suggestion list as it was, a found one leaves the form exactly as `LoadProjectData` loads it (fields, tags, modules, images, authors, links and the three suggestion lists); without an id: a current user is added as an author through `addAuthor` and the author suggestions close, no user changes nothing, and the text fields, images, tags, modules, links, the tag and module suggestions, id and mode stay; the drag indices are outside the frame; the invariant is kept |
| ProjectFormPage.ProjectForm.LoadProjectData | portfilio/src/app/pages/project-form/project-form.component.ts:95-125 | only the form fields and the three suggestion lists may change (not the mode, the id or the drag indices); an unknown id changes none of them; a found project sets the five text fields, adds its tags, modules (none when absent), cover and additional images through the add operations, rebuilds the authors as `LoadedAuthors`, appends its links, and closes each suggestion list exactly when some add call reached the line that closes it; the invariant is kept |
| ProjectFormPage.ProjectForm.Fill | portfilio/src/app/pages/project-form/project-form.component.ts:99-122 | the found project loaded as `Loaded` states: fields, lists and the three suggestion lists; the invariant is kept |
| ProjectFormPage.ProjectForm.FillFields | portfilio/src/app/pages/project-form/project-form.component.ts:99-108 | text fields overwritten, tags and modules added one by one, their suggestion lists closed exactly when some value was non-blank |
| ProjectFormPage.ProjectForm.FillText | portfilio/src/app/pages/project-form/project-form.component.ts:99-105 | the five text fields take the project's values and nothing else changes |
| ProjectFormPage.ProjectForm.FillValues | portfilio/src/app/pages/project-form/project-form.component.ts:107-108 | tags and modules added as `WithValues` says, absent modules as none; each suggestion list closed exactly when some value was non-blank |
| ProjectFormPage.ProjectForm.FillRest | portfilio/src/app/pages/project-form/project-form.component.ts:110-122 | images, authors and links added one by one; the author suggestions closed exactly when some stored author has a registered user |
| ProjectFormPage.ProjectForm.LoadTags | portfilio/src/app/pages/project-form/project-form.component.ts:107 | the loop adds the tags as `WithValues` says and keeps them duplicate-free; the tag suggestions close exactly when some tag is non-blank |
| ProjectFormPage.ProjectForm.LoadModules | portfilio/src/app/pages/project-form/project-form.component.ts:108 | the loop adds the modules as `WithValues` says and keeps them duplicate-free; the module suggestions close exactly when some module is non-blank |
| ProjectFormPage.ProjectForm.LoadImages | portfilio/src/app/pages/project-form/project-form.component.ts:110-111 | the loop adds the images as `WithImages` says |
| ProjectFormPage.ProjectForm.LoadAuthors | portfilio/src/app/pages/project-form/project-form.component.ts:113-118 | the cleared list rebuilt as `LoadedAuthors` says; the author suggestions close exactly when some stored author has a registered user |
| ProjectFormPage.ProjectForm.LoadAuthor | portfilio/src/app/pages/project-form/project-form.component.ts:114-117 | one stored author added by its full user when the registry has one (closing the author suggestions), as its stored reference otherwise (leaving them) |
| ProjectFormPage.ProjectForm.LoadLinks | portfilio/src/app/pages/project-form/project-form.component.ts:120-122 | exactly the stored links appended, in order |
| ProjectFormPage.ProjectForm.AddImage | portfilio/src/app/pages/project-form/project-form.component.ts:149-153 | never more than five images; at five a no-op; the form invariant `Valid` is kept |
| ProjectFormPage.ProjectForm.RemoveImage | portfilio/src/app/pages/project-form/project-form.component.ts:155-157 | only that image goes; the form invariant `Valid` is kept |
| ProjectFormPage.ProjectForm.OnImgDragStart | portfilio/src/app/pages/project-form/project-form.component.ts:159 | the drag index is recorded |
| ProjectFormPage.ProjectForm.OnImgDrop | portfilio/src/app/pages/project-form/project-form.component.ts:161-168 | no drag or a drop on itself changes nothing; otherwise the dragged image moves; the multiset is kept and the drag ends; the form invariant `Valid` is kept |
| ProjectFormPage.ProjectForm.OnTagInput | portfilio/src/app/pages/project-form/project-form.component.ts:171-174 | the suggestions are the known tags containing the input |
| ProjectFormPage.ProjectForm.AddTag | portfilio/src/app/pages/project-form/project-form.component.ts:176-195 | as `WithValue` on tags; suggestions close unless the input was blank; no case-insensitive duplicates; the form invariant `Valid` is kept |
| ProjectFormPage.ProjectForm.RemoveTag | portfilio/src/app/pages/project-form/project-form.component.ts:197-199 | only that tag goes; no duplicates appear; the form invariant `Valid` is kept |
| ProjectFormPage.ProjectForm.OnModuleInput | portfilio/src/app/pages/project-form/project-form.component.ts:202-205 | the suggestions are the known modules containing the input |
| ProjectFormPage.ProjectForm.AddModule | portfilio/src/app/pages/project-form/project-form.component.ts:207-223 | as `WithValue` on modules; suggestions close unless the input was blank; no case-insensitive duplicates; the form invariant `Valid` is kept |
| ProjectFormPage.ProjectForm.RemoveModule | portfilio/src/app/pages/project-form/project-form.component.ts:225-227 | only that module goes; no duplicates appear; the form invariant `Valid` is kept |
| ProjectFormPage.ProjectForm.OnAuthorInput | portfilio/src/app/pages/project-form/project-form.component.ts:230-236 | the suggestions never include a current author |
| ProjectFormPage.ProjectForm.AddAuthor | portfilio/src/app/pages/project-form/project-form.component.ts:238-245 | never a second entry with the same id; suggestions close |
| ProjectFormPage.ProjectForm.RemoveAuthor | portfilio/src/app/pages/project-form/project-form.component.ts:247-253 | a single author is never removed; a non-empty list stays non-empty |
| ProjectFormPage.ProjectForm.AddLink | portfilio/src/app/pages/project-form/project-form.component.ts:256-262 | exactly one link row appended |
| ProjectFormPage.ProjectForm.RemoveLink | portfilio/src/app/pages/project-form/project-form.component.ts:264-266 | only that row goes |
| ProjectFormPage.ProjectForm.OnLinkDragStart | portfilio/src/app/pages/project-form/project-form.component.ts:268 | the drag index is recorded |
| ProjectFormPage.ProjectForm.OnLinkDrop | portfilio/src/app/pages/project-form/project-form.component.ts:270-277 | as the image drop, over the link rows |
| ProjectFormPage.ProjectForm.OnSubmit | portfilio/src/app/pages/project-form/project-form.component.ts:284-331 | an invalid form saves nothing; otherwise the cover is the first image (or empty) and the rest are the additional images, the authors map one-to-one in order, the id is `projectId || 0`, every field is the form's, and the project is not a favorite; every full-user entry is saved exactly as the as-written map gives it (fallback entries: see ## Left out) |

## Left out

- HTTP loads of the JSON fixtures are not modelled. A fetched list is a parameter, and a failed fetch is not modelled.
- RxJS subjects and subscriptions, change detection, toasts, router navigation, `window.scrollTo`, `scrollToAnchor`, `console` output, `getHeroImageStyle` and the file picker (`triggerImageUpload`, `onFileSelected` with `FileReader`) are left out: they are I/O or presentation.
- `requestCancel`, `confirmCancel` and `closeModal` of the project form, and `onCancel` of the profile editor, are left out: they only toggle a modal or navigate.
- `deleteProject`, `saveProject`, `getAllTags` and `getAllModules` are called by the pages but are not defined in the project service source. The model returns the deleted id or saved project as an out-parameter. The known tags and modules are constructor arguments.
- JSON round trips through storage are treated as the identity.
- An explicitly `undefined` property in an update is treated as absent.
- Text.Lower: only ASCII letters are case-mapped; Unicode case mapping (for example "É") is not modelled.
- Text.Upper: only ASCII letters are case-mapped; Unicode case mapping is not modelled.
- Avatar.Initials: strings are sequences of Unicode scalar values, while `charAt(0)` returns one UTF-16 code unit. For a name starting with a character outside the Basic Multilingual Plane (an emoji, say), the source's badge shows a lone surrogate and the model the whole character; this is not modelled.
- Text.LexLe: stands in for `localeCompare` by code-point order; locale collation rules are not modelled.
- Favorites.SortBy: proves the result is sorted and a permutation, but not that equal keys keep their original order.
- Favorites.PipelineOrder: the search bar emits the sort keys `alpha` and `alpha-reverse`, while the switch tests `az` and `za`. This is modelled as written: those keys fall into the default branch and sort by decreasing id.
- Home.HomePage.OnToggleFavorite: in the source the service and the page hold the same project objects, so the service's flip (project.service.ts:45) and the page's own flip (home.component.ts:91-93) land on one object and cancel: the star ends where it started. The model keeps separate copies and flips each by id, so it does not capture this cancellation. It also flips, in each local list, that list's own first project with the id, where the source flips the first match in `allProjects` wherever that object appears; the two differ only when ids repeat and that first match was filtered out of a list.
- ProjectDetail.DetailPage.ToggleFavorite: the shared object is modelled by flipping the page's copy when the service finds the id.
- ProjectDetail.DetailPage.OnInit: the route parameter arrives already converted by `Number(...)`, as NaN, an integer or another number. String-to-number parsing is not modelled.
- ProjectFormPage.ProjectForm.OnSubmit: saves the corrected `CleanAuthors` references. Where an author entry is a fallback reference, the source's map (`CleanAuthorAsWritten`) saves the name "undefined undefined" instead (see ## Findings); the two agree on every full user, which `OnSubmit` states.
- Optional arrays: `additionalImages` and `links` are read as optional in the source (`additionalImages?.forEach`, `if (project.links)`, project-form.component.ts:111,120). The model types them as plain sequences, so a missing array is the empty sequence, which loads the same nothing.
- ProjectFormPage.ProjectForm.OnRoute: the route id arrives as an integer. A non-numeric id (NaN) is not modelled.
- Seqs.RemoveAt: indices are natural numbers. Angular's negative-index form of `removeAt` and `insert` is not modelled, and the templates never pass one.
- ProjectFormPage.ProjectForm.OnImgDrop: requires that a dragged index still names an image. Otherwise `insert` would receive `undefined`, which the model does not represent.
- ProjectFormPage.ProjectForm.OnLinkDrop: requires that a dragged index still names a link row, for the same reason.
- ProjectCard.AuthorLabel: requires at least one author. The source reads `authors[0].name` and would throw on an empty list.
- EditProfile.EditProfilePage.AvailableTypes: requires the row to exist. The source reads that row's control and would throw on a missing one.
- The form validators and their Angular messages are summarised by the `valid` parameter.

## Findings

| source | as written | input that shows it | evidently intended | confidence | as-written member | corrected member |
|---|---|---|---|---|---|---|
| portfilio/src/app/pages/project-form/project-form.component.ts:306-310 | on submit, every author entry is read as a full user (`${u.firstName} ${u.lastName}`), but `loadProjectData` (lines 114-117) stores an author whose user no longer exists as the stored reference itself, which has no `firstName` or `lastName` | edit a project whose author `{id: 7, name: "Ana B"}` has no user in the registry, then submit: the saved author is named "undefined undefined" | an author without a user is saved as the stored reference it already is | not executed | ProjectFormPage.FallbackNameLost | ProjectFormPage.FallbacksSurviveSubmit |
