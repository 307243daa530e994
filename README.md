# RIISE front-end: the list, string and state logic of its pages

RIISE is a React front-end to a research, innovation, IPR and startup registry. Its pages
fetch record lists from a REST backend, keep them in component state, and derive filtered
views and counters from them. This project models the logic those pages run between the
network calls. It proves the properties the pages depend on:

- the record-list updates: load, append, merge or replace by id, delete by id, and the
  research import that skips ids already present;
- the search filters and the counters;
- the cookie parsing behind the session and role checks, the access-token lookup, and the
  cookie-clearing loop run at logout;
- the sign-in slider and the sign-in request;
- the startup stage stepper;
- the form gates that must stop a request.

Every backend call is a parameter of the handler that makes it. It is an `Outcome`: `Ok`
with the decoded body, or `Fail` with the thrown error's message. A JavaScript object is a
`Record`, a map from property names to primitive `Value`s. A missing property reads as
`Undefined`, object spread is map union, and `===` is value equality. Each page is a class
with one field per `useState` variable. Each handler is a method whose `modifies` clause
names the fields the handler sets, so any field it does not name is unchanged.

Modules:

- `Values`: the primitive values, records, truthiness and backend outcomes.
- `Strings`: `toLowerCase`, `includes`, `startsWith`, `trim`, `indexOf`, `split`, `join`.
- `Collections`: the list operations the pages share.
- `Cookies`: the session and role read from the cookie string.
- `StatsOverview`: the research page's summary cards.
- `Research`, `Innovation`, `Startup`, `Ipr`, `UserData`, `Auth`, `Profile`: one module per
  page.

## Model

| member | source | states |
|---|---|---|
| Strings.Lower | app/innovation/page.jsx:222 | `toLowerCase` keeps the length and lowercases each character. |
| Strings.LowerIdempotent | app/innovation/page.jsx:222-223 | Lowercasing twice equals lowercasing once. Text without upper-case letters comes back unchanged. |
| Strings.IncludesAt | app/innovation/page.jsx:222-223 | `includes` holds exactly when the term starts some suffix of the text. |
| Strings.TrimStartShape | app/innovation/page.jsx:114 | The result is a suffix of the input, only white space was dropped, and it does not start with white space. |
| Strings.TrimEndShape | app/innovation/page.jsx:114 | The result is a prefix of the input, only white space was dropped, and it does not end with white space. |
| Strings.TrimEmptyIffBlank | app/innovation/page.jsx:114 | `!s.trim()` holds exactly for the strings that are empty or all white space. |
| Strings.IndexOf | app/profile/page.jsx:79 | `indexOf` gives -1 exactly when the character is absent, and otherwise its first position. |
| Strings.Split | app/innovation/page.jsx:45 | `split` gives at least one piece, and no piece contains the separator. |
| Strings.JoinSplit | app/innovation/page.jsx:45 | Joining the pieces of a split gives back the original string. |
| Strings.SplitHead | app/innovation/page.jsx:54 | The first piece of a split is a prefix of the text, ending at the first separator or at the end. |
| Strings.StartsWithAfter | app/innovation/page.jsx:46-51 | Putting the same text in front of both sides keeps `startsWith` true. |
| Strings.SplitCons | app/innovation/page.jsx:45 | A first piece without the separator comes back whole from a split, followed by the pieces of the rest. |
| Strings.SplitJoin | app/innovation/page.jsx:45 | Splitting a join of pieces that lack the separator gives back those pieces. |
| Collections.Filter | app/research/page.jsx:132-141 | `filter` keeps exactly the entries that pass, and never lengthens the list. |
| Collections.Count | app/userData/page.jsx:278 | `filter(keep).length` is at most the length, and zero exactly when no entry is kept. |
| Collections.CountEq | app/innovation/page.jsx:235-238 | Defines `filter(r => r[key] === v).length`. `CountEqIsMultiplicity` makes it the multiplicity of `v` in the column. |
| Collections.FieldIncludes | app/research/page.jsx:133-135 | Defines the case-insensitive search in one field: a text field includes the lowercased term. |
| Collections.FilterIsSubsequence | app/research/page.jsx:132 | A filtered list is the original list with some entries left out, in the same order. |
| Collections.FilterAll | app/ipr/page.jsx:94-95 | A filter that every entry passes gives back the whole list. |
| Collections.FilterPartition | app/userData/page.jsx:278 | The entries a filter keeps and the entries its complement keeps add up to the list length. |
| Collections.CountEqIsMultiplicity | app/innovation/page.jsx:235-238 | The count of entries whose field equals a value is the value's multiplicity in that field's column. |
| Collections.TwoCountsBounded | components/researchComponent/StatsOverview.jsx:6-8 | Counts of two different values in one field sum to at most the list length. |
| Collections.FourCountsBounded | app/innovation/page.jsx:234-238 | Counts of four different values in one field sum to at most the list length. |
| Collections.EmptyTermMatchesText | app/research/page.jsx:133 | The empty search term matches every text field. |
| Collections.IdSet | app/research/page.jsx:113 | The set of ids holds exactly the ids that some entry carries. |
| Collections.CountEqUnique | app/research/page.jsx:90 | With unique ids, an id is carried by at most one entry, and by exactly one if present. |
| Collections.AbsentIdCount | app/research/page.jsx:90 | An id outside the id set is carried by no entry. |
| Collections.RemoveId | app/research/page.jsx:90 | Delete keeps exactly the entries with another id, in order. It shortens the list by the number of entries with the id. |
| Collections.RemovePresentId | app/ipr/page.jsx:166 | With unique ids, deleting a present id shortens the list by one and removes the id. |
| Collections.MergeId | app/research/page.jsx:72-74 | Entries with the id take the patch's fields over their own. Every other entry, the positions and the length are unchanged. |
| Collections.MergeIdKeepsIds | app/research/page.jsx:72-74 | A merge whose patch keeps the id leaves every entry's id in place, so unique ids stay unique. |
| Collections.MergeAbsentId | app/research/page.jsx:72-74 | Merging for an id that no entry carries changes nothing. |
| Collections.ReplaceId | app/startup/page.jsx:614-618 | Entries with the id become the new record. The others, the positions and the length are unchanged. |
| Collections.ReplaceIdKeepsIds | app/startup/page.jsx:614-618 | Replacing by a record with the same id keeps every id, so unique ids stay unique. |
| Collections.AppendUnseen | app/research/page.jsx:112-116 | The import keeps the old list as a prefix. After it come exactly the returned papers whose id was not already present, in returned order. |
| Collections.AppendNothing | app/research/page.jsx:111 | An empty batch leaves the list unchanged. |
| Collections.AppendAllUnseen | app/research/page.jsx:112-116 | A batch of papers that are all new is appended whole. |
| Collections.FilterKeepsUnique | app/research/page.jsx:114 | Filtering a list with unique ids keeps the ids unique. |
| Collections.AppendUnseenKeepsUnique | app/research/page.jsx:112-116 | If the old list and the batch each have unique ids, so does the result: the import creates no duplicate. |
| Cookies.CookiePieces | app/innovation/page.jsx:45 | The pieces are the `;`-separated parts of the cookie string, each trimmed. |
| Cookies.SessionOfPieces | app/innovation/page.jsx:45-48 | A cookie string has a session exactly when some trimmed piece starts with `user_session=`. |
| Cookies.FindPiece | app/innovation/page.jsx:49-51 | `find` gives the first piece with the prefix, or none when no piece has it. |
| Cookies.ValueAfterName | app/innovation/page.jsx:53-55 | `split("=")[1]` is the text after the first `=` up to the next `=` or the end. |
| Cookies.ValueOfExactPiece | app/innovation/page.jsx:53-55 | The value of a piece `name=v` with no further `=` is `v`. |
| Cookies.HasSession | app/innovation/page.jsx:45-48 | Defines a session: some trimmed piece starts with `user_session=`. `Cookies.SessionOfPieces` is its property. |
| Cookies.RoleAt | app/innovation/page.jsx:49-55 | Defines the role's place. Piece `i` is the first piece that starts with `user_role=`, and `v` is its text between the first `=` and the next `=` or the end. |
| Cookies.RoleAtUnique | app/innovation/page.jsx:49-55 | At most one piece and one value fit that description, so the role is fully determined. |
| Cookies.RoleIn | app/innovation/page.jsx:49-55 | There is no role exactly when no piece starts with `user_role=`. Otherwise the role is the value of the first such piece. |
| Cookies.RoleOfPiece | app/innovation/page.jsx:49-55 | A piece `user_role=v` with no role piece before it gives role `v`, at any position. |
| Cookies.UserRole | app/innovation/page.jsx:45-55 | Over the trimmed pieces of the cookie string: no role exactly when no piece starts with `user_role=`. Otherwise the role is the value of the first such piece. |
| Cookies.RoleOfPieces | app/innovation/page.jsx:45-55 | A cookie string gives role `v` when its first trimmed piece that starts with `user_role=` is `user_role=v`, at any position. |
| StatsOverview.CitationValue | components/researchComponent/StatsOverview.jsx:7 | Defines what one paper adds to the citation sum: a number itself, `true` 1, anything else 0. |
| StatsOverview.TotalCitations | components/researchComponent/StatsOverview.jsx:7 | Defines the left fold of the citation sum. The `TotalCitations…` lemmas give its properties. |
| StatsOverview.TotalCitationsConcat | components/researchComponent/StatsOverview.jsx:7 | The citation sum over two lists joined is the sum of their citation sums. |
| StatsOverview.UncitedPapersAddNothing | components/researchComponent/StatsOverview.jsx:7 | Papers with missing or falsy citation counts sum to 0. |
| StatsOverview.TotalCitationsNonNegative | components/researchComponent/StatsOverview.jsx:7 | If no citation count is negative, the sum is not negative. |
| StatsOverview.Stats | components/researchComponent/StatsOverview.jsx:5-43 | There are four cards, in the order Total Papers, Published, Under Review, Total Citations. The two status counts sum to at most the total. |
| Research.PaperMatches | app/research/page.jsx:132-141 | Defines a match: the term occurs, ignoring case, in the title, the authors or the DOI, and each empty drop-down accepts every value. |
| Research.FilteredPapers | app/research/page.jsx:132-141 | Defines the view as the filter of the list by `PaperMatches`. `FilteredPapersAreMatches` gives its properties. |
| Research.FilteredPapersAreMatches | app/research/page.jsx:132-141 | The view is a subsequence of the list and holds exactly the matching papers. |
| Research.NoFilterShowsAll | app/research/page.jsx:137-138 | An empty search box and empty drop-downs show every searchable paper, in order. |
| Research.UnsearchableHidden | app/research/page.jsx:133-135 | A paper without title, authors and DOI text is never shown. |
| Research.DropDownsConstrain | app/research/page.jsx:137-138 | A chosen status or source admits only papers with exactly that value. |
| Research.ResearchPage.constructor | app/research/page.jsx:21-30 | The initial state: an empty list, loading, no error, empty filters and no modal. |
| Research.ResearchPage.FetchPapers | app/research/page.jsx:38-50 | A successful load replaces the list. A failure keeps the list and sets the error. |
| Research.ResearchPage.OpenAddPaperModal | app/research/page.jsx:144-148 | Opens the modal in add mode with no selected paper. |
| Research.ResearchPage.OpenEditPaperModal | app/research/page.jsx:150-154 | Opens the modal in edit mode on the paper. |
| Research.ResearchPage.OpenViewPaperModal | app/research/page.jsx:156-160 | Opens the modal in view mode on the paper. |
| Research.ResearchPage.AddPaper | app/research/page.jsx:52-66 | On success the returned paper is appended and the modal closes. On failure the list is unchanged and the error is set. |
| Research.ResearchPage.UpdatePaper | app/research/page.jsx:68-84 | On success the reply is merged into the entries with the selected id. With no selection the TypeError is shown. On failure the list is unchanged. |
| Research.ResearchPage.DeletePaper | app/research/page.jsx:86-97 | A request is sent only when confirmed. On success every entry with the id is removed, the rest kept in order. |
| Research.ResearchPage.ScholarSearch | app/research/page.jsx:99-129 | Chooses the Scholar ID or the author search. The unseen papers are appended and the modal closes. On failure the list is unchanged. |
| Innovation.AdminWithoutRole | app/innovation/page.jsx:53-59 | A missing role cookie turns the admin controls on. |
| Innovation.IsAdminRole | app/innovation/page.jsx:57-59 | Defines when the admin controls are on: the role is anything but exactly `user`, a missing role included. |
| Innovation.AdminUnlessUser | app/innovation/page.jsx:49-59 | When the first role piece is `user_role=v`, at any position, the admin controls are on exactly when `v` is not `user`. |
| Innovation.AdminExactlyUnlessUser | app/innovation/page.jsx:45-59 | For every cookie string, the admin controls are off exactly when the first role piece carries the value `user`. |
| Innovation.TextOr | app/innovation/page.jsx:203-213 | Defines the fallback for a text field: non-empty text is kept, anything else becomes the fallback. |
| Innovation.InnovationMatches | app/innovation/page.jsx:220-230 | Defines a match: the term occurs, ignoring case, in the title or the description, and each drop-down is `all` or equal to the field. |
| Innovation.FilteredInnovations | app/innovation/page.jsx:220-230 | Defines the view as the filter of the list by `InnovationMatches`. `FilteredInnovationsAreMatches` gives its properties. |
| Innovation.EmptyForm | app/innovation/page.jsx:192-199 | The reset form has an empty title, description, domain and level, and status `draft`. |
| Innovation.FilteredInnovationsAreMatches | app/innovation/page.jsx:220-230 | The view is a subsequence of the list and holds exactly the matching innovations. |
| Innovation.AllFiltersOffShowsAll | app/innovation/page.jsx:224-227 | An empty search with both drop-downs on `all` shows every innovation that has a title. |
| Innovation.GetStatusStats | app/innovation/page.jsx:232-241 | The total is the list length. Each status counter is that status's multiplicity. The four counters sum to at most the total. |
| Innovation.InnovationPage.constructor | app/innovation/page.jsx:21-38 | The initial state: an empty list, loading, filters on `all`, no modal and an empty form. |
| Innovation.InnovationPage.CheckSession | app/innovation/page.jsx:43-66 | Admin controls turn on unless the role is `user`. With no session the visitor is redirected home. |
| Innovation.InnovationPage.FetchInnovations | app/innovation/page.jsx:92-111 | An ok reply replaces the list. Anything else keeps it. |
| Innovation.InnovationPage.ResetForm | app/innovation/page.jsx:192-201 | The form returns to its reset value and the selection is cleared. |
| Innovation.InnovationPage.OpenEditModal | app/innovation/page.jsx:203-213 | The form takes the innovation's fields, with empty text or `draft` as fallbacks. |
| Innovation.InnovationPage.OpenViewModal | app/innovation/page.jsx:215-218 | Selects the innovation and opens the view modal. |
| Innovation.InnovationPage.AddInnovation | app/innovation/page.jsx:113-137 | A blank title sends nothing. On success the list is fetched again, the modal closes and the form resets. |
| Innovation.InnovationPage.UpdateInnovation | app/innovation/page.jsx:139-166 | A blank title or no selection sends nothing. On success the list is fetched again, the modal closes and the form resets. |
| Innovation.InnovationPage.DeleteInnovation | app/innovation/page.jsx:168-190 | A request is sent only when confirmed. On success the list is fetched again rather than edited. |
| Startup.StripForUpdate | app/startup/page.jsx:73 | The request body is the data without `updated_at`, `created_at` and `startup_id`, with every other field kept. |
| Startup.UpdatedRecord | app/startup/page.jsx:96-100 | The returned record carries the requested id. Server fields override the sent fields, and the other sent fields are kept. |
| Startup.IdNotInBody | app/startup/page.jsx:604-607 | The id the page adds to the form data never reaches the request body. |
| Startup.FetchStartupsResult | app/startup/page.jsx:18-40 | A failed fetch gives the empty list. |
| Startup.StageIndex | app/startup/page.jsx:286-287 | A missing stage counts as `Idea`. A known stage gives its position and an unknown one gives -1. |
| Startup.Stepper | app/startup/page.jsx:288-319 | Step i is lit iff i is at most the index. Each step but the last has a connector, lit iff i is below the index. |
| Startup.ReachedCountOfPrefix | app/startup/page.jsx:298 | When the lit steps are those up to k, k+1 of them are lit (clamped to the list). |
| Startup.LitCircles | app/startup/page.jsx:298-307 | Exactly index+1 circles are lit and they form a prefix, so an unknown stage lights none. |
| Startup.LitConnectorBetweenLitCircles | app/startup/page.jsx:312-315 | A lit connector joins two lit circles. |
| Startup.UpdateKeepsIds | app/startup/page.jsx:614-618 | An update keeps the length and every entry's id, so unique ids stay unique. |
| Startup.StartupPage.constructor | app/startup/page.jsx:540-546 | The initial state: an empty list, loading, and nothing selected. |
| Startup.StartupPage.CheckSession | app/startup/page.jsx:550-560 | Without a session the visitor is sent to `/auth`. |
| Startup.StartupPage.LoadStartups | app/startup/page.jsx:567-583 | The list becomes the fetch result, which is empty on failure, and the error is cleared. |
| Startup.StartupPage.AddStartup | app/startup/page.jsx:585-596 | On success the saved startup is appended. A failure is returned to the caller and changes nothing. |
| Startup.StartupPage.EditStartup | app/startup/page.jsx:630-633 | Selects the startup to edit. |
| Startup.StartupPage.ViewStartup | app/startup/page.jsx:635-638 | Selects the startup to view. |
| Startup.StartupPage.UpdateStartup | app/startup/page.jsx:598-628 | Without a truthy selected id the call fails before any request. Otherwise the stripped form data is sent. On success the entries with the id are replaced and the modal closes. |
| Ipr.TokenAt | app/ipr/page.jsx:40 | Defines where the pattern can match: `access_token=` at the start of the cookie string or right after `; `. |
| Ipr.UpToSemicolon | app/ipr/page.jsx:40 | The captured token has no `;` and runs to the next `;` or to the end. |
| Ipr.FirstTokenFrom | app/ipr/page.jsx:40 | Finds the leftmost position where the pattern matches. |
| Ipr.AccessToken | app/ipr/page.jsx:39-48 | There is no token exactly when the pattern never matches. Otherwise the token is the text after the leftmost match, up to the next `;`. |
| Ipr.LeadingToken | app/ipr/page.jsx:40 | A cookie string that starts with `access_token=v` yields `v`. |
| Ipr.IprMatches | app/ipr/page.jsx:97-102 | Defines a match: the term occurs, ignoring case, in the title, the type, the number or the status. |
| Ipr.SearchIprs | app/ipr/page.jsx:93-105 | An empty term shows the whole list. Otherwise the result is a subsequence holding exactly the matching IPRs. |
| Ipr.Stats | app/ipr/page.jsx:180-185 | The counters are the shown length and the multiplicities of Granted, Pending and Patent. Granted plus pending is at most the total. |
| Ipr.IprPage.constructor | app/ipr/page.jsx:16-21 | The initial state: empty lists, loading, no error, an empty search, and the view in step with the list. |
| Ipr.IprPage.CheckSession | app/ipr/page.jsx:28-38 | Without a session the visitor is sent to `/auth`. |
| Ipr.IprPage.SearchEffect | app/ipr/page.jsx:93-105 | After the effect the shown list is the search result for the current list and term. |
| Ipr.IprPage.SetSearchTerm | app/ipr/page.jsx:93-105 | A new term is followed by the search effect. |
| Ipr.IprPage.FetchIPRs | app/ipr/page.jsx:61-86 | A successful load sets the list and the view. A failure keeps them and sets the prefixed error. |
| Ipr.IprPage.AddIPR | app/ipr/page.jsx:107-131 | On success the IPR is appended and the error cleared. On failure the list is unchanged and the error set. |
| Ipr.IprPage.Edit | app/ipr/page.jsx:133-150 | Never sends a request. Always shows the ReferenceError message and leaves the list as it is. |
| Ipr.IprPage.Delete | app/ipr/page.jsx:152-173 | A request is sent only when confirmed. On success every entry with the id is removed and the error cleared. |
| Ipr.IprPage.ShownStats | app/ipr/page.jsx:180-185 | The counters are taken over the filtered list. |
| Ipr.EmptySearchCountsAll | app/ipr/page.jsx:94-95 | With an empty search, the counters' total is the full list length. |
| UserData.SearchUsers | app/userData/page.jsx:61-72 | A blank term gives all users. Otherwise the users whose lowercased e-mail contains the lowercased untrimmed term, in order. A non-text e-mail makes it throw. |
| UserData.SearchAllMatch | app/userData/page.jsx:68-70 | A term that every e-mail contains keeps the whole list. |
| UserData.Stats | app/userData/page.jsx:271-290 | The total is the user count. The verified counter is the number of users with a truthy `is_verified`: at most the total, all of it when every user is verified, and positive when anyone is. Admin and regular users are role multiplicities summing to at most the total. |
| UserData.UserDataPage.constructor | app/userData/page.jsx:9-15 | The initial state: empty lists, loading, not exporting, no error. |
| UserData.UserDataPage.CheckSession | app/userData/page.jsx:19-29 | Without a session the visitor is sent home. |
| UserData.UserDataPage.LoadUsers | app/userData/page.jsx:31-58 | A successful load sets the user list and the filtered list to the same profiles. A failure sets the error. |
| UserData.UserDataPage.HandleSearch | app/userData/page.jsx:61-72 | The filtered list becomes the search result. When the search throws it is left as it was. |
| UserData.UserDataPage.ExportDisabled | app/userData/page.jsx:235 | Defines a disabled export button: an export is running for that row's user id. `BeginExport` and `FinishExport` state it for every row. |
| UserData.UserDataPage.BeginExport | app/userData/page.jsx:77-78 | Only the chosen row's export button becomes disabled. |
| UserData.UserDataPage.FinishExport | app/userData/page.jsx:103-110 | A failure sets the error. Either way every export button is enabled again. |
| Auth.Next | app/auth/page.jsx:67-69 | The slide moves forward one, wrapping from the last slide to the first, and stays in range. |
| Auth.Prev | app/auth/page.jsx:71-73 | The slide moves back one, wrapping from the first slide to the last, and stays in range. |
| Auth.PrevUndoesNext | app/auth/page.jsx:67-73 | Next then prev, or prev then next, returns the original slide. |
| Auth.Advance | app/auth/page.jsx:60-65 | Defines where the slider stands after `n` ticks. `AdvanceIsModular` gives its value. |
| Auth.AdvanceIsModular | app/auth/page.jsx:60-65 | After n ticks of the interval the slide is (i + n) mod 4. |
| Auth.FullTurn | app/auth/page.jsx:60-65 | Four more ticks return to the same slide. |
| Auth.Request | app/auth/page.jsx:87-90 | Login posts only the e-mail and password to the login endpoint. Registration posts the whole form to the sign-up endpoint. |
| Auth.LoginOmitsName | app/auth/page.jsx:88-90 | The login payload never carries the name. |
| Auth.MessageFor | app/auth/page.jsx:103-116 | The message after a reply is the success text, the server's truthy `message`, the mode's failure text, or the network error text. |
| Auth.AuthPage.constructor | app/auth/page.jsx:8-17 | The initial state: login mode, the first slide, an empty form, and no message. |
| Auth.AuthPage.CheckSession | app/auth/page.jsx:22-32 | A visitor who has a session is sent home. |
| Auth.AuthPage.NextSlide | app/auth/page.jsx:67-69 | The slide becomes the next one and stays in range. |
| Auth.AuthPage.PrevSlide | app/auth/page.jsx:71-73 | The slide becomes the previous one and stays in range. |
| Auth.AuthPage.GoToSlide | app/auth/page.jsx:183 | Clicking indicator k shows slide k. |
| Auth.AuthPage.Submit | app/auth/page.jsx:82-121 | Sends the mode's request and sets the reply's message. Only on success is the session set, from the token or `dummy_token`. |
| Auth.AuthPage.ToggleAuthMode | app/auth/page.jsx:124-128 | Flips the mode and clears the form and the message. |
| Auth.AuthPage.SetLoginMode | app/auth/page.jsx:221-237 | The Login and Register tabs set the mode to their own. The form and the message are left unchanged. |
| Profile.CookieName | app/profile/page.jsx:79-80 | Defines the name of a piece: the text before the first `=`, or the whole piece, trimmed. |
| Profile.CookieNameShape | app/profile/page.jsx:79-80 | The name is the trimmed text before the first `=`, or the whole piece trimmed. It never contains `=`. |
| Profile.NameOfPair | app/profile/page.jsx:79-80 | A piece `name=value` is cleared under `name`. |
| Profile.LeadingSpaceIgnored | app/profile/page.jsx:80 | The space after `;` does not reach the name. |
| Profile.ExpiryWrites | app/profile/page.jsx:76-88 | The loop makes two writes per piece. |
| Profile.ExpiryWritesAt | app/profile/page.jsx:76-88 | Piece `i` is expired under its name by write `2i` at the root path and write `2i + 1` at the current host. |
| Profile.ExpiryWritesSnoc | app/profile/page.jsx:76-88 | One more piece adds its two writes at the end, in the loop's order. |
| Profile.ClearAllCookies | app/profile/page.jsx:74-93 | The loop's writes are exactly the expiring writes of the pieces of the cookie string, in order, followed by the fixed `access_token` write. |
| Profile.EveryPieceExpired | app/profile/page.jsx:75-87 | Every piece of the cookie string is expired under its name at both scopes. |
| Profile.WithField | app/profile/page.jsx:272-275 | The profile gets the new field value. Every other field is kept, and no field is added beyond the new one. |
| Profile.SecretNotBlank | app/profile/page.jsx:254 | The hard-coded secret passes the blank-key gate. |
| Profile.LooselyEquals | app/profile/page.jsx:347 | Defines `v == b` against a boolean, as listed under Left out. |
| Profile.ShowAdminVerification | app/profile/page.jsx:345-348 | Defines when the Admin Verification button shows: an admin profile whose `is_verified` is loosely false. |
| Profile.ShowUsersData | app/profile/page.jsx:356-358 | Defines when the Users Data button shows: an admin profile whose `is_verified` is loosely true. |
| Profile.AdminButtonsExclusive | app/profile/page.jsx:345-358 | The two admin buttons never show together. A boolean flag on an admin profile shows exactly one of them. |
| Profile.IsBlankInput | app/profile/page.jsx:193 | `!input.trim()` holds exactly for blank input. |
| Profile.ProfilePage.constructor | app/profile/page.jsx:27-36 | The initial state: no profile, no modal, empty inputs and no messages. |
| Profile.ProfilePage.CheckSession | app/profile/page.jsx:40-50 | Without a session the visitor is sent home. |
| Profile.ProfilePage.LoadProfile | app/profile/page.jsx:51-72 | The reply's profile is shown and a non-empty Scholar ID fills the form. A failure changes nothing. |
| Profile.ProfilePage.OpenModal | app/profile/page.jsx:162-164 | Opens the Scholar ID modal. |
| Profile.ProfilePage.CloseModal | app/profile/page.jsx:166-169 | Closes the Scholar ID modal and clears its error. |
| Profile.ProfilePage.OpenAdminModal | app/profile/page.jsx:171-176 | Opens the admin modal with an empty key, no error and no success. |
| Profile.ProfilePage.CloseAdminModal | app/profile/page.jsx:178-182 | Closes the admin modal, clearing the key and the error. |
| Profile.ProfilePage.SubmitScholarId | app/profile/page.jsx:192-241 | A blank Scholar ID sends nothing. After a successful update the profile has the new ID, the modal closes, and the profile is fetched again. |
| Profile.ProfilePage.UpdateRole | app/profile/page.jsx:254-291 | A successful role update gives the local profile role `admin`, keeps the other fields, and fetches the profile again. |
| Profile.ProfilePage.SubmitAdminKey | app/profile/page.jsx:243-301 | A blank key and a wrong key send nothing, each with its own message. Only the exact secret sends the role update. |
| Profile.ProfilePage.Logout | app/profile/page.jsx:95-129 | The cookies are cleared with exactly the writes of `clearAllCookies` whether or not the request succeeds. The visitor goes to `/auth` after a reply and to `/` after a failure. |

## Left out

- Network calls, URLs, credentials and JSON parsing are not modelled. Each call is an
  `Outcome` parameter. The research service module is not part of this model.
- The research page's `response.data || response || []` unwrapping is not modelled. The
  outcome's value is the unwrapped list or record.
- Notifications, `alert`, `console` output and rendering are left out. So are the colour and
  icon lookups and the form components that only mirror inputs into state.
- Timers are left out: the slider interval and the notification and admin-modal timeouts.
  `Auth.Advance` and `Auth.NextSlide` model what one tick does, and `SubmitAdminKey`
  returns whether the close timer is set.
- The export downloads are left out: blob handling and `handleExportReport`.
  `sessionStorage` and `localStorage` are not modelled either.
- Cookie expiry dates are left out. The exact text written to `document.cookie` is reduced
  to the cookie name and its scope.
- Router navigation is modelled only as a returned redirect flag or path.
- Cookies.UserRole, Ipr.AccessToken: `decodeURIComponent` is treated as the identity, so
  percent-encoded values are not decoded, and the error it throws on a malformed encoding
  is not modelled.
- Strings.Lower: only ASCII letters are lowercased. Other Unicode case mappings are left
  out.
- Numbers are integers. Floating point, and the string concatenation that a text
  `citations` value would cause in the citation sum, are not modelled. A text value adds 0
  in `StatsOverview.CitationValue`.
- Collections.FieldIncludes, Innovation.InnovationMatches, Research.PaperMatches,
  Ipr.IprMatches, Ipr.SearchIprs: a search field whose value is not text counts as
  "no match". The pages throw a TypeError instead in these cases, each reached only when
  the fields before it in the `||` chain did not match:
  - Unguarded fields throw when missing or not text. These are the innovation `title`
    (app/innovation/page.jsx:222) and the IPR `title` and `ipr_type` (app/ipr/page.jsx:98-99).
  - Fields guarded by `&&` throw only when truthy and not text. These are the IPR
    `ipr_number` and `status` (app/ipr/page.jsx:100-101).
  - Fields read with `?.` throw only when present and not text, such as a number. These
    are the innovation `description` (app/innovation/page.jsx:223) and the research
    `title`, `authors` and `doi` (app/research/page.jsx:133-135).
  - The innovation and research throws happen while the page renders its filtered list.
    The IPR throw happens inside the search effect (app/ipr/page.jsx:93-105): it escapes
    the effect uncaught, and `filteredIPRs` is not updated.
- Innovation.InnovationPage.OpenEditModal: a non-text value in a field copied with `||`
  becomes the fallback text, where the page would copy the value itself. The `title` is
  copied by the page as it is (app/innovation/page.jsx:206). In the model, a missing or
  non-text title is held as empty text, so a missing title becomes `""` rather than
  `undefined`. The later title gate of add and update then refuses it, where the page's
  `formData.title.trim()` throws (app/innovation/page.jsx:114 and 140). Either way nothing
  is sent.
- Profile.ProfilePage.LoadProfile: the form field holds text, so only a non-empty text
  `scholar_id` is copied into it. A truthy value of another kind, such as a number, is
  copied by the page but is not copied here. The page's later `scholarId.trim()` would
  throw on such a value.
- Profile.LooselyEquals: for text values of `is_verified`, only blank text, `0` and `1`
  get their numeric meaning. Other numeric strings, such as `0.0` or `1e0`, equal neither
  boolean here.
- Ipr.EditError: the ReferenceError text `updatedData is not defined` is the V8 wording.
  Other engines word it differently; JavaScriptCore, for one, says `Can't find variable:
  updatedData`.
- Research.NoSelectionError: the TypeError text is the V8 wording. Other engines word it
  differently.
- Async interleaving of state updates is left out. Each handler runs to completion on the
  state it starts with, and a list re-fetch is the `reload` outcome passed to the handler.
- The test page with its one-off CORS request is not part of this model.
