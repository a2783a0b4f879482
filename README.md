# houndnfound lost-and-found: a Dafny model

houndnfound is a school lost-and-found board. Teachers report found items with an
optional photo, edit them, mark them collected and delete them. Super-admins manage
teacher accounts. Students browse the items with a text search and a day filter,
split into available, collected and archived tabs. A dashboard chart counts the
items reported in each of the last six months. A server-side function checks teacher
logins, and the client keeps the signed-in teacher in local storage.

The model has one module per source file of the core:

- `Types` holds the row types (lost item, teacher), the status values with their
  stored names, and access levels.
- `ItemStore` is the hosted table as seen by the client. An update is a `Patch`
  whose absent keys leave their column alone. An insert returns the row the store
  creates.
- `EditItemDialog` covers the edit form's default values, the update it sends and
  the dialog's submit.
- `ItemLists` holds the status filter and the status badge colour, which the
  dashboard and the student page each define. The colour function is the same on
  both pages. The status test is the same too, but the dashboard applies it to all
  its items and the student page to its filtered list.
- `AdminDashboard` is the dashboard's item list: mark collected, delete, replace
  after an edit, prepend after an add.
- `AddItemDialog` covers the report form: validation, the 5 MiB photo ceiling, the
  upload and the insert.
- `StudentView` covers the search and day filters and the tabs over the filtered
  list.
- `StatsChart` covers the six month buckets, the per-status counts and the
  month-over-month change.
- `TeacherManagement` covers the access-level change, account deletion with its
  own-account guard, and the per-row action gating.
- `TeacherAuth` covers the edge function's request dispatch, the login lookup and
  the password check.
- `AuthContext` covers the client session: restore, login, sign-up, logout and
  `isSuperAdmin`.
- `Seqs` provides generic `Filter`/`Map` with their lemmas, standing for
  `Array.prototype.filter`/`map`.

Some things are parameters of the operations that use them:

- every read of the clock;
- whether each store call fails;
- the ids and times the store assigns;
- the file reader's preview URL;
- the browser's `confirm` answer;
- the date library's calendar arithmetic and `yyyy-MM-dd` formatting;
- the SHA-256 hash.

React state that the source replaces after each call is a class (`Dialog`,
`Dashboard`, `View`, `Panel`, `Provider`) whose methods state the whole new state.

Some behaviour of the code worth knowing:

- The two login refusals carry different messages: "Access denied. …" for an
  unknown email and "Invalid email or password" for a wrong password
  (`TeacherAuth.LoginFailuresAreDistinguishable`).
- The required-field check is truthiness with no trimming, so blank fields pass
  (`AddItemDialog.BlankFieldsPassValidation`).
- Nothing stops the edit dialog from moving an archived item back to another
  status. Only the collected_at stamp looks at the prior status.
- The password hash is one SHA-256 of password + "salt" (`TeacherAuth.HashPassword`).
- A row's status is a `RowStatus`: one value per stored string, so comparing
  statuses is the source's string comparison (`Types.NameInjective`).

The client sends its login account as `username`, while the function reads `email`.
The two sides are modelled as they are written and are not connected to each other.

## Model

| member | source | states |
|---|---|---|
| Types.Parse | src/types/index.ts:7 | reading a stored status string yields a row status whose stored name is that same string |
| Types.ParseName | src/types/index.ts:7 | every row status is recovered from its stored name |
| Types.NameInjective | src/types/index.ts:7 | two row statuses are equal exactly when their stored strings are, so `==` on the status of every row, form, update and insert is the source's string `===` |
| ItemStore.ApplyPatch | src/components/EditItemDialog.tsx:63-68 | an update by id never changes the row's id, created_at or teacher_id |
| ItemStore.ApplyPatchIdempotent | src/components/EditItemDialog.tsx:63-68 | sending the same update twice leaves the row as sending it once |
| ItemStore.Inserted | src/components/AddItemDialog.tsx:65-75 | definition: the row the insert returns, with the store's id and time, created_at = updated_at, and no collected_at; its property is in AddItemDialog.AddedRowIsNew |
| EditItemDialog.DefaultValues | src/components/EditItemDialog.tsx:32-40 | the image field starts blank exactly when the item has no image URL or an empty one, and otherwise shows that URL |
| EditItemDialog.UpdatePatch | src/components/EditItemDialog.tsx:46-61 | definition: the update object, with its keys as built at :46-61; its properties are in the four lemmas below and DefaultsResaveOnlyStamps |
| EditItemDialog.PatchCarriesForm | src/components/EditItemDialog.tsx:46-52 | after the update, the row has the form's description, both locations and status, and the new updated_at |
| EditItemDialog.ImageUrlOnlyWhenFilled | src/components/EditItemDialog.tsx:54-56 | a blank image field keeps the stored image URL; a filled one replaces it |
| EditItemDialog.CollectedAtOnlyOnTransition | src/components/EditItemDialog.tsx:58-61 | collected_at is in the update iff the form says collected and the opened item was not collected; its value is the second clock reading |
| EditItemDialog.ResaveCollectedKeepsCollectedAt | src/components/EditItemDialog.tsx:58-61 | re-saving a collected item as collected keeps the stored collected_at |
| EditItemDialog.NonCollectedStatusKeepsCollectedAt | src/components/EditItemDialog.tsx:58-61 | saving with any status but collected neither sets nor clears collected_at |
| EditItemDialog.DefaultsResaveOnlyStamps | src/components/EditItemDialog.tsx:32-61 | submitting the untouched defaults changes the row only in updated_at |
| EditItemDialog.StaleCopyOverwritesCollectedAt | src/components/EditItemDialog.tsx:59 | the transition test reads the dialog's copy, so a row collected after the dialog opened gets its collected_at overwritten |
| EditItemDialog.Dialog.constructor | src/components/EditItemDialog.tsx:29-30 | the dialog starts with its item and is not submitting |
| EditItemDialog.Dialog.OnSubmit | src/components/EditItemDialog.tsx:42-89 | sends exactly UpdatePatch; on success it hands on the stored row with the update applied and closes; on failure it hands on nothing and stays open; submitting is cleared either way |
| ItemLists.WithStatus | src/pages/AdminDashboard.tsx:123-125 | a tab holds exactly the items of the list with that status (the same test as src/pages/StudentView.tsx:68-70, applied there to the filtered list) |
| ItemLists.WithStatusKeepsOrder | src/pages/AdminDashboard.tsx:123-125 | a tab lists its items in the order of the full list |
| ItemLists.StatusCountsAtMostTotal | src/pages/AdminDashboard.tsx:410-421 | the three tab counts add up to at most the number of items |
| ItemLists.StatusCountsPartition | src/pages/AdminDashboard.tsx:123-125 | the three tab counts plus the items of other statuses add up to the number of items |
| ItemLists.StatusColor | src/pages/AdminDashboard.tsx:127-134 | green iff available, blue iff collected, and grey for archived and every unknown status (identical in src/pages/StudentView.tsx:72-79) |
| AdminDashboard.CollectPatch | src/pages/AdminDashboard.tsx:60-63 | definition: an update holding only status collected and collected_at; its properties are in MarkCollectedMirrorsStore and MarkPathsDifferWhenCollected |
| AdminDashboard.MarkCollectedIn | src/pages/AdminDashboard.tsx:68-72 | definition: the mapped list; its property is in MarkCollectedOnlyTarget |
| AdminDashboard.WithoutItem | src/pages/AdminDashboard.tsx:101 | definition: the filtered list; its property is in WithoutItemRemovesOnlyTarget |
| AdminDashboard.ReplaceItem | src/pages/AdminDashboard.tsx:118-120 | definition: the mapped list; its property is in ReplaceItemOnlyTarget |
| AdminDashboard.OffersMarkCollected | src/pages/AdminDashboard.tsx:217 | definition: the button is drawn iff the status is available; used by MarkPathsAgreeWhenOffered and MarkPathsDifferWhenCollected |
| AdminDashboard.MarkCollectedOnlyTarget | src/pages/AdminDashboard.tsx:68-72 | only rows with that id change, and only to status collected with the given collected_at; the length and every other row stay |
| AdminDashboard.MarkCollectedMirrorsStore | src/pages/AdminDashboard.tsx:58-72 | with one clock reading, the local row equals the stored row after the update, and updated_at is not refreshed |
| AdminDashboard.MarkCollectedIdempotent | src/pages/AdminDashboard.tsx:68-72 | marking twice with the same time equals marking once |
| AdminDashboard.MarkPathsAgreeWhenOffered | src/pages/AdminDashboard.tsx:217-228 | on an available item, for which the button is shown, the button and the edit dialog's collected save both stamp collected_at with the clock reading |
| AdminDashboard.MarkPathsDifferWhenCollected | src/pages/AdminDashboard.tsx:56-72 | on an already-collected item the button is not offered; its update would replace collected_at, while the edit dialog keeps it |
| AdminDashboard.WithoutItemRemovesOnlyTarget | src/pages/AdminDashboard.tsx:101 | the list keeps exactly the items with another id, in order, and shrinks by the number of items with that id |
| AdminDashboard.ReplaceItemOnlyTarget | src/pages/AdminDashboard.tsx:117-121 | the length and the ids stay; rows with the updated id become the updated item and the rest are unchanged |
| AdminDashboard.Dashboard.constructor | src/pages/AdminDashboard.tsx:25-26 | the list starts empty and loading is set |
| AdminDashboard.Dashboard.FetchItems | src/pages/AdminDashboard.tsx:35-54 | on success the rows replace the list, with null read as empty; on failure the list is unchanged; loading is cleared either way |
| AdminDashboard.Dashboard.MarkAsCollected | src/pages/AdminDashboard.tsx:56-86 | sends status and collected_at from the first clock reading; on success the list is marked with the second reading; on failure it is unchanged |
| AdminDashboard.Dashboard.DeleteItem | src/pages/AdminDashboard.tsx:88-115 | a delete is sent iff the user confirms; the list loses that id only after a successful delete, and is otherwise unchanged |
| AdminDashboard.Dashboard.HandleItemUpdated | src/pages/AdminDashboard.tsx:117-121 | the list becomes ReplaceItem of the old list |
| AdminDashboard.Dashboard.OnItemAdded | src/pages/AdminDashboard.tsx:495-498 | the new item is put in front and the old list follows unchanged |
| AddItemDialog.RequiredFieldsFilled | src/components/AddItemDialog.tsx:35 | definition: all three fields truthy, that is non-empty; its property is in BlankFieldsPassValidation |
| AddItemDialog.ImageSizeAccepted | src/components/AddItemDialog.tsx:98 | definition: the negation of `size > 5 * 1024 * 1024`; its property is in ImageCeilingIsInclusive |
| AddItemDialog.ImageCeilingIsInclusive | src/components/AddItemDialog.tsx:98 | a photo is accepted iff its size is at most 5242880 bytes, so exactly 5 MiB passes and one byte more is refused |
| AddItemDialog.BlankFieldsPassValidation | src/components/AddItemDialog.tsx:35 | for every form, the check passes iff all three fields are non-empty, whatever the photo; blank strings pass and emptying any one field fails |
| AddItemDialog.InsertRecord | src/components/AddItemDialog.tsx:68-75 | the inserted record copies the three fields, the uploaded URL or null, and the teacher id, with status available |
| AddItemDialog.AddedRowIsNew | src/components/AddItemDialog.tsx:65-81 | the row handed to onItemAdded is available, not collected, belongs to that teacher and carries the form's fields |
| AddItemDialog.Dialog.constructor | src/components/AddItemDialog.tsx:25-32 | the form starts empty and not loading |
| AddItemDialog.Dialog.HandleSubmit | src/components/AddItemDialog.tsx:33-93 | a missing field stops before any store call and changes nothing. Otherwise the photo, if any, is uploaded. A failed upload stops before the insert and keeps the form. A failed insert keeps the form. A successful insert hands on the stored row, clears the form and closes. Loading is cleared at the end |
| AddItemDialog.Dialog.HandleImageChange | src/components/AddItemDialog.tsx:94-118 | a file over the ceiling is refused and the form kept; an accepted file becomes the photo with its preview; no file changes nothing |
| AddItemDialog.Dialog.RemoveImage | src/components/AddItemDialog.tsx:119-125 | only the photo and its preview are cleared |
| AddItemDialog.Dialog.HandleClose | src/components/AddItemDialog.tsx:126-135 | every field and the preview are reset and the dialog closes |
| StudentView.ToLower | src/pages/StudentView.tsx:52-54 | lowercasing keeps the length and maps each character on its own |
| StudentView.ToLowerIdempotent | src/pages/StudentView.tsx:52-54 | lowercasing twice is lowercasing once |
| StudentView.Includes | src/pages/StudentView.tsx:52-54 | definition: `includes` as "a prefix here or further on"; its property is in IncludesIff |
| StudentView.IncludesIff | src/pages/StudentView.tsx:52-54 | `includes` holds iff the needle occurs at some position of the text |
| StudentView.MatchesSearch | src/pages/StudentView.tsx:51-55 | definition: the lowercased term is included in one of the three lowercased fields; its property is in SearchIsCaseInsensitiveSubstring |
| StudentView.OnDate | src/pages/StudentView.tsx:59-62 | definition: the formatted created_at equals the day; its property is in DateFilterIsExact |
| StudentView.Visible | src/pages/StudentView.tsx:47-66 | definition: the single filter by both conditions, each only when set; its properties are in VisibleIsOrderedSelection, VisibleIsExactlyKept and FilterItems |
| StudentView.FilterItems | src/pages/StudentView.tsx:47-66 | the search filter followed by the day filter, each only when set, equals the single filter by both conditions |
| StudentView.NoFiltersShowEverything | src/pages/StudentView.tsx:47-66 | with no search and no day, every fetched item is shown, in order |
| StudentView.VisibleIsOrderedSelection | src/pages/StudentView.tsx:47-66 | the shown items are an order-preserving selection of the fetched ones |
| StudentView.VisibleIsExactlyKept | src/pages/StudentView.tsx:47-66 | an item is shown iff it was fetched and the filters keep it |
| StudentView.SearchIsCaseInsensitiveSubstring | src/pages/StudentView.tsx:50-56 | an item matches iff the lowercased term occurs in one of its three lowercased text fields; the term's own case does not matter |
| StudentView.DateFilterIsExact | src/pages/StudentView.tsx:58-63 | the day filter alone keeps exactly the items whose formatted created_at equals the filter |
| StudentView.FiltersCommute | src/pages/StudentView.tsx:47-66 | applying the day filter before the search gives the same list |
| StudentView.TabsSplitVisibleList | src/pages/StudentView.tsx:68-70 | a tab holds only items the filters keep, and the three tabs hold at most the shown items |
| StudentView.View.constructor | src/pages/StudentView.tsx:16-20 | empty lists, no search and no day, in step, and loading is set |
| StudentView.View.FetchItems | src/pages/StudentView.tsx:31-45 | on success the rows replace the list, with null read as empty; on failure the list stays; loading is cleared; the shown list is recomputed |
| StudentView.View.SetSearchTerm | src/pages/StudentView.tsx:27-29 | a new term re-runs the filter, so the shown list matches the new configuration |
| StudentView.View.SetDateFilter | src/pages/StudentView.tsx:27-29 | a new day re-runs the filter, so the shown list matches the new configuration |
| StudentView.View.GetItemsByStatus | src/pages/StudentView.tsx:68-70 | the tab is the status filter of the visible list: an item is in it iff it was fetched, the filters keep it and it has that status, in the order of the filtered list |
| StatsChart.Bucket | src/components/StatsChart.tsx:20-35 | definition: one entry's total and per-status counts; its property is in BucketCounts |
| StatsChart.ChartData | src/components/StatsChart.tsx:20-36 | definition: one entry per month of Months; its properties are in ChartHasSixMonths and ChartTotalAtMostItems |
| StatsChart.TotalThisMonth | src/components/StatsChart.tsx:38 | definition: the last entry's total, 0 when there is none; its property is in HeadlineMonths |
| StatsChart.TotalLastMonth | src/components/StatsChart.tsx:39 | definition: the second-to-last entry's total, 0 when there is none; its property is in HeadlineMonths |
| StatsChart.Months | src/components/StatsChart.tsx:12-18 | six consecutive months, the last being the month of now |
| StatsChart.ChartHasSixMonths | src/components/StatsChart.tsx:12-36 | the chart has six entries, for the five months before now and now's month, and now lies in the last |
| StatsChart.BucketCounts | src/components/StatsChart.tsx:20-35 | an entry counts exactly the items created between its month's start and end, and its three status counts add up to at most its total |
| StatsChart.MonthsDisjoint | src/components/StatsChart.tsx:21-27 | no instant lies in two months |
| StatsChart.BucketTotalsAtMostItems | src/components/StatsChart.tsx:20-36 | over increasing months, the entries' totals add up to at most the number of items |
| StatsChart.ChartTotalAtMostItems | src/components/StatsChart.tsx:20-36 | no item is counted in two entries: the six totals add up to at most the number of items |
| StatsChart.HeadlineMonths | src/components/StatsChart.tsx:38-39 | this month's and last month's totals are the counts of items created in now's month and the month before |
| StatsChart.ChangeFromLastMonth | src/components/StatsChart.tsx:40 | 100 when last month had no items; otherwise positive iff this month grew, zero iff it stayed the same, and never below -100 |
| TeacherManagement.WithAccessLevel | src/components/TeacherManagement.tsx:57-61 | definition: the mapped list; its property is in AccessLevelOnlyTarget |
| TeacherManagement.WithoutTeacher | src/components/TeacherManagement.tsx:99 | definition: the filtered list; its properties are in WithoutTeacherRemovesOnlyTarget and WithoutUniqueTeacher |
| TeacherManagement.ShowsRowActions | src/components/TeacherManagement.tsx:174 | definition: the row's id differs from the signed-in id; its property is in RowActionsSkipOnlyCurrent |
| TeacherManagement.ShowsCurrentUserBadge | src/components/TeacherManagement.tsx:201 | definition: the row's id is the signed-in id; its property is in RowActionsSkipOnlyCurrent |
| TeacherManagement.RowActionsSkipOnlyCurrent | src/components/TeacherManagement.tsx:174-203 | with nobody signed in every row offers the actions and no badge; otherwise exactly the rows of other teachers offer them; every row shows exactly one of the actions and the "Current User" badge |
| TeacherManagement.AccessLevelOnlyTarget | src/components/TeacherManagement.tsx:57-61 | only the access_level of rows with that id changes; every other field and row is unchanged |
| TeacherManagement.WithoutTeacherRemovesOnlyTarget | src/components/TeacherManagement.tsx:99 | the list keeps exactly the teachers with another id, in order |
| TeacherManagement.WithoutUniqueTeacher | src/components/TeacherManagement.tsx:99 | when ids are unique, deleting removes exactly one row |
| TeacherManagement.Panel.constructor | src/components/TeacherManagement.tsx:19-20 | the list starts empty and loading is set |
| TeacherManagement.Panel.FetchTeachers | src/components/TeacherManagement.tsx:26-46 | on success the rows replace the list, with null read as empty; on failure it is unchanged; loading is cleared either way |
| TeacherManagement.Panel.UpdateAccessLevel | src/components/TeacherManagement.tsx:48-75 | on success the list gets the new level for that id; on failure it is unchanged |
| TeacherManagement.Panel.DeleteTeacher | src/components/TeacherManagement.tsx:77-113 | the own id is refused before confirmation and with no store call; a declined confirm sends nothing; only a successful delete removes that id, and every other outcome leaves the list unchanged |
| TeacherAuth.Strip | supabase/functions/teacher-auth/index.ts:63 | the reply copies every column but password_hash |
| TeacherAuth.StripForgetsOnlyHash | supabase/functions/teacher-auth/index.ts:63-67 | two rows give the same reply iff they differ at most in password_hash |
| TeacherAuth.HashPassword | supabase/functions/teacher-auth/index.ts:10-16 | definition: the hash of password + "salt"; its property is in VerifyHashRoundTrip |
| TeacherAuth.VerifyPassword | supabase/functions/teacher-auth/index.ts:18-21 | a password verifies iff the hash of password + "salt" equals the stored hash |
| TeacherAuth.VerifyHashRoundTrip | supabase/functions/teacher-auth/index.ts:10-21 | a password always verifies against its own hash |
| TeacherAuth.LoginFailuresAreDistinguishable | supabase/functions/teacher-auth/index.ts:45-60 | for any table, a login whose lookup misses gets "Access denied. …" and one whose row is found with a wrong password gets "Invalid email or password", and the two replies differ |
| TeacherAuth.SingleByEmail | supabase/functions/teacher-auth/index.ts:39-45 | a row is found iff the lookup succeeds and exactly one row has that email; the found row is in the table and has that email |
| TeacherAuth.PasswordText | supabase/functions/teacher-auth/index.ts:53 | definition: the password as concatenated at :12, where a missing field reads as "undefined"; used by Login |
| TeacherAuth.Login | supabase/functions/teacher-auth/index.ts:37-69 | every login reply is status 200 with the JSON headers and a body; it carries a teacher iff the lookup finds one row and the password verifies against its hash |
| TeacherAuth.Serve | supabase/functions/teacher-auth/index.ts:23-100 | every reply carries the CORS headers; its status is 200, 400, 403 or 500; a teacher comes back only as a 200 to a non-preflight login request; exactly a preflight has no body |
| TeacherAuth.OnlyMatch | supabase/functions/teacher-auth/index.ts:39-43 | when only one row has an email, the lookup's matches are exactly that row |
| TeacherAuth.PreflightIgnoresBody | supabase/functions/teacher-auth/index.ts:25-27 | OPTIONS gets status 200, the CORS headers and no body, whatever the body, even an unparsable one |
| TeacherAuth.MalformedBodyIsServerError | supabase/functions/teacher-auth/index.ts:90-98 | an unreadable body gets status 500 and an error made of "Internal server error: " followed by the thrown message |
| TeacherAuth.SignupAlwaysForbidden | supabase/functions/teacher-auth/index.ts:72-80 | sign-up gets status 403 and the disabled message, whatever the other fields and the table |
| TeacherAuth.UnknownActionIsBadRequest | supabase/functions/teacher-auth/index.ts:82-88 | any other action, a missing one included, gets status 400 "Invalid action" |
| TeacherAuth.UnknownEmailIsDenied | supabase/functions/teacher-auth/index.ts:45-50 | no row with that email, or a failed lookup, gets status 200 "Access denied. …" |
| TeacherAuth.WrongPasswordIsRejected | supabase/functions/teacher-auth/index.ts:53-60 | the unique row with that email and a mismatched hash gets status 200 "Invalid email or password" |
| TeacherAuth.RightPasswordReturnsTeacher | supabase/functions/teacher-auth/index.ts:62-68 | the unique row with that email and a matching hash gets status 200 and that teacher without its hash |
| TeacherAuth.TeacherOnlyOnVerifiedLogin | supabase/functions/teacher-auth/index.ts:37-69 | a reply carries a teacher iff the request is a non-OPTIONS login whose email is held by exactly one row and whose password verifies; the teacher is some table row with that email, without its hash |
| AuthContext.LoginResult | src/contexts/AuthContext.tsx:45-68 | success iff the reply has data, a teacher and no truthy error; a truthy error is returned as is; neither field gives "Invalid credentials"; an invocation error, or no data, gives "Login failed. Please try again." |
| AuthContext.SignupResult | src/contexts/AuthContext.tsx:70-87 | success iff the reply has data and no truthy error; a truthy error is returned as is; a failure gives "Signup failed. Please try again." |
| AuthContext.ErrorFieldWins | src/contexts/AuthContext.tsx:53-61 | a non-empty error wins over a teacher in the same reply, and an empty error counts as none |
| AuthContext.Restored | src/contexts/AuthContext.tsx:37-43 | the stored teacher when the key is present, otherwise the current one |
| AuthContext.RestoreAfterLogout | src/contexts/AuthContext.tsx:89-92 | after logout, restoring at the next load yields nobody |
| AuthContext.RestoreAfterLogin | src/contexts/AuthContext.tsx:57-60 | after a login stores a teacher, restoring yields that teacher |
| AuthContext.IsSuperAdminOf | src/contexts/AuthContext.tsx:35 | true iff a teacher is signed in and their access level is super_admin |
| AuthContext.Provider.constructor | src/contexts/AuthContext.tsx:32-33 | nobody signed in, loading |
| AuthContext.Provider.RestoreSession | src/contexts/AuthContext.tsx:37-43 | the teacher becomes Restored of the storage, the storage is untouched, and loading ends |
| AuthContext.Provider.Login | src/contexts/AuthContext.tsx:45-68 | sends action login with username and password and returns LoginResult; on success state and storage hold the same teacher; otherwise both are unchanged |
| AuthContext.Provider.Signup | src/contexts/AuthContext.tsx:70-87 | sends action signup with all four fields and returns SignupResult; it changes no state |
| AuthContext.Provider.Logout | src/contexts/AuthContext.tsx:89-92 | nobody signed in and the storage key removed, the rest of the storage kept |

## Left out

- The page `loading` flags drive only the spinners; the model sets and clears them but does not model rendering.
- The archive schedule is left out. Automatic archiving calls a database function, and that function is not part of this model.
- Rendering, toasts, console logging and routing are left out, along with the Login, Index and Navbar pages; Login's only logic is a non-empty check before calling login or sign-up.
- The upload's object name (`Date.now()` plus `Math.random()` plus the file extension) is left out. The upload is reduced to success or failure, with the public URL as an input.
- AddItemDialog.Dialog.HandleImageChange: the preview is set in the same step. The source sets it later, when the file reader finishes.
- TeacherAuth.HashPassword: SHA-256 and the hex encoding are the `hash` parameter, with no property of their own.
- Timestamps are integers, and the ISO text the store keeps is abstracted away. Month boundaries and the `yyyy-MM-dd` formatting are parameters, so time zones are not modelled. The `MMM yyyy` label is the month number.
- StatsChart.ChangeFromLastMonth is exact real arithmetic. The source uses floating point.
- StudentView.ToLower maps only A-Z; non-ASCII case mappings are not modelled.
- The edit form's HTML `required` attributes are browser behaviour, not modelled.
- AdminDashboard.Dashboard.OnItemAdded models only the prepend. The refetch that follows it is `FetchItems`.
- TeacherAuth.SingleByEmail: a request without an email finds no row. The client library would instead send the text "undefined" as the filter value.
- JSON request fields are strings or absent. Other JSON types are not modelled, and neither is a body that parses but is not an object beyond the 500 reply.
- Local storage holds teacher values directly. The JSON encoding is assumed to round-trip.
- The Supabase client answers a non-2xx status with an invocation error. So the 403 sign-up message reaches the client as "Signup failed. Please try again.", because the client and the function are not connected in this model.
- Concurrent requests and the ordering of asynchronous state updates are not modelled. Each operation runs to completion on the state it started from.
- Rows fetched from the store are taken as given. Nothing is assumed about their ids being unique, except in the lemmas that say so.
