# Moneza admin dashboard — course and user administration, in Dafny

This project models the logic of the Moneza admin dashboard, a Next.js/React web
application used by staff to manage an online-course catalogue and its users:

- the **Courses** page: case-insensitive title search, pagination by ten, row
  numbering, the "Users" column and the confirmed delete;
- the **Users** page: search by name or e-mail, the stable sort by number of
  purchased courses (on a copy, in place), pagination and the purchased-courses
  lookup for the details dialog;
- the **searchable select** used for a course's category and instructor;
- the **Create Course** form: its validation schema, the multipart payload built on
  submit, the upload percentage, and the submitting / progress / message state;
- `apiCall`, the request helper: option defaults, header building, the
  Content-Type rule, the timeout, and the three-way error mapping;
- `cn`, the class-name joiner;
- the **lecture form**: its initial values, the blank-title check and the heading.

Each source file is one module (`Courses`, `Users`, `Dropdown`, `CreateCourse`,
`Api`, `ClassNames`, `LectureForm`). The JavaScript built-ins they rely on are
shared modules: `Seqs` (`filter`, `map`), `Text` (`toLowerCase`, `includes`,
`trim`), `Pagination` (`Math.ceil`, `slice`, the Prev/Next buttons) and `Sorting`
(the stable `Array.prototype.sort`). `Optional` holds the option type. React
component state becomes a class whose fields the handlers update
(`CoursesPage`, `UsersPage`, `SearchableSelect`, `CreateCoursePage`,
`LectureFormState`). The network, the browser and the clock are parameters:
a delete call's success is a boolean, `confirm` is a boolean, the transport's
result is a value of `Api.Transport`, and the object URL of a picked thumbnail is
a string argument.

The model follows the code as written; in particular:

- `totalPages` is `Math.ceil(n / 10)` with no minimum of 1. With no matching rows
  there are zero page buttons, and "Next" moves page 1 to page 0
  (`Pagination.NextWithoutPages`).
- After a delete the current page is not brought back into range, so deleting the
  only course of the last page leaves an empty page that shows "No courses found."
  (`Courses.DeleteCanLeaveEmptyPage`).
- The upload percentage is within 0..100 only when the total size is known. With
  an unknown total (`total || 1`) it is `loaded * 100` (`CreateCourse.UnknownTotalOvershoots`).
- The delete handler filters the list of the render in which the button was pressed,
  after its call settles. When a second delete starts before the first settles, the
  second update restores the first course (`Courses.OverlappingDeletes`).
- A lesson needs a picked video file; there is no video-link alternative.
- A failed course creation leaves the progress value where it was.

## Model

| member | source | states |
|---|---|---|
| Courses.FilterCourses | src/app/courses/page.tsx:90-92 | `filteredCourses`: the courses whose lower-cased title includes the lower-cased search; its properties are stated by `FilterCoursesSpec` |
| Courses.FilterCoursesSpec | src/app/courses/page.tsx:90-92 | a course is kept iff its title contains the search, ignoring case; each kept course keeps its multiplicity and the list order; the empty search keeps every course; filtering again changes nothing |
| Courses.RemoveById | src/app/courses/page.tsx:105 | `courses.filter((c) => c._id !== id)`; its properties are stated by `RemoveByIdSpec` |
| Courses.RemoveByIdSpec | src/app/courses/page.tsx:105 | after a successful delete exactly the courses with another id remain, in order and with their multiplicities; an absent id changes nothing; a present id makes the list strictly shorter |
| Courses.UsersCellFor | src/app/courses/page.tsx:182-184 | the Users cell is "N/A" iff the course id has no reported count, and otherwise that count |
| Courses.RowsFrom | src/app/courses/page.tsx:169-185 | one row per course of the page slice, in order, numbered `(page - 1) * 10 + index + 1`, with the course's Users cell |
| Courses.TableRows | src/app/courses/page.tsx:169-230 | the table body of a page: the "No courses found." row for an empty page, the numbered rows otherwise; its properties are stated by `TableRowsSpec` |
| Courses.TableRowsSpec | src/app/courses/page.tsx:169-230 | the table body is the single "No courses found." row iff the page is empty; otherwise row i shows filtered course number `(page - 1) * 10 + i + 1` (between 1 and the list length) with its Users cell |
| Courses.TableRowAt | src/app/courses/page.tsx:169-185 | row i of a non-empty page is `CourseRow` number `(page - 1) * 10 + i + 1`, showing that filtered course and its Users cell |
| Courses.CoursesPage.constructor | src/app/courses/page.tsx:33-40 | the page starts with no courses, an empty search, page 1 and no user counts |
| Courses.CoursesPage.ReceiveCourses | src/app/courses/page.tsx:61-72 | the fetched list replaces the courses; search, page and counts are unchanged |
| Courses.CoursesPage.ReceiveUserCounts | src/app/courses/page.tsx:74-83 | the counts become the reported map, or the empty map when none came back |
| Courses.CoursesPage.HandleSearch | src/app/courses/page.tsx:85-88 | a search goes back to page 1 and stores the new text, nothing else changes |
| Courses.CoursesPage.PrevPage | src/app/courses/page.tsx:244 | Prev moves to `max(page - 1, 1)` and changes nothing else |
| Courses.CoursesPage.NextPage | src/app/courses/page.tsx:262 | Next moves to `min(page + 1, totalPages)` for the page count of the current render |
| Courses.CoursesPage.GoToPage | src/app/courses/page.tsx:250-260 | a numbered button (1..totalPages) selects that page, whose slice is non-empty |
| Courses.CoursesPage.BeginDelete | src/app/courses/page.tsx:100-104 | the call is issued iff the user confirms, and the handler holds the course list of the render in which the button was pressed |
| Courses.CoursesPage.FinishDelete | src/app/courses/page.tsx:104-111 | when the call succeeds the list becomes the held list without that id, whatever the list is by then, with the success toast; on failure only the failure toast |
| Courses.CoursesPage.HandleDelete | src/app/courses/page.tsx:100-112 | with nothing else happening while the call is in flight: the delete call is made iff the user confirms; the course list drops that id only when the call succeeds; the toast is success, failure, or none when not confirmed |
| Courses.OverlappingDeletes | src/app/courses/page.tsx:100-105 | when delete B starts before delete A's call settles and both succeed, the final list is the first list without B's course only |
| Courses.LostDelete | src/app/courses/page.tsx:105 | B's list, filtered from the list both handlers held, still holds A's course, which A's own update removed |
| Courses.SearchShowsFirstPage | src/app/courses/page.tsx:85-98 | right after a search, page 1 shows rows iff some course matches, and then there is at least one page |
| Courses.DeleteCanLeaveEmptyPage | src/app/courses/page.tsx:94-112 | with 11 courses, deleting the 11th while on page 2 leaves one page and an empty page 2 showing "No courses found." |
| Courses.RemoveLastById | src/app/courses/page.tsx:105 | removing the id held only by the last of 11 courses leaves the first ten |
| Courses.TwentyThreeCourses | src/app/courses/page.tsx:94-98 | 23 courses make three pages: page 1 holds courses 1-10, page 3 courses 21-23 |
| Pagination.TotalPages | src/app/courses/page.tsx:94 | the page count is the least r with `10 * r >= n` |
| Pagination.TotalPagesZeroIff | src/app/users/page.tsx:106 | there are no pages iff there are no rows (no minimum of one page) |
| Pagination.PageSlice | src/app/courses/page.tsx:95-98 | `slice((page - 1) * 10, page * 10)`; its properties are stated by `PageSliceShape`, `PageSliceAt`, `PagesArePrefix` and `PagesCoverList` |
| Pagination.RelativeIndex | src/app/courses/page.tsx:95-98 | `slice` resolves an index: a negative one counts from the end, and both are clamped to 0..length |
| Pagination.PageSliceShape | src/app/courses/page.tsx:95-98 | a page has at most ten rows; page 0 or a page past the last is empty; pages 1..totalPages are non-empty and hold rows `(page - 1) * 10` up to `min(page * 10, n)` |
| Pagination.PageSliceAt | src/app/users/page.tsx:107-110 | row i of a page is row `(page - 1) * 10 + i` of the list |
| Pagination.PagesArePrefix | src/app/courses/page.tsx:94-98 | the first k pages together are the first `min(10 k, n)` rows |
| Pagination.PagesCoverList | src/app/courses/page.tsx:94-98 | all pages together are the whole list, in order |
| Pagination.Prev | src/app/courses/page.tsx:244 | `Math.max(page - 1, 1)`; with `Next` its properties are stated by `PrevNextInRange` |
| Pagination.Next | src/app/courses/page.tsx:262 | `Math.min(page + 1, totalPages)`; its properties are stated by `PrevNextInRange` and `NextWithoutPages` |
| Pagination.PrevNextInRange | src/app/users/page.tsx:215-239 | from a page in 1..totalPages, Prev and Next stay in range, step by one, and stay put exactly where their button is disabled |
| Pagination.NextWithoutPages | src/app/courses/page.tsx:262-263 | with zero pages the Next button is enabled on page 1 and moves to page 0 |
| Pagination.RowNumber | src/app/courses/page.tsx:172 | the number shown for row `index` of page `page`, `(page - 1) * 10 + index + 1` |
| Pagination.ShownRange | src/app/courses/page.tsx:238-240 | the "Showing a - b of n" caption; related to the rows shown by `RangeMatchesRows` |
| Pagination.RangeMatchesRows | src/app/courses/page.tsx:238-240 | the "Showing a - b of n" caption names exactly the first and last row numbers of the shown page |
| Text.Lower | src/app/courses/page.tsx:91 | lower-casing keeps the length, maps each character, and leaves no upper-case letter |
| Text.LowerIdempotent | src/app/users/page.tsx:87-88 | lower-casing twice is lower-casing once |
| Text.Includes | src/app/courses/page.tsx:91 | `includes` holds iff the query occurs at some position |
| Text.MatchesQuery | src/app/courses/page.tsx:91 | `text.toLowerCase().includes(query.toLowerCase())`; its properties are stated by `EmptyQueryMatches`, `MatchesIgnoresCase` and `VerbatimOccurrenceMatches` |
| Text.EmptyQueryMatches | src/components/searchableDropdown.tsx:27-31 | the empty query matches every text |
| Text.MatchesIgnoresCase | src/app/courses/page.tsx:91 | matching ignores the case of both the text and the query |
| Text.VerbatimOccurrenceMatches | src/app/users/page.tsx:87-88 | a query occurring verbatim in the text matches |
| Text.Trim | src/components/lectureform.tsx:13 | `trim()`: `TrimEnd` of `TrimStart`; characterised by `TrimEmptyIff` |
| Text.TrimStart | src/components/lectureform.tsx:13 | trimming the start removes exactly the leading whitespace |
| Text.TrimEnd | src/components/lectureform.tsx:13 | trimming the end removes exactly the trailing whitespace |
| Text.TrimEmptyIff | src/components/lectureform.tsx:13 | a string trims to "" iff it is all whitespace |
| Users.FilterUsers | src/app/users/page.tsx:85-89 | `filteredUsers`: the users whose lower-cased name or e-mail includes the lower-cased search; its properties are stated by `FilterUsersSpec` |
| Users.FilterUsersSpec | src/app/users/page.tsx:85-89 | a user is kept iff the search occurs in the name or the e-mail, ignoring case; order and multiplicities are kept; the empty search keeps everyone |
| Users.ComparatorIsKeyDifference | src/app/users/page.tsx:91-104 | the max and min comparators are the difference of a key: minus and plus the purchased count, a missing list counting 0 |
| Users.SortUsers | src/app/users/page.tsx:91-104 | `sortedUsers`: the filtered users unchanged for no sort, else their stable sort by the order's key; its properties are stated by `SortUsersSpec` |
| Users.SortUsersSpec | src/app/users/page.tsx:91-104 | sorting is a permutation of the filtered users; max gives non-increasing and min non-decreasing purchase counts; none keeps the order; users with equal counts keep their relative order |
| Users.SortedCopy | src/app/users/page.tsx:91-104 | copying the filtered users into an array and sorting it in place gives the stable sort by the order's key |
| Users.PurchasedCourses | src/app/users/page.tsx:112-117 | the courses listed in the details dialog; its properties are stated by `PurchasedCoursesSpec` |
| Users.PurchasedCoursesSpec | src/app/users/page.tsx:112-117 | with no user selected the list is empty; otherwise a course is listed iff its id is among the user's purchased ids, each as often as in the course list and in its order |
| Users.RowsFrom | src/app/users/page.tsx:179-190 | one row per user of the page slice, numbered `(page - 1) * 10 + index + 1`, showing the purchase count |
| Users.TableRows | src/app/users/page.tsx:171-190 | the table body of a page: the "No users found." row for an empty page, the numbered rows otherwise; its properties are stated by `TableRowsSpec` |
| Users.TableRowsSpec | src/app/users/page.tsx:171-190 | the body is the single "No users found." row iff the page is empty; otherwise row i shows sorted user number `(page - 1) * 10 + i + 1` |
| Users.TableRowAt | src/app/users/page.tsx:179-190 | row i of a non-empty page is `UserRow` number `(page - 1) * 10 + i + 1`, showing that sorted user and its purchase count |
| Users.UsersPage.constructor | src/app/users/page.tsx:46-52 | the page starts with no users or courses, no search, no sort, page 1 and no selected user |
| Users.UsersPage.ComputeSorted | src/app/users/page.tsx:91-104 | the render's sorted copy is the stable sort of the filtered users, and the state is untouched |
| Users.UsersPage.ReceiveUsers | src/app/users/page.tsx:56-68 | the users become the fetched list, or the empty list when none came back |
| Users.UsersPage.ReceiveCourses | src/app/users/page.tsx:70-78 | the courses become the fetched list, or the empty list |
| Users.UsersPage.HandleSearch | src/app/users/page.tsx:80-83 | a search goes back to page 1 with the new text |
| Users.UsersPage.SetSortOrder | src/app/users/page.tsx:144-148 | choosing a sort changes only the sort order; the page is not reset |
| Users.UsersPage.PrevPage | src/app/users/page.tsx:215 | Prev moves to `max(page - 1, 1)` |
| Users.UsersPage.NextPage | src/app/users/page.tsx:238 | Next moves to `min(page + 1, totalPages)` |
| Users.UsersPage.GoToPage | src/app/users/page.tsx:222-235 | a numbered button selects that page, whose slice is non-empty |
| Users.UsersPage.ShowDetails | src/app/users/page.tsx:193 | the eye button selects that user for the details dialog |
| Users.UsersPage.CloseDetails | src/app/users/page.tsx:251-256 | closing the dialog clears the selected user and its purchased-course list |
| Sorting.Insert | src/app/users/page.tsx:93-103 | inserts an element after every element whose key is not greater: one element more, the same elements plus it |
| Sorting.SortBy | src/app/users/page.tsx:93-103 | the stable sort by a key, a permutation of its input; ordered, stable and identity on ordered input by `SortBySorted`, `SortByStable` and `SortBySortedInput` |
| Sorting.SortBySorted | src/app/users/page.tsx:93-103 | the sorted result is ordered by the key |
| Sorting.SortByStable | src/app/users/page.tsx:93-103 | elements with equal keys keep their original relative order |
| Sorting.SortBySortedInput | src/app/users/page.tsx:93-103 | input already ordered by the key is left unchanged |
| Sorting.InsertInPlace | src/app/users/page.tsx:93-103 | one insertion step moves an element back into the sorted run as `Insert` does, leaving later elements alone |
| Sorting.SortInPlace | src/app/users/page.tsx:93-103 | the in-place sort leaves the array equal to `SortBy` of its old contents |
| Dropdown.FilterOptions | src/components/searchableDropdown.tsx:27-31 | `filteredOptions`: every option for an empty query, else those whose lower-cased label includes it; its properties are stated by `FilterOptionsSpec` |
| Dropdown.FilterOptionsSpec | src/components/searchableDropdown.tsx:27-31 | the shown options are exactly those whose label contains the query ignoring case, in order; the empty query shows them all |
| Dropdown.SelectedLabel | src/components/searchableDropdown.tsx:33 | none iff no option has the value; otherwise the label of the first option with that value |
| Dropdown.ButtonText | src/components/searchableDropdown.tsx:40-41 | the button shows the selected label, or "Select <label>" when there is none or it is empty |
| Dropdown.PanelFor | src/components/searchableDropdown.tsx:68-91 | the panel says "No results found" iff no option is shown; otherwise it lists the shown options and highlights exactly those holding the current value |
| Dropdown.SearchableSelect.constructor | src/components/searchableDropdown.tsx:25 | the search text starts empty |
| Dropdown.SearchableSelect.SetQuery | src/components/searchableDropdown.tsx:64 | typing stores the search text |
| Dropdown.SearchableSelect.Choose | src/components/searchableDropdown.tsx:73-76 | choosing a shown option emits its value and clears the search, so every option is shown again |
| CreateCourse.Errors | src/app/createcourse/page.tsx:11-44 | the schema's error list for a form, one entry per failed rule; what it holds is stated by `ValidIff`, `LessonErrorIff` and `DefaultFormInvalid` |
| CreateCourse.Valid | src/app/createcourse/page.tsx:11-44 | the schema accepts the form: its error list is empty; characterised by `ValidIff` |
| CreateCourse.OneLessonErrorsSpec | src/app/createcourse/page.tsx:30-41 | a lesson's errors are exactly its empty title, content, duration and missing video, under its index |
| CreateCourse.LessonErrorsSpec | src/app/createcourse/page.tsx:27-43 | a lesson-field error is reported for index i iff lesson i leaves that field empty |
| CreateCourse.LessonErrorsEmpty | src/app/createcourse/page.tsx:27-43 | there are no lesson errors iff every lesson is complete |
| CreateCourse.ValidIff | src/app/createcourse/page.tsx:11-44 | the schema accepts the form iff title, description, category and instructor are non-empty, the price is a number, a thumbnail is picked, and there is at least one lesson and all are complete |
| CreateCourse.LessonErrorIff | src/app/createcourse/page.tsx:27-43 | a lesson-field error for index i is in the form's errors iff lesson i exists and leaves that field empty |
| CreateCourse.DefaultFormInvalid | src/app/createcourse/page.tsx:79-87 | the default values are rejected, with the title error and the first lesson's video error among others |
| CreateCourse.VideoParts | src/app/createcourse/page.tsx:116-120 | the `videos` parts of the lessons that have a video; its properties are stated by `VideoPartsSnoc` and `VideoPartsSpec` |
| CreateCourse.VideoPartsSnoc | src/app/createcourse/page.tsx:116-120 | one lesson more adds at most its own video part, at the end |
| CreateCourse.VideoPartsSpec | src/app/createcourse/page.tsx:116-120 | the video parts are the first files of exactly the lessons having a video, one each, in lesson order |
| CreateCourse.Payload | src/app/createcourse/page.tsx:98-120 | the multipart body `onSubmit` builds; its contents are stated by `PayloadSpec` and `PayloadVideos` |
| CreateCourse.PayloadSpec | src/app/createcourse/page.tsx:98-113 | the body opens with title, description, categoryId, instructorId, price and the first thumbnail file in that order, then one `lessons` part with every lesson's title, content and duration and no video |
| CreateCourse.PayloadVideos | src/app/createcourse/page.tsx:115-120 | after those seven parts come exactly one `videos` part per lesson, in lesson order, carrying that lesson's first video |
| CreateCourse.BuildFormData | src/app/createcourse/page.tsx:98-120 | the FormData built by successive appends and the loop over lessons equals the payload above |
| CreateCourse.UploadPercent | src/app/createcourse/page.tsx:127-132 | the percentage is `loaded * 100 / (total or 1)` rounded to the nearest integer, halves up |
| CreateCourse.UploadPercentMonotone | src/app/createcourse/page.tsx:127-132 | for a fixed total, more bytes sent never lower the percentage |
| CreateCourse.UploadPercentBounded | src/app/createcourse/page.tsx:127-132 | with a known total the percentage is at most 100, and exactly 100 once everything is sent |
| CreateCourse.UnknownTotalOvershoots | src/app/createcourse/page.tsx:128-130 | with an unknown total the percentage is `loaded * 100` |
| CreateCourse.CreateCoursePage.constructor | src/app/createcourse/page.tsx:47-50 | the page starts with the default form, not submitting, progress 0, no message and no preview |
| CreateCourse.CreateCoursePage.AppendLesson | src/app/createcourse/page.tsx:291-292 | "Add Lesson" appends one empty lesson and changes nothing else |
| CreateCourse.CreateCoursePage.RemoveLesson | src/app/createcourse/page.tsx:281 | "Remove Lesson" deletes only the lesson at that index; the others keep their order |
| CreateCourse.CreateCoursePage.EditFields | src/app/createcourse/page.tsx:163-184 | typing into the registered inputs replaces the form values and nothing else; the thumbnail value keeps what it had, because that input's own `onChange` replaces the one from `register` |
| CreateCourse.CreateCoursePage.SetCategoryId | src/app/createcourse/page.tsx:214 | choosing a category sets only the category id |
| CreateCourse.CreateCoursePage.SetInstructorId | src/app/createcourse/page.tsx:224 | choosing an instructor sets only the instructor id |
| CreateCourse.CreateCoursePage.PickThumbnail | src/app/createcourse/page.tsx:180-184 | as written: picking a file shows its object URL as the preview, an empty pick changes nothing, and the form value is left as it was |
| CreateCourse.CreateCoursePage.PickThumbnailRegistered | src/app/createcourse/page.tsx:180-184 | as evidently intended: the preview as above, and the picked files also become the form's thumbnail value |
| CreateCourse.CreateCoursePage.StartSubmit | src/app/createcourse/page.tsx:95-124 | submission marks the page as submitting, which disables the button, and builds the payload of the current form, posted to the create-course URL |
| CreateCourse.CreateCoursePage.ReportProgress | src/app/createcourse/page.tsx:127-132 | a progress event stores the rounded percentage |
| CreateCourse.CreateCoursePage.FinishSubmit | src/app/createcourse/page.tsx:136-144 | afterwards the page is never submitting; on success the success message, progress 0 and no preview; on failure the failure message with progress and preview untouched |
| CreateCourse.MissingThumbnailRefused | src/app/createcourse/page.tsx:20-26 | a form whose thumbnail value holds no file is refused with "Thumbnail is required" |
| CreateCourse.PickedThumbnailValid | src/app/createcourse/page.tsx:11-44 | with a file in the thumbnail value the form is accepted iff every other rule holds |
| CreateCourse.PickThenSubmitAsWritten | src/app/createcourse/page.tsx:180-184 | as written: after filling every field from an accepted form and picking a thumbnail, the preview shows it but the form value still has no thumbnail, so the form is refused |
| CreateCourse.PickThenSubmit | src/app/createcourse/page.tsx:95-105 | with the corrected picker the same steps give an accepted form whose payload carries the picked thumbnail as its sixth part |
| Api.Set | src/service/api.js:25 | `d[name] = value` on a plain object; its properties are stated by `SetGet`, `SetNames` and `SetDistinct` |
| Api.Spread | src/service/api.js:18-22 | `{...d, ...src}`: `src`'s properties assigned onto `d` in order; its properties are stated by `SpreadGet`, `SpreadNames` and `SpreadDistinct` |
| Api.BuildHeaders | src/service/api.js:18-22 | `apiHeaders` before Content-Type; its properties are stated by `BuildHeadersSpec` and `BuildHeadersNames` |
| Api.Get | src/service/api.js:18-26 | a header is absent iff its name is not among the names; a present one is one of the entries |
| Api.SetGet | src/service/api.js:25 | after assigning a header it reads the new value and every other header reads as before |
| Api.SetNames | src/service/api.js:25 | assigning keeps the names in order and adds a new name at the end |
| Api.SetDistinct | src/service/api.js:25 | assigning keeps header names distinct |
| Api.SpreadDistinct | src/service/api.js:18-22 | spreading one header object over another keeps the names distinct |
| Api.SpreadGet | src/service/api.js:18-22 | in a spread the later object's headers win and the others keep the earlier values |
| Api.SpreadNames | src/service/api.js:18-22 | a spread keeps the earlier names in place and appends the later object's new names in their order |
| Api.NamesStep | src/service/api.js:20 | one step of the spread adds one name to the order |
| Api.BuildHeadersSpec | src/service/api.js:18-22 | the names are distinct and Accept comes first; Accept is `application/json` unless the caller sets it; Authorization is `Bearer <token>` when the token is truthy, otherwise the caller's; every other header is the caller's |
| Api.BaseHeaders | src/service/api.js:18-20 | without a token, spreading the caller's headers over Accept keeps Accept first, lets the caller's values win and adds nothing else |
| Api.SetAuthorization | src/service/api.js:21 | spreading a truthy token's Authorization changes only that header and keeps Accept first |
| Api.BuildHeadersNames | src/service/api.js:18-22 | the header order is Accept, then the caller's other headers in the caller's order, then Authorization when the token adds it as a new name |
| Api.SetJsonContentType | src/service/api.js:24-26 | setting Content-Type to JSON in place changes only that header |
| Api.PrepareRequest | src/service/api.js:8-38 | missing options default to GET, null body, empty params and headers, no token and a no-op callback; the URL is the base URL plus the endpoint; Content-Type is JSON iff the body is not FormData and the method is not DELETE; the timeout is 300000 ms for FormData and 10000 ms otherwise |
| Api.NormalizeError | src/service/api.js:43-54 | exactly one value is thrown: the response body iff there is a response, else "No response received from the server." iff the request went out, else "Error in setting up the request." |
| Api.Settle | src/service/api.js:39-54 | a delivered response returns its body unchanged; a failure never returns and throws the normalised error |
| Api.ApiCall | src/service/api.js:8-56 | the request sent is the one `PrepareRequest` builds (URL, method, body, params, callback and timeout defaults, and the headers of `HeadersFor`), and the call settles as the transport result dictates |
| Api.DefaultRequest | src/service/api.js:9-26 | with no options the headers are Accept then Content-Type, both JSON |
| ClassNames.Cn | src/lib/utils.ts:6 | `classes.filter(Boolean).join(" ")`; its properties are stated by `CnRoundTrip`, `CnDropsFalsy`, `CnAllFalsy` and `CnSingle` |
| ClassNames.SplitCount | src/lib/utils.ts:6 | a fact about `Split`, the inverse used to state `CnRoundTrip`, not about the source itself: a string splits into one piece more than it has spaces |
| ClassNames.SplitHead | src/lib/utils.ts:6 | a fact about `Split`, the inverse used to state `CnRoundTrip`, not about the source itself: splitting stops at the first space |
| ClassNames.SplitWhole | src/lib/utils.ts:6 | a fact about `Split`, the inverse used to state `CnRoundTrip`, not about the source itself: a space-free string is one piece |
| ClassNames.SplitJoin | src/lib/utils.ts:6 | a fact about `Split`, the inverse used to state `CnRoundTrip`, not about the source itself: joining space-free strings with spaces and splitting gives them back |
| ClassNames.CnRoundTrip | src/lib/utils.ts:3-7 | when no argument contains a space, the result splits back into exactly the truthy arguments in order, with one separator fewer than kept arguments |
| ClassNames.CnDropsFalsy | src/lib/utils.ts:6 | a false, null, undefined or empty argument anywhere changes nothing |
| ClassNames.CnAllFalsy | src/lib/utils.ts:6 | with no truthy argument the result is "" |
| ClassNames.CnSingle | src/lib/utils.ts:6 | one truthy string among falsy arguments comes back unchanged |
| LectureForm.HandleSubmit | src/components/lectureform.tsx:11-15 | the "Lecture title is required" alert iff the title is all whitespace; otherwise title and duration are submitted exactly as typed |
| LectureForm.PaddedTitleKept | src/components/lectureform.tsx:13-14 | a padded title is accepted and submitted with its padding; a title of spaces is refused |
| LectureForm.LectureFormState.constructor | src/components/lectureform.tsx:8-9 | the fields start from the initial values, or empty |
| LectureForm.LectureFormState.Heading | src/components/lectureform.tsx:22-24 | "Edit Lecture" iff initial values were given, otherwise "Add New Lecture" |
| LectureForm.LectureFormState.SetTitle | src/components/lectureform.tsx:32 | typing a title changes only the title |
| LectureForm.LectureFormState.SetDuration | src/components/lectureform.tsx:43 | typing a duration changes only the duration |
| LectureForm.LectureFormState.Submit | src/components/lectureform.tsx:11-15 | "Save" submits iff the title is not blank, and leaves the fields as they are |

## Left out

- Network I/O: the axios calls, `src/service/service.js` (a table of endpoint
  strings) and the backend are not part of this model. A call's outcome is an
  argument (`callSucceeds`, `Api.Transport`). The course list and user counts
  arrive through `ReceiveCourses` / `ReceiveUserCounts`.
- Browser services: `localStorage`, router navigation, `confirm`, `alert` and
  toasts. The confirmation is a boolean. The alert and the toast are returned as values.
- The role check around the Add, Edit and Delete buttons: the role is the constant
  `"admin"`, so the buttons always render, and the check is not modelled.
- The 300 ms debounce of the search box. Only its effect is modelled: page 1 and the new text.
- The course upload does not go through `apiCall`: it posts directly to a fixed local
  URL with its own multipart Content-Type header. The header and the transfer are not
  modelled. `CreateCoursePage.StartSubmit` returns the URL and the payload, and
  `CreateCoursePage.ReportProgress` models that direct call's `onUploadProgress`.
- yup and react-hook-form internals. The schema rules are stated directly.
  - The price is modelled after yup's number cast: a number or not a number.
    "Price is required" never applies, because the default value "" casts to not-a-number.
  - The thumbnail input's own `onChange` replaces the one from `register`, so the picked
    file never reaches the form value (see "## Findings"). Form values reach the
    model through `EditFields`, which therefore leaves the thumbnail value as it was.
  - Lessons added or removed while a submission runs are not modelled.
- Courses.CoursesPage.ReceiveCourses: takes a list. The source stores `res.courses`
  with no `|| []` fallback, so a response without `courses` makes the next render
  throw at `courses.filter`. That crash is not modelled.
- Text.Lower: only ASCII letters are lower-cased. Unicode case mapping is not modelled.
- Floating point. `Math.round` over a floating division is modelled exactly by
  integer rounding, for non-negative byte counts. Prices are real numbers.
- Date, currency and number formatting (`formatDate`, `toLocaleDateString`,
  `toFixed`), the login page, and presentation-only components and pages.
- Api.PrepareRequest: JavaScript puts integer-like property names first in
  objects. Header names are assumed not to be integer-like.
- Api.PrepareRequest: caller headers are matched by exact, case-sensitive name,
  as object keys are.
- Api.Settle: axios rejecting non-2xx responses is part of the transport result.

## Findings

| source | as written | input that shows it | evidently intended | confidence | as-written member | corrected member |
|---|---|---|---|---|---|---|
| src/app/createcourse/page.tsx:180-184 | the thumbnail input spreads `register("thumbnail")` and then sets its own `onChange`, which only updates the preview; the form value stays at its default `null` (line 85), so "Thumbnail is required" (lines 20-26) refuses every submission | a new page, every field filled in from a form the schema accepts, one image picked | the picked files become the form's thumbnail value as well, so a complete form is submitted | not executed; rests on react-hook-form v7 taking an uncontrolled input's value only from the `onChange` it supplies | CreateCourse.PickThenSubmitAsWritten | CreateCourse.PickThenSubmit |
