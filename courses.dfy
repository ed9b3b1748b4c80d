/**
 * The course management table: the course list fetched from the backend,
 * narrowed by a title search, cut into pages of ten, and shrunk locally after
 * a confirmed delete.
 */
module Courses {
  import opened Optional
  import opened Seqs
  import opened Text
  import opened Pagination

  datatype Status = Active | Inactive | Archived

  /** A course as the backend returns it. */
  datatype Course = Course(
    id: string,
    title: string,
    description: string,
    thumbnailUrl: Option<string>,
    category: string,
    instructor: string,
    price: real,
    isPaid: bool,
    lessons: seq<string>,
    status: Status,
    createdAt: string)

  /** The search test: the course's title contains the search text, ignoring case. */
  function TitleMatches(search: string): Course -> bool {
    (c: Course) => MatchesQuery(c.title, search)
  }

  /** `filteredCourses`. */
  function FilterCourses(courses: seq<Course>, search: string): seq<Course> {
    Filter(courses, TitleMatches(search))
  }

  /**
   * The filtered list holds exactly the courses whose title matches, each as often
   * as in the full list, in the full list's order; an empty search keeps every
   * course, and searching the result again changes nothing.
   */
  lemma FilterCoursesSpec(courses: seq<Course>, search: string)
    ensures forall c :: c in FilterCourses(courses, search) <==> c in courses && MatchesQuery(c.title, search)
    ensures forall c :: multiset(FilterCourses(courses, search))[c] ==
                        (if MatchesQuery(c.title, search) then multiset(courses)[c] else 0)
    ensures IsSubseq(FilterCourses(courses, search), courses)
    ensures search == "" ==> FilterCourses(courses, search) == courses
    ensures FilterCourses(FilterCourses(courses, search), search) == FilterCourses(courses, search)
  {
    forall c
      ensures c in FilterCourses(courses, search) <==> c in courses && MatchesQuery(c.title, search)
      ensures multiset(FilterCourses(courses, search))[c] ==
              (if MatchesQuery(c.title, search) then multiset(courses)[c] else 0)
    {
      FilterMembers(courses, TitleMatches(search), c);
      FilterCount(courses, TitleMatches(search), c);
    }
    FilterIsSubseq(courses, TitleMatches(search));
    FilterIdempotent(courses, TitleMatches(search));
    if search == "" {
      forall i | 0 <= i < |courses| ensures TitleMatches(search)(courses[i]) {
        EmptyQueryMatches(courses[i].title);
      }
      FilterAllPass(courses, TitleMatches(search));
    }
  }

  /** The test kept by the local update after a delete: the course has another id. */
  function HasOtherId(id: string): Course -> bool {
    (c: Course) => c.id != id
  }

  /** `courses.filter((c) => c._id !== id)`. */
  function RemoveById(courses: seq<Course>, id: string): seq<Course> {
    Filter(courses, HasOtherId(id))
  }

  /**
   * After the update no course has the deleted id; every other course stays,
   * as often as before and in the same order; and a list without that id is unchanged.
   */
  lemma RemoveByIdSpec(courses: seq<Course>, id: string)
    ensures forall c :: c in RemoveById(courses, id) <==> c in courses && c.id != id
    ensures forall c: Course :: c.id != id ==> multiset(RemoveById(courses, id))[c] == multiset(courses)[c]
    ensures IsSubseq(RemoveById(courses, id), courses)
    ensures (forall i :: 0 <= i < |courses| ==> courses[i].id != id) ==> RemoveById(courses, id) == courses
    ensures (exists i :: 0 <= i < |courses| && courses[i].id == id) ==> |RemoveById(courses, id)| < |courses|
  {
    forall c: Course
      ensures c in RemoveById(courses, id) <==> c in courses && c.id != id
      ensures multiset(RemoveById(courses, id))[c] == (if c.id != id then multiset(courses)[c] else 0)
    {
      FilterMembers(courses, HasOtherId(id), c);
      FilterCount(courses, HasOtherId(id), c);
    }
    FilterIsSubseq(courses, HasOtherId(id));
    if forall i :: 0 <= i < |courses| ==> courses[i].id != id {
      FilterAllPass(courses, HasOtherId(id));
    }
    if i :| 0 <= i < |courses| && courses[i].id == id {
      FilterShrinks(courses, HasOtherId(id), i);
    }
  }

  /** The "Users" column: the enrolment count when the backend reported one, otherwise "N/A". */
  datatype UsersCell = Count(n: int) | NotAvailable

  function UsersCellFor(userCounts: map<string, int>, id: string): (cell: UsersCell)
    ensures cell == NotAvailable <==> id !in userCounts
    ensures id in userCounts ==> cell == Count(userCounts[id])
  {
    if id in userCounts then Count(userCounts[id]) else NotAvailable
  }

  const NoCoursesMessage: string := "No courses found."

  /** A body row of the table: a course with its row number, or the single "not found" row. */
  datatype Row = CourseRow(number: int, course: Course, users: UsersCell) | EmptyRow(message: string)

  function RowsFrom(slice: seq<Course>, page: nat, userCounts: map<string, int>, index: nat): (rows: seq<Row>)
    requires index <= |slice|
    ensures |rows| == |slice| - index
    ensures forall k :: 0 <= k < |rows| ==>
      rows[k] == CourseRow(RowNumber(page, index + k), slice[index + k], UsersCellFor(userCounts, slice[index + k].id))
    decreases |slice| - index
  {
    if index == |slice| then []
    else
      [CourseRow(RowNumber(page, index), slice[index], UsersCellFor(userCounts, slice[index].id))]
      + RowsFrom(slice, page, userCounts, index + 1)
  }

  /** The table body for page `page` of the filtered list. */
  function TableRows(filtered: seq<Course>, page: nat, userCounts: map<string, int>): seq<Row> {
    var slice := PageSlice(filtered, page);
    if slice == [] then [EmptyRow(NoCoursesMessage)] else RowsFrom(slice, page, userCounts, 0)
  }

  /**
   * The body is the single "No courses found." row exactly when the page is empty;
   * otherwise row `i` is the filtered list's course number `(page - 1) * 10 + i + 1`,
   * counting from one, with its enrolment count or "N/A".
   */
  lemma TableRowsSpec(filtered: seq<Course>, page: nat, userCounts: map<string, int>)
    ensures var rows := TableRows(filtered, page, userCounts);
      (rows == [EmptyRow(NoCoursesMessage)] <==> PageSlice(filtered, page) == []) &&
      (PageSlice(filtered, page) != [] ==>
        |rows| == |PageSlice(filtered, page)| &&
        forall i :: 0 <= i < |rows| ==>
          rows[i].CourseRow? && rows[i].number == RowNumber(page, i) &&
          1 <= rows[i].number <= |filtered| &&
          rows[i].course == filtered[rows[i].number - 1] &&
          rows[i].users == UsersCellFor(userCounts, rows[i].course.id))
  {
    var slice := PageSlice(filtered, page);
    var rows := TableRows(filtered, page, userCounts);
    if slice != [] {
      assert rows == RowsFrom(slice, page, userCounts, 0);
      assert rows[0].CourseRow?;
      forall i | 0 <= i < |rows|
        ensures rows[i].CourseRow? && rows[i].number == RowNumber(page, i)
        ensures 1 <= rows[i].number <= |filtered| && rows[i].course == filtered[rows[i].number - 1]
        ensures rows[i].users == UsersCellFor(userCounts, rows[i].course.id)
      {
        TableRowAt(filtered, page, userCounts, i);
      }
    }
  }

  /** One row of a non-empty page. */
  lemma TableRowAt(filtered: seq<Course>, page: nat, userCounts: map<string, int>, i: nat)
    requires i < |PageSlice(filtered, page)|
    ensures var rows := TableRows(filtered, page, userCounts);
      && i < |rows|
      && rows[i] == CourseRow(RowNumber(page, i), PageSlice(filtered, page)[i], UsersCellFor(userCounts, PageSlice(filtered, page)[i].id))
      && 1 <= RowNumber(page, i) <= |filtered| && PageSlice(filtered, page)[i] == filtered[RowNumber(page, i) - 1]
  {
    PageSliceAt(filtered, page, i);
  }



  /** The toast shown after a delete attempt. */
  datatype Toast = Success(text: string) | Failure(text: string)

  const DeletedMessage: string := "Course deleted successfully"
  const DeleteFailedMessage: string := "Failed to delete course"

  /** The state of the `Courses` page component. */
  class CoursesPage {
    var courses: seq<Course>
    var search: string
    var page: nat
    var userCounts: map<string, int>

    constructor ()
      ensures courses == [] && search == "" && page == 1 && userCounts == map[]
    {
      courses, search, page, userCounts := [], "", 1, map[];
    }

    function Filtered(): seq<Course>
      reads this
    {
      FilterCourses(courses, search)
    }

    function TotalPages(): nat
      reads this
    {
      Pagination.TotalPages(|Filtered()|)
    }

    function Paginated(): seq<Course>
      reads this
    {
      PageSlice(Filtered(), page)
    }

    function Rows(): seq<Row>
      reads this
    {
      TableRows(Filtered(), page, userCounts)
    }

    function Caption(): Range
      reads this
    {
      ShownRange(page, |Filtered()|)
    }

    /** `setCourses(res.courses)` once the course list has arrived. */
    method ReceiveCourses(fetched: seq<Course>)
      modifies this
      ensures courses == fetched
      ensures search == old(search) && page == old(page) && userCounts == old(userCounts)
    {
      courses := fetched;
    }

    /** `setUserCounts(res.userCounts || {})`. */
    method ReceiveUserCounts(counts: Option<map<string, int>>)
      modifies this
      ensures userCounts == counts.GetOr(map[])
      ensures courses == old(courses) && search == old(search) && page == old(page)
    {
      userCounts := counts.GetOr(map[]);
    }

    /** The effect of the debounced search handler: back to page 1 with the new search text. */
    method HandleSearch(value: string)
      modifies this
      ensures page == 1 && search == value
      ensures courses == old(courses) && userCounts == old(userCounts)
    {
      page := 1;
      search := value;
    }

    /** The Prev button. */
    method PrevPage()
      modifies this
      ensures page == Prev(old(page))
      ensures courses == old(courses) && search == old(search) && userCounts == old(userCounts)
    {
      page := Prev(page);
    }

    /** The Next button, clamped by the page count of the current render. */
    method NextPage()
      modifies this
      ensures page == Next(old(page), old(TotalPages()))
      ensures courses == old(courses) && search == old(search) && userCounts == old(userCounts)
    {
      page := Next(page, TotalPages());
    }

    /** One of the numbered page buttons, which exist for pages 1 to `totalPages`. */
    method GoToPage(n: nat)
      requires 1 <= n <= TotalPages()
      modifies this
      ensures page == n && Paginated() != []
      ensures courses == old(courses) && search == old(search) && userCounts == old(userCounts)
    {
      page := n;
      PageSliceShape(Filtered(), n);
    }

    /**
     * The part of `handleDelete` before its `await`: the confirmation decides
     * whether the delete call is issued, and the handler holds on to the
     * course list of the render in which the button was pressed.
     */
    method BeginDelete(confirmed: bool) returns (called: bool, snapshot: seq<Course>)
      ensures called == confirmed
      ensures snapshot == courses
    {
      called, snapshot := confirmed, courses;
    }

    /**
     * The part of `handleDelete` after the delete call settles: on success the
     * list becomes the held-on-to list without the course, whatever the list
     * is by now; on failure nothing changes.
     */
    method FinishDelete(snapshot: seq<Course>, id: string, callSucceeds: bool) returns (toast: Toast)
      modifies this
      ensures courses == if callSucceeds then RemoveById(snapshot, id) else old(courses)
      ensures toast == if callSucceeds then Success(DeletedMessage) else Failure(DeleteFailedMessage)
      ensures search == old(search) && page == old(page) && userCounts == old(userCounts)
    {
      if callSucceeds {
        courses := RemoveById(snapshot, id);
        toast := Success(DeletedMessage);
      } else {
        toast := Failure(DeleteFailedMessage);
      }
    }

    /**
     * `handleDelete` with nothing else happening while the call is in flight:
     * nothing happens unless the user confirms; then the delete call is issued,
     * and only when it succeeds is the course dropped from the local list.
     */
    method HandleDelete(id: string, confirmed: bool, callSucceeds: bool) returns (called: bool, toast: Option<Toast>)
      modifies this
      ensures called == confirmed
      ensures courses == if confirmed && callSucceeds then RemoveById(old(courses), id) else old(courses)
      ensures toast == if !confirmed then None
                       else if callSucceeds then Some(Success(DeletedMessage))
                       else Some(Failure(DeleteFailedMessage))
      ensures search == old(search) && page == old(page) && userCounts == old(userCounts)
    {
      var snapshot;
      called, snapshot := BeginDelete(confirmed);
      toast := None;
      if called {
        var t := FinishDelete(snapshot, id, callSucceeds);
        toast := Some(t);
      }
    }
  }

  /**
   * Two confirmed deletes that overlap: B is pressed before A's call settles, so
   * both handlers hold the same list. A finishes first, then B. The final list
   * is the first list without B's course only: A's deletion is lost.
   */
  method OverlappingDeletes(page: CoursesPage, a: string, b: string) returns (toastA: Toast, toastB: Toast)
    modifies page
    ensures page.courses == RemoveById(old(page.courses), b)
    ensures toastA == Success(DeletedMessage) && toastB == Success(DeletedMessage)
  {
    var calledA, snapshotA := page.BeginDelete(true);
    var calledB, snapshotB := page.BeginDelete(true);
    toastA := page.FinishDelete(snapshotA, a, true);
    toastB := page.FinishDelete(snapshotB, b, true);
  }

  /**
   * Why the overlap loses an update: B's list, computed from the list both
   * handlers held, still holds A's course, although A's own update removed it.
   */
  lemma LostDelete(courses: seq<Course>, a: string, b: string, c: Course)
    requires c in courses && c.id == a && a != b
    ensures c !in RemoveById(courses, a)
    ensures c in RemoveById(courses, b)
  {
    RemoveByIdSpec(courses, a);
    RemoveByIdSpec(courses, b);
  }

  /** Just after a search, the page shows rows exactly when some course matches. */
  lemma SearchShowsFirstPage(courses: seq<Course>, search: string)
    ensures PageSlice(FilterCourses(courses, search), 1) != [] <==> FilterCourses(courses, search) != []
    ensures FilterCourses(courses, search) != [] ==> 1 <= TotalPages(|FilterCourses(courses, search)|)
  {
    PageSliceShape(FilterCourses(courses, search), 1);
  }

  /**
   * The page number is not adjusted after a delete: deleting the only course of the
   * last page leaves the page past the new page count, showing "No courses found."
   */
  lemma DeleteCanLeaveEmptyPage(courses: seq<Course>, victim: Course)
    requires |courses| == 11
    requires forall i :: 0 <= i < 10 ==> courses[i].id != victim.id
    requires courses[10] == victim
    ensures TableRows(FilterCourses(courses, ""), 2, map[]) != [EmptyRow(NoCoursesMessage)]
    ensures TotalPages(|FilterCourses(RemoveById(courses, victim.id), "")|) == 1
    ensures TableRows(FilterCourses(RemoveById(courses, victim.id), ""), 2, map[]) == [EmptyRow(NoCoursesMessage)]
  {
    FilterCoursesSpec(courses, "");
    PageSliceShape(courses, 2);
    TableRowsSpec(courses, 2, map[]);
    var rest := RemoveById(courses, victim.id);
    assert |rest| == 10 by {
      RemoveLastById(courses, victim);
    }
    FilterCoursesSpec(rest, "");
    PageSliceShape(rest, 2);
  }

  lemma RemoveLastById(courses: seq<Course>, victim: Course)
    requires |courses| == 11
    requires forall i :: 0 <= i < 10 ==> courses[i].id != victim.id
    requires courses[10] == victim
    ensures RemoveById(courses, victim.id) == courses[..10]
  {
    assert courses == courses[..10] + [victim];
    FilterSnoc(courses[..10], victim, HasOtherId(victim.id));
    FilterAllPass(courses[..10], HasOtherId(victim.id));
  }

  /** With 23 courses and no search there are three pages, the first holding courses 1 to 10. */
  lemma TwentyThreeCourses(courses: seq<Course>)
    requires |courses| == 23
    ensures TotalPages(|FilterCourses(courses, "")|) == 3
    ensures PageSlice(FilterCourses(courses, ""), 1) == courses[..10]
    ensures PageSlice(FilterCourses(courses, ""), 3) == courses[20..]
  {
    FilterCoursesSpec(courses, "");
    PageSliceShape(courses, 1);
    PageSliceShape(courses, 3);
  }
}
