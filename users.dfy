/**
 * The users management table: users searched by name or e-mail, optionally
 * ordered by how many courses they bought, cut into pages of ten, and the
 * purchased-course list shown in a user's detail view.
 */
module Users {
  import opened Optional
  import opened Seqs
  import opened Text
  import opened Pagination
  import opened Sorting

  /** A user as the backend returns it; the purchased-course list may be missing. */
  datatype User = User(
    id: string,
    name: string,
    fullName: string,
    email: string,
    phone: string,
    role: string,
    purchasedCourseIds: Option<seq<string>>)

  /** `user.purchasedCourseIds?.length || 0`: a missing list counts as no purchases. */
  function PurchasedCount(u: User): nat {
    match u.purchasedCourseIds
    case Some(ids) => |ids|
    case None => 0
  }

  /** The search test: the name or the e-mail contains the search text, ignoring case. */
  function UserMatches(search: string): User -> bool {
    (u: User) => MatchesQuery(u.name, search) || MatchesQuery(u.email, search)
  }

  /** `filteredUsers`. */
  function FilterUsers(users: seq<User>, search: string): seq<User> {
    Filter(users, UserMatches(search))
  }

  /**
   * The filtered list holds exactly the users whose name or e-mail matches, each as
   * often as in the full list, in the full list's order; an empty search keeps everyone.
   */
  lemma FilterUsersSpec(users: seq<User>, search: string)
    ensures forall u :: u in FilterUsers(users, search) <==>
                        u in users && (MatchesQuery(u.name, search) || MatchesQuery(u.email, search))
    ensures forall u :: multiset(FilterUsers(users, search))[u] ==
                        (if MatchesQuery(u.name, search) || MatchesQuery(u.email, search) then multiset(users)[u] else 0)
    ensures IsSubseq(FilterUsers(users, search), users)
    ensures search == "" ==> FilterUsers(users, search) == users
  {
    forall u
      ensures u in FilterUsers(users, search) <==>
              u in users && (MatchesQuery(u.name, search) || MatchesQuery(u.email, search))
      ensures multiset(FilterUsers(users, search))[u] ==
              (if MatchesQuery(u.name, search) || MatchesQuery(u.email, search) then multiset(users)[u] else 0)
    {
      FilterMembers(users, UserMatches(search), u);
      FilterCount(users, UserMatches(search), u);
    }
    FilterIsSubseq(users, UserMatches(search));
    if search == "" {
      forall i | 0 <= i < |users| ensures UserMatches(search)(users[i]) {
        EmptyQueryMatches(users[i].name);
      }
      FilterAllPass(users, UserMatches(search));
    }
  }

  /** The sort select: "max", "min" or "none". */
  datatype SortOrder = Max | Min | NoSort

  /** The comparator handed to `sort` for "max" and for "min". */
  function Comparator(order: SortOrder, a: User, b: User): int {
    if order == Max then PurchasedCount(b) - PurchasedCount(a) else PurchasedCount(a) - PurchasedCount(b)
  }

  /** The key that the comparator orders by: fewer purchases first for "min", more first for "max". */
  function SortKey(order: SortOrder): User -> int {
    if order == Max then (u: User) => 0 - PurchasedCount(u) as int else (u: User) => PurchasedCount(u)
  }

  /** Each comparator is the difference of the keys, so the stable sort is `SortBy` with that key. */
  lemma ComparatorIsKeyDifference(order: SortOrder, a: User, b: User)
    requires order != NoSort
    ensures Comparator(order, a, b) == SortKey(order)(a) - SortKey(order)(b)
  {
  }

  /** `sortedUsers`: a copy of the filtered list, sorted when an order is chosen. */
  function SortUsers(filtered: seq<User>, order: SortOrder): seq<User> {
    if order == NoSort then filtered else SortBy(filtered, SortKey(order))
  }

  /** The test "bought exactly `n` courses". */
  function HasCount(n: int): User -> bool {
    (u: User) => PurchasedCount(u) == n
  }

  /**
   * Sorting only reorders: "max" gives non-increasing purchase counts, "min"
   * non-decreasing ones, "none" the filtered list itself, and users with equal
   * counts keep their filtered order.
   */
  lemma SortUsersSpec(filtered: seq<User>, order: SortOrder)
    ensures multiset(SortUsers(filtered, order)) == multiset(filtered)
    ensures |SortUsers(filtered, order)| == |filtered|
    ensures order == Max ==> forall i, j :: 0 <= i < j < |SortUsers(filtered, order)| ==>
      PurchasedCount(SortUsers(filtered, order)[i]) >= PurchasedCount(SortUsers(filtered, order)[j])
    ensures order == Min ==> forall i, j :: 0 <= i < j < |SortUsers(filtered, order)| ==>
      PurchasedCount(SortUsers(filtered, order)[i]) <= PurchasedCount(SortUsers(filtered, order)[j])
    ensures order == NoSort ==> SortUsers(filtered, order) == filtered
    ensures forall n :: Filter(SortUsers(filtered, order), HasCount(n)) == Filter(filtered, HasCount(n))
  {
    var r := SortUsers(filtered, order);
    assert |r| == |multiset(r)| == |filtered|;
    if order != NoSort {
      var key := SortKey(order);
      SortBySorted(filtered, key);
      forall n ensures Filter(r, HasCount(n)) == Filter(filtered, HasCount(n)) {
        var k := if order == Max then -n else n;
        SortByStable(filtered, key, k);
        FilterCongruent(r, HasCount(n), KeyIs(key, k));
        FilterCongruent(filtered, HasCount(n), KeyIs(key, k));
      }
    }
  }

  /**
   * The `sortedUsers` computation as the page runs it: copy the filtered list into a
   * fresh array and sort that array in place, so the filtered list itself is not reordered.
   */
  method SortedCopy(filtered: seq<User>, order: SortOrder) returns (sorted: seq<User>)
    ensures sorted == SortUsers(filtered, order)
  {
    var a := new User[|filtered|](i requires 0 <= i < |filtered| => filtered[i]);
    assert a[..] == filtered;
    if order != NoSort {
      SortInPlace(a, SortKey(order));
    }
    sorted := a[..];
  }

  /** A course as listed in a user's detail view. */
  datatype PurchaseStatus = Active | Completed | Expired

  datatype PurchasedCourse = PurchasedCourse(
    id: string,
    title: string,
    purchaseDate: string,
    price: real,
    status: PurchaseStatus,
    progress: Option<real>,
    certificateUrl: Option<string>)

  function BoughtIn(ids: seq<string>): PurchasedCourse -> bool {
    (c: PurchasedCourse) => c.id in ids
  }

  /** `purchasedCoursesForDetailsUser`. */
  function PurchasedCourses(courses: seq<PurchasedCourse>, detailsUser: Option<User>): seq<PurchasedCourse> {
    match detailsUser
    case None => []
    case Some(u) =>
      match u.purchasedCourseIds
      case None => []
      case Some(ids) => Filter(courses, BoughtIn(ids))
  }

  /** The detail view lists that user's purchased courses: a course is listed iff its id is in the user's list. */
  predicate Bought(detailsUser: Option<User>, c: PurchasedCourse) {
    detailsUser.Some? && detailsUser.value.purchasedCourseIds.Some? && c.id in detailsUser.value.purchasedCourseIds.value
  }

  /**
   * The list holds exactly the courses whose id the selected user bought, each as
   * often as in the course list and in its order; it is empty when no user is selected.
   */
  lemma PurchasedCoursesSpec(courses: seq<PurchasedCourse>, detailsUser: Option<User>)
    ensures detailsUser == None ==> PurchasedCourses(courses, detailsUser) == []
    ensures forall c :: c in PurchasedCourses(courses, detailsUser) <==> c in courses && Bought(detailsUser, c)
    ensures IsSubseq(PurchasedCourses(courses, detailsUser), courses)
    ensures forall c :: multiset(PurchasedCourses(courses, detailsUser))[c] ==
                        if Bought(detailsUser, c) then multiset(courses)[c] else 0
  {
    if detailsUser.Some? && detailsUser.value.purchasedCourseIds.Some? {
      var ids := detailsUser.value.purchasedCourseIds.value;
      forall c ensures c in Filter(courses, BoughtIn(ids)) <==> c in courses && c.id in ids {
        FilterMembers(courses, BoughtIn(ids), c);
      }
      forall c ensures multiset(Filter(courses, BoughtIn(ids)))[c] == if c.id in ids then multiset(courses)[c] else 0 {
        FilterCount(courses, BoughtIn(ids), c);
      }
      FilterIsSubseq(courses, BoughtIn(ids));
    } else {
      assert PurchasedCourses(courses, detailsUser) == [];
      assert IsSubseq([], courses);
    }
  }

  const NoUsersMessage: string := "No users found."

  /** A body row of the users table: a user with its row number and purchase count, or the "not found" row. */
  datatype Row = UserRow(number: int, user: User, purchased: nat) | EmptyRow(message: string)

  function RowsFrom(slice: seq<User>, page: nat, index: nat): (rows: seq<Row>)
    requires index <= |slice|
    ensures |rows| == |slice| - index
    ensures forall k :: 0 <= k < |rows| ==>
      rows[k] == UserRow(RowNumber(page, index + k), slice[index + k], PurchasedCount(slice[index + k]))
    decreases |slice| - index
  {
    if index == |slice| then []
    else
      [UserRow(RowNumber(page, index), slice[index], PurchasedCount(slice[index]))]
      + RowsFrom(slice, page, index + 1)
  }

  function TableRows(sorted: seq<User>, page: nat): seq<Row> {
    var slice := PageSlice(sorted, page);
    if slice == [] then [EmptyRow(NoUsersMessage)] else RowsFrom(slice, page, 0)
  }

  /**
   * The body is the single "No users found." row exactly when the page is empty;
   * otherwise row `i` is the sorted list's user number `(page - 1) * 10 + i + 1`
   * with its purchase count (0 when the list is missing).
   */
  lemma TableRowsSpec(sorted: seq<User>, page: nat)
    ensures var rows := TableRows(sorted, page);
      (rows == [EmptyRow(NoUsersMessage)] <==> PageSlice(sorted, page) == []) &&
      (PageSlice(sorted, page) != [] ==>
        |rows| == |PageSlice(sorted, page)| &&
        forall i :: 0 <= i < |rows| ==>
          rows[i].UserRow? && rows[i].number == RowNumber(page, i) &&
          1 <= rows[i].number <= |sorted| &&
          rows[i].user == sorted[rows[i].number - 1] &&
          rows[i].purchased == PurchasedCount(rows[i].user))
  {
    var slice := PageSlice(sorted, page);
    var rows := TableRows(sorted, page);
    if slice != [] {
      assert rows == RowsFrom(slice, page, 0);
      assert rows[0].UserRow?;
      forall i | 0 <= i < |rows|
        ensures rows[i].UserRow? && rows[i].number == RowNumber(page, i)
        ensures 1 <= rows[i].number <= |sorted| && rows[i].user == sorted[rows[i].number - 1]
        ensures rows[i].purchased == PurchasedCount(rows[i].user)
      {
        TableRowAt(sorted, page, i);
      }
    }
  }

  /** One row of a non-empty page. */
  lemma TableRowAt(sorted: seq<User>, page: nat, i: nat)
    requires i < |PageSlice(sorted, page)|
    ensures var rows := TableRows(sorted, page);
      && i < |rows|
      && rows[i] == UserRow(RowNumber(page, i), PageSlice(sorted, page)[i], PurchasedCount(PageSlice(sorted, page)[i]))
      && 1 <= RowNumber(page, i) <= |sorted| && PageSlice(sorted, page)[i] == sorted[RowNumber(page, i) - 1]
  {
    PageSliceAt(sorted, page, i);
  }



  /** The state of the `Users` page component. */
  class UsersPage {
    var users: seq<User>
    var courses: seq<PurchasedCourse>
    var search: string
    var sortOrder: SortOrder
    var page: nat
    var detailsUser: Option<User>

    constructor ()
      ensures users == [] && courses == [] && search == "" && sortOrder == NoSort
      ensures page == 1 && detailsUser == None
    {
      users, courses, search, sortOrder, page, detailsUser := [], [], "", NoSort, 1, None;
    }

    function Filtered(): seq<User>
      reads this
    {
      FilterUsers(users, search)
    }

    function Sorted(): seq<User>
      reads this
    {
      SortUsers(Filtered(), sortOrder)
    }

    function TotalPages(): nat
      reads this
    {
      Pagination.TotalPages(|Sorted()|)
    }

    function Paginated(): seq<User>
      reads this
    {
      PageSlice(Sorted(), page)
    }

    function Rows(): seq<Row>
      reads this
    {
      TableRows(Sorted(), page)
    }

    function Caption(): Range
      reads this
    {
      ShownRange(page, |Sorted()|)
    }

    function PurchasedForDetails(): seq<PurchasedCourse>
      reads this
    {
      PurchasedCourses(courses, detailsUser)
    }

    /** Computes `sortedUsers` for the current state on a copy; the page's state is left alone. */
    method ComputeSorted() returns (sorted: seq<User>)
      ensures sorted == Sorted()
    {
      sorted := SortedCopy(Filtered(), sortOrder);
    }

    /** `setUsers(res?.data || [])`. */
    method ReceiveUsers(data: Option<seq<User>>)
      modifies this
      ensures users == data.GetOr([])
      ensures courses == old(courses) && search == old(search) && sortOrder == old(sortOrder)
      ensures page == old(page) && detailsUser == old(detailsUser)
    {
      users := data.GetOr([]);
    }

    /** `setCourses(res?.courses || [])`. */
    method ReceiveCourses(data: Option<seq<PurchasedCourse>>)
      modifies this
      ensures courses == data.GetOr([])
      ensures users == old(users) && search == old(search) && sortOrder == old(sortOrder)
      ensures page == old(page) && detailsUser == old(detailsUser)
    {
      courses := data.GetOr([]);
    }

    /** The effect of the debounced search handler: back to page 1 with the new search text. */
    method HandleSearch(value: string)
      modifies this
      ensures page == 1 && search == value
      ensures users == old(users) && courses == old(courses) && sortOrder == old(sortOrder)
      ensures detailsUser == old(detailsUser)
    {
      page := 1;
      search := value;
    }

    /** The sort select; the page number is kept as it is. */
    method SetSortOrder(order: SortOrder)
      modifies this
      ensures sortOrder == order
      ensures users == old(users) && courses == old(courses) && search == old(search)
      ensures page == old(page) && detailsUser == old(detailsUser)
    {
      sortOrder := order;
    }

    /** The Prev button. */
    method PrevPage()
      modifies this
      ensures page == Prev(old(page))
      ensures users == old(users) && courses == old(courses) && search == old(search)
      ensures sortOrder == old(sortOrder) && detailsUser == old(detailsUser)
    {
      page := Prev(page);
    }

    /** The Next button, clamped by the page count of the current render. */
    method NextPage()
      modifies this
      ensures page == Next(old(page), old(TotalPages()))
      ensures users == old(users) && courses == old(courses) && search == old(search)
      ensures sortOrder == old(sortOrder) && detailsUser == old(detailsUser)
    {
      page := Next(page, TotalPages());
    }

    /** One of the numbered page buttons, which exist for pages 1 to `totalPages`. */
    method GoToPage(n: nat)
      requires 1 <= n <= TotalPages()
      modifies this
      ensures page == n && Paginated() != []
      ensures users == old(users) && courses == old(courses) && search == old(search)
      ensures sortOrder == old(sortOrder) && detailsUser == old(detailsUser)
    {
      page := n;
      PageSliceShape(Sorted(), n);
    }

    /** The eye button of a row opens that user's detail view. */
    method ShowDetails(u: User)
      modifies this
      ensures detailsUser == Some(u)
      ensures users == old(users) && courses == old(courses) && search == old(search)
      ensures sortOrder == old(sortOrder) && page == old(page)
    {
      detailsUser := Some(u);
    }

    /** Closing the detail view. */
    method CloseDetails()
      modifies this
      ensures detailsUser == None && PurchasedForDetails() == []
      ensures users == old(users) && courses == old(courses) && search == old(search)
      ensures sortOrder == old(sortOrder) && page == old(page)
    {
      detailsUser := None;
    }
  }
}
