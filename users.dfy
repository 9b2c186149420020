/**
  The user management page: the search-and-school filter over the user list,
  the school drop-down, client-side pagination four users at a time, and the
  confirmation modal that activates or deactivates one account.
*/
module Users {
  import opened Wrappers
  import opened Text
  import opened Seqs

  datatype UserAttributes = UserAttributes(name: Option<string>, studentId: Option<string>, schoolName: Option<string>)

  /**
    A user record. Two flags are distinct properties of the record: `isActive`
    is what the modal records, `activeFlag` is the `is_active` property that the
    table shows and that chooses the row's action.
  */
  datatype User = User(
    id: string,
    email: Option<string>,
    role: Option<string>,
    attributes: Option<UserAttributes>,
    isActive: Option<bool>,
    activeFlag: Option<bool>)

  /** `user.user_attributes?.name`. */
  function Name(u: User): Option<string>
  {
    if u.attributes.Some? then u.attributes.value.name else None
  }

  /** `user.user_attributes?.student_id`. */
  function StudentId(u: User): Option<string>
  {
    if u.attributes.Some? then u.attributes.value.studentId else None
  }

  /** `user.user_attributes?.school_name`. */
  function School(u: User): Option<string>
  {
    if u.attributes.Some? then u.attributes.value.schoolName else None
  }

  // ---------------------------------------------------------------- filtering

  /** `field?.includes(term) || false`. */
  predicate IncludesCaseSensitive(field: Option<string>, term: string)
  {
    field.Some? && Includes(field.value, term)
  }

  /**
    The name, email or student-id test of `filteredStudents`. Only a present
    field can match, and the empty term matches every present field.
  */
  predicate MatchesSearch(u: User, searchTerm: string): (r: bool)
    ensures r ==> Name(u).Some? || u.email.Some? || StudentId(u).Some?
    ensures searchTerm == "" ==> (r <==> Name(u).Some? || u.email.Some? || StudentId(u).Some?)
  {
    ContainsIgnoringCase(Name(u), searchTerm) || ContainsIgnoringCase(u.email, searchTerm)
    || IncludesCaseSensitive(StudentId(u), searchTerm)
  }

  /** The school test: the empty selection keeps everyone, a chosen school only the users of that school. */
  predicate MatchesSchool(u: User, selectedSchool: string): (r: bool)
    ensures selectedSchool == "" ==> r
    ensures r && selectedSchool != "" ==> Truthy(School(u)) && School(u).value == selectedSchool
  {
    selectedSchool == "" || School(u) == Some(selectedSchool)
  }

  /**
    The predicate of `filteredStudents`: a kept user has a name, an email or a
    student id, and is in the selected school when one is selected.
  */
  predicate Kept(u: User, searchTerm: string, selectedSchool: string): (r: bool)
    ensures r ==> Name(u).Some? || u.email.Some? || StudentId(u).Some?
    ensures r && selectedSchool != "" ==> School(u) == Some(selectedSchool)
    ensures searchTerm == "" && selectedSchool == "" ==> (r <==> Name(u).Some? || u.email.Some? || StudentId(u).Some?)
  {
    MatchesSearch(u, searchTerm) && MatchesSchool(u, selectedSchool)
  }

  function KeptBy(searchTerm: string, selectedSchool: string): User -> bool
  {
    (u: User) => Kept(u, searchTerm, selectedSchool)
  }

  function SearchedFor(searchTerm: string): User -> bool
  {
    (u: User) => MatchesSearch(u, searchTerm)
  }

  function InSchool(selectedSchool: string): User -> bool
  {
    (u: User) => MatchesSchool(u, selectedSchool)
  }

  /**
    `filteredStudents`: the users kept by the search and the school filter.
    Each kept user is a matching user of the list, and every matching user is kept.
  */
  function FilteredStudents(users: seq<User>, searchTerm: string, selectedSchool: string): (r: seq<User>)
    ensures |r| <= |users|
    ensures forall i :: 0 <= i < |r| ==> r[i] in users && Kept(r[i], searchTerm, selectedSchool)
    ensures forall i :: 0 <= i < |users| && Kept(users[i], searchTerm, selectedSchool) ==> users[i] in r
    ensures |r| == Count(users, KeptBy(searchTerm, selectedSchool))
  {
    FilterLength(users, KeptBy(searchTerm, selectedSchool));
    Filter(users, KeptBy(searchTerm, selectedSchool))
  }

  /** The filtered list keeps the users in their order. */
  lemma FilteredStudentsInOrder(users: seq<User>, searchTerm: string, selectedSchool: string)
    ensures IsSubsequence(FilteredStudents(users, searchTerm, selectedSchool), users)
  {
    FilterIsSubsequence(users, KeptBy(searchTerm, selectedSchool));
  }

  /** A user with no name, no email and no student id never matches, whatever the term. */
  lemma MissingFieldsNeverMatch(u: User, searchTerm: string, selectedSchool: string)
    requires Name(u).None? && u.email.None? && StudentId(u).None?
    ensures !Kept(u, searchTerm, selectedSchool)
  {
  }

  /** The empty school selection ("All Schools") filters by the search alone. */
  lemma AllSchoolsFiltersBySearchOnly(users: seq<User>, searchTerm: string)
    ensures FilteredStudents(users, searchTerm, "") == Filter(users, SearchedFor(searchTerm))
  {
    FilterCongruent(users, KeptBy(searchTerm, ""), SearchedFor(searchTerm));
  }

  /** Choosing a school only narrows the "All Schools" list: it keeps the users of that school from it. */
  lemma SchoolNarrowsAllSchools(users: seq<User>, searchTerm: string, selectedSchool: string)
    ensures FilteredStudents(users, searchTerm, selectedSchool)
            == Filter(FilteredStudents(users, searchTerm, ""), InSchool(selectedSchool))
  {
    AllSchoolsFiltersBySearchOnly(users, searchTerm);
    FilterComposes(users, SearchedFor(searchTerm), InSchool(selectedSchool), KeptBy(searchTerm, selectedSchool));
  }

  /** With an empty term and all schools, exactly the users with a name, an email or a student id are listed. */
  lemma EmptySearchKeepsUsersWithAField(users: seq<User>)
    ensures FilteredStudents(users, "", "")
            == Filter(users, (u: User) => Name(u).Some? || u.email.Some? || StudentId(u).Some?)
  {
    forall u | u in users
      ensures Kept(u, "", "") == (Name(u).Some? || u.email.Some? || StudentId(u).Some?)
    {
      ContainsEmptyTerm(Name(u));
      ContainsEmptyTerm(u.email);
      if StudentId(u).Some? { IncludesEmpty(StudentId(u).value); }
    }
    FilterCongruent(users, KeptBy("", ""),
                    (u: User) => Name(u).Some? || u.email.Some? || StudentId(u).Some?);
  }

  // ---------------------------------------------------------------- school drop-down

  /** `users.map((student) => student.user_attributes?.school_name)`. */
  function SchoolFields(users: seq<User>): (r: seq<Option<string>>)
    ensures |r| == |users| && forall i :: 0 <= i < |users| ==> r[i] == School(users[i])
  {
    seq(|users|, i requires 0 <= i < |users| => School(users[i]))
  }

  /** `uniqueSchools`: the distinct truthy school names. */
  function UniqueSchools(users: seq<User>): (r: seq<string>)
    ensures NoDuplicates(r)
    ensures forall i :: 0 <= i < |users| && Truthy(School(users[i])) ==> School(users[i]).value in r
  {
    DistinctTruthyProperties(SchoolFields(users));
    DistinctTruthy(SchoolFields(users))
  }

  /**
    The drop-down lists each non-empty school name of the users exactly once,
    in the order of first appearance, and nothing else.
  */
  lemma UniqueSchoolsProperties(users: seq<User>)
    ensures NoDuplicates(UniqueSchools(users))
    ensures InFirstOccurrenceOrder(UniqueSchools(users), TruthyStrings(SchoolFields(users)))
    ensures forall k :: 0 <= k < |UniqueSchools(users)| ==>
              UniqueSchools(users)[k] != "" &&
              exists i :: 0 <= i < |users| && School(users[i]) == Some(UniqueSchools(users)[k])
    ensures forall i :: 0 <= i < |users| && Truthy(School(users[i])) ==> School(users[i]).value in UniqueSchools(users)
  {
    var fields := SchoolFields(users);
    var r := UniqueSchools(users);
    DistinctTruthyProperties(fields);
    forall k | 0 <= k < |r|
      ensures exists i :: 0 <= i < |users| && School(users[i]) == Some(r[k])
    {
      var i :| 0 <= i < |fields| && fields[i] == Some(r[k]);
      assert School(users[i]) == Some(r[k]);
    }
  }

  // ---------------------------------------------------------------- pagination

  const StudentsPerPage: nat := 4

  /** `s.slice(start, end)` for non-negative indices. */
  function Slice<T>(s: seq<T>, start: nat, end: nat): seq<T>
  {
    if start >= |s| || end <= start then [] else s[start..if end <= |s| then end else |s|]
  }

  /** `currentStudents`: indices `(page - 1) * 4` up to, but excluding, `page * 4`. */
  function CurrentStudents<T>(filtered: seq<T>, currentPage: nat): (r: seq<T>)
    requires currentPage >= 1
    ensures |r| <= StudentsPerPage
    ensures (currentPage - 1) * StudentsPerPage >= |filtered| ==> r == []
    ensures (currentPage - 1) * StudentsPerPage < |filtered| ==>
              r == filtered[(currentPage - 1) * StudentsPerPage .. Min(currentPage * StudentsPerPage, |filtered|)]
  {
    var indexOfLastStudent := currentPage * StudentsPerPage;
    var indexOfFirstStudent := indexOfLastStudent - StudentsPerPage;
    Slice(filtered, indexOfFirstStudent, indexOfLastStudent)
  }

  function Min(a: nat, b: nat): nat
  {
    if a <= b then a else b
  }

  /** `Math.ceil`. */
  function Ceil(x: real): int
  {
    -((-x).Floor)
  }

  /** `totalPages`: `Math.ceil(filteredStudents.length / studentsPerPage)`. */
  function TotalPages(n: nat): (pages: nat)
    ensures pages * StudentsPerPage >= n
    ensures pages > 0 ==> (pages - 1) * StudentsPerPage < n
  {
    var c := Ceil(n as real / StudentsPerPage as real);
    assert c as real >= n as real / 4.0;
    assert (c - 1) as real < n as real / 4.0;
    c
  }

  /** The page count is the number of pages of four needed for `n` users. */
  lemma TotalPagesIsRoundedUpQuotient(n: nat)
    ensures TotalPages(n) == (n + StudentsPerPage - 1) / StudentsPerPage
  {
  }

  /** Pages 1 to `k`, one after another. */
  function PagesUpTo<T>(filtered: seq<T>, k: nat): seq<T>
    decreases k
  {
    if k == 0 then [] else PagesUpTo(filtered, k - 1) + CurrentStudents(filtered, k)
  }

  lemma {:induction false} PagesUpToIsPrefix<T>(filtered: seq<T>, k: nat)
    ensures PagesUpTo(filtered, k) == filtered[..Min(k * StudentsPerPage, |filtered|)]
    decreases k
  {
    if k > 0 {
      PagesUpToIsPrefix(filtered, k - 1);
      var start := (k - 1) * StudentsPerPage;
      assert k * StudentsPerPage == start + StudentsPerPage;
      var lo := Min(start, |filtered|);
      var hi := Min(start + StudentsPerPage, |filtered|);
      if start < |filtered| {
        assert CurrentStudents(filtered, k) == filtered[lo..hi];
        assert filtered[..hi] == filtered[..lo] + filtered[lo..hi];
      } else {
        assert CurrentStudents(filtered, k) == [];
      }
    }
  }

  /** The pages 1 to `totalPages`, in order, are exactly the filtered list: no user is lost or repeated. */
  lemma PagesPartitionFiltered<T>(filtered: seq<T>)
    ensures PagesUpTo(filtered, TotalPages(|filtered|)) == filtered
  {
    PagesUpToIsPrefix(filtered, TotalPages(|filtered|));
  }

  /** The two numbers of the caption "Showing {first} - {last} of {n} users". */
  function CaptionBounds(n: nat, currentPage: nat): (nat, nat)
    requires currentPage >= 1
  {
    ((currentPage - 1) * StudentsPerPage + 1, Min(currentPage * StudentsPerPage, n))
  }

  /** `Showing {first} - {last} of {n} users`. */
  function CaptionText(first: nat, last: nat, n: nat): string
  {
    "Showing " + (NatToString(first) + (" - " + (NatToString(last) + (" of " + (NatToString(n) + " users")))))
  }

  /**
    Reads the three numbers back from a caption: the partner of `CaptionText`.
    Each number is the run of digits after the fixed words before it.
  */
  function ReadCaption(r: string): Option<(nat, nat, nat)>
  {
    if |r| < 8 || r[..8] != "Showing " then None
    else
      var a := r[8..];
      var b := a[LeadingDigitCount(a)..];
      if |b| < 3 || b[..3] != " - " then None
      else
        var c := b[3..];
        var d := c[LeadingDigitCount(c)..];
        if |d| < 4 || d[..4] != " of " then None
        else Some((LeadingNumber(a), LeadingNumber(c), LeadingNumber(d[4..])))
  }

  lemma CaptionTextRoundTrip(first: nat, last: nat, n: nat)
    ensures ReadCaption(CaptionText(first, last, n)) == Some((first, last, n))
  {
    var users := NatToString(n) + " users";
    var ofPart := " of " + users;
    var lastPart := NatToString(last) + ofPart;
    var tail := " - " + lastPart;
    var firstPart := NatToString(first) + tail;
    var r := "Showing " + firstPart;
    assert r == CaptionText(first, last, n);
    assert r[..8] == "Showing " && r[8..] == firstPart;
    ReadRenderedNumber(first, tail);
    assert firstPart[|NatToString(first)|..] == tail;
    assert tail[..3] == " - " && tail[3..] == lastPart;
    ReadRenderedNumber(last, ofPart);
    assert lastPart[|NatToString(last)|..] == ofPart;
    assert ofPart[..4] == " of " && ofPart[4..] == users;
    ReadRenderedNumber(n, " users");
  }

  lemma CaptionTextEnd(first: nat, last: nat, n: nat)
    ensures var r := CaptionText(first, last, n); |r| > 6 && r[|r| - 6..] == " users"
  {
    var r := CaptionText(first, last, n);
    var head := "Showing " + (NatToString(first) + (" - " + (NatToString(last) + (" of " + NatToString(n)))));
    assert r == head + " users";
  }

  /**
    The pagination caption "Showing {first} - {last} of {n} users": the
    1-based positions of the page's first and last users and the number of
    filtered users all read back from the text, which ends with " users".
  */
  function Caption(n: nat, currentPage: nat): (r: string)
    requires currentPage >= 1
    ensures ReadCaption(r) == Some((CaptionBounds(n, currentPage).0, CaptionBounds(n, currentPage).1, n))
    ensures |r| > 6 && r[|r| - 6..] == " users"
  {
    var bounds := CaptionBounds(n, currentPage);
    CaptionTextRoundTrip(bounds.0, bounds.1, n);
    CaptionTextEnd(bounds.0, bounds.1, n);
    CaptionText(bounds.0, bounds.1, n)
  }

  /**
    On a page that holds users, the caption spans exactly the users of the page;
    on a page past the end it starts after the last user.
  */
  lemma CaptionMatchesPage<T>(filtered: seq<T>, currentPage: nat)
    requires currentPage >= 1
    ensures var (first, last) := CaptionBounds(|filtered|, currentPage);
            var page := CurrentStudents(filtered, currentPage);
            (page != [] ==> last - first + 1 == |page| && filtered[first - 1] == page[0])
            && (page == [] ==> first > |filtered|)
  {
  }

  // ---------------------------------------------------------------- table rows

  predicate IsAdmin(u: User)
  {
    u.role == Some("admin")
  }

  function NotAdmin(): User -> bool
  {
    (u: User) => !IsAdmin(u)
  }

  /** The rows drawn for a page: an admin's row is skipped. */
  function RenderedRows(page: seq<User>): (rows: seq<User>)
    ensures |rows| <= |page|
    ensures forall i :: 0 <= i < |rows| ==> rows[i] in page && !IsAdmin(rows[i])
    ensures forall i :: 0 <= i < |page| && !IsAdmin(page[i]) ==> page[i] in rows
    ensures IsSubsequence(rows, page)
  {
    FilterIsSubsequence(page, NotAdmin());
    Filter(page, NotAdmin())
  }

  /**
    Admins are filtered, counted and paginated like everyone else, so a page
    holding an admin draws fewer rows than the caption counts for it.
  */
  lemma AdminsShortenPage(page: seq<User>, k: nat)
    requires k < |page| && IsAdmin(page[k])
    ensures |RenderedRows(page)| < |page|
  {
    FilterPartition(page, NotAdmin());
    assert page[k] in Filter(page, x => !NotAdmin()(x));
  }

  /** The status badge of a row: everything but an explicit `false` reads as active. */
  function StatusBadge(u: User): (badge: string)
    ensures badge == "Active" <==> u.activeFlag != Some(false)
    ensures badge == "Active" || badge == "Inactive"
  {
    if u.activeFlag != Some(false) then "Active" else "Inactive"
  }

  /** The action of a row's toggle button. */
  function RowAction(u: User): (action: string)
    ensures action == "deactivate" <==> u.activeFlag != Some(false)
    ensures action == "deactivate" || action == "activate"
  {
    if u.activeFlag != Some(false) then "deactivate" else "activate"
  }

  /** The button always offers the opposite of the badge, and confirming it calls the matching endpoint. */
  lemma RowActionOpposesBadge(u: User)
    ensures RowAction(u) == "deactivate" <==> StatusBadge(u) == "Active"
    ensures EndpointFor(RowAction(u), u.id) == if StatusBadge(u) == "Active" then DeactivateUser(u.id) else ActivateUser(u.id)
  {
  }

  // ---------------------------------------------------------------- page state

  /** The user the modal is about: `userToToggle`. */
  datatype PendingToggle = PendingToggle(userId: string, userName: Option<string>, currentStatus: Option<bool>)

  /** The PATCH request the confirm button sends. */
  datatype Endpoint = ActivateUser(userId: string) | DeactivateUser(userId: string)


  /** `user.user_attributes?.name || user.email`. */
  function DisplayName(u: User): Option<string>
  {
    if Truthy(Name(u)) then Name(u) else u.email
  }

  /** What `openToggleModal` records about a user. */
  function PendingFor(u: User): (p: PendingToggle)
    ensures p.userId == u.id && p.currentStatus == u.isActive
    ensures p.userName == (if Truthy(Name(u)) then Name(u) else u.email)
  {
    PendingToggle(u.id, DisplayName(u), u.isActive)
  }

  /** The status the modal records ignores the `is_active` flag that the table shows. */
  lemma PendingIgnoresTableFlag(u: User, flag: Option<bool>)
    ensures PendingFor(u.(activeFlag := flag)) == PendingFor(u)
  {
  }

  /** "activate" selects the activate endpoint; every other action deactivates. */
  function EndpointFor(action: string, userId: string): (e: Endpoint)
    ensures e.userId == userId
    ensures e.ActivateUser? <==> action == "activate"
  {
    if action == "activate" then ActivateUser(userId) else DeactivateUser(userId)
  }

  class UsersPage {
    var users: seq<User>
    var loading: bool
    var error: Option<string>
    var searchTerm: string
    var selectedSchool: string
    var isActivateModalOpen: bool
    var userToToggle: Option<PendingToggle>
    var toggleAction: string
    var currentPage: nat

    /** The page number starts at 1 and the buttons never move it below 1. */
    ghost predicate Valid()
      reads this
    {
      currentPage >= 1
    }

    constructor ()
      ensures Valid()
      ensures users == [] && loading && error == None && searchTerm == "" && selectedSchool == ""
      ensures !isActivateModalOpen && userToToggle == None && toggleAction == "" && currentPage == 1
    {
      users := [];
      loading := true;
      error := None;
      searchTerm := "";
      selectedSchool := "";
      isActivateModalOpen := false;
      userToToggle := None;
      toggleAction := "";
      currentPage := 1;
    }

    function Filtered(): seq<User>
      reads this
    {
      FilteredStudents(users, searchTerm, selectedSchool)
    }

    /** The rows of the current page. */
    function Shown(): (r: seq<User>)
      reads this
      requires Valid()
      ensures |r| <= StudentsPerPage
    {
      CurrentStudents(Filtered(), currentPage)
    }

    /** The caption, shown only once loaded, without error, and with at least one filtered user. */
    function PaginationCaption(): (r: Option<string>)
      reads this
      requires Valid()
      ensures r.Some? <==> !loading && !Truthy(error) && |Filtered()| > 0
      ensures r.Some? ==> r.value == Caption(|Filtered()|, currentPage)
    {
      if !loading && !Truthy(error) && |Filtered()| > 0 then Some(Caption(|Filtered()|, currentPage)) else None
    }

    /** `fetchUsers`: a failure keeps the list and sets the error message; a success never clears it. */
    method FetchUsers(result: FetchResult<seq<User>>)
      modifies this`users, this`error, this`loading
      ensures !loading
      ensures result.Fetched? ==> users == result.metadata && error == old(error)
      ensures result.FetchFailed? ==> users == old(users) && error == Some("Unable to load user data")
    {
      loading := true;
      match result {
        case Fetched(metadata) =>
          users := metadata;
        case FetchFailed =>
          error := Some("Unable to load user data");
      }
      loading := false;
    }

    /** `openToggleModal`: remembers the user and the action, and opens the modal. */
    method OpenToggleModal(user: User, action: string)
      modifies this`userToToggle, this`toggleAction, this`isActivateModalOpen
      ensures userToToggle == Some(PendingFor(user))
      ensures toggleAction == action && isActivateModalOpen
    {
      userToToggle := Some(PendingFor(user));
      toggleAction := action;
      isActivateModalOpen := true;
    }

    /** The Cancel button only closes the modal; the pending user and action stay. */
    method CancelToggle()
      modifies this`isActivateModalOpen
      ensures !isActivateModalOpen
    {
      isActivateModalOpen := false;
    }

    /**
      `handleToggleUserStatus`, with the PATCH outcome and the refetch as inputs.
      Without a pending user nothing happens. Otherwise the request goes to the
      endpoint the action names, a success reloads the list, a failure raises
      the alert, and in both cases the modal closes and the pending user and
      action are reset.
    */
    method HandleToggleUserStatus(patched: bool, refetch: FetchResult<seq<User>>)
        returns (request: Option<Endpoint>, alerted: bool)
      requires Valid()
      modifies this
      ensures Valid() && currentPage == old(currentPage)
      ensures searchTerm == old(searchTerm) && selectedSchool == old(selectedSchool)
      ensures old(userToToggle).None? ==>
                request.None? && !alerted && userToToggle.None? && isActivateModalOpen == old(isActivateModalOpen)
                && toggleAction == old(toggleAction) && users == old(users) && error == old(error)
                && loading == old(loading)
      ensures old(userToToggle).Some? ==>
                && request == Some(EndpointFor(old(toggleAction), old(userToToggle).value.userId))
                && alerted == !patched
                && !isActivateModalOpen && userToToggle.None? && toggleAction == ""
                && (!patched ==> users == old(users) && error == old(error) && loading == old(loading))
                && (patched && refetch.Fetched? ==> users == refetch.metadata && error == old(error) && !loading)
                && (patched && refetch.FetchFailed? ==>
                      users == old(users) && error == Some("Unable to load user data") && !loading)
    {
      request, alerted := None, false;
      if userToToggle.Some? {
        request := Some(EndpointFor(toggleAction, userToToggle.value.userId));
        if patched {
          FetchUsers(refetch);
        } else {
          alerted := true;
        }
        isActivateModalOpen := false;
        userToToggle := None;
        toggleAction := "";
      }
    }

    /** Typing in the search box; the page number is not reset, so it may now lie past the last page. */
    method SetSearchTerm(term: string)
      modifies this`searchTerm
      ensures searchTerm == term
    {
      searchTerm := term;
    }

    /** Choosing a school; as with the search, the page number stays. */
    method SetSelectedSchool(school: string)
      modifies this`selectedSchool
      ensures selectedSchool == school
    {
      selectedSchool := school;
    }

    /** "« Previous", disabled on page 1. */
    method PreviousPage()
      requires Valid() && currentPage != 1
      modifies this`currentPage
      ensures Valid() && currentPage == old(currentPage) - 1
    {
      currentPage := currentPage - 1;
    }

    /** "Next »", disabled on the last page (but not past it). */
    method NextPage()
      requires Valid() && currentPage != TotalPages(|Filtered()|)
      modifies this`currentPage
      ensures Valid() && currentPage == old(currentPage) + 1
    {
      currentPage := currentPage + 1;
    }

    /** One of the numbered buttons 1 to `totalPages`. */
    method SelectPage(k: nat)
      requires 1 <= k <= TotalPages(|Filtered()|)
      modifies this`currentPage
      ensures Valid() && currentPage == k
    {
      currentPage := k;
    }
  }
}
