/**
  The pending teacher requests page: the list loaded once, from which a
  successful approve or reject removes the request with the given id, and the
  error banner that a failure sets.
*/
module PendingTeachers {
  import opened Wrappers
  import opened Seqs
  import opened Text

  datatype TeacherAttributes = TeacherAttributes(name: Option<string>, schoolName: Option<string>, isActive: Option<bool>)

  datatype Teacher = Teacher(id: string, email: Option<string>, attributes: TeacherAttributes, createdAt: Option<string>)

  function NotId(id: string): Teacher -> bool
  {
    (t: Teacher) => t.id != id
  }

  /** `teacherRequests.filter((teacher) => teacher._id !== id)`. */
  function WithoutId(requests: seq<Teacher>, id: string): (r: seq<Teacher>)
    ensures |r| <= |requests|
    ensures forall i :: 0 <= i < |r| ==> r[i] in requests && r[i].id != id
    ensures forall i :: 0 <= i < |requests| && requests[i].id != id ==> requests[i] in r
  {
    Filter(requests, NotId(id))
  }

  /** The number of requests with the given id. */
  function Occurrences(requests: seq<Teacher>, id: string): (n: nat)
    ensures n <= |requests|
    decreases |requests|
  {
    if requests == [] then 0
    else Occurrences(requests[..|requests| - 1], id) + (if requests[|requests| - 1].id == id then 1 else 0)
  }

  /** Removal keeps the other requests in their order. */
  lemma WithoutIdInOrder(requests: seq<Teacher>, id: string)
    ensures IsSubsequence(WithoutId(requests, id), requests)
  {
    FilterIsSubsequence(requests, NotId(id));
  }

  /** Removal drops exactly the requests with that id: the length goes down by their number. */
  lemma {:induction false} WithoutIdLength(requests: seq<Teacher>, id: string)
    ensures |WithoutId(requests, id)| == |requests| - Occurrences(requests, id)
    decreases |requests|
  {
    if requests != [] {
      WithoutIdLength(requests[..|requests| - 1], id);
    }
  }

  /** Removing an id no request has leaves the list as it was. */
  lemma WithoutAbsentId(requests: seq<Teacher>, id: string)
    requires forall i :: 0 <= i < |requests| ==> requests[i].id != id
    ensures WithoutId(requests, id) == requests
  {
    FilterAll(requests, NotId(id));
  }

  /** A second removal of the same id changes nothing. */
  lemma WithoutIdIdempotent(requests: seq<Teacher>, id: string)
    ensures WithoutId(WithoutId(requests, id), id) == WithoutId(requests, id)
  {
    FilterIdempotent(requests, NotId(id));
  }

  /** The order of two removals does not matter. */
  lemma WithoutIdCommutes(requests: seq<Teacher>, a: string, b: string)
    ensures WithoutId(WithoutId(requests, a), b) == WithoutId(WithoutId(requests, b), a)
  {
    var both := (t: Teacher) => t.id != a && t.id != b;
    FilterComposes(requests, NotId(a), NotId(b), both);
    FilterComposes(requests, NotId(b), NotId(a), both);
  }

  /** The status badge of a row. */
  function StatusLabel(t: Teacher): (badge: string)
    ensures badge == "Active" <==> t.attributes.isActive == Some(true)
    ensures badge == "Active" || badge == "Pending"
  {
    if t.attributes.isActive == Some(true) then "Active" else "Pending"
  }

  datatype Row = Row(name: Option<string>, email: Option<string>, school: Option<string>, status: string)

  /** The cells of a request's row; the status badge reads "Active" only for an explicit `true`. */
  function RowOf(t: Teacher): (row: Row)
    ensures row.name == t.attributes.name && row.email == t.email && row.school == t.attributes.schoolName
    ensures row.status == "Active" <==> t.attributes.isActive == Some(true)
  {
    Row(t.attributes.name, t.email, t.attributes.schoolName, StatusLabel(t))
  }

  /** One row per request, in order, with its name, email, school and status badge. */
  function Rows(requests: seq<Teacher>): (rows: seq<Row>)
    ensures |rows| == |requests|
    ensures forall i :: 0 <= i < |rows| ==> rows[i] == RowOf(requests[i])
  {
    seq(|requests|, i requires 0 <= i < |requests| => RowOf(requests[i]))
  }

  /** The body under the title: the spinner, the empty notice, or one row per request. */
  datatype Body = Spinner | Notice(text: string) | Table(rows: seq<Row>)


  class PendingTeacherList {
    var teacherRequests: seq<Teacher>
    var loading: bool
    var error: Option<string>

    constructor ()
      ensures teacherRequests == [] && loading && error == None
    {
      teacherRequests := [];
      loading := true;
      error := None;
    }

    /** The error banner, shown above the body whenever an error is set. */
    function Banner(): (r: Option<string>)
      reads this
      ensures r.Some? <==> Truthy(error)
      ensures r.Some? ==> r == error && r.value != ""
    {
      if Truthy(error) then error else None
    }

    function View(): (b: Body)
      reads this
      ensures b.Spinner? <==> loading
      ensures b.Notice? <==> !loading && teacherRequests == []
      ensures b.Notice? ==> b.text == "No pending teacher requests"
      ensures b.Table? ==> b.rows == Rows(teacherRequests) && |b.rows| > 0
    {
      if loading then Spinner
      else if |teacherRequests| == 0 then Notice("No pending teacher requests")
      else Table(Rows(teacherRequests))
    }

    /** `fetchTeacherRequests`: a success replaces the list; a failure keeps it and sets the error. */
    method FetchTeacherRequests(result: FetchResult<seq<Teacher>>)
      modifies this
      ensures !loading
      ensures result.Fetched? ==> teacherRequests == result.metadata && error == old(error)
      ensures result.FetchFailed? ==>
                teacherRequests == old(teacherRequests) && error == Some("Failed to fetch teacher requests")
    {
      loading := true;
      match result {
        case Fetched(metadata) =>
          teacherRequests := metadata;
          loading := false;
        case FetchFailed =>
          error := Some("Failed to fetch teacher requests");
          loading := false;
      }
    }

    /** `handleApprove` with the POST outcome as input. */
    method HandleApprove(id: string, succeeded: bool)
      modifies this`teacherRequests, this`error
      ensures succeeded ==> teacherRequests == WithoutId(old(teacherRequests), id) && error == old(error)
      ensures !succeeded ==> teacherRequests == old(teacherRequests) && error == Some("Failed to approve teacher")
    {
      if succeeded {
        teacherRequests := WithoutId(teacherRequests, id);
      } else {
        error := Some("Failed to approve teacher");
      }
    }

    /** `handleReject` with the POST outcome as input. */
    method HandleReject(id: string, succeeded: bool)
      modifies this`teacherRequests, this`error
      ensures succeeded ==> teacherRequests == WithoutId(old(teacherRequests), id) && error == old(error)
      ensures !succeeded ==> teacherRequests == old(teacherRequests) && error == Some("Failed to reject teacher")
    {
      if succeeded {
        teacherRequests := WithoutId(teacherRequests, id);
      } else {
        error := Some("Failed to reject teacher");
      }
    }
  }

  /** Mounting the page: a failed first load shows the error over an empty list. */
  method Mount(result: FetchResult<seq<Teacher>>) returns (page: PendingTeacherList)
    ensures fresh(page) && !page.loading
    ensures result.Fetched? ==> page.teacherRequests == result.metadata && page.error == None
    ensures result.FetchFailed? ==>
              page.teacherRequests == [] && page.error == Some("Failed to fetch teacher requests")
              && page.View() == Notice("No pending teacher requests")
  {
    page := new PendingTeacherList();
    page.FetchTeacherRequests(result);
  }
}
