/**
  The test list page: the assessments fetched from the server, the title and
  teacher-id search, the subject filter and its drop-down, the subject badge
  colour, and the question count and time limit shown on each card.
*/
module QuizzTest {
  import opened Wrappers
  import opened Text
  import opened Seqs

  /** The `questions` property: an array of question ids, some other value, or absent. */
  datatype Questions = QuestionList(ids: seq<string>) | QuestionValue(n: int) | NoQuestions

  datatype Assessment = Assessment(
    id: Option<string>,
    title: Option<string>,
    teacherId: Option<string>,
    subject: Option<string>,
    questions: Questions,
    timeLimit: Option<int>,
    createdAt: Option<string>,
    updatedAt: Option<string>)

  // ---------------------------------------------------------------- filtering

  predicate MatchesSearch(a: Assessment, searchTerm: string)
  {
    ContainsIgnoringCase(a.title, searchTerm) || ContainsIgnoringCase(a.teacherId, searchTerm)
  }

  predicate MatchesSubject(a: Assessment, filterSubject: string)
  {
    filterSubject == "all" || a.subject == Some(filterSubject)
  }

  /** The predicate of `filteredAssessments`. */
  predicate Kept(a: Assessment, searchTerm: string, filterSubject: string)
  {
    MatchesSearch(a, searchTerm) && MatchesSubject(a, filterSubject)
  }

  function KeptBy(searchTerm: string, filterSubject: string): Assessment -> bool
  {
    (a: Assessment) => Kept(a, searchTerm, filterSubject)
  }

  function SearchedFor(searchTerm: string): Assessment -> bool
  {
    (a: Assessment) => MatchesSearch(a, searchTerm)
  }

  function OfSubject(filterSubject: string): Assessment -> bool
  {
    (a: Assessment) => MatchesSubject(a, filterSubject)
  }

  /**
    `filteredAssessments`: every kept assessment is a matching one of the list,
    and every matching one is kept.
  */
  function FilteredAssessments(assessments: seq<Assessment>, searchTerm: string, filterSubject: string)
    : (r: seq<Assessment>)
    ensures |r| <= |assessments|
    ensures forall i :: 0 <= i < |r| ==> r[i] in assessments && Kept(r[i], searchTerm, filterSubject)
    ensures forall i :: 0 <= i < |assessments| && Kept(assessments[i], searchTerm, filterSubject) ==>
              assessments[i] in r
    ensures |r| == Count(assessments, KeptBy(searchTerm, filterSubject))
  {
    FilterLength(assessments, KeptBy(searchTerm, filterSubject));
    Filter(assessments, KeptBy(searchTerm, filterSubject))
  }

  /** The filtered list keeps the assessments in order. */
  lemma FilteredAssessmentsInOrder(assessments: seq<Assessment>, searchTerm: string, filterSubject: string)
    ensures IsSubsequence(FilteredAssessments(assessments, searchTerm, filterSubject), assessments)
  {
    FilterIsSubsequence(assessments, KeptBy(searchTerm, filterSubject));
  }

  /** With "all" subjects and an empty term, exactly the assessments with a title or a teacher id are listed. */
  lemma EmptySearchKeepsTitledOrAssigned(assessments: seq<Assessment>)
    ensures FilteredAssessments(assessments, "", "all")
            == Filter(assessments, (a: Assessment) => a.title.Some? || a.teacherId.Some?)
  {
    forall a | a in assessments
      ensures Kept(a, "", "all") == (a.title.Some? || a.teacherId.Some?)
    {
      ContainsEmptyTerm(a.title);
      ContainsEmptyTerm(a.teacherId);
    }
    FilterCongruent(assessments, KeptBy("", "all"), (a: Assessment) => a.title.Some? || a.teacherId.Some?);
  }

  /** An assessment without a title and without a teacher id is never listed. */
  lemma UntitledUnassignedNeverListed(assessments: seq<Assessment>, searchTerm: string, filterSubject: string)
    ensures forall a :: a in FilteredAssessments(assessments, searchTerm, filterSubject) ==>
              a.title.Some? || a.teacherId.Some?
  {
    var r := FilteredAssessments(assessments, searchTerm, filterSubject);
    forall a | a in r
      ensures a.title.Some? || a.teacherId.Some?
    {
      var i :| 0 <= i < |r| && r[i] == a;
    }
  }

  /** Choosing a subject only narrows the "all" list: it keeps the assessments of that subject from it. */
  lemma SubjectNarrowsAll(assessments: seq<Assessment>, searchTerm: string, filterSubject: string)
    ensures FilteredAssessments(assessments, searchTerm, filterSubject)
            == Filter(FilteredAssessments(assessments, searchTerm, "all"), OfSubject(filterSubject))
  {
    FilterCongruent(assessments, KeptBy(searchTerm, "all"), SearchedFor(searchTerm));
    FilterComposes(assessments, SearchedFor(searchTerm), OfSubject(filterSubject), KeptBy(searchTerm, filterSubject));
  }

  // ---------------------------------------------------------------- subject drop-down

  /** `assessments.map((a) => a.subject)`. */
  function SubjectFields(assessments: seq<Assessment>): (r: seq<Option<string>>)
    ensures |r| == |assessments| && forall i :: 0 <= i < |assessments| ==> r[i] == assessments[i].subject
  {
    seq(|assessments|, i requires 0 <= i < |assessments| => assessments[i].subject)
  }

  /** `uniqueSubjects`: the distinct truthy subjects. */
  function UniqueSubjects(assessments: seq<Assessment>): (r: seq<string>)
    ensures NoDuplicates(r)
    ensures forall i :: 0 <= i < |assessments| && Truthy(assessments[i].subject) ==> assessments[i].subject.value in r
  {
    DistinctTruthyProperties(SubjectFields(assessments));
    DistinctTruthy(SubjectFields(assessments))
  }

  /** Each non-empty subject appears once, in first-appearance order, and only subjects of the list appear. */
  lemma UniqueSubjectsProperties(assessments: seq<Assessment>)
    ensures NoDuplicates(UniqueSubjects(assessments))
    ensures InFirstOccurrenceOrder(UniqueSubjects(assessments), TruthyStrings(SubjectFields(assessments)))
    ensures forall k :: 0 <= k < |UniqueSubjects(assessments)| ==>
              UniqueSubjects(assessments)[k] != "" &&
              exists i :: 0 <= i < |assessments| && assessments[i].subject == Some(UniqueSubjects(assessments)[k])
    ensures forall i :: 0 <= i < |assessments| && Truthy(assessments[i].subject) ==>
              assessments[i].subject.value in UniqueSubjects(assessments)
  {
    var fields := SubjectFields(assessments);
    var r := UniqueSubjects(assessments);
    DistinctTruthyProperties(fields);
    forall k | 0 <= k < |r|
      ensures exists i :: 0 <= i < |assessments| && assessments[i].subject == Some(r[k])
    {
      var i :| 0 <= i < |fields| && fields[i] == Some(r[k]);
      assert assessments[i].subject == Some(r[k]);
    }
  }

  /** Every subject offered by the drop-down matches at least one assessment of the list. */
  lemma EverySubjectOptionSelectsItsAssessments(assessments: seq<Assessment>, k: nat)
    requires k < |UniqueSubjects(assessments)|
    ensures exists i :: 0 <= i < |assessments| && MatchesSubject(assessments[i], UniqueSubjects(assessments)[k])
  {
    UniqueSubjectsProperties(assessments);
  }

  // ---------------------------------------------------------------- subject colour

  const DefaultColor := "bg-gray-100 text-gray-800"

  /** The `colors` table of `getSubjectColor`: the classes of a listed subject. */
  function ListedColor(subject: string): Option<string>
  {
    match subject
    case "Mathematics" => Some("bg-blue-100 text-blue-800")
    case "Chemistry" => Some("bg-green-100 text-green-800")
    case "Physics" => Some("bg-purple-100 text-purple-800")
    case "Literature" => Some("bg-orange-100 text-orange-800")
    case "Biology" => Some("bg-teal-100 text-teal-800")
    case "History" => Some("bg-red-100 text-red-800")
    case "English" => Some("bg-indigo-100 text-indigo-800")
    case _ => None
  }

  /** `getSubjectColor`: `colors[subject] || "bg-gray-100 text-gray-800"`. */
  function SubjectColor(subject: string): (c: string)
    ensures ListedColor(subject).Some? ==> c == ListedColor(subject).value
    ensures ListedColor(subject).None? ==> c == DefaultColor
  {
    OrElse(ListedColor(subject), DefaultColor)
  }

  /** Two different listed subjects never share a colour, and no listed subject is grey. */
  lemma ListedColorsDistinct(s: string, t: string)
    requires ListedColor(s).Some? && ListedColor(t).Some?
    ensures s != t ==> SubjectColor(s) != SubjectColor(t)
    ensures SubjectColor(s) != DefaultColor
  {
  }

  /** A subject is shown grey exactly when the table does not list it. */
  lemma GreyIffUnlisted(subject: string)
    ensures SubjectColor(subject) == DefaultColor <==> ListedColor(subject).None?
  {
    if ListedColor(subject).Some? {
      ListedColorsDistinct(subject, subject);
    }
  }

  // ---------------------------------------------------------------- cards

  /** The question count of a card: the array's length, else the value itself, else 0. */
  function QuestionCount(q: Questions): (n: int)
    ensures q.QuestionList? ==> n == |q.ids|
    ensures q.QuestionValue? ==> n == q.n
    ensures q.NoQuestions? ==> n == 0
  {
    match q
    case QuestionList(ids) => |ids|
    case QuestionValue(n) => if n != 0 then n else 0
    case NoQuestions => 0
  }

  /** `assessment.timeLimit || 0`: a missing limit shows as 0 minutes. */
  function TimeLimitShown(a: Assessment): (m: int)
    ensures a.timeLimit.None? ==> m == 0
    ensures a.timeLimit.Some? ==> m == a.timeLimit.value
  {
    if a.timeLimit.Some? && a.timeLimit.value != 0 then a.timeLimit.value else 0
  }

  // ---------------------------------------------------------------- page state

  /** The `metadata` property of the response body: an array of assessments, or anything else. */
  datatype Payload = ArrayOf(items: seq<Assessment>) | NotArray

  /** `Array.isArray(data.metadata) ? data.metadata : []`. */
  function AssessmentsFrom(metadata: Payload): (r: seq<Assessment>)
    ensures metadata.ArrayOf? ==> r == metadata.items
    ensures metadata.NotArray? ==> r == []
  {
    match metadata
    case ArrayOf(items) => items
    case NotArray => []
  }

  /** What `fetch` produced: a non-ok status, a parsed body, or a thrown error with its message. */
  datatype Outcome = HttpError(status: int, statusText: string) | Body(metadata: Payload) | Thrown(message: string)

  /**
    The message thrown for a non-ok status: it starts with "Lỗi ", the status
    reads back from what follows, and it ends with the status text.
  */
  function StatusMessage(status: int, statusText: string): (msg: string)
    ensures |msg| > 4 && msg[..4] == "Lỗi "
    ensures status >= 0 ==> LeadingNumber(msg[4..]) == status
    ensures |msg| >= |statusText| && msg[|msg| - |statusText|..] == statusText
  {
    var tail := ": " + statusText;
    var msg := "Lỗi " + (IntToString(status) + tail);
    assert msg[4..] == IntToString(status) + tail;
    assert msg[|msg| - |statusText|..] == statusText;
    if status >= 0 then ReadRenderedNumber(status, tail); msg else msg
  }

  class QuizzTestPage {
    var searchTerm: string
    var filterSubject: string
    var assessments: seq<Assessment>
    var loading: bool
    var error: Option<string>

    constructor ()
      ensures searchTerm == "" && filterSubject == "all" && assessments == [] && loading && error == None
    {
      searchTerm := "";
      filterSubject := "all";
      assessments := [];
      loading := true;
      error := None;
    }

    function Filtered(): seq<Assessment>
      reads this
    {
      FilteredAssessments(assessments, searchTerm, filterSubject)
    }

    /** The cards are shown only once loaded and without error. */
    function Cards(): (r: Option<seq<Assessment>>)
      reads this
      ensures r.Some? <==> !loading && !Truthy(error)
      ensures r.Some? ==> r.value == Filtered() && |r.value| <= |assessments|
    {
      if !loading && !Truthy(error) then Some(Filtered()) else None
    }

    /**
      `fetchAssessments`: the error is cleared first; a body replaces the list
      (by [] when its metadata is not an array); a failure keeps the list and
      records the message.
    */
    method FetchAssessments(outcome: Outcome)
      modifies this`assessments, this`loading, this`error
      ensures !loading
      ensures outcome.Body? ==> assessments == AssessmentsFrom(outcome.metadata) && error.None?
      ensures outcome.HttpError? ==>
                assessments == old(assessments) && error == Some(StatusMessage(outcome.status, outcome.statusText))
      ensures outcome.Thrown? ==> assessments == old(assessments) && error == Some(outcome.message)
    {
      loading := true;
      error := None;
      match outcome {
        case HttpError(status, statusText) =>
          error := Some(StatusMessage(status, statusText));
        case Body(metadata) =>
          assessments := AssessmentsFrom(metadata);
        case Thrown(message) =>
          error := Some(message);
      }
      loading := false;
    }
  }
}
