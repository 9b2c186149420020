/**
  The test detail page: the time-limit text, the loading of a test and of its
  questions (dropping those that could not be fetched), the date text, and the
  button that bans or unbans the test.
*/
module TestDetail {
  import opened Wrappers
  import opened Text
  import opened Seqs

  // ---------------------------------------------------------------- time limit

  /**
    The stored `timeLimit` of a test: absent (`undefined`), `null`, or a
    number of minutes. The two empty forms render differently.
  */
  datatype Limit = Undefined | Null | Minutes(minutes: int)

  /** `" hour" + (h > 1 ? "s" : "") + " "`. */
  function HourWord(hours: nat): string
  {
    if hours > 1 then " hours " else " hour "
  }

  /** `minutes % 60 > 0 ? "{m} minutes" : ""`. */
  function MinutesPart(minutes: nat): string
  {
    if minutes > 0 then NatToString(minutes) + " minutes" else ""
  }

  /** The text of a limit of at least an hour. */
  function HoursText(hours: nat, minutes: nat): string
  {
    NatToString(hours) + (HourWord(hours) + MinutesPart(minutes))
  }

  /**
    `formatTimeLimit(test.timeLimit)`. An `undefined` limit fails both
    comparisons and turns into `NaN` in the hours branch, where `NaN > 1` and
    `NaN > 0` are false. A `null` limit is below 60 (it compares as 0) and
    renders as "null" in the minutes branch. The first character tells the
    kinds apart: a digit exactly for a positive limit, a minus sign exactly for
    a negative one, and a letter otherwise.
  */
  function FormatTimeLimit(timeLimit: Limit): (text: string)
    ensures |text| > 0
    ensures IsDigit(text[0]) <==> timeLimit.Minutes? && timeLimit.minutes > 0
    ensures text[0] == '-' <==> timeLimit.Minutes? && timeLimit.minutes < 0
  {
    match timeLimit
    case Undefined => "NaN hour "
    case Null => "null minutes"
    case Minutes(m) =>
      if m == 0 then "No limit"
      else if m < 60 then IntToString(m) + " minutes"
      else HoursText(m / 60, m % 60)
  }

  /**
    Reads a time-limit text back: the partner of `FormatTimeLimit`. The texts
    are told apart by their first characters: "No limit" and "NaN hour " by
    their second letter, "null minutes" by its lower-case initial, a negative
    limit by its sign, the rest by the number they start with.
  */
  function ReadTimeLimit(s: string): Limit
  {
    if |s| == 0 then Undefined
    else if s[0] == 'N' then (if |s| > 1 && s[1] == 'o' then Minutes(0) else Undefined)
    else if s[0] == 'n' then Null
    else if s[0] == '-' then Minutes(0 - LeadingNumber(s[1..]) as int)
    else ReadAfterNumber(LeadingNumber(s), s[LeadingDigitCount(s)..])
  }

  /** The rest of a text that starts with the number `n`: " minutes", or the hours and what remains. */
  function ReadAfterNumber(n: nat, rest: string): Limit
  {
    if |rest| > 1 && rest[1] == 'm' then Minutes(n)
    else
      var skip := if n > 1 then 7 else 6;
      Minutes(60 * n + LeadingNumber(if skip <= |rest| then rest[skip..] else []))
  }

  /** A text that starts with a rendered number is read by `ReadAfterNumber`. */
  lemma ReadNumberLed(s: string, n: nat, rest: string)
    requires s == NatToString(n) + rest
    requires rest == [] || !IsDigit(rest[0])
    ensures ReadTimeLimit(s) == ReadAfterNumber(n, rest)
  {
    DigitNotLetter(s, NatToString(n));
    ReadRenderedNumber(n, rest);
    assert s[|NatToString(n)|..] == rest;
  }

  /** The text determines the time limit: reading it back gives the limit, for every input. */
  lemma TimeLimitRoundTrip(timeLimit: Limit)
    ensures ReadTimeLimit(FormatTimeLimit(timeLimit)) == timeLimit
  {
    match timeLimit
    case Undefined =>
    case Null =>
    case Minutes(m) =>
      if m < 0 {
        NegativeRoundTrip(m);
      } else if 0 < m < 60 {
        MinutesRoundTrip(m);
      } else if m >= 60 {
        HoursRoundTrip(m);
      }
  }

  lemma NegativeRoundTrip(m: int)
    requires m < 0
    ensures ReadTimeLimit(FormatTimeLimit(Minutes(m))) == Minutes(m)
  {
    var s := FormatTimeLimit(Minutes(m));
    assert s == "-" + (NatToString(-m) + " minutes");
    assert s[0] == '-';
    assert s[1..] == NatToString(-m) + " minutes";
    ReadRenderedNumber(-m, " minutes");
  }

  lemma MinutesRoundTrip(m: int)
    requires 0 < m < 60
    ensures ReadTimeLimit(FormatTimeLimit(Minutes(m))) == Minutes(m)
  {
    ReadNumberLed(FormatTimeLimit(Minutes(m)), m, " minutes");
  }

  lemma HoursRoundTrip(m: int)
    requires m >= 60
    ensures ReadTimeLimit(FormatTimeLimit(Minutes(m))) == Minutes(m)
  {
    HoursFormat(m);
    HoursTextRoundTrip(m / 60, m % 60, m);
  }

  /** A limit of an hour or more is written as its hours and leftover minutes. */
  lemma HoursFormat(m: int)
    requires m >= 60
    ensures m / 60 >= 1 && 0 <= m % 60 < 60 && 60 * (m / 60) + m % 60 == m
    ensures FormatTimeLimit(Minutes(m)) == HoursText(m / 60, m % 60)
  {
  }

  /** The hours text of `h` hours and `r` minutes reads back as the limit `m`, that is `60 * h + r`. */
  lemma HoursTextRoundTrip(h: nat, r: nat, m: int)
    requires m == 60 * h + r
    ensures ReadTimeLimit(HoursText(h, r)) == Minutes(m)
  {
    var rest := HourWord(h) + MinutesPart(r);
    assert rest[0] == ' ';
    ReadNumberLed(HoursText(h, r), h, rest);
    HoursRest(h, r, m);
  }

  lemma HoursRest(h: nat, r: nat, m: int)
    requires m == 60 * h + r
    ensures ReadAfterNumber(h, HourWord(h) + MinutesPart(r)) == Minutes(m)
  {
    MinutesPartValue(r);
    WordThenTail(h, MinutesPart(r), m);
  }

  /** After the number of hours, the reader skips the hour word and reads the number that follows. */
  lemma WordThenTail(h: nat, tail: string, m: int)
    requires m == 60 * h + LeadingNumber(tail)
    ensures ReadAfterNumber(h, HourWord(h) + tail) == Minutes(m)
  {
    var w := HourWord(h);
    var rest := w + tail;
    assert |w| == if h > 1 then 7 else 6;
    assert rest[1] == w[1] == 'h';
    assert rest[|w|..] == tail;
  }

  /** The minutes part of an hours text reads back as its minutes. */
  lemma MinutesPartValue(r: nat)
    ensures LeadingNumber(MinutesPart(r)) == r
  {
    if r > 0 {
      ReadRenderedNumber(r, " minutes");
    } else {
      assert MinutesPart(r)[..LeadingDigitCount(MinutesPart(r))] == [];
    }
  }

  /** A text that starts with a rendered number is neither of the two fixed texts nor a negative limit. */
  lemma DigitNotLetter(s: string, digits: string)
    requires AllDigits(digits) && |digits| >= 1 && |s| >= |digits| && s[..|digits|] == digits
    ensures |s| > 0 && s[0] != 'N' && s[0] != 'n' && s[0] != '-'
  {
    assert s[0] == digits[0];
  }

  /** Different limits are shown as different texts. */
  lemma TimeLimitTextsDistinct(a: Limit, b: Limit)
    requires FormatTimeLimit(a) == FormatTimeLimit(b)
    ensures a == b
  {
    TimeLimitRoundTrip(a);
    TimeLimitRoundTrip(b);
  }

  /**
    The three forms of the text: a signed "{m} minutes" below an hour (negative
    limits included), and otherwise the hours, "s" only for more than one hour,
    a space, and the leftover minutes only when there are some.
  */
  lemma TimeLimitForms(m: int)
    requires m != 0
    ensures m < 0 ==> FormatTimeLimit(Minutes(m)) == "-" + NatToString(-m) + " minutes"
    ensures 0 < m < 60 ==> FormatTimeLimit(Minutes(m)) == NatToString(m) + " minutes"
    ensures m >= 60 ==>
              FormatTimeLimit(Minutes(m))
              == NatToString(m / 60) + " hour" + (if m / 60 > 1 then "s" else "") + " "
                 + (if m % 60 > 0 then NatToString(m % 60) + " minutes" else "")
  {
    if m >= 60 {
      HoursFormat(m);
      HoursTextForm(m / 60, m % 60);
    }
  }

  lemma HoursTextForm(h: nat, r: nat)
    ensures HoursText(h, r)
            == NatToString(h) + " hour" + (if h > 1 then "s" else "") + " "
               + (if r > 0 then NatToString(r) + " minutes" else "")
  {
    assert HourWord(h) == " hour" + (if h > 1 then "s" else "") + " ";
  }

  /** A limit not below an hour with no minutes left over ends in a space. */
  lemma WholeHoursEndInSpace(m: int)
    requires m >= 60 && m % 60 == 0
    ensures var s := FormatTimeLimit(Minutes(m)); |s| > 0 && s[|s| - 1] == ' '
  {
  }

  lemma ShortLimitExamples()
    ensures FormatTimeLimit(Minutes(0)) == "No limit"
    ensures FormatTimeLimit(Minutes(45)) == "45 minutes"
    ensures FormatTimeLimit(Minutes(-5)) == "-5 minutes"
  {
    assert FormatTimeLimit(Minutes(45)) == "45 minutes" by {
      assert NatToString(4) == "4";
      assert NatToString(45) == NatToString(4) + [DigitChar(5)];
    }
    assert FormatTimeLimit(Minutes(-5)) == "-5 minutes" by {
      assert IntToString(-5) == "-5" by { assert NatToString(5) == "5"; }
    }
  }

  /** An absent limit and a `null` one render differently, and both read back as what they were. */
  lemma EmptyLimitExamples()
    ensures FormatTimeLimit(Undefined) == "NaN hour "
    ensures FormatTimeLimit(Null) == "null minutes"
    ensures ReadTimeLimit("NaN hour ") == Undefined && ReadTimeLimit("null minutes") == Null
  {
  }

  lemma HourLimitExamples()
    ensures FormatTimeLimit(Minutes(60)) == "1 hour "
    ensures FormatTimeLimit(Minutes(120)) == "2 hours "
  {
    assert NatToString(1) == "1" && NatToString(2) == "2";
  }

  lemma MixedLimitExample()
    ensures FormatTimeLimit(Minutes(90)) == "1 hour 30 minutes"
  {
    NinetyMinutesText();
    OneHourThirtyText();
  }

  lemma NinetyMinutesText()
    ensures FormatTimeLimit(Minutes(90)) == HoursText(1, 30)
  {
  }

  lemma OneHourThirtyText()
    ensures HoursText(1, 30) == "1 hour 30 minutes"
  {
    ThirtyMinutesPart();
    assert NatToString(1) == "1";
    assert HourWord(1) == " hour ";
  }

  lemma ThirtyMinutesPart()
    ensures MinutesPart(30) == "30 minutes"
  {
    assert NatToString(30) == "30" by { assert NatToString(3) == "3"; }
  }

  // ---------------------------------------------------------------- dates

  /** `formatDate`: "Unknown" for a missing or empty date, otherwise the locale rendering passed in. */
  function FormatDate(date: Option<string>, toLocaleString: string -> string): (r: string)
    ensures !Truthy(date) ==> r == "Unknown"
    ensures Truthy(date) ==> r == toLocaleString(date.value)
  {
    if Truthy(date) then toLocaleString(date.value) else "Unknown"
  }

  // ---------------------------------------------------------------- questions

  datatype Question = Question(id: Option<string>, text: Option<string>, options: seq<string>)

  /** The result of fetching one question: a non-ok status, a thrown error, or a body's `metadata`. */
  datatype QuestionFetch = QuestionNotOk | QuestionThrown | QuestionBody(metadata: Option<Question>)

  /** What the promise for one question resolves to: the metadata, or `null`. */
  function Resolved(f: QuestionFetch): Option<Question>
  {
    if f.QuestionBody? then f.metadata else None
  }

  /** `Promise.all` of the fetches, one per id, in the order of the ids. */
  function Results(ids: seq<string>, fetchQuestion: string -> QuestionFetch): (r: seq<Option<Question>>)
    ensures |r| == |ids| && forall i :: 0 <= i < |ids| ==> r[i] == Resolved(fetchQuestion(ids[i]))
  {
    seq(|ids|, i requires 0 <= i < |ids| => Resolved(fetchQuestion(ids[i])))
  }

  /** `allQuestions.filter((q) => q !== null)`. */
  function ValidQuestions(ids: seq<string>, fetchQuestion: string -> QuestionFetch): (r: seq<Question>)
    ensures |r| <= |ids|
    ensures forall k :: 0 <= k < |r| ==> exists i :: 0 <= i < |ids| && Resolved(fetchQuestion(ids[i])) == Some(r[k])
    ensures forall i :: 0 <= i < |ids| && Resolved(fetchQuestion(ids[i])).Some? ==>
              Resolved(fetchQuestion(ids[i])).value in r
  {
    var all := Results(ids, fetchQuestion);
    var r := Somes(all);
    assert forall i :: 0 <= i < |ids| && all[i].Some? ==> all[i].value in r;
    r
  }

  /** The questions keep the order of their ids: they are the non-null results, in order. */
  lemma ValidQuestionsInOrder(ids: seq<string>, fetchQuestion: string -> QuestionFetch)
    ensures |ValidQuestions(ids, fetchQuestion)| == |Filter(Results(ids, fetchQuestion), (o: Option<Question>) => o.Some?)|
    ensures forall k :: 0 <= k < |ValidQuestions(ids, fetchQuestion)| ==>
              Filter(Results(ids, fetchQuestion), (o: Option<Question>) => o.Some?)[k] == Some(ValidQuestions(ids, fetchQuestion)[k])
  {
    SomesAreFilteredEntries(Results(ids, fetchQuestion));
  }

  /** When every fetch returns a question, the list holds exactly those questions, one per id, in order. */
  lemma AllFetchedKeepsEveryQuestion(ids: seq<string>, fetchQuestion: string -> QuestionFetch)
    requires forall i :: 0 <= i < |ids| ==> Resolved(fetchQuestion(ids[i])).Some?
    ensures |ValidQuestions(ids, fetchQuestion)| == |ids|
    ensures forall i :: 0 <= i < |ids| ==> ValidQuestions(ids, fetchQuestion)[i] == Resolved(fetchQuestion(ids[i])).value
  {
    SomesOfAllPresent(Results(ids, fetchQuestion));
  }

  // ---------------------------------------------------------------- the test

  datatype TestInfo = TestInfo(
    title: Option<string>,
    questions: Option<seq<string>>,
    timeLimit: Limit,
    createdAt: Option<string>,
    updatedAt: Option<string>,
    isBanned: Option<bool>)

  /** The truthiness of `test.isBanned`: a missing flag reads as not banned. */
  predicate IsBanned(t: TestInfo)
  {
    t.isBanned == Some(true)
  }

  /** `{ ...prev, isBanned: !prev.isBanned }`. */
  function Flipped(t: TestInfo): (r: TestInfo)
    ensures IsBanned(r) == !IsBanned(t) && r.isBanned.Some?
    ensures r.(isBanned := t.isBanned) == t
  {
    t.(isBanned := Some(!IsBanned(t)))
  }

  /** Flipping twice restores the test exactly when the flag was present to begin with. */
  lemma FlipTwice(t: TestInfo)
    ensures IsBanned(Flipped(Flipped(t))) == IsBanned(t)
    ensures Flipped(Flipped(t)) == t <==> t.isBanned.Some?
  {
    var u := Flipped(t);
    match t.isBanned
    case None =>
      assert Flipped(u).isBanned == Some(false);
    case Some(b) =>
      assert IsBanned(t) == b && u.isBanned == Some(!b) && IsBanned(u) == !b;
      assert Flipped(u) == u.(isBanned := Some(b));
  }

  /** The label of the ban button. */
  function BanButtonLabel(t: TestInfo): (text: string)
    ensures text == "Unban Test" <==> IsBanned(t)
    ensures text == "Unban Test" || text == "Ban Test"
  {
    if IsBanned(t) then "Unban Test" else "Ban Test"
  }

  /** The status line of the information panel. */
  function StatusText(t: TestInfo): (text: string)
    ensures text == "Banned" <==> IsBanned(t)
    ensures text == "Banned" || text == "Active"
  {
    if IsBanned(t) then "Banned" else "Active"
  }

  /** After a flip the button offers the opposite action and the status reads the opposite. */
  lemma FlipSwapsLabels(t: TestInfo)
    ensures BanButtonLabel(Flipped(t)) != BanButtonLabel(t)
    ensures StatusText(Flipped(t)) != StatusText(t)
    ensures BanButtonLabel(t) == "Ban Test" <==> StatusText(t) == "Active"
  {
  }

  /** `testData.metadata.questions && testData.metadata.questions.length > 0`. */
  predicate HasQuestions(t: TestInfo)
  {
    t.questions.Some? && |t.questions.value| > 0
  }

  /** What fetching the test produced: a non-ok status, a thrown error with its message, or a body's `metadata`. */
  datatype TestFetch = TestNotOk | TestThrown(message: string) | TestBody(metadata: TestInfo)

  /** What the PUT of the ban button produced: an ok body with its optional `message`, a non-ok status, or a thrown error. */
  datatype BanOutcome = BanOk(message: Option<string>) | BanNotOk | BanThrown

  datatype Toast = Success(text: string) | Error(text: string)

  /** What the page shows. */
  datatype Screen = Spinner | Failure(message: string) | Details(test: TestInfo)

  class TestDetailPage {
    var test: Option<TestInfo>
    var questions: seq<Question>
    var loading: bool
    var error: Option<string>

    constructor ()
      ensures test == None && questions == [] && loading && error == None
    {
      test := None;
      questions := [];
      loading := true;
      error := None;
    }

    /** The spinner while loading, then the error (or "Test not found"), then the details. */
    function View(): (v: Screen)
      reads this
      ensures loading <==> v.Spinner?
      ensures !loading && Truthy(error) ==> v == Failure(error.value)
      ensures !loading && !Truthy(error) && test.None? ==> v == Failure("Test not found")
      ensures v.Details? <==> !loading && !Truthy(error) && test.Some?
      ensures v.Details? ==> v.test == test.value
    {
      if loading then Spinner
      else if Truthy(error) || test.None? then Failure(OrElse(error, "Test not found"))
      else Details(test.value)
    }

    /**
      The effect of the page: nothing without a test id. Otherwise the test is
      loaded, its questions are fetched only when it lists some, and a failure
      keeps what was held, records the message and raises the error toast.
    */
    method FetchTestDetail(testId: Option<string>, outcome: TestFetch, fetchQuestion: string -> QuestionFetch)
        returns (toast: Option<Toast>)
      modifies this`test, this`questions, this`loading, this`error
      ensures !Truthy(testId) ==>
                toast.None? && test == old(test) && questions == old(questions)
                && loading == old(loading) && error == old(error)
      ensures Truthy(testId) ==> !loading
      ensures Truthy(testId) && outcome.TestBody? ==>
                && toast.None? && test == Some(outcome.metadata) && error == old(error)
                && (HasQuestions(outcome.metadata) ==>
                      questions == ValidQuestions(outcome.metadata.questions.value, fetchQuestion))
                && (!HasQuestions(outcome.metadata) ==> questions == old(questions))
      ensures Truthy(testId) && !outcome.TestBody? ==>
                && toast == Some(Error("Error loading test details!")) && test == old(test)
                && questions == old(questions)
                && error == Some(if outcome.TestThrown? then outcome.message else "Unable to load test information")
    {
      toast := None;
      if Truthy(testId) {
        loading := true;
        match outcome {
          case TestNotOk =>
            error := Some("Unable to load test information");
            toast := Some(Error("Error loading test details!"));
          case TestThrown(message) =>
            error := Some(message);
            toast := Some(Error("Error loading test details!"));
          case TestBody(metadata) =>
            test := Some(metadata);
            if HasQuestions(metadata) {
              questions := ValidQuestions(metadata.questions.value, fetchQuestion);
            }
        }
        loading := false;
      }
    }

    /**
      The ban button: sends the negated flag; an ok response flips the held
      flag, leaves every other field of the test as it was, and toasts the
      server's message or the default one; any other outcome only toasts the
      error.
    */
    method ToggleBan(outcome: BanOutcome) returns (sent: bool, toast: Toast)
      requires test.Some?
      modifies this`test
      ensures sent == !IsBanned(old(test).value)
      ensures outcome.BanOk? ==>
                && test == Some(Flipped(old(test).value))
                && toast == Success(OrElse(outcome.message,
                                           if IsBanned(old(test).value) then "Test unbanned successfully!"
                                           else "Test banned successfully!"))
      ensures !outcome.BanOk? ==> test == old(test) && toast == Error("Error updating test status!")
    {
      var current := test.value;
      sent := !IsBanned(current);
      if outcome.BanOk? {
        test := Some(Flipped(current));
        toast := Success(OrElse(outcome.message,
                                if IsBanned(current) then "Test unbanned successfully!" else "Test banned successfully!"));
      } else {
        toast := Error("Error updating test status!");
      }
    }
  }
}
