/**
 * The report screen: loading a report, and browsing its issues either all
 * at once (with a detail modal) or one at a time (with prev/next).
 *
 * The view state is a value, `ViewState`, with one pure transition per
 * handler; the class `ReportScreen` holds the component's state fields and
 * its handler methods update them as those transitions say. A selected
 * issue is the index of that issue in the report's issue sequence.
 */
module ReportView {
  import opened Wrappers
  import opened ReportService

  datatype ViewMode = All | Sequential

  datatype ViewState = ViewState(
    viewMode: ViewMode,
    currentIssueIndex: int,
    selectedIssue: Option<nat>,
    showCodeComparison: bool)

  /** The state the component starts in. */
  const InitialView: ViewState := ViewState(All, 0, None, false)

  // ---------------------------------------------------------------------
  // Lookups

  predicate KnownSeverity(severity: string)
  {
    severity == "error" || severity == "warning" || severity == "info"
  }

  const UnknownSeverityIcon: string := "\U{26AA}"

  /** The icon of a severity; anything but the three known ones gets the neutral icon. */
  function SeverityIcon(severity: string): (icon: string)
    ensures icon == UnknownSeverityIcon <==> !KnownSeverity(severity)
  {
    match severity
    case "error" => "\U{1F534}"
    case "warning" => "\U{1F7E1}"
    case "info" => "\U{1F535}"
    case _ => UnknownSeverityIcon
  }

  predicate KnownGrade(grade: string)
  {
    grade == "A" || grade == "B" || grade == "C" || grade == "D" || grade == "F"
  }

  const UnknownGradeColor: string := "#6b7280"

  /** The colour of a letter grade; anything but A, B, C, D and F gets grey. */
  function GradeColor(grade: string): (color: string)
    ensures color == UnknownGradeColor <==> !KnownGrade(grade)
  {
    match grade
    case "A" => "#10b981"
    case "B" => "#3b82f6"
    case "C" => "#f59e0b"
    case "D" => "#f97316"
    case "F" => "#ef4444"
    case _ => UnknownGradeColor
  }

  /** Distinct known severities get distinct icons, and distinct known grades distinct colours. */
  lemma LookupsSeparateKnownValues(a: string, b: string)
    ensures KnownSeverity(a) && KnownSeverity(b) && SeverityIcon(a) == SeverityIcon(b) ==> a == b
    ensures KnownGrade(a) && KnownGrade(b) && GradeColor(a) == GradeColor(b) ==> a == b
  {
  }

  // ---------------------------------------------------------------------
  // The view transitions

  /** Clicking issue `i`: selects it and opens the modal in 'all' mode only. */
  function IssueClicked(s: ViewState, i: nat): ViewState
  {
    if s.viewMode == All then s.(selectedIssue := Some(i), showCodeComparison := true) else s
  }

  function ComparisonClosed(s: ViewState): ViewState
  {
    s.(showCodeComparison := false, selectedIssue := None)
  }

  function ViewModeChanged(s: ViewState, mode: ViewMode): ViewState
  {
    s.(viewMode := mode, currentIssueIndex := 0)
  }

  /** Next moves on only when a report is loaded and the index is before its last issue. */
  function NextIssue(report: Option<DetailedReport>, s: ViewState): ViewState
  {
    if report.Some? && s.currentIssueIndex < |report.value.issues| - 1
    then s.(currentIssueIndex := s.currentIssueIndex + 1)
    else s
  }

  function PrevIssue(s: ViewState): ViewState
  {
    if s.currentIssueIndex > 0 then s.(currentIssueIndex := s.currentIssueIndex - 1) else s
  }

  /** The detail modal is rendered only when it is flagged open and an issue is selected. */
  predicate ModalShown(s: ViewState)
  {
    s.showCodeComparison && s.selectedIssue.Some?
  }

  predicate PrevDisabled(s: ViewState)
  {
    s.currentIssueIndex == 0
  }

  /** The next button as written: disabled only at index len - 1. */
  predicate NextDisabledAsWritten(report: DetailedReport, s: ViewState)
  {
    s.currentIssueIndex == |report.issues| - 1
  }

  /** The next button disabled from index len - 1 on, which also covers an empty list. */
  predicate NextDisabled(report: DetailedReport, s: ViewState)
  {
    s.currentIssueIndex >= |report.issues| - 1
  }

  /**
   * The displayed issues as written: in sequential mode the element at the
   * current index, `None` standing for the undefined value an index past
   * the end reads.
   */
  function DisplayIssuesAsWritten(report: Option<DetailedReport>, s: ViewState): seq<Option<Issue>>
  {
    if report.None? then []
    else
      var issues := report.value.issues;
      if s.viewMode == All then seq(|issues|, k requires 0 <= k < |issues| => Some(issues[k]))
      else [if 0 <= s.currentIssueIndex < |issues| then Some(issues[s.currentIssueIndex]) else None]
  }

  /**
   * The displayed issues: nothing without a report, the whole ordered list
   * in 'all' mode, and the current issue in sequential mode.
   */
  function DisplayIssues(report: Option<DetailedReport>, s: ViewState): (r: seq<Issue>)
    ensures report.None? ==> r == []
    ensures report.Some? && s.viewMode == All ==> r == report.value.issues
    ensures report.Some? && s.viewMode == Sequential ==>
      |r| <= 1 && forall x :: x in r ==> x in report.value.issues
    ensures ViewValid(report, s) && report.Some? && s.viewMode == Sequential && report.value.issues != [] ==>
      r == [report.value.issues[s.currentIssueIndex]]
  {
    if report.None? then []
    else
      var issues := report.value.issues;
      if s.viewMode == All then issues
      else if 0 <= s.currentIssueIndex < |issues| then [issues[s.currentIssueIndex]]
      else []
  }

  // ---------------------------------------------------------------------
  // Invariant and reachable states

  /**
   * The invariant of the view: the index is never negative and lies inside
   * a non-empty issue list; an issue is selected exactly while the modal
   * flag is set, and a selection names an issue of the loaded report.
   */
  ghost predicate ViewValid(report: Option<DetailedReport>, s: ViewState)
  {
    && 0 <= s.currentIssueIndex
    && (report.Some? && report.value.issues != [] ==> s.currentIssueIndex < |report.value.issues|)
    && (report.Some? && report.value.issues == [] ==> s.currentIssueIndex == 0)
    && (report.None? ==> s.currentIssueIndex == 0)
    && (s.selectedIssue.Some? <==> s.showCodeComparison)
    && (s.selectedIssue.Some? ==> report.Some? && s.selectedIssue.value < |report.value.issues|)
  }

  datatype ViewAction = SelectMode(mode: ViewMode) | ClickIssue(index: nat) | CloseModal | Next | Prev

  function Apply(report: Option<DetailedReport>, s: ViewState, a: ViewAction): ViewState
  {
    match a
    case SelectMode(m) => ViewModeChanged(s, m)
    case ClickIssue(i) => IssueClicked(s, i)
    case CloseModal => ComparisonClosed(s)
    case Next => NextIssue(report, s)
    case Prev => PrevIssue(s)
  }

  function Run(report: Option<DetailedReport>, s: ViewState, actions: seq<ViewAction>): ViewState
    decreases |actions|
  {
    if actions == [] then s else Run(report, Apply(report, s, actions[0]), actions[1..])
  }

  /** Clicks reach the handler only from cards the grid renders, that is, issues of the report. */
  predicate ClicksOnDisplayedIssues(report: Option<DetailedReport>, actions: seq<ViewAction>)
  {
    forall k :: 0 <= k < |actions| && actions[k].ClickIssue? ==>
      report.Some? && actions[k].index < |report.value.issues|
  }

  lemma InitialViewValid(report: Option<DetailedReport>)
    ensures ViewValid(report, InitialView)
    ensures !ModalShown(InitialView) && PrevDisabled(InitialView)
  {
  }

  /** Every handler keeps the invariant. */
  lemma ApplyKeepsViewValid(report: Option<DetailedReport>, s: ViewState, a: ViewAction)
    requires ViewValid(report, s)
    requires a.ClickIssue? ==> report.Some? && a.index < |report.value.issues|
    ensures ViewValid(report, Apply(report, s, a))
  {
  }

  /** Any sequence of handler calls from a valid state ends in a valid state. */
  lemma {:induction false} RunKeepsViewValid(report: Option<DetailedReport>, s: ViewState, actions: seq<ViewAction>)
    requires ViewValid(report, s)
    requires ClicksOnDisplayedIssues(report, actions)
    ensures ViewValid(report, Run(report, s, actions))
    decreases |actions|
  {
    if actions != [] {
      ApplyKeepsViewValid(report, s, actions[0]);
      assert ClicksOnDisplayedIssues(report, actions[1..]) by {
        forall k | 0 <= k < |actions[1..]| && actions[1..][k].ClickIssue?
          ensures report.Some? && actions[1..][k].index < |report.value.issues|
        {
          assert actions[1..][k] == actions[k + 1];
        }
      }
      RunKeepsViewValid(report, Apply(report, s, actions[0]), actions[1..]);
    }
  }

  /**
   * From the initial state, any sequence of handler calls keeps the index
   * in 0 .. len - 1 of a non-empty list and at 0 otherwise, and sequential
   * mode then shows exactly the current issue.
   */
  lemma ReachableIndexInBounds(report: Option<DetailedReport>, actions: seq<ViewAction>)
    requires ClicksOnDisplayedIssues(report, actions)
    ensures var s := Run(report, InitialView, actions);
      && 0 <= s.currentIssueIndex
      && (report.Some? && report.value.issues != [] ==> s.currentIssueIndex <= |report.value.issues| - 1)
      && (report.Some? && report.value.issues != [] && s.viewMode == Sequential ==>
            DisplayIssues(report, s) == [report.value.issues[s.currentIssueIndex]])
      && (ModalShown(s) <==> s.showCodeComparison)
  {
    InitialViewValid(report);
    RunKeepsViewValid(report, InitialView, actions);
  }

  /**
   * The navigation buttons are disabled exactly when their handlers would
   * do nothing, and otherwise the handlers move by one.
   */
  lemma NavButtonsMatchHandlers(report: DetailedReport, s: ViewState)
    requires ViewValid(Some(report), s)
    ensures PrevDisabled(s) <==> PrevIssue(s) == s
    ensures NextDisabled(report, s) <==> NextIssue(Some(report), s) == s
    ensures !PrevDisabled(s) ==> PrevIssue(s) == s.(currentIssueIndex := s.currentIssueIndex - 1)
    ensures !NextDisabled(report, s) ==> NextIssue(Some(report), s) == s.(currentIssueIndex := s.currentIssueIndex + 1)
  {
  }

  /** With a non-empty list the next button as written agrees with the corrected one. */
  lemma NextButtonAgreesOnNonEmpty(report: DetailedReport, s: ViewState)
    requires ViewValid(Some(report), s) && report.issues != []
    ensures NextDisabledAsWritten(report, s) == NextDisabled(report, s)
  {
  }

  /** An empty list: the next button as written is enabled, although next does nothing. */
  lemma NextEnabledOnEmptyList(report: DetailedReport)
    requires report.issues == []
    ensures var s := InitialView.(viewMode := Sequential);
      ViewValid(Some(report), s) && !NextDisabledAsWritten(report, s) && NextIssue(Some(report), s) == s
  {
  }

  /** In every valid state with a non-empty list, the displayed issues as written are all defined. */
  lemma DisplayAgreesOnNonEmpty(report: Option<DetailedReport>, s: ViewState)
    requires ViewValid(report, s)
    requires report.Some? && s.viewMode == Sequential ==> report.value.issues != []
    ensures var shown := DisplayIssues(report, s);
      DisplayIssuesAsWritten(report, s) == seq(|shown|, k requires 0 <= k < |shown| => Some(shown[k]))
  {
  }

  /** An empty list in sequential mode: the issues as written read one undefined element. */
  lemma SequentialEmptyReadsUndefined(report: DetailedReport)
    requires report.issues == []
    ensures var s := InitialView.(viewMode := Sequential);
      ViewValid(Some(report), s) && DisplayIssuesAsWritten(Some(report), s) == [None]
      && DisplayIssues(Some(report), s) == []
  {
  }

  /**
   * An index at or past the end of the list, as a reload to a shorter report
   * leaves it: the issues as written read one undefined element, and the
   * next button as written is enabled although next does nothing.
   */
  lemma SequentialStaleIndexReadsUndefined(report: DetailedReport, index: int)
    requires |report.issues| <= index
    ensures var s := InitialView.(viewMode := Sequential, currentIssueIndex := index);
      && DisplayIssuesAsWritten(Some(report), s) == [None]
      && DisplayIssues(Some(report), s) == []
      && (report.issues != [] ==> !NextDisabledAsWritten(report, s) && !ViewValid(Some(report), s))
      && NextIssue(Some(report), s) == s
  {
  }

  // ---------------------------------------------------------------------
  // Loading the report

  /** What a rejected load threw: an Error object with its message, or any other value. */
  datatype Thrown = ErrorObject(message: string) | OtherValue

  datatype LoadOutcome = Loaded(report: DetailedReport) | Threw(thrown: Thrown)

  const LoadFallbackMessage: string := "Rapor alınırken hata oluştu"

  /** The error text shown for a failed load. */
  function LoadErrorText(t: Thrown): (text: string)
    ensures t.ErrorObject? ==> text == t.message
    ensures t.OtherValue? ==> text == LoadFallbackMessage
  {
    match t
    case ErrorObject(m) => m
    case OtherValue => LoadFallbackMessage
  }

  /** The poller's answer as a load outcome: it only ever throws Error objects. */
  function PolledOutcome(result: PollResult): (o: LoadOutcome)
    ensures result.Report? <==> o.Loaded?
    ensures result.Report? ==> o.report == result.report
    ensures result.Failed? ==> o.thrown == ErrorObject(ErrorMessage(result.error))
  {
    match result
    case Report(r) => Loaded(r)
    case Failed(e) => Threw(ErrorObject(ErrorMessage(e)))
  }

  /** A load from the real backend never shows the fallback text: its errors are the poller's two. */
  lemma BackendLoadErrors(fetch: nat -> FetchOutcome)
    ensures var o := PolledOutcome(Poll(fetch, DefaultMaxAttempts).result);
      o.Threw? ==> LoadErrorText(o.thrown) == TimeoutMessage
  {
    PollReturnsFirstSuccess(fetch, DefaultMaxAttempts);
  }

  datatype Screen = LoadingScreen | ErrorScreen(message: string) | Dashboard | Blank

  /** Which of the component's screens is rendered. An empty error string is falsy. */
  function ScreenOf(loading: bool, error: Option<string>, report: Option<DetailedReport>): (v: Screen)
    ensures v == LoadingScreen <==> loading
    ensures v.ErrorScreen? <==> !loading && error.Some? && error.value != ""
    ensures v == Dashboard <==> !loading && (error.None? || error.value == "") && report.Some?
  {
    if loading then LoadingScreen
    else if error.Some? && error.value != "" then ErrorScreen(error.value)
    else if report.None? then Blank
    else Dashboard
  }

  // ---------------------------------------------------------------------
  // The component

  class ReportScreen {
    /** The `useMockData` property: load from the simulated backend instead of polling. */
    const useMockData: bool

    var report: Option<DetailedReport>
    var loading: bool
    var error: Option<string>
    var selectedIssue: Option<nat>
    var showCodeComparison: bool
    var viewMode: ViewMode
    var currentIssueIndex: int

    function View(): ViewState
      reads this
    {
      ViewState(viewMode, currentIssueIndex, selectedIssue, showCodeComparison)
    }

    ghost predicate Valid()
      reads this
    {
      ViewValid(report, View())
    }

    function CurrentScreen(): Screen
      reads this
    {
      ScreenOf(loading, error, report)
    }

    constructor (useMockData: bool := true)
      ensures this.useMockData == useMockData
      ensures report == None && loading && error == None
      ensures View() == InitialView && Valid()
    {
      this.useMockData := useMockData;
      report := None;
      loading := true;
      error := None;
      selectedIssue := None;
      showCodeComparison := false;
      viewMode := All;
      currentIssueIndex := 0;
    }

    /**
     * fetchReport: sets loading and clears the error, loads from the
     * simulated backend (`mockOutcome`) or polls the real one (`fetch`),
     * stores the report or the error text, and always ends not loading.
     * A failed load keeps the previous report; the view state is untouched.
     */
    method FetchReport(mockOutcome: LoadOutcome, fetch: nat -> FetchOutcome)
      modifies this`report, this`loading, this`error
      ensures !loading && CurrentScreen() != LoadingScreen
      ensures var outcome := if useMockData then mockOutcome else PolledOutcome(Poll(fetch, DefaultMaxAttempts).result);
        match outcome
        case Loaded(r) => report == Some(r) && error == None && CurrentScreen() == Dashboard
        case Threw(t) => report == old(report) && error == Some(LoadErrorText(t))
    {
      loading := true;
      error := None;
      var outcome: LoadOutcome;
      if useMockData {
        outcome := mockOutcome;
      } else {
        var result, _ := PollForReport(fetch);
        outcome := PolledOutcome(result);
      }
      match outcome {
        case Loaded(r) =>
          report := Some(r);
        case Threw(t) =>
          error := Some(LoadErrorText(t));
      }
      loading := false;
    }

    /** handleIssueClick, for the issue at index `i` of the loaded report. */
    method HandleIssueClick(i: nat)
      requires report.Some? && i < |report.value.issues|
      modifies this`selectedIssue, this`showCodeComparison
      ensures View() == IssueClicked(old(View()), i)
      ensures old(Valid()) ==> Valid()
      ensures viewMode == All ==> ModalShown(View()) && selectedIssue == Some(i)
    {
      if viewMode == All {
        selectedIssue := Some(i);
        showCodeComparison := true;
      }
    }

    method HandleCloseComparison()
      modifies this`selectedIssue, this`showCodeComparison
      ensures View() == ComparisonClosed(old(View()))
      ensures old(Valid()) ==> Valid()
      ensures !ModalShown(View())
    {
      showCodeComparison := false;
      selectedIssue := None;
    }

    method HandleViewModeChange(mode: ViewMode)
      modifies this`viewMode, this`currentIssueIndex
      ensures View() == ViewModeChanged(old(View()), mode)
      ensures old(Valid()) ==> Valid()
    {
      viewMode := mode;
      currentIssueIndex := 0;
    }

    method HandleNextIssue()
      modifies this`currentIssueIndex
      ensures View() == NextIssue(report, old(View()))
      ensures old(Valid()) ==> Valid()
    {
      if report.Some? && currentIssueIndex < |report.value.issues| - 1 {
        currentIssueIndex := currentIssueIndex + 1;
      }
    }

    method HandlePrevIssue()
      modifies this`currentIssueIndex
      ensures View() == PrevIssue(old(View()))
      ensures old(Valid()) ==> Valid()
    {
      if currentIssueIndex > 0 {
        currentIssueIndex := currentIssueIndex - 1;
      }
    }

    /** getDisplayIssues: a projection of the state that changes nothing. */
    function GetDisplayIssues(): (r: seq<Issue>)
      reads this
      ensures Valid() && report.Some? && viewMode == Sequential && report.value.issues != [] ==>
        r == [report.value.issues[currentIssueIndex]]
    {
      DisplayIssues(report, View())
    }
  }
}
