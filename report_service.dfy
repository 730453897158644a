/**
 * The report shapes and the bounded retry poller of the report service.
 *
 * The fetch of a report by submission id is the caller-supplied function
 * `fetch`: `fetch(n)` is what the backend answers to attempt number `n`.
 * The poller's waits are recorded as steps of its trace instead of elapsing.
 */
module ReportService {

  /** One detected problem. `severity` is kept as the raw string the backend sends. */
  datatype Issue = Issue(code: string, message: string, line: int, column: int, severity: string)

  datatype Summary = Summary(
    errors: int, warnings: int, infos: int, totalIssues: int,
    codeQuality: string, grade: string, evaluation: string)

  datatype DetailedReport = DetailedReport(
    submissionId: string, language: string, calculatedAt: string,
    summary: Summary, issues: seq<Issue>)

  /** Why one fetch failed; the poller does not distinguish these. */
  datatype FetchFailure = NotReady | NotFound | Transport

  /** What one call of the report-by-id fetch produced. */
  datatype FetchOutcome = Fail(reason: FetchFailure) | Ok(report: DetailedReport)

  /** The two errors the poller throws: out of attempts, or no attempt made at all. */
  datatype PollError = Timeout | NotRetrieved

  datatype PollResult = Report(report: DetailedReport) | Failed(error: PollError)

  /** One observable step of the poller: the fetch of one attempt, or one wait. */
  datatype Step = Fetch(attempt: nat) | Wait(ms: nat)

  /** What polling produced, with every step it took in order. */
  datatype PollRun = PollRun(result: PollResult, trace: seq<Step>)

  const DefaultMaxAttempts: int := 30
  const RetryDelayMs: nat := 2000

  const TimeoutMessage: string := "Rapor hazırlanırken zaman aşımı oluştu"
  const NotRetrievedMessage: string := "Rapor alınamadı"

  /** The message of the Error object the poller throws. */
  function ErrorMessage(e: PollError): (m: string)
    ensures m != ""
    ensures m == TimeoutMessage <==> e == Timeout
  {
    match e
    case Timeout => TimeoutMessage
    case NotRetrieved => NotRetrievedMessage
  }

  // ---------------------------------------------------------------------
  // Specification of the poller

  /** The poll loop from attempt number `attempt` on. */
  function PollFrom(fetch: nat -> FetchOutcome, maxAttempts: int, attempt: nat): PollRun
    requires 1 <= attempt
    decreases maxAttempts - attempt
  {
    if attempt > maxAttempts then PollRun(Failed(NotRetrieved), [])
    else match fetch(attempt)
      case Ok(r) => PollRun(Report(r), [Fetch(attempt)])
      case Fail(_) =>
        if attempt == maxAttempts then PollRun(Failed(Timeout), [Fetch(attempt)])
        else
          var rest := PollFrom(fetch, maxAttempts, attempt + 1);
          PollRun(rest.result, [Fetch(attempt), Wait(RetryDelayMs)] + rest.trace)
  }

  /** The whole poll: attempts are numbered from 1. */
  function Poll(fetch: nat -> FetchOutcome, maxAttempts: int): PollRun
  {
    PollFrom(fetch, maxAttempts, 1)
  }

  /**
   * `count` consecutive fetches numbered from `first`, with one wait of
   * RetryDelayMs between each two of them and none before or after.
   */
  function Schedule(first: nat, count: nat): seq<Step>
    decreases count
  {
    if count == 0 then []
    else if count == 1 then [Fetch(first)]
    else [Fetch(first), Wait(RetryDelayMs)] + Schedule(first + 1, count - 1)
  }

  function FetchCount(trace: seq<Step>): nat
  {
    if trace == [] then 0 else (if trace[0].Fetch? then 1 else 0) + FetchCount(trace[1..])
  }

  function WaitCount(trace: seq<Step>): nat
  {
    if trace == [] then 0 else (if trace[0].Wait? then 1 else 0) + WaitCount(trace[1..])
  }

  /** Total milliseconds spent waiting. */
  function WaitedMs(trace: seq<Step>): nat
  {
    if trace == [] then 0 else (if trace[0].Wait? then trace[0].ms else 0) + WaitedMs(trace[1..])
  }

  // ---------------------------------------------------------------------
  // The poller itself

  /**
   * pollForReport: attempt 1 fires at once; a failed attempt other than
   * the last is followed by a wait of RetryDelayMs; the last failure
   * throws the timeout error; a loop that never runs throws NotRetrieved.
   */
  method PollForReport(fetch: nat -> FetchOutcome, maxAttempts: int := DefaultMaxAttempts)
    returns (result: PollResult, trace: seq<Step>)
    ensures PollRun(result, trace) == Poll(fetch, maxAttempts)
  {
    trace := [];
    var attempt: nat := 1;
    while attempt <= maxAttempts
      invariant 1 <= attempt
      invariant var rest := PollFrom(fetch, maxAttempts, attempt);
        Poll(fetch, maxAttempts) == PollRun(rest.result, trace + rest.trace)
      decreases maxAttempts - attempt
    {
      trace := trace + [Fetch(attempt)];
      var outcome := fetch(attempt);
      if outcome.Ok? {
        return Report(outcome.report), trace;
      }
      if attempt == maxAttempts {
        return Failed(Timeout), trace;
      }
      ghost var rest := PollFrom(fetch, maxAttempts, attempt + 1);
      assert (trace + [Wait(RetryDelayMs)]) + rest.trace == trace[..|trace| - 1] + ([Fetch(attempt), Wait(RetryDelayMs)] + rest.trace);
      trace := trace + [Wait(RetryDelayMs)];
      attempt := attempt + 1;
    }
    result := Failed(NotRetrieved);
  }

  // ---------------------------------------------------------------------
  // Properties of the schedule

  /** Counting over a failed attempt followed by its wait. */
  lemma CountsAfterRetry(attempt: nat, rest: seq<Step>)
    ensures var t := [Fetch(attempt), Wait(RetryDelayMs)] + rest;
      && FetchCount(t) == 1 + FetchCount(rest)
      && WaitCount(t) == 1 + WaitCount(rest)
      && WaitedMs(t) == RetryDelayMs + WaitedMs(rest)
  {
    var t := [Fetch(attempt), Wait(RetryDelayMs)] + rest;
    assert t[1..] == [Wait(RetryDelayMs)] + rest;
    assert t[1..][1..] == rest;
  }

  /** A schedule of `count` fetches has `count - 1` waits of RetryDelayMs each. */
  lemma {:induction false} ScheduleCounts(first: nat, count: nat)
    ensures var s := Schedule(first, count);
      && FetchCount(s) == count
      && WaitCount(s) == (if count == 0 then 0 else count - 1)
      && WaitedMs(s) == RetryDelayMs * WaitCount(s)
    decreases count
  {
    if count > 1 {
      ScheduleCounts(first + 1, count - 1);
      CountsAfterRetry(first, Schedule(first + 1, count - 1));
    }
  }

  /**
   * The shape of a schedule: fetch number `first + j` at position 2j and a
   * wait of RetryDelayMs between every two fetches.
   */
  lemma {:induction false} ScheduleAt(first: nat, count: nat)
    ensures var s := Schedule(first, count);
      && |s| == (if count == 0 then 0 else 2 * count - 1)
      && (forall j :: 0 <= j < count ==> s[2 * j] == Fetch(first + j))
      && (forall j :: 0 <= j < count - 1 ==> s[2 * j + 1] == Wait(RetryDelayMs))
    decreases count
  {
    if count > 1 {
      ScheduleAt(first + 1, count - 1);
      var s := Schedule(first, count);
      var t := Schedule(first + 1, count - 1);
      assert s == [Fetch(first), Wait(RetryDelayMs)] + t;
      forall j | 1 <= j < count
        ensures s[2 * j] == Fetch(first + j)
      {
        assert s[2 * j] == t[2 * (j - 1)];
      }
      forall j | 1 <= j < count - 1
        ensures s[2 * j + 1] == Wait(RetryDelayMs)
      {
        assert s[2 * j + 1] == t[2 * (j - 1) + 1];
      }
    }
  }

  // ---------------------------------------------------------------------
  // Properties of the poll

  /** Every poll follows its schedule and never fetches past maxAttempts. */
  lemma {:induction false} PollFromFollowsSchedule(fetch: nat -> FetchOutcome, maxAttempts: int, attempt: nat)
    requires 1 <= attempt
    ensures var run := PollFrom(fetch, maxAttempts, attempt);
      && run.trace == Schedule(attempt, FetchCount(run.trace))
      && attempt + FetchCount(run.trace) <= (if maxAttempts < attempt then attempt else maxAttempts + 1)
    decreases maxAttempts - attempt
  {
    if attempt <= maxAttempts && fetch(attempt).Fail? && attempt < maxAttempts {
      PollFromFollowsSchedule(fetch, maxAttempts, attempt + 1);
      var rest := PollFrom(fetch, maxAttempts, attempt + 1);
      CountsAfterRetry(attempt, rest.trace);
    }
  }

  /**
   * The trace of a poll: fetches numbered 1, 2, ... consecutively, the
   * first fetch before any wait, a wait between each two fetches and no
   * wait after the last one, and never more than maxAttempts fetches.
   */
  lemma PollFollowsSchedule(fetch: nat -> FetchOutcome, maxAttempts: int)
    ensures var run := Poll(fetch, maxAttempts);
      && run.trace == Schedule(1, FetchCount(run.trace))
      && FetchCount(run.trace) <= (if maxAttempts < 1 then 0 else maxAttempts)
      && (run.trace != [] ==> run.trace[0] == Fetch(1) && run.trace[|run.trace| - 1].Fetch?)
      && WaitCount(run.trace) == (if run.trace == [] then 0 else FetchCount(run.trace) - 1)
  {
    PollFromFollowsSchedule(fetch, maxAttempts, 1);
    var run := Poll(fetch, maxAttempts);
    var k := FetchCount(run.trace);
    ScheduleCounts(1, k);
    ScheduleAt(1, k);
    if k > 0 {
      assert run.trace[2 * (k - 1)] == Fetch(1 + (k - 1));
    }
  }

  lemma {:induction false} PollFromFailsThenSucceeds(fetch: nat -> FetchOutcome, maxAttempts: int, attempt: nat, n: nat)
    requires 1 <= attempt <= n + 1 <= maxAttempts
    requires forall i :: attempt <= i <= n ==> fetch(i).Fail?
    requires fetch(n + 1).Ok?
    ensures PollFrom(fetch, maxAttempts, attempt) == PollRun(Report(fetch(n + 1).report), Schedule(attempt, n + 2 - attempt))
    decreases n + 1 - attempt
  {
    if attempt <= n {
      PollFromFailsThenSucceeds(fetch, maxAttempts, attempt + 1, n);
    }
  }

  /**
   * A fetch that fails n times and then succeeds, with n < maxAttempts:
   * the poll returns that report after exactly n + 1 fetches and n waits
   * of 2000 ms.
   */
  lemma PollFailsThenSucceeds(fetch: nat -> FetchOutcome, maxAttempts: int, n: nat)
    requires n < maxAttempts
    requires forall i :: 1 <= i <= n ==> fetch(i).Fail?
    requires fetch(n + 1).Ok?
    ensures var run := Poll(fetch, maxAttempts);
      && run.result == Report(fetch(n + 1).report)
      && run.trace == Schedule(1, n + 1)
      && FetchCount(run.trace) == n + 1
      && WaitCount(run.trace) == n
      && WaitedMs(run.trace) == RetryDelayMs * n
  {
    PollFromFailsThenSucceeds(fetch, maxAttempts, 1, n);
    ScheduleCounts(1, n + 1);
  }

  lemma {:induction false} PollFromAllFail(fetch: nat -> FetchOutcome, maxAttempts: int, attempt: nat)
    requires 1 <= attempt <= maxAttempts
    requires forall i :: attempt <= i <= maxAttempts ==> fetch(i).Fail?
    ensures PollFrom(fetch, maxAttempts, attempt) == PollRun(Failed(Timeout), Schedule(attempt, maxAttempts + 1 - attempt))
    decreases maxAttempts - attempt
  {
    if attempt < maxAttempts {
      PollFromAllFail(fetch, maxAttempts, attempt + 1);
    }
  }

  /**
   * A fetch that always fails: exactly maxAttempts fetches, maxAttempts - 1
   * waits (none after the last failure), and the timeout error.
   */
  lemma PollAllFail(fetch: nat -> FetchOutcome, maxAttempts: int)
    requires 1 <= maxAttempts
    requires forall i :: 1 <= i <= maxAttempts ==> fetch(i).Fail?
    ensures var run := Poll(fetch, maxAttempts);
      && run.result == Failed(Timeout)
      && run.trace == Schedule(1, maxAttempts)
      && FetchCount(run.trace) == maxAttempts
      && WaitCount(run.trace) == maxAttempts - 1
      && WaitedMs(run.trace) == RetryDelayMs * (maxAttempts - 1)
      && run.trace[|run.trace| - 1] == Fetch(maxAttempts)
  {
    PollFromAllFail(fetch, maxAttempts, 1);
    ScheduleCounts(1, maxAttempts);
    ScheduleAt(1, maxAttempts);
    assert Schedule(1, maxAttempts)[2 * (maxAttempts - 1)] == Fetch(1 + (maxAttempts - 1));
  }

  /** With maxAttempts < 1 nothing is fetched and the error is NotRetrieved, not Timeout. */
  lemma PollWithoutAttempts(fetch: nat -> FetchOutcome, maxAttempts: int)
    requires maxAttempts < 1
    ensures Poll(fetch, maxAttempts) == PollRun(Failed(NotRetrieved), [])
  {
  }

  lemma {:induction false} PollFromReturnsFirstSuccess(fetch: nat -> FetchOutcome, maxAttempts: int, attempt: nat)
    requires 1 <= attempt
    ensures var run := PollFrom(fetch, maxAttempts, attempt);
      var last := attempt + FetchCount(run.trace) - 1;
      && (run.result.Report? ==>
            attempt <= last <= maxAttempts && fetch(last) == Ok(run.result.report)
            && forall i :: attempt <= i < last ==> fetch(i).Fail?)
      && (run.result.Failed? ==> forall i :: attempt <= i <= maxAttempts ==> fetch(i).Fail?)
      && (run.result == Failed(NotRetrieved) <==> maxAttempts < attempt)
    decreases maxAttempts - attempt
  {
    if attempt <= maxAttempts && fetch(attempt).Fail? && attempt < maxAttempts {
      PollFromReturnsFirstSuccess(fetch, maxAttempts, attempt + 1);
      var rest := PollFrom(fetch, maxAttempts, attempt + 1);
      CountsAfterRetry(attempt, rest.trace);
    }
  }

  /**
   * The poll returns the report of the first successful attempt within
   * maxAttempts, and fails exactly when every attempt within maxAttempts
   * fails; NotRetrieved is reported exactly when maxAttempts < 1.
   */
  lemma PollReturnsFirstSuccess(fetch: nat -> FetchOutcome, maxAttempts: int)
    ensures var run := Poll(fetch, maxAttempts);
      var k := FetchCount(run.trace);
      && (run.result.Report? ==>
            1 <= k <= maxAttempts && fetch(k) == Ok(run.result.report)
            && forall i :: 1 <= i < k ==> fetch(i).Fail?)
      && (run.result.Failed? <==> forall i :: 1 <= i <= maxAttempts ==> fetch(i).Fail?)
      && (run.result == Failed(NotRetrieved) <==> maxAttempts < 1)
      && (run.result == Failed(Timeout) <==> 1 <= maxAttempts && forall i :: 1 <= i <= maxAttempts ==> fetch(i).Fail?)
  {
    PollFromReturnsFirstSuccess(fetch, maxAttempts, 1);
    var run := Poll(fetch, maxAttempts);
    if run.result.Failed? {
      match run.result.error
      case Timeout =>
      case NotRetrieved =>
    }
  }

  lemma {:induction false} PollFromIgnoresLaterOutcomes(f: nat -> FetchOutcome, g: nat -> FetchOutcome, maxAttempts: int, attempt: nat)
    requires 1 <= attempt
    requires forall i :: attempt <= i < attempt + FetchCount(PollFrom(f, maxAttempts, attempt).trace) ==> f(i) == g(i)
    ensures PollFrom(f, maxAttempts, attempt) == PollFrom(g, maxAttempts, attempt)
    decreases maxAttempts - attempt
  {
    if attempt <= maxAttempts {
      var t := PollFrom(f, maxAttempts, attempt).trace;
      assert t[0] == Fetch(attempt);
      assert f(attempt) == g(attempt);
      if f(attempt).Fail? && attempt < maxAttempts {
        var rest := PollFrom(f, maxAttempts, attempt + 1);
        CountsAfterRetry(attempt, rest.trace);
        PollFromIgnoresLaterOutcomes(f, g, maxAttempts, attempt + 1);
      }
    }
  }

  /**
   * Outcomes after the attempts the poll made are never consulted: two
   * fetches that agree on those attempts give the same poll.
   */
  lemma PollIgnoresLaterOutcomes(f: nat -> FetchOutcome, g: nat -> FetchOutcome, maxAttempts: int)
    requires forall i :: 1 <= i <= FetchCount(Poll(f, maxAttempts).trace) ==> f(i) == g(i)
    ensures Poll(f, maxAttempts) == Poll(g, maxAttempts)
  {
    PollFromIgnoresLaterOutcomes(f, g, maxAttempts, 1);
  }

  lemma {:induction false} PollFromIgnoresFailureReason(f: nat -> FetchOutcome, g: nat -> FetchOutcome, maxAttempts: int, attempt: nat)
    requires 1 <= attempt
    requires forall i :: f(i).Fail? <==> g(i).Fail?
    requires forall i :: f(i).Ok? ==> f(i) == g(i)
    ensures PollFrom(f, maxAttempts, attempt) == PollFrom(g, maxAttempts, attempt)
    decreases maxAttempts - attempt
  {
    if attempt < maxAttempts {
      PollFromIgnoresFailureReason(f, g, maxAttempts, attempt + 1);
    }
  }

  /**
   * Every kind of fetch failure is handled alike: fetches that differ only
   * in why they failed give the same poll.
   */
  lemma PollIgnoresFailureReason(f: nat -> FetchOutcome, g: nat -> FetchOutcome, maxAttempts: int)
    requires forall i :: f(i).Fail? <==> g(i).Fail?
    requires forall i :: f(i).Ok? ==> f(i) == g(i)
    ensures Poll(f, maxAttempts) == Poll(g, maxAttempts)
  {
    PollFromIgnoresFailureReason(f, g, maxAttempts, 1);
  }
}
