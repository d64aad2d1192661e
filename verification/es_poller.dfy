/** The Elasticsearch readiness poller (`EsConnectionPoller`).

    A health probe is scheduled at a fixed rate: the k-th probe is due at
    `initialDelay + k * period` seconds after the poll starts, and the caller
    waits at most `maxWait` seconds for the scheduled future to finish. The
    health request itself, the scheduler thread and the clock are replaced by
    an oracle `probes` giving the outcome the k-th probe would observe. */
module EsPoller {
  import opened Common

  /** The three timing parameters of one poller, in seconds. */
  datatype PollerConfig = PollerConfig(initialDelaySecs: int, periodSecs: int, maxWaitSecs: int)

  /** What one run of `pollElasticSearch` observes. */
  datatype ProbeOutcome =
    | /** the cluster-health response is not timed out */
      Healthy
    | /** the cluster-health response reports that the request timed out */
      HealthTimedOut
    | /** the client raised an `ElasticsearchException` */
      ElasticsearchError(message: string)
    | /** the client raised an `SSLException` */
      SslError(message: string)
    | /** the client raised any other `IOException` */
      IoError(message: string)
    | /** any other exception: it is not caught and escapes the scheduled task */
      Uncaught(message: string)

  /** The `IOException` inside an `UncheckedIOException`. */
  datatype IoCause = Ssl(message: string) | PlainIo(message: string)

  /** What the field `latestException` can hold. */
  datatype LatestError = Elasticsearch(message: string) | UncheckedIo(io: IoCause)

  /** The status of the periodic `ScheduledFuture`. */
  datatype FutureStatus =
    | Running
    | /** cancelled by `cancelImmediately` */
      Cancelled
    | /** a run threw, so the executor stopped the task and stored the exception */
      Aborted(message: string)

  /** The mutable fields of one poller. */
  datatype PollState = PollState(successful: bool, latest: Option<LatestError>, future: FutureStatus)

  /** What `future.get(maxWaitSecs, SECONDS)` does. */
  datatype WaitOutcome =
    | /** returns normally */
      Completed
    | /** throws `CancellationException` */
      CancellationThrown
    | /** throws `ExecutionException` wrapping what the task threw */
      ExecutionThrown(message: string)
    | /** throws `TimeoutException` */
      TimeoutThrown
    | /** throws `InterruptedException`: the waiting thread was interrupted */
      InterruptedThrown

  /** The exception a `FailedPollingException` wraps. */
  datatype PollingCause =
    | /** `latestException`, possibly null */
      LatestCause(latest: Option<LatestError>)
    | CancellationCause
    | InterruptedCause
    | ExecutionCause(message: string)
    | TimeoutCause

  /** How `blockUntilReady` ends. */
  datatype ReadyOutcome =
    | /** returns normally */
      Ready
    | /** throws `FailedPollingException` */
      FailedPolling(cause: PollingCause)
    | /** `scheduleAtFixedRate` rejects a non-positive period with `IllegalArgumentException` */
      InvalidPeriod

  /** A fresh poller: not successful, no error seen, future running. */
  const Initial := PollState(false, None, Running)

  /** An outcome after which polling continues. */
  predicate Transient(o: ProbeOutcome) {
    o.HealthTimedOut? || o.IoError?
  }

  /** An outcome that ends polling as a fatal connection failure. */
  predicate Fatal(o: ProbeOutcome) {
    o.ElasticsearchError? || o.SslError?
  }

  /** One run of `pollElasticSearch` on a running future, including the
      effect of `cancelImmediately`. */
  function Poll(s: PollState, o: ProbeOutcome): (s': PollState)
    requires s.future == Running
    ensures s'.future == Running <==> Transient(o)
    ensures s'.future == Cancelled <==> o.Healthy? || Fatal(o)
    ensures s'.successful <==> o.Healthy? || (s.successful && !Fatal(o))
  {
    match o
    case Healthy => s.(successful := true, future := Cancelled)
    case HealthTimedOut => s
    case ElasticsearchError(m) => PollState(false, Some(Elasticsearch(m)), Cancelled)
    case SslError(m) => PollState(false, Some(UncheckedIo(Ssl(m))), Cancelled)
    case IoError(m) => s.(latest := Some(UncheckedIo(PlainIo(m))))
    case Uncaught(m) => s.(future := Aborted(m))
  }

  /** The probes the scheduler runs, in order: a probe runs only while the
      future is still running. */
  function Drive(s: PollState, os: seq<ProbeOutcome>): PollState
    decreases |os|
  {
    if |os| == 0 || s.future != Running then s else Drive(Poll(s, os[0]), os[1..])
  }

  /** The scheduler clamps a negative initial delay to zero. */
  function Start(c: PollerConfig): int {
    if c.initialDelaySecs < 0 then 0 else c.initialDelaySecs
  }

  /** When the k-th probe is due, in seconds after the poll starts. */
  function SlotTime(c: PollerConfig, k: nat): int {
    Start(c) + k * c.periodSecs
  }

  /** How many probes are due strictly before the deadline (the timeout wins
      a tie with a probe due exactly at `maxWaitSecs`). */
  function Slots(c: PollerConfig): nat
    requires c.periodSecs > 0
  {
    if c.maxWaitSecs <= Start(c) then 0 else (c.maxWaitSecs - Start(c) - 1) / c.periodSecs + 1
  }

  /** The outcomes of the first `n` probes. */
  function Trace(probes: nat -> ProbeOutcome, n: nat): (os: seq<ProbeOutcome>)
    ensures |os| == n
    ensures forall k :: 0 <= k < n ==> os[k] == probes(k)
  {
    seq(n, (k: int) requires 0 <= k => probes(k))
  }

  /** What `future.get` reports once no further probe can change the state,
      for a waiting thread that is not interrupted. A fixed-rate future
      never completes normally: it runs until cancelled or until a run
      throws, so there is no `Completed` case. */
  function WaitFor(s: PollState): WaitOutcome {
    match s.future
    case Running => TimeoutThrown
    case Cancelled => CancellationThrown
    case Aborted(m) => ExecutionThrown(m)
  }

  /** The body of `blockUntilReady` after `future.get` has returned or thrown. */
  function Conclude(s: PollState, w: WaitOutcome): (r: ReadyOutcome)
    ensures r.Ready? <==> s.successful && !w.TimeoutThrown?
    ensures w == Completed && !s.successful ==> r == FailedPolling(LatestCause(s.latest))
    ensures w.TimeoutThrown? ==> r == FailedPolling(TimeoutCause)
    ensures w.CancellationThrown? && !s.successful ==> r == FailedPolling(CancellationCause)
    ensures w.InterruptedThrown? && !s.successful ==> r == FailedPolling(InterruptedCause)
  {
    match w
    case Completed => if s.successful then Ready else FailedPolling(LatestCause(s.latest))
    case CancellationThrown => if s.successful then Ready else FailedPolling(CancellationCause)
    case InterruptedThrown => if s.successful then Ready else FailedPolling(InterruptedCause)
    case ExecutionThrown(m) => if s.successful then Ready else FailedPolling(ExecutionCause(m))
    case TimeoutThrown => FailedPolling(TimeoutCause)
  }

  /** `blockUntilReady`: schedule the probes, wait for the future, and turn
      the final state into a normal return or an exception. The first
      decisive probe due before the deadline decides the outcome, and with
      none the wait times out. */
  function BlockUntilReady(c: PollerConfig, probes: nat -> ProbeOutcome): (r: ReadyOutcome)
    ensures r == InvalidPeriod <==> c.periodSecs <= 0
    ensures c.periodSecs > 0 ==>
      var os := Trace(probes, Slots(c));
      match FirstDecisive(os)
      case None => r == FailedPolling(TimeoutCause)
      case Some(k) => r == DecidedBy(os[k])
  {
    if c.periodSecs <= 0 then InvalidPeriod
    else
      var os := Trace(probes, Slots(c));
      var final := Drive(Initial, os);
      ConcludeAfterDrive(os);
      Conclude(final, WaitFor(final))
  }

  /** The poller once `blockUntilReady` has returned or thrown, as written:
      the timeout branch throws without cancelling the future, so the future
      is still running, and probing goes on, exactly when the wait timed out. */
  function PollerAfterAsWritten(c: PollerConfig, probes: nat -> ProbeOutcome): (s: PollState)
    requires c.periodSecs > 0
    ensures s.future == Running <==> BlockUntilReady(c, probes) == FailedPolling(TimeoutCause)
  {
    var os := Trace(probes, Slots(c));
    ConcludeAfterDrive(os);
    Drive(Initial, os)
  }

  /** The poller once `blockUntilReady` has returned or thrown, with the
      timeout branch cancelling the future before it throws: no probe is
      left scheduled, and the success flag and the latest error are those
      the wait saw. */
  function PollerAfter(c: PollerConfig, probes: nat -> ProbeOutcome): (s: PollState)
    requires c.periodSecs > 0
    ensures s.future != Running
    ensures s.successful == PollerAfterAsWritten(c, probes).successful
    ensures s.latest == PollerAfterAsWritten(c, probes).latest
    ensures PollerAfterAsWritten(c, probes).future != Running ==> s == PollerAfterAsWritten(c, probes)
  {
    var s := PollerAfterAsWritten(c, probes);
    if s.future == Running then s.(future := Cancelled) else s
  }

  /** The index of the first outcome that ends polling, if any: an
      independent description of where the poller stops. */
  function FirstDecisive(os: seq<ProbeOutcome>): (r: Option<nat>)
    ensures r.Some? ==> r.value < |os| && !Transient(os[r.value])
    ensures r.Some? ==> forall j :: 0 <= j < r.value ==> Transient(os[j])
    ensures r.None? <==> forall j :: 0 <= j < |os| ==> Transient(os[j])
    decreases |os|
  {
    if |os| == 0 then None
    else if !Transient(os[0]) then Some(0)
    else
      match FirstDecisive(os[1..])
      case None => None
      case Some(k) => Some(k + 1)
  }

  /** How polling ends when the first decisive probe observes `o`. */
  function DecidedBy(o: ProbeOutcome): ReadyOutcome {
    match o
    case Healthy => Ready
    case Uncaught(m) => FailedPolling(ExecutionCause(m))
    case _ => FailedPolling(CancellationCause)
  }

  // ---------------------------------------------------------------------
  // Single probes
  // ---------------------------------------------------------------------

  /** A healthy probe marks the poll successful and cancels the future. */
  lemma HealthyProbeSucceeds(s: PollState)
    requires s.future == Running
    ensures Poll(s, Healthy).successful && Poll(s, Healthy).future == Cancelled
    ensures Conclude(Poll(s, Healthy), WaitFor(Poll(s, Healthy))) == Ready
  {
  }

  /** A health response that reports a timeout changes nothing. */
  lemma TimedOutHealthChangesNothing(s: PollState)
    requires s.future == Running
    ensures Poll(s, HealthTimedOut) == s
  {
  }

  /** An `ElasticsearchException` is recorded, clears success and cancels at
      once, and the wait then fails. */
  lemma ElasticsearchErrorIsFatal(s: PollState, m: string)
    requires s.future == Running
    ensures var s' := Poll(s, ElasticsearchError(m));
      && s'.latest == Some(Elasticsearch(m)) && !s'.successful && s'.future == Cancelled
      && Conclude(s', WaitFor(s')) == FailedPolling(CancellationCause)
  {
  }

  /** An `SSLException` is fatal and is recorded wrapped as an
      `UncheckedIOException`, although it is also an `IOException`. */
  lemma SslErrorIsFatal(s: PollState, m: string)
    requires s.future == Running
    ensures var s' := Poll(s, SslError(m));
      && s'.latest == Some(UncheckedIo(Ssl(m))) && !s'.successful && s'.future == Cancelled
      && Conclude(s', WaitFor(s')) == FailedPolling(CancellationCause)
  {
  }

  /** Any other `IOException` overwrites `latestException` and keeps polling. */
  lemma IoErrorIsTransient(s: PollState, m: string)
    requires s.future == Running
    ensures Poll(s, IoError(m)) == s.(latest := Some(UncheckedIo(PlainIo(m))))
  {
  }

  // ---------------------------------------------------------------------
  // Sequences of probes
  // ---------------------------------------------------------------------

  /** Once the future is no longer running, no probe changes the state. */
  lemma {:induction false} TerminalIsStable(s: PollState, os: seq<ProbeOutcome>)
    requires s.future != Running
    ensures Drive(s, os) == s
  {
  }

  /** Transient probes keep polling, keep the success flag, and leave the
      newest I/O error in `latestException`. */
  lemma {:induction false} TransientsKeepPolling(s: PollState, os: seq<ProbeOutcome>)
    requires s.future == Running
    requires forall j :: 0 <= j < |os| ==> Transient(os[j])
    ensures Drive(s, os).future == Running
    ensures Drive(s, os).successful == s.successful
    ensures (forall j :: 0 <= j < |os| ==> !os[j].IoError?) ==> Drive(s, os).latest == s.latest
    ensures forall i :: 0 <= i < |os| && os[i].IoError? && (forall j :: i < j < |os| ==> !os[j].IoError?) ==>
              Drive(s, os).latest == Some(UncheckedIo(PlainIo(os[i].message)))
    decreases |os|
  {
    if |os| > 0 {
      var s1 := Poll(s, os[0]);
      assert forall j :: 0 <= j < |os[1..]| ==> Transient(os[1..][j]) by {
        forall j | 0 <= j < |os[1..]| ensures Transient(os[1..][j]) {
          assert os[1..][j] == os[j + 1];
        }
      }
      TransientsKeepPolling(s1, os[1..]);
      forall i | 0 <= i < |os| && os[i].IoError? && (forall j :: i < j < |os| ==> !os[j].IoError?)
        ensures Drive(s, os).latest == Some(UncheckedIo(PlainIo(os[i].message)))
      {
        if i > 0 {
          assert os[1..][i - 1] == os[i];
          assert forall j :: i - 1 < j < |os[1..]| ==> !os[1..][j].IoError? by {
            forall j | i - 1 < j < |os[1..]| ensures !os[1..][j].IoError? {
              assert os[1..][j] == os[j + 1];
            }
          }
        } else {
          assert forall j :: 0 <= j < |os[1..]| ==> !os[1..][j].IoError? by {
            forall j | 0 <= j < |os[1..]| ensures !os[1..][j].IoError? {
              assert os[1..][j] == os[j + 1];
            }
          }
        }
      }
      if forall j :: 0 <= j < |os| ==> !os[j].IoError? {
        assert forall j :: 0 <= j < |os[1..]| ==> !os[1..][j].IoError? by {
          forall j | 0 <= j < |os[1..]| ensures !os[1..][j].IoError? {
            assert os[1..][j] == os[j + 1];
          }
        }
      }
    }
  }

  /** Driving a sequence stops at its first decisive probe: the state is
      that probe applied after the transient prefix, whatever follows. */
  lemma {:induction false} DriveStopsAtDecisive(s: PollState, os: seq<ProbeOutcome>, k: nat)
    requires s.future == Running
    requires k < |os| && !Transient(os[k])
    requires forall j :: 0 <= j < k ==> Transient(os[j])
    ensures Drive(s, os[..k]).future == Running
    ensures Drive(s, os) == Poll(Drive(s, os[..k]), os[k])
    ensures Drive(s, os).future != Running
    decreases k
  {
    if k == 0 {
      assert os[..0] == [];
      TerminalIsStable(Poll(s, os[0]), os[1..]);
    } else {
      var s1 := Poll(s, os[0]);
      assert os[1..][..k - 1] == os[1..k];
      assert os[..k][1..] == os[1..k];
      assert forall j :: 0 <= j < k - 1 ==> Transient(os[1..][j]) by {
        forall j | 0 <= j < k - 1 ensures Transient(os[1..][j]) {
          assert os[1..][j] == os[j + 1];
        }
      }
      DriveStopsAtDecisive(s1, os[1..], k - 1);
    }
  }

  // ---------------------------------------------------------------------
  // Schedule and deadline
  // ---------------------------------------------------------------------

  /** Multiplying by a non-negative factor preserves order. */
  lemma MulMonotonic(a: int, b: int, p: int)
    requires a <= b && 0 <= p
    ensures a * p <= b * p
  {
    var d := b - a;
    assert b * p == a * p + d * p;
  }

  /** `k` is at most `d / p` exactly when `k` periods of length `p` fit in `d`. */
  lemma FitsInQuotient(d: nat, p: int, k: nat)
    requires p > 0
    ensures k <= d / p <==> k * p <= d
  {
    var q := d / p;
    assert d == q * p + d % p;
    if k <= q {
      MulMonotonic(k, q, p);
    } else {
      MulMonotonic(q + 1, k, p);
    }
  }

  /** Probe k is among the scheduled ones exactly when it is due before the deadline. */
  lemma SlotsAreDueBeforeDeadline(c: PollerConfig, k: nat)
    requires c.periodSecs > 0
    ensures k < Slots(c) <==> SlotTime(c, k) < c.maxWaitSecs
  {
    MulMonotonic(0, k, c.periodSecs);
    if c.maxWaitSecs > Start(c) {
      FitsInQuotient(c.maxWaitSecs - Start(c) - 1, c.periodSecs, k);
    }
  }

  /** Where the scheduled probes leave a fresh poller decides the wait: the
      first decisive probe stops polling and decides the outcome, and with
      none the future is still running and the wait times out. */
  lemma ConcludeAfterDrive(os: seq<ProbeOutcome>)
    ensures var final := Drive(Initial, os);
      match FirstDecisive(os)
      case None => final.future == Running && Conclude(final, WaitFor(final)) == FailedPolling(TimeoutCause)
      case Some(k) => final.future != Running && Conclude(final, WaitFor(final)) == DecidedBy(os[k])
  {
    match FirstDecisive(os)
    case None =>
      TransientsKeepPolling(Initial, os);
    case Some(k) =>
      DriveStopsAtDecisive(Initial, os, k);
      TransientsKeepPolling(Initial, os[..k]);
  }

  /** `blockUntilReady` returns normally exactly when some probe due before
      the deadline is healthy and every earlier probe was transient. */
  lemma ReadyIff(c: PollerConfig, probes: nat -> ProbeOutcome)
    ensures BlockUntilReady(c, probes) == Ready <==>
      c.periodSecs > 0 &&
      exists k: nat :: SlotTime(c, k) < c.maxWaitSecs && probes(k) == Healthy &&
        forall j: nat :: j < k ==> Transient(probes(j))
  {
    if c.periodSecs > 0 {
      var os := Trace(probes, Slots(c));
      if BlockUntilReady(c, probes) == Ready {
        var k := FirstDecisive(os).value;
        SlotsAreDueBeforeDeadline(c, k);
        assert probes(k) == Healthy;
      }
      if exists k: nat :: (SlotTime(c, k) < c.maxWaitSecs && probes(k) == Healthy &&
                           forall j: nat :: j < k ==> Transient(probes(j)))
      {
        var k: nat :| SlotTime(c, k) < c.maxWaitSecs && probes(k) == Healthy &&
          forall j: nat :: j < k ==> Transient(probes(j));
        SlotsAreDueBeforeDeadline(c, k);
        assert !Transient(os[k]);
        var f := FirstDecisive(os);
        assert f.Some? && f.value == k;
      }
    }
  }

  /** With no decisive probe before the deadline the wait times out, and the
      raised failure wraps the timeout rather than the latest I/O error. The
      future is not cancelled: it is still running after the caller has
      received the exception. */
  lemma AllTransientTimesOut(c: PollerConfig, probes: nat -> ProbeOutcome)
    requires c.periodSecs > 0
    requires forall k: nat :: SlotTime(c, k) < c.maxWaitSecs ==> Transient(probes(k))
    ensures BlockUntilReady(c, probes) == FailedPolling(TimeoutCause)
    ensures PollerAfterAsWritten(c, probes).future == Running
  {
    var os := Trace(probes, Slots(c));
    forall j | 0 <= j < |os| ensures Transient(os[j]) {
      SlotsAreDueBeforeDeadline(c, j);
    }
    assert FirstDecisive(os).None?;
  }

  /** The timed-out poller as written keeps probing: a probe that runs after
      `blockUntilReady` has thrown still updates `latestException`. */
  lemma TimedOutPollerKeepsProbing(c: PollerConfig, probes: nat -> ProbeOutcome, m: string)
    requires c.periodSecs > 0
    requires forall k: nat :: SlotTime(c, k) < c.maxWaitSecs ==> Transient(probes(k))
    ensures BlockUntilReady(c, probes) == FailedPolling(TimeoutCause)
    ensures Drive(PollerAfterAsWritten(c, probes), [IoError(m)]).latest == Some(UncheckedIo(PlainIo(m)))
  {
    AllTransientTimesOut(c, probes);
  }

  /** With the timeout branch cancelling the future, no probe runs once
      `blockUntilReady` has returned or thrown. */
  lemma NoProbeAfterWait(c: PollerConfig, probes: nat -> ProbeOutcome, later: seq<ProbeOutcome>)
    requires c.periodSecs > 0
    ensures Drive(PollerAfter(c, probes), later) == PollerAfter(c, probes)
  {
    TerminalIsStable(PollerAfter(c, probes), later);
  }

  /** A fixed-rate future never completes normally, so the "returned while
      not successful" branch is never taken. Were it taken with no error
      recorded, `FailedPollingException(null)` would itself throw a
      `NullPointerException` when it reads the cause's message. */
  lemma RunNeverCompletesNormally(s: PollState)
    ensures WaitFor(s) != Completed
  {
  }

  /** The scheduler as a clock loop: one probe per period while the next due
      time is before the deadline and the future is still running. It runs
      exactly the probes up to and including the first decisive one, and
      cancels a still-running future when the wait times out. */
  method RunScheduler(c: PollerConfig, probes: nat -> ProbeOutcome)
    returns (r: ReadyOutcome, probesRun: nat, after: PollState)
    ensures r == BlockUntilReady(c, probes)
    ensures c.periodSecs > 0 ==> after == PollerAfter(c, probes)
    ensures c.periodSecs > 0 ==> probesRun <= Slots(c)
    ensures c.periodSecs > 0 ==>
      match FirstDecisive(Trace(probes, Slots(c)))
      case None => probesRun == Slots(c)
      case Some(k) => probesRun == k + 1
  {
    if c.periodSecs <= 0 {
      return InvalidPeriod, 0, Initial;
    }
    ghost var os := Trace(probes, Slots(c));
    var s := Initial;
    var t := Start(c);
    var k: nat := 0;
    while t < c.maxWaitSecs && s.future == Running
      invariant t == SlotTime(c, k)
      invariant k <= Slots(c)
      invariant Drive(s, os[k..]) == Drive(Initial, os)
      invariant s.future == Running ==> forall j :: 0 <= j < k ==> Transient(os[j])
      invariant s.future != Running ==>
                  0 < k && !Transient(os[k - 1]) && forall j :: 0 <= j < k - 1 ==> Transient(os[j])
      decreases c.maxWaitSecs - t
    {
      SlotsAreDueBeforeDeadline(c, k);
      assert os[k..][0] == os[k] && os[k..][1..] == os[k + 1..];
      s := Poll(s, probes(k));
      k := k + 1;
      t := t + c.periodSecs;
    }
    if s.future == Running {
      SlotsAreDueBeforeDeadline(c, k);
      assert os[k..] == [];
    } else {
      TerminalIsStable(s, os[k..]);
    }
    probesRun := k;
    r := Conclude(s, WaitFor(s));
    after := if s.future == Running then s.(future := Cancelled) else s;
  }
}
