/**
 The lifecycle of the load-probe sampler (pkg/loadprobe/sampler.go) as a transition
 system: any number of Start and Close calls, the sampling goroutine, and cancellation
 of the caller's context interleave freely. A transition is one critical section, one
 channel operation or one call into the probe. The log keeps what an observer sees.
 */
module Sampler {

  datatype SampleResult = Good | TimedOut | Failure

  /** Where the sampling goroutine is. */
  datatype LoopPc =
    | NotStarted
    | Ready                           // top of the loop
    | Sampling                        // inside probe.Sample
    | Sampled(result: SampleResult)   // Sample returned, context not looked at yet
    | Waiting                         // select on the context and the ticker
    | Failing                         // about to enter failOnce
    | ReasonStored                    // inside failOnce, `failed` still open
    | Exiting                         // deferred close of `done` pending
    | Exited

  /** Where a Close call that found the sampler open is. */
  datatype ClosePc = Cancelling | AwaitingDone | ClosingProbe | Returned

  datatype Event =
    | SampleBegan
    | SampleEnded
    | ReasonWasStored
    | FailedWasClosed
    | DoneWasClosed
    | ProbeWasClosed
    | CloseReturned            // the call that closed the sampler
    | RedundantCloseReturned   // a call that found it closed already

  datatype State = State(
    hasProbe: bool,
    started: bool,
    closed: bool,
    ctxDone: bool,        // the loop's context: caller's cancellation or Close
    failOnce: bool,
    loop: LoopPc,
    closers: seq<ClosePc>,
    log: seq<Event>)

  /** NewSampler with a probe. */
  const OPEN := State(true, false, false, false, false, NotStarted, [], [])

  /** The sampler the Failed constructor returns. */
  const BORN_FAILED := State(false, false, false, false, true, NotStarted, [],
                             [DoneWasClosed, ReasonWasStored, FailedWasClosed])

  datatype Step =
    | Start
    | CancelCaller
    | CallClose
    | CloseCancels(i: nat)
    | CloseSeesDone(i: nat)
    | CloseClosesProbe(i: nat)
    | BeginSample
    | EndSample(result: SampleResult)
    | LookAtContext
    | Tick
    | SeeCancelled
    | StoreReason
    | CloseFailed
    | CloseDone

  predicate At(s: State, i: nat, pc: ClosePc) {
    i < |s.closers| && s.closers[i] == pc
  }

  predicate Enabled(s: State, step: Step) {
    match step
    case Start | CancelCaller | CallClose => true
    case CloseCancels(i) => At(s, i, Cancelling)
    case CloseSeesDone(i) => At(s, i, AwaitingDone) && DoneWasClosed in s.log
    case CloseClosesProbe(i) => At(s, i, ClosingProbe)
    case BeginSample => s.loop == Ready
    case EndSample(_) => s.loop == Sampling
    case LookAtContext => s.loop.Sampled?
    case Tick => s.loop == Waiting
    case SeeCancelled => s.loop == Waiting && s.ctxDone
    case StoreReason => s.loop == Failing
    case CloseFailed => s.loop == ReasonStored
    case CloseDone => s.loop == Exiting
  }

  function Do(s: State, step: Step): State
    requires Enabled(s, step)
  {
    match step
    case Start =>
      if s.started || s.closed || !s.hasProbe then s else s.(started := true, loop := Ready)
    case CancelCaller => s.(ctxDone := true)
    case CallClose =>
      if s.closed then s.(log := s.log + [RedundantCloseReturned])
      else s.(closed := true, closers := s.closers + [if s.started then Cancelling else ClosingProbe])
    case CloseCancels(i) => s.(ctxDone := true, closers := s.closers[i := AwaitingDone])
    case CloseSeesDone(i) => s.(closers := s.closers[i := ClosingProbe])
    case CloseClosesProbe(i) =>
      s.(closers := s.closers[i := Returned],
         log := s.log + (if s.hasProbe then [ProbeWasClosed] else []) + [CloseReturned])
    case BeginSample => s.(loop := Sampling, log := s.log + [SampleBegan])
    case EndSample(result) => s.(loop := Sampled(result), log := s.log + [SampleEnded])
    case LookAtContext =>
      s.(loop := if s.loop.result == Good then Waiting
                 else if s.ctxDone then Exiting
                 else if s.loop.result == TimedOut then Waiting
                 else Failing)
    case Tick => s.(loop := Ready)
    case SeeCancelled => s.(loop := Exiting)
    case StoreReason =>
      if s.failOnce then s.(loop := Exiting)
      else s.(failOnce := true, loop := ReasonStored, log := s.log + [ReasonWasStored])
    case CloseFailed => s.(loop := Exiting, log := s.log + [FailedWasClosed])
    case CloseDone => s.(loop := Exited, log := s.log + [DoneWasClosed])
  }

  // --- What a log must satisfy ---

  function Count(log: seq<Event>, e: Event): nat {
    multiset(log)[e]
  }

  predicate IsSample(e: Event) {
    e == SampleBegan || e == SampleEnded
  }

  /** After each `first` event there is no sampling event. */
  ghost predicate NoSampleAfter(log: seq<Event>, first: Event) {
    forall i, j :: 0 <= i < j < |log| && log[i] == first ==> !IsSample(log[j])
  }

  ghost predicate ReasonPrecedesFailed(log: seq<Event>) {
    forall i :: 0 <= i < |log| && log[i] == FailedWasClosed ==> ReasonWasStored in log[..i]
  }

  /**
   The lifecycle guarantees: each channel and the probe is closed at most once, the reason
   is stored before `failed` closes, and neither a closed probe, a closed `done`, nor the
   return of the Close call that closed the sampler is followed by any sampling.
   */
  ghost predicate Orderly(log: seq<Event>) {
    && Count(log, DoneWasClosed) <= 1
    && Count(log, FailedWasClosed) <= 1
    && Count(log, ProbeWasClosed) <= 1
    && Count(log, CloseReturned) <= 1
    && ReasonPrecedesFailed(log)
    && NoSampleAfter(log, ProbeWasClosed)
    && NoSampleAfter(log, DoneWasClosed)
    && NoSampleAfter(log, CloseReturned)
  }

  // --- The invariant ---

  predicate InLoop(pc: LoopPc) {
    pc == Ready || pc == Sampling || pc.Sampled? || pc == Waiting || pc == Failing
  }

  function One(b: bool): nat {
    if b then 1 else 0
  }

  /** How often each of the five closing events occurs. */
  ghost predicate Counts(log: seq<Event>, done: nat, reason: nat, failed: nat, probe: nat, close: nat) {
    && Count(log, DoneWasClosed) == done
    && Count(log, ReasonWasStored) == reason
    && Count(log, FailedWasClosed) == failed
    && Count(log, ProbeWasClosed) == probe
    && Count(log, CloseReturned) == close
  }

  /** How the log so far follows from where everyone is. */
  ghost predicate LogMatches(s: State) {
    Counts(s.log, One(s.loop == Exited || !s.hasProbe), One(s.failOnce),
           One(s.failOnce && s.loop != ReasonStored),
           One(s.hasProbe && s.closers == [Returned]), One(s.closers == [Returned]))
  }

  ghost predicate Consistent(s: State) {
    && (s.started <==> s.loop != NotStarted)
    && (s.started ==> s.hasProbe)
    && (!s.hasProbe ==> s.failOnce)
    && (s.loop == NotStarted && s.hasProbe ==> !s.failOnce)
    && (InLoop(s.loop) ==> !s.failOnce)
    && (s.loop == ReasonStored ==> s.failOnce)
    && (if s.closed then |s.closers| == 1 else s.closers == [])
    && (s.closed && (s.closers[0] == Cancelling || s.closers[0] == AwaitingDone) ==> s.started)
    && (s.closed && s.closers[0] == AwaitingDone ==> s.ctxDone)
    && (s.closed && (s.closers[0] == ClosingProbe || s.closers[0] == Returned) ==>
          s.loop == NotStarted || s.loop == Exited)
  }

  ghost predicate Invariant(s: State) {
    Consistent(s) && LogMatches(s) && Orderly(s.log)
  }

  /** What each kind of event needs of the log so that an orderly log stays orderly. */
  ghost predicate MayFollow(log: seq<Event>, e: Event) {
    match e
    case SampleBegan | SampleEnded =>
      Count(log, ProbeWasClosed) == Count(log, DoneWasClosed) == Count(log, CloseReturned) == 0
    case FailedWasClosed => Count(log, e) == 0 && Count(log, ReasonWasStored) > 0
    case DoneWasClosed | ProbeWasClosed | CloseReturned => Count(log, e) == 0
    case ReasonWasStored | RedundantCloseReturned => true
  }

  lemma NoSampleAfterSnoc(log: seq<Event>, e: Event, first: Event)
    requires NoSampleAfter(log, first) && (IsSample(e) ==> Count(log, first) == 0)
    ensures NoSampleAfter(log + [e], first)
  {
  }

  lemma ReasonPrecedesSnoc(log: seq<Event>, e: Event)
    requires ReasonPrecedesFailed(log) && (e == FailedWasClosed ==> Count(log, ReasonWasStored) > 0)
    ensures ReasonPrecedesFailed(log + [e])
  {
    var all := log + [e];
    forall i | 0 <= i < |all| && all[i] == FailedWasClosed ensures ReasonWasStored in all[..i] {
      assert all[..i] == if i < |log| then log[..i] else log;
    }
  }

  lemma OrderlySnoc(log: seq<Event>, e: Event)
    requires Orderly(log) && MayFollow(log, e)
    ensures Orderly(log + [e])
  {
    ReasonPrecedesSnoc(log, e);
    NoSampleAfterSnoc(log, e, ProbeWasClosed);
    NoSampleAfterSnoc(log, e, DoneWasClosed);
    NoSampleAfterSnoc(log, e, CloseReturned);
  }

  lemma Append(log: seq<Event>, e: Event, done: nat, reason: nat, failed: nat, probe: nat, close: nat)
    requires Orderly(log) && MayFollow(log, e) && Counts(log, done, reason, failed, probe, close)
    ensures Orderly(log + [e])
    ensures Counts(log + [e], done + One(e == DoneWasClosed), reason + One(e == ReasonWasStored),
                   failed + One(e == FailedWasClosed), probe + One(e == ProbeWasClosed),
                   close + One(e == CloseReturned))
  {
    OrderlySnoc(log, e);
  }

  lemma StepKeepsConsistent(s: State, step: Step)
    requires Consistent(s) && LogMatches(s) && Enabled(s, step)
    ensures Consistent(Do(s, step))
  {
  }

  lemma CallCloseKeepsLog(s: State)
    requires Invariant(s)
    ensures LogMatches(Do(s, CallClose)) && Orderly(Do(s, CallClose).log)
  {
    if s.closed {
      Append(s.log, RedundantCloseReturned, One(s.loop == Exited || !s.hasProbe), One(s.failOnce),
             One(s.failOnce && s.loop != ReasonStored),
             One(s.hasProbe && s.closers == [Returned]), One(s.closers == [Returned]));
    } else {
      assert Do(s, CallClose).closers[0] != Returned;
    }
  }

  lemma CloseProgressKeepsLog(s: State, step: Step)
    requires Invariant(s) && Enabled(s, step) && (step.CloseCancels? || step.CloseSeesDone?)
    ensures LogMatches(Do(s, step)) && Orderly(Do(s, step).log)
  {
    assert s.closers[0] != Returned && Do(s, step).closers[0] != Returned;
  }

  lemma AppendBothCloses(log: seq<Event>, done: nat, reason: nat, failed: nat)
    requires Orderly(log) && Counts(log, done, reason, failed, 0, 0)
    ensures Orderly(log + [ProbeWasClosed] + [CloseReturned])
    ensures Counts(log + [ProbeWasClosed] + [CloseReturned], done, reason, failed, 1, 1)
  {
    Append(log, ProbeWasClosed, done, reason, failed, 0, 0);
    Append(log + [ProbeWasClosed], CloseReturned, done, reason, failed, 1, 0);
  }

  lemma CloseClosesProbeKeepsLog(s: State, i: nat)
    requires Invariant(s) && Enabled(s, CloseClosesProbe(i)) && s.hasProbe
    ensures LogMatches(Do(s, CloseClosesProbe(i))) && Orderly(Do(s, CloseClosesProbe(i)).log)
  {
    assert s.closers[0] != Returned;
    AppendBothCloses(s.log, One(s.loop == Exited || !s.hasProbe), One(s.failOnce),
                     One(s.failOnce && s.loop != ReasonStored));
    assert Do(s, CloseClosesProbe(i)).closers == [Returned];
  }

  lemma CloseWithoutProbeKeepsLog(s: State, i: nat)
    requires Invariant(s) && Enabled(s, CloseClosesProbe(i)) && !s.hasProbe
    ensures LogMatches(Do(s, CloseClosesProbe(i))) && Orderly(Do(s, CloseClosesProbe(i)).log)
  {
    assert s.closers[0] != Returned;
    assert s.log + [] == s.log;
    Append(s.log, CloseReturned, One(s.loop == Exited || !s.hasProbe), One(s.failOnce),
           One(s.failOnce && s.loop != ReasonStored), 0, 0);
    assert Do(s, CloseClosesProbe(i)).closers == [Returned];
  }

  /** What the sampling goroutine's next step adds to the log. */
  function LoopEvent(step: Step): Event {
    match step
    case BeginSample => SampleBegan
    case EndSample(_) => SampleEnded
    case StoreReason => ReasonWasStored
    case CloseFailed => FailedWasClosed
    case _ => DoneWasClosed
  }

  lemma LoopKeepsLog(s: State, step: Step)
    requires Invariant(s) && Enabled(s, step)
    requires step.BeginSample? || step.EndSample? || step.StoreReason? || step.CloseFailed? || step.CloseDone?
    ensures LogMatches(Do(s, step)) && Orderly(Do(s, step).log)
  {
    Append(s.log, LoopEvent(step), One(s.loop == Exited || !s.hasProbe), One(s.failOnce),
           One(s.failOnce && s.loop != ReasonStored),
           One(s.hasProbe && s.closers == [Returned]), One(s.closers == [Returned]));
  }

  lemma StepKeepsLog(s: State, step: Step)
    requires Invariant(s) && Enabled(s, step)
    ensures LogMatches(Do(s, step)) && Orderly(Do(s, step).log)
  {
    match step
    case Start | CancelCaller | LookAtContext | Tick | SeeCancelled =>
    case CallClose => CallCloseKeepsLog(s);
    case CloseCancels(_) | CloseSeesDone(_) => CloseProgressKeepsLog(s, step);
    case CloseClosesProbe(i) =>
      if s.hasProbe { CloseClosesProbeKeepsLog(s, i); } else { CloseWithoutProbeKeepsLog(s, i); }
    case BeginSample | EndSample(_) | StoreReason | CloseFailed | CloseDone => LoopKeepsLog(s, step);
  }

  lemma StepKeepsInvariant(s: State, step: Step)
    requires Invariant(s) && Enabled(s, step)
    ensures Invariant(Do(s, step))
  {
    StepKeepsConsistent(s, step);
    StepKeepsLog(s, step);
  }

  lemma OpenInvariant()
    ensures Invariant(OPEN)
  {
  }

  /** The log of the Failed constructor, one event at a time. */
  lemma BornFailedLog(log: seq<Event>)
    requires log == [DoneWasClosed, ReasonWasStored, FailedWasClosed]
    ensures Orderly(log) && Counts(log, 1, 1, 1, 0, 0)
  {
    var none: seq<Event> := [];
    Append(none, DoneWasClosed, 0, 0, 0, 0, 0);
    Append(none + [DoneWasClosed], ReasonWasStored, 1, 0, 0, 0, 0);
    Append(none + [DoneWasClosed] + [ReasonWasStored], FailedWasClosed, 1, 1, 0, 0, 0);
    assert log == none + [DoneWasClosed] + [ReasonWasStored] + [FailedWasClosed];
  }

  lemma BornFailedInvariant()
    ensures Invariant(BORN_FAILED)
  {
    BornFailedLog(BORN_FAILED.log);
    assert Consistent(BORN_FAILED);
  }

  /** `steps` is possible from `s`, each step where it is enabled, and ends in `end`. */
  ghost predicate Runs(s: State, steps: seq<Step>, end: State)
    decreases |steps|
  {
    if steps == [] then s == end
    else Enabled(s, steps[0]) && Runs(Do(s, steps[0]), steps[1..], end)
  }

  lemma {:induction false} RunsKeepInvariant(s: State, steps: seq<Step>, end: State)
    requires Invariant(s) && Runs(s, steps, end)
    ensures Invariant(end)
    decreases |steps|
  {
    if steps != [] {
      StepKeepsInvariant(s, steps[0]);
      RunsKeepInvariant(Do(s, steps[0]), steps[1..], end);
    }
  }

  /** Every interleaving, from either constructor, leaves an orderly log. */
  lemma EveryLifecycleIsOrderly(born: State, steps: seq<Step>, end: State)
    requires born == OPEN || born == BORN_FAILED
    requires Runs(born, steps, end)
    ensures Orderly(end.log)
  {
    OpenInvariant();
    BornFailedInvariant();
    RunsKeepInvariant(born, steps, end);
  }

  /** A sampler that was born failed never samples and never closes a probe. */
  lemma BornFailedNeverSamples(steps: seq<Step>, end: State)
    requires Runs(BORN_FAILED, steps, end)
    ensures end.loop == NotStarted && ProbeWasClosed !in end.log && SampleBegan !in end.log
  {
    NeverSamplesFrom(BORN_FAILED, steps, end);
  }

  lemma {:induction false} NeverSamplesFrom(s: State, steps: seq<Step>, end: State)
    requires !s.hasProbe && s.loop == NotStarted && ProbeWasClosed !in s.log && SampleBegan !in s.log
    requires Runs(s, steps, end)
    ensures end.loop == NotStarted && ProbeWasClosed !in end.log && SampleBegan !in end.log
    decreases |steps|
  {
    if steps != [] {
      NeverSamplesFrom(Do(s, steps[0]), steps[1..], end);
    }
  }

  // --- When the sampler fails ---

  /** The loop's context is done from here on. */
  predicate Cancels(step: Step) {
    step.CancelCaller? || step.CloseCancels?
  }

  /** The `m`-th step is the last sample of `steps` to end, and it ended in `result`. */
  ghost predicate LastSample(steps: seq<Step>, m: nat, result: SampleResult) {
    && m < |steps| && steps[m] == EndSample(result)
    && forall j :: m < j < |steps| ==> !steps[j].EndSample?
  }

  /** In its `n`-th step the loop looks at a failed sample, and nothing has cancelled its context. */
  ghost predicate FailsAt(steps: seq<Step>, m: nat, n: nat) {
    && n < |steps| && steps[n] == LookAtContext
    && LastSample(steps[..n], m, Failure)
    && forall j :: 0 <= j < n ==> !Cancels(steps[j])
  }

  ghost predicate Fails(steps: seq<Step>) {
    exists m, n: nat :: FailsAt(steps, m, n)
  }

  ghost predicate Cancelled(steps: seq<Step>) {
    exists j :: 0 <= j < |steps| && Cancels(steps[j])
  }

  /** How `s` follows from the steps that led to it from OPEN. */
  ghost predicate Tracks(steps: seq<Step>, s: State) {
    && s.hasProbe
    && (s.ctxDone <==> Cancelled(steps))
    && (s.loop.Sampled? ==> exists m: nat :: LastSample(steps, m, s.loop.result))
    && (Fails(steps) <==>
          || s.loop == Failing || s.loop == ReasonStored
          || ((s.loop == Exiting || s.loop == Exited) && s.failOnce))
  }

  lemma CancelledSnoc(steps: seq<Step>, step: Step)
    ensures Cancelled(steps + [step]) <==> Cancelled(steps) || Cancels(step)
  {
    var all := steps + [step];
    assert all[|steps|] == step;
    if Cancelled(steps) {
      var j :| 0 <= j < |steps| && Cancels(steps[j]);
      assert Cancels(all[j]);
    }
  }

  lemma LastSampleSnoc(steps: seq<Step>, step: Step, m: nat, result: SampleResult)
    requires LastSample(steps, m, result) && !step.EndSample?
    ensures LastSample(steps + [step], m, result)
  {
  }

  lemma FailsSnoc(steps: seq<Step>, step: Step)
    ensures Fails(steps + [step])
        <==> Fails(steps) || (step == LookAtContext && !Cancelled(steps) && exists m: nat :: LastSample(steps, m, Failure))
  {
    var all := steps + [step];
    forall m, n: nat | n < |steps| ensures FailsAt(all, m, n) <==> FailsAt(steps, m, n) {
      assert all[..n] == steps[..n];
    }
    assert all[..|steps|] == steps;
    forall m: nat
      ensures FailsAt(all, m, |steps|) <==> step == LookAtContext && LastSample(steps, m, Failure) && !Cancelled(steps)
    {
      assert forall j :: 0 <= j < |steps| ==> (Cancels(all[j]) <==> Cancels(steps[j]));
    }
  }

  lemma OneLastSample(steps: seq<Step>, m: nat, result: SampleResult, n: nat, other: SampleResult)
    requires LastSample(steps, m, result) && LastSample(steps, n, other)
    ensures m == n && result == other
  {
    assert steps[m].EndSample? && steps[n].EndSample?;
  }

  lemma StepKeepsSample(steps: seq<Step>, s: State, step: Step)
    requires Tracks(steps, s) && Enabled(s, step) && Do(s, step).loop.Sampled?
    ensures exists m: nat :: LastSample(steps + [step], m, Do(s, step).loop.result)
  {
    if step.EndSample? {
      assert LastSample(steps + [step], |steps|, step.result);
    } else {
      var m: nat :| LastSample(steps, m, s.loop.result);
      LastSampleSnoc(steps, step, m, s.loop.result);
    }
  }

  lemma FailureIsSeen(steps: seq<Step>, s: State)
    requires Tracks(steps, s) && s.loop.Sampled?
    ensures (exists m: nat :: LastSample(steps, m, Failure)) <==> s.loop.result == Failure
  {
    var m: nat :| LastSample(steps, m, s.loop.result);
    forall n: nat | LastSample(steps, n, Failure) ensures s.loop.result == Failure {
      OneLastSample(steps, m, s.loop.result, n, Failure);
    }
  }

  lemma StepKeepsTrack(steps: seq<Step>, s: State, step: Step)
    requires Tracks(steps, s) && Invariant(s) && Enabled(s, step)
    ensures Tracks(steps + [step], Do(s, step))
  {
    CancelledSnoc(steps, step);
    FailsSnoc(steps, step);
    if Do(s, step).loop.Sampled? {
      StepKeepsSample(steps, s, step);
    }
    if step == LookAtContext {
      FailureIsSeen(steps, s);
    }
  }

  ghost predicate Follows(before: seq<Step>, s: State) {
    Tracks(before, s) && Invariant(s)
  }

  lemma StepFollows(before: seq<Step>, s: State, step: Step)
    requires Follows(before, s) && Enabled(s, step)
    ensures Follows(before + [step], Do(s, step))
  {
    StepKeepsTrack(before, s, step);
    StepKeepsInvariant(s, step);
  }

  /** What every step keeps, with the steps so far, every run keeps. */
  lemma {:induction false} RunsKeep(P: (seq<Step>, State) -> bool, before: seq<Step>, s: State, steps: seq<Step>, end: State)
    requires P(before, s) && Runs(s, steps, end)
    requires forall h, t, step :: P(h, t) && Enabled(t, step) ==> P(h + [step], Do(t, step))
    ensures P(before + steps, end)
    decreases |steps|
  {
    if steps == [] {
      assert before + steps == before;
    } else {
      RunsKeep(P, before + [steps[0]], Do(s, steps[0]), steps[1..], end);
      assert before + [steps[0]] + steps[1..] == before + steps;
    }
  }

  lemma RunsFollow(steps: seq<Step>, end: State)
    requires Runs(OPEN, steps, end)
    ensures Follows(steps, end)
  {
    OpenInvariant();
    assert Tracks([], OPEN);
    forall h, t, step | Follows(h, t) && Enabled(t, step) ensures Follows(h + [step], Do(t, step)) {
      StepFollows(h, t, step);
    }
    RunsKeep((h, t) => Follows(h, t), [], OPEN, steps, end);
    assert [] + steps == steps;
  }

  /**
   A sampler whose loop has ended has failed exactly when the loop's last look was at a failed
   sample, with its context not cancelled yet; and whenever `failed` is closed, that is why.
   */
  lemma FailsIffSampleFailed(steps: seq<Step>, end: State)
    requires Runs(OPEN, steps, end)
    ensures FailedWasClosed in end.log ==> Fails(steps)
    ensures end.loop == Exited ==> (FailedWasClosed in end.log <==> Fails(steps))
  {
    RunsFollow(steps, end);
    assert FailedWasClosed in end.log <==> Count(end.log, FailedWasClosed) > 0;
  }

  // --- Close does not hang ---

  /** How far the loop is from its end once its context is done. */
  function LoopRank(pc: LoopPc): nat {
    match pc
    case NotStarted => 8
    case Ready => 7
    case Sampling => 6
    case Sampled(_) => if pc.result == Good then 5 else 4
    case Waiting => 4
    case Failing => 3
    case ReasonStored => 2
    case Exiting => 1
    case Exited => 0
  }

  function CloseRank(s: State): nat
    requires |s.closers| == 1
  {
    match s.closers[0]
    case Cancelling => 20
    case AwaitingDone => 10 + LoopRank(s.loop)
    case ClosingProbe => 1
    case Returned => 0
  }

  /** A step on the closing call's way back, the probe failing if it is being asked. */
  function TowardsReturn(s: State): Step
    requires |s.closers| == 1
  {
    match s.closers[0]
    case Cancelling => CloseCancels(0)
    case ClosingProbe => CloseClosesProbe(0)
    case Returned => CallClose
    case AwaitingDone =>
      match s.loop
      case Exited => CloseSeesDone(0)
      case Ready => BeginSample
      case Sampling => EndSample(Failure)
      case Sampled(_) => LookAtContext
      case Waiting => SeeCancelled
      case Failing => StoreReason
      case ReasonStored => CloseFailed
      case Exiting | NotStarted => CloseDone
  }

  lemma CloseRankFalls(s: State)
    requires Invariant(s) && s.closed && s.closers[0] != Returned
    ensures var step := TowardsReturn(s);
            Enabled(s, step) && Do(s, step).closed && |Do(s, step).closers| == 1 && CloseRank(Do(s, step)) < CloseRank(s)
  {
    assert s.loop == Exited ==> Count(s.log, DoneWasClosed) > 0;
  }

  lemma CloseAdvances(s: State) returns (step: Step, next: State)
    requires Invariant(s) && s.closed && s.closers[0] != Returned
    ensures Enabled(s, step) && next == Do(s, step)
    ensures Invariant(next) && next.closed && CloseRank(next) < CloseRank(s)
  {
    CloseRankFalls(s);
    step := TowardsReturn(s);
    next := Do(s, step);
    StepKeepsInvariant(s, step);
  }

  lemma RunsCons(s: State, step: Step, steps: seq<Step>, end: State)
    requires Enabled(s, step) && Runs(Do(s, step), steps, end)
    ensures Runs(s, [step] + steps, end)
  {
    assert ([step] + steps)[1..] == steps;
  }

  /** From wherever the others are, the closing call can still return, and within 20 steps. */
  lemma {:induction false} CloseCanReturn(s: State) returns (steps: seq<Step>, end: State)
    requires Invariant(s) && s.closed
    ensures Runs(s, steps, end) && |steps| <= CloseRank(s) <= 20 && end.closers == [Returned]
    decreases CloseRank(s)
  {
    steps, end := [], s;
    if s.closers[0] != Returned {
      var step, next := CloseAdvances(s);
      steps, end := CloseCanReturn(next);
      RunsCons(s, step, steps, end);
      steps := [step] + steps;
    }
  }

  /** The log gains a sampling event between `s` and `end`. */
  ghost predicate SampledSince(s: State, end: State) {
    exists j :: |s.log| <= j < |end.log| && IsSample(end.log[j])
  }

  /** Some continuation of `s` samples. */
  ghost predicate SamplesAgain(s: State) {
    exists steps, end :: Runs(s, steps, end) && SampledSince(s, end)
  }

  /** The loop is inside Sample, or nothing keeps it from getting there. */
  predicate HeadsForSample(s: State) {
    || s.loop == Ready || s.loop == Sampling || s.loop == Waiting || s.loop == Sampled(Good)
    || (s.loop == Sampled(TimedOut) && !s.ctxDone)
  }

  lemma HeadingAwayAddsNoSample(s: State, step: Step)
    requires s.closed && !HeadsForSample(s) && Enabled(s, step)
    ensures s.log <= Do(s, step).log && forall j :: |s.log| <= j < |Do(s, step).log| ==> !IsSample(Do(s, step).log[j])
  {
  }

  lemma HeadingAwayIsForGood(s: State, step: Step)
    requires s.closed && !HeadsForSample(s) && Enabled(s, step)
    ensures Do(s, step).closed && !HeadsForSample(Do(s, step))
    ensures s.log <= Do(s, step).log && forall j :: |s.log| <= j < |Do(s, step).log| ==> !IsSample(Do(s, step).log[j])
  {
    HeadingAwayAddsNoSample(s, step);
  }

  lemma {:induction false} NoSampleFrom(s: State, steps: seq<Step>, end: State)
    requires s.closed && !HeadsForSample(s) && Runs(s, steps, end)
    ensures s.log <= end.log && !SampledSince(s, end)
    decreases |steps|
  {
    if steps != [] {
      HeadingAwayIsForGood(s, steps[0]);
      NoSampleFrom(Do(s, steps[0]), steps[1..], end);
    }
  }

  lemma {:induction false} RunsConcat(s: State, xs: seq<Step>, mid: State, ys: seq<Step>, end: State)
    requires Runs(s, xs, mid) && Runs(mid, ys, end)
    ensures Runs(s, xs + ys, end)
    decreases |xs|
  {
    if xs == [] {
      assert xs + ys == ys;
    } else {
      RunsConcat(Do(s, xs[0]), xs[1..], mid, ys, end);
      assert (xs + ys)[1..] == xs[1..] + ys;
    }
  }

  lemma OneStep(s: State, step: Step)
    requires Enabled(s, step)
    ensures Runs(s, [step], Do(s, step))
  {
    assert [step][1..] == [];
    assert Runs(Do(s, step), [], Do(s, step));
  }

  lemma StepThenSample(s: State, step: Step)
    requires Enabled(s, step) && Do(s, step).log == s.log && SamplesAgain(Do(s, step))
    ensures SamplesAgain(s)
  {
    var steps, end :| Runs(Do(s, step), steps, end) && SampledSince(Do(s, step), end);
    OneStep(s, step);
    RunsConcat(s, [step], Do(s, step), steps, end);
    assert SampledSince(s, end);
  }

  lemma SampleStep(s: State, step: Step)
    requires Enabled(s, step) && (step.BeginSample? || step.EndSample?)
    ensures SamplesAgain(s)
  {
    OneStep(s, step);
    assert IsSample(Do(s, step).log[|s.log|]);
    assert SampledSince(s, Do(s, step));
  }

  lemma HeadingIsSampling(s: State)
    requires HeadsForSample(s)
    ensures SamplesAgain(s)
  {
    match s.loop
    case Ready => SampleStep(s, BeginSample);
    case Sampling => SampleStep(s, EndSample(Good));
    case Waiting => WaitingSamples(s);
    case Sampled(_) =>
      WaitingSamples(Do(s, LookAtContext));
      StepThenSample(s, LookAtContext);
  }

  lemma WaitingSamples(s: State)
    requires s.loop == Waiting
    ensures SamplesAgain(s)
  {
    SampleStep(Do(s, Tick), BeginSample);
    StepThenSample(s, Tick);
  }

  /**
   Exactly when a closed sampler may sample again, whether a redundant Close has just returned or
   not: as long as the loop heads for a sample. A cancelled context does not stop a loop that is
   waiting, because the ticker may win.
   */
  lemma ClosedSamplesAgainIff(s: State)
    requires Invariant(s) && s.closed
    ensures SamplesAgain(s) <==> HeadsForSample(s)
    ensures SamplesAgain(Do(s, CallClose)) <==> HeadsForSample(s)
  {
    forall t | t == s || t == Do(s, CallClose) ensures SamplesAgain(t) <==> HeadsForSample(s) {
      if HeadsForSample(s) {
        HeadingIsSampling(t);
      } else {
        forall steps, end | Runs(t, steps, end) ensures !SampledSince(t, end) {
          NoSampleFrom(t, steps, end);
        }
      }
    }
  }

  /**
   What a caller can know: after a redundant Close no sample follows if the sampler never started,
   has failed, or the closing call has returned.
   */
  lemma RedundantCloseIsSafe(s: State)
    requires Invariant(s) && s.closed
    requires !s.started || s.failOnce || s.closers == [Returned]
    ensures !SamplesAgain(Do(s, CallClose))
  {
    ClosedSamplesAgainIff(s);
    if s.closers == [Returned] {
      assert s.closers[0] == Returned;
    }
  }

  /**
   The guarantee is the closing call's alone: a Close call that finds the sampler closed
   may return while the loop goes on to sample.
   */
  lemma RedundantCloseMayPrecedeSampling() returns (steps: seq<Step>, end: State)
    ensures Runs(OPEN, steps, end)
    ensures !NoSampleAfter(end.log, RedundantCloseReturned)
  {
    steps := [Start, CallClose, CallClose, BeginSample];
    var s1 := Do(OPEN, Start);
    var s2 := Do(s1, CallClose);
    var s3 := Do(s2, CallClose);
    end := Do(s3, BeginSample);
    assert Runs(end, [], end);
    assert steps[3..] == [BeginSample] && steps[3..][1..] == [];
    assert Runs(s3, steps[3..], end);
    assert steps[2..][1..] == steps[3..] && steps[2..][0] == CallClose;
    assert Runs(s2, steps[2..], end);
    assert steps[1..][1..] == steps[2..] && steps[1..][0] == CallClose;
    assert Runs(s1, steps[1..], end);
    assert end.log[0] == RedundantCloseReturned && IsSample(end.log[1]);
  }

  // --- The imperative form ---

  /** The shared object; each method is one or more steps that nothing can come between. */
  class LoadSampler {
    const hasProbe: bool
    var started: bool
    var closed: bool
    var ctxDone: bool
    var failOnce: bool
    var loop: LoopPc
    var closers: seq<ClosePc>
    var log: seq<Event>

    constructor ()
      ensures Snapshot() == OPEN
    {
      hasProbe, started, closed, ctxDone, failOnce := true, false, false, false, false;
      loop, closers, log := NotStarted, [], [];
    }

    constructor Failed()
      ensures Snapshot() == BORN_FAILED
    {
      hasProbe, started, closed, ctxDone, failOnce := false, false, false, false, false;
      loop, closers, log := NotStarted, [], [];
      new;
      log := log + [DoneWasClosed];
      MarkFailed();
    }

    function Snapshot(): State
      reads this
    {
      State(hasProbe, started, closed, ctxDone, failOnce, loop, closers, log)
    }

    method StartLoop()
      modifies this
      ensures Snapshot() == Do(old(Snapshot()), Start)
    {
      if started || closed || !hasProbe {
        return;
      }
      started, loop := true, Ready;
    }

    /** The critical section of Close; false for a redundant call, which is over then. */
    method BeginClose() returns (first: bool)
      modifies this
      ensures Snapshot() == Do(old(Snapshot()), CallClose)
      ensures first <==> !old(closed)
    {
      if closed {
        log := log + [RedundantCloseReturned];
        return false;
      }
      closed := true;
      closers := closers + [if started then Cancelling else ClosingProbe];
      return true;
    }

    /** The rest of Close once the loop is out of the way. */
    method EndClose(i: nat)
      requires Enabled(Snapshot(), CloseClosesProbe(i))
      modifies this
      ensures Snapshot() == Do(old(Snapshot()), CloseClosesProbe(i))
    {
      if hasProbe {
        log := log + [ProbeWasClosed];
      } else {
        assert log + [] == log;
      }
      closers := closers[i := Returned];
      log := log + [CloseReturned];
    }

    /** What the loop does with the result of a sample. */
    method AfterSample()
      requires Enabled(Snapshot(), LookAtContext)
      modifies this
      ensures Snapshot() == Do(old(Snapshot()), LookAtContext)
    {
      if loop.result != Good {
        if ctxDone {
          loop := Exiting;
          return;
        }
        if loop.result != TimedOut {
          loop := Failing;
          return;
        }
      }
      loop := Waiting;
    }

    /** The body that runs once, whoever calls. */
    method MarkFailed()
      modifies this`failOnce, this`log
      ensures failOnce
      ensures log == old(log) + if old(failOnce) then [] else [ReasonWasStored, FailedWasClosed]
    {
      if !failOnce {
        failOnce := true;
        log := log + [ReasonWasStored];
        log := log + [FailedWasClosed];
      }
    }
  }
}
