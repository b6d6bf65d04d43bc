/**
 Idle exit (cmd/worker/idle.go): a tracker of tasks in flight and of the last task event, and
 a poller that drains the worker on the first tick that finds it idle for long enough. A run
 is the merged sequence of task events and ticks, each with the time it saw.
 */
module Idle {
  import opened Wrappers

  datatype Event = TaskStarts(at: int) | TaskEnds(at: int) | Tick(at: int)

  /** Times never go back, from the worker's start on. */
  ghost predicate Chronological(startup: int, events: seq<Event>) {
    && (forall i :: 0 <= i < |events| ==> startup <= events[i].at)
    && (forall i, j :: 0 <= i <= j < |events| ==> events[i].at <= events[j].at)
  }

  // --- The code's view: a counter and a timestamp ---

  datatype Snapshot = Snapshot(inFlight: int, lastActivity: int)

  function Observe(s: Snapshot, e: Event): Snapshot {
    match e
    case TaskStarts(at) => Snapshot(s.inFlight + 1, at)
    case TaskEnds(at) => Snapshot(s.inFlight - 1, at)
    case Tick(_) => s
  }

  function After(startup: int, events: seq<Event>): Snapshot {
    if events == [] then Snapshot(0, startup)
    else Observe(After(startup, events[..|events| - 1]), events[|events| - 1])
  }

  predicate Elapsed(s: Snapshot, now: int, idleAfter: int) {
    s.inFlight == 0 && now - s.lastActivity >= idleAfter
  }

  /** The tick at `i` finds the worker idle. */
  predicate Fires(startup: int, idleAfter: int, events: seq<Event>, i: nat)
    requires i < |events|
  {
    events[i].Tick? && Elapsed(After(startup, events[..i]), events[i].at, idleAfter)
  }

  class IdleTracker {
    var inFlight: int
    var lastActivity: int

    function State(): Snapshot
      reads this
    {
      Snapshot(inFlight, lastActivity)
    }

    constructor (now: int)
      ensures State() == Snapshot(0, now)
    {
      inFlight, lastActivity := 0, now;
    }

    method MarkStart(now: int)
      modifies this
      ensures State() == Observe(old(State()), TaskStarts(now))
    {
      inFlight := inFlight + 1;
      lastActivity := now;
    }

    method MarkEnd(now: int)
      modifies this
      ensures State() == Observe(old(State()), TaskEnds(now))
    {
      inFlight := inFlight - 1;
      lastActivity := now;
    }

    method TakeSnapshot(now: int) returns (tasks: int, elapsed: int)
      ensures tasks == inFlight && elapsed == now - lastActivity
    {
      return inFlight, now - lastActivity;
    }
  }

  class IdlePoller {
    const tracker: IdleTracker
    const idleAfter: int
    /** What the countdown shows. */
    var gauge: int
    var cancelled: bool

    constructor (tracker: IdleTracker, idleAfter: int)
      ensures this.tracker == tracker && this.idleAfter == idleAfter && !cancelled
    {
      this.tracker, this.idleAfter, this.gauge, this.cancelled := tracker, idleAfter, 0, false;
    }

    method Evaluate(now: int) returns (fired: bool)
      modifies this
      ensures fired <==> Elapsed(tracker.State(), now, idleAfter)
      ensures cancelled <==> old(cancelled) || fired
      ensures idleAfter > 0 ==> (gauge == 0 <==> fired)
      ensures idleAfter > 0 && now >= tracker.lastActivity ==> 0 <= gauge <= idleAfter
      ensures tracker.inFlight != 0 ==> gauge == idleAfter
      ensures tracker.inFlight == 0 && !fired ==> Elapsed(tracker.State(), now + gauge, idleAfter)
      ensures tracker.inFlight == 0 && !fired ==>
                forall sooner :: sooner < now + gauge ==> !Elapsed(tracker.State(), sooner, idleAfter)
    {
      var tasks, elapsed := tracker.TakeSnapshot(now);
      var remaining := idleAfter;
      if tasks == 0 {
        remaining := idleAfter - elapsed;
        if remaining < 0 {
          remaining := 0;
        }
      }
      gauge := remaining;
      if tasks == 0 && elapsed >= idleAfter {
        cancelled := true;
        return true;
      }
      return false;
    }

    /** The poll loop, with the task events that reach the tracker between its ticks. */
    method Run(startup: int, events: seq<Event>) returns (exit: Option<nat>)
      requires tracker.State() == Snapshot(0, startup) && !cancelled
      modifies this, tracker
      ensures exit.None? ==> forall j: nat :: j < |events| ==> !Fires(startup, idleAfter, events, j)
      ensures exit.Some? ==>
                && exit.value < |events| && Fires(startup, idleAfter, events, exit.value)
                && forall j: nat :: j < exit.value ==> !Fires(startup, idleAfter, events, j)
      ensures cancelled <==> exit.Some?
    {
      for i := 0 to |events|
        invariant tracker.State() == After(startup, events[..i]) && !cancelled
        invariant forall j: nat :: j < i ==> !Fires(startup, idleAfter, events, j)
      {
        assert events[..i + 1][..i] == events[..i];
        match events[i] {
          case TaskStarts(at) => tracker.MarkStart(at);
          case TaskEnds(at) => tracker.MarkEnd(at);
          case Tick(at) =>
            var fired := Evaluate(at);
            if fired {
              return Some(i);
            }
        }
      }
      return None;
    }
  }

  // --- The promise, in terms of the run alone ---

  function InFlight(events: seq<Event>): int {
    if events == [] then 0
    else
      var last := events[|events| - 1];
      InFlight(events[..|events| - 1]) + if last.TaskStarts? then 1 else if last.TaskEnds? then -1 else 0
  }

  /** No task event within `idleAfter` before `now`, the worker's own start counting as one. */
  ghost predicate Quiet(startup: int, idleAfter: int, events: seq<Event>, now: int) {
    && now - startup >= idleAfter
    && forall j :: 0 <= j < |events| && !events[j].Tick? ==> now - events[j].at >= idleAfter
  }

  lemma {:induction false} SnapshotCounts(startup: int, events: seq<Event>)
    ensures After(startup, events).inFlight == InFlight(events)
  {
    if events != [] {
      SnapshotCounts(startup, events[..|events| - 1]);
    }
  }

  lemma {:induction false} LastActivityIsLatest(startup: int, events: seq<Event>)
    requires Chronological(startup, events)
    ensures var last := After(startup, events).lastActivity;
            && startup <= last
            && (last == startup || exists j :: 0 <= j < |events| && !events[j].Tick? && last == events[j].at)
            && (forall j :: 0 <= j < |events| && !events[j].Tick? ==> events[j].at <= last)
  {
    if events != [] {
      var before := events[..|events| - 1];
      assert forall j :: 0 <= j < |before| ==> before[j] == events[j];
      LastActivityIsLatest(startup, before);
      var last := After(startup, before).lastActivity;
      if events[|events| - 1].Tick? && last != startup {
        var j :| 0 <= j < |before| && !before[j].Tick? && last == before[j].at;
        assert !events[j].Tick? && last == events[j].at;
      }
    }
  }

  lemma PrefixIsChronological(startup: int, events: seq<Event>, n: nat)
    requires Chronological(startup, events) && n <= |events|
    ensures Chronological(startup, events[..n])
  {
  }

  /** A tick drains the worker exactly when no task is in flight and the window before it was quiet. */
  lemma FiresIffQuiet(startup: int, idleAfter: int, events: seq<Event>, i: nat)
    requires Chronological(startup, events) && i < |events| && events[i].Tick?
    ensures Fires(startup, idleAfter, events, i)
       <==> InFlight(events[..i]) == 0 && Quiet(startup, idleAfter, events[..i], events[i].at)
  {
    PrefixIsChronological(startup, events, i);
    SnapshotCounts(startup, events[..i]);
    LastActivityIsLatest(startup, events[..i]);
  }

  lemma {:induction false} TicksDoNotCount(events: seq<Event>, n: nat)
    requires n <= |events| && forall j :: n <= j < |events| ==> events[j].Tick?
    ensures InFlight(events) == InFlight(events[..n])
  {
    if n < |events| {
      var before := events[..|events| - 1];
      assert before[..n] == events[..n];
      assert forall j :: n <= j < |before| ==> before[j] == events[j];
      TicksDoNotCount(before, n);
    } else {
      assert events[..n] == events;
    }
  }

  /** A drain never cuts into work: throughout the window before it no task was in flight. */
  lemma NothingInFlightDuringWindow(startup: int, idleAfter: int, events: seq<Event>, i: nat, n: nat)
    requires Chronological(startup, events) && i < |events| && Fires(startup, idleAfter, events, i)
    requires n <= i && (n < i ==> events[n].at > events[i].at - idleAfter)
    ensures InFlight(events[..n]) == 0
  {
    FiresIffQuiet(startup, idleAfter, events, i);
    var seen := events[..i];
    forall j | n <= j < i ensures seen[j].Tick? {
      assert seen[j] == events[j] && events[n].at <= events[j].at;
    }
    TicksDoNotCount(seen, n);
    assert seen[..n] == events[..n];
  }

  /** Once the worker is idle for long enough, the first tick after that drains it. */
  lemma FirstTickAfterQuietFires(startup: int, idleAfter: int, events: seq<Event>, n: nat, i: nat, now: int)
    requires Chronological(startup, events) && n <= i < |events| && events[i].Tick?
    requires InFlight(events[..n]) == 0 && Quiet(startup, idleAfter, events[..n], now)
    requires now <= events[i].at && forall j :: n <= j < i ==> events[j].Tick?
    ensures Fires(startup, idleAfter, events, i)
  {
    var seen := events[..i];
    assert forall j :: n <= j < i ==> seen[j] == events[j];
    assert seen[..n] == events[..n];
    TicksDoNotCount(seen, n);
    forall j | 0 <= j < i && !seen[j].Tick? ensures events[i].at - seen[j].at >= idleAfter {
      assert j < n && events[..n][j] == seen[j];
    }
    FiresIffQuiet(startup, idleAfter, events, i);
  }

  /**
   The drain is late by less than the time between two ticks: a tick before it that did not
   drain came before the idle window had passed since the last task event.
   */
  lemma DrainIsPrompt(startup: int, idleAfter: int, events: seq<Event>, p: nat, i: nat)
    requires Chronological(startup, events) && idleAfter > 0 && p < i < |events|
    requires events[p].Tick? && !Fires(startup, idleAfter, events, p) && Fires(startup, idleAfter, events, i)
    ensures events[p].at < After(startup, events[..i]).lastActivity + idleAfter
  {
    var seen := events[..i];
    PrefixIsChronological(startup, events, i);
    LastActivityIsLatest(startup, seen);
    if j :| p <= j < i && !events[j].Tick? {
      assert seen[j] == events[j] && events[p].at <= events[j].at;
    } else {
      assert forall j :: p <= j < i ==> seen[j] == events[j];
      assert seen[..p] == events[..p];
      TicksDoNotCount(seen, p);
      FiresIffQuiet(startup, idleAfter, events, p);
      FiresIffQuiet(startup, idleAfter, events, i);
      assert !Quiet(startup, idleAfter, events[..p], events[p].at);
      PrefixIsChronological(startup, events, p);
      LastActivityIsLatest(startup, events[..p]);
      if events[p].at - startup >= idleAfter {
        var j :| 0 <= j < p && !events[..p][j].Tick? && events[p].at - events[j].at < idleAfter;
        assert seen[j] == events[j];
      }
    }
  }
}
