/**
 Several watchers scanning the same files (cmd/watcher/watcher.go). The walk lists a directory,
 later checks for the marker of one listed file after the other - not whether the file is still
 there - and dispatches in yet another step, while runs end, mark or delete their source.
 Of the workflow server only this is assumed: a start is accepted exactly when no run with
 that workflow ID is open, and an accepted start is reported as a success. One file is one
 workflow ID.
 */
module Dispatch {
  import opened Filesystem

  datatype Run = Run(id: nat, file: Path)

  /** Between two files, or past the marker check of one. */
  datatype Position = Idle | Cleared(file: Path)

  /**
   `listed` are the files of the directories the walk has listed and not yet come to;
   `dispatched` is what the watcher counts as dispatched, over all its lives.
   */
  datatype Watcher = Watcher(listed: set<Path>, position: Position, dispatched: multiset<Path>)

  datatype World = World(
    open: set<Run>,
    started: multiset<Path>,
    present: set<Path>,
    marked: set<Path>,
    watchers: seq<Watcher>)

  datatype Step =
    | List(w: nat, files: set<Path>)
    | Check(w: nat, file: Path)
    | Start(w: nat)
    | StartFails(w: nat)
    | Crash(w: nat)
    | MarkSource(run: Run)
    | DeleteSource(run: Run)
    | Close(run: Run)
    | Restore(file: Path)

  predicate Running(s: World, f: Path) {
    exists r :: r in s.open && r.file == f
  }

  predicate Enabled(s: World, step: Step) {
    match step
    case List(w, files) => w < |s.watchers| && s.watchers[w].position.Idle? && files <= s.present
    case Check(w, f) => w < |s.watchers| && s.watchers[w].position.Idle? && f in s.watchers[w].listed
    case Start(w) => w < |s.watchers| && s.watchers[w].position.Cleared?
    case StartFails(w) => w < |s.watchers| && s.watchers[w].position.Cleared?
    case Crash(w) => w < |s.watchers|
    case MarkSource(run) => run in s.open
    case DeleteSource(run) => run in s.open
    case Close(run) => run in s.open
    case Restore(_) => true
  }

  function Moved(s: World, w: nat, listed: set<Path>, position: Position): World
    requires w < |s.watchers|
  {
    s.(watchers := s.watchers[w := Watcher(listed, position, s.watchers[w].dispatched)])
  }

  /** The walk comes to a listed file and clears it unless it is marked. */
  function AfterCheck(s: World, w: nat, f: Path): World
    requires w < |s.watchers|
  {
    Moved(s, w, s.watchers[w].listed - {f}, if f in s.marked then Idle else Cleared(f))
  }

  /** The dispatch: a new run, or the refusal that the watcher does not count. */
  function AfterStart(s: World, w: nat): World
    requires w < |s.watchers| && s.watchers[w].position.Cleared?
  {
    var f := s.watchers[w].position.file;
    var listed := s.watchers[w].listed;
    if Running(s, f) then Moved(s, w, listed, Idle)
    else
      s.(open := s.open + {Run(|s.started|, f)},
         started := s.started + multiset{f},
         watchers := s.watchers[w := Watcher(listed, Idle, s.watchers[w].dispatched + multiset{f})])
  }

  function Next(s: World, step: Step): World
    requires Enabled(s, step)
  {
    match step
    case List(w, files) => Moved(s, w, s.watchers[w].listed + files, Idle)
    case Check(w, f) => AfterCheck(s, w, f)
    case Start(w) => AfterStart(s, w)
    case StartFails(w) => Moved(s, w, s.watchers[w].listed, Idle)
    case Crash(w) => Moved(s, w, {}, Idle)
    case MarkSource(run) => s.(marked := s.marked + {run.file})
    case DeleteSource(run) => s.(present := s.present - {run.file})
    case Close(run) => s.(open := s.open - {run})
    case Restore(f) => s.(present := s.present + {f}, marked := s.marked - {f})
  }

  datatype Reach = Impossible | Reached(world: World)

  /** The world after a run of the system; Impossible when some step was not enabled. */
  function After(s: World, steps: seq<Step>): (r: Reach)
    decreases |steps|
  {
    if steps == [] then Reached(s)
    else if Enabled(s, steps[0]) then After(Next(s, steps[0]), steps[1..])
    else Impossible
  }

  /** A watcher that has just come up. */
  const STARTED := Watcher({}, Idle, multiset{})

  function Fresh(present: set<Path>, marked: set<Path>, watchers: nat): World {
    World({}, multiset{}, present, marked, seq(watchers, _ => STARTED))
  }

  // --- One open run per file, every start counted once ---

  function Sum(ws: seq<Watcher>): multiset<Path> {
    if ws == [] then multiset{} else Sum(ws[..|ws| - 1]) + ws[|ws| - 1].dispatched
  }

  lemma {:induction false} SumAfterUpdate(ws: seq<Watcher>, w: nat, next: Watcher, more: multiset<Path>)
    requires w < |ws| && next.dispatched == ws[w].dispatched + more
    ensures Sum(ws[w := next]) == Sum(ws) + more
  {
    var last := |ws| - 1;
    if w == last {
      assert ws[w := next][..last] == ws[..last];
    } else {
      assert ws[w := next][..last] == ws[..last][w := next];
      SumAfterUpdate(ws[..last], w, next, more);
    }
  }

  lemma {:induction false} SumOfNone(n: nat)
    ensures Sum(seq(n, _ => STARTED)) == multiset{}
  {
    if n > 0 {
      SumOfNone(n - 1);
      assert seq(n, _ => STARTED)[..n - 1] == seq(n - 1, _ => STARTED);
    }
  }

  ghost predicate OneOpenRunPerFile(s: World) {
    forall a, b :: a in s.open && b in s.open && a.file == b.file ==> a == b
  }

  ghost predicate Inv(s: World) {
    && OneOpenRunPerFile(s)
    && (forall r :: r in s.open ==> r.id < |s.started|)
    && (forall w :: 0 <= w < |s.watchers| ==> Settled(s.watchers[w]))
    && s.started == Sum(s.watchers)
  }

  /** The file a watcher is at is no longer among those to come. */
  predicate Settled(w: Watcher) {
    w.position.Cleared? ==> w.position.file !in w.listed
  }

  lemma StartKeepsInv(s: World, w: nat)
    requires Inv(s) && w < |s.watchers| && s.watchers[w].position.Cleared?
    ensures Inv(AfterStart(s, w))
  {
    var f := s.watchers[w].position.file;
    if Running(s, f) {
      MoveKeepsInv(s, w, s.watchers[w].listed, Idle);
    } else {
      SumAfterUpdate(s.watchers, w, AfterStart(s, w).watchers[w], multiset{f});
    }
  }

  lemma MoveKeepsInv(s: World, w: nat, listed: set<Path>, position: Position)
    requires Inv(s) && w < |s.watchers| && Settled(Watcher(listed, position, s.watchers[w].dispatched))
    ensures Inv(Moved(s, w, listed, position))
  {
    SumAfterUpdate(s.watchers, w, Watcher(listed, position, s.watchers[w].dispatched), multiset{});
  }

  lemma StepKeepsInv(s: World, step: Step)
    requires Inv(s) && Enabled(s, step)
    ensures Inv(Next(s, step))
  {
    match step
    case Start(w) => StartKeepsInv(s, w);
    case List(w, files) => MoveKeepsInv(s, w, s.watchers[w].listed + files, Idle);
    case Check(w, f) =>
      MoveKeepsInv(s, w, s.watchers[w].listed - {f}, if f in s.marked then Idle else Cleared(f));
    case StartFails(w) => MoveKeepsInv(s, w, s.watchers[w].listed, Idle);
    case Crash(w) => MoveKeepsInv(s, w, {}, Idle);
    case _ =>
  }

  lemma {:induction false} RunsKeepInv(s: World, steps: seq<Step>)
    requires Inv(s) && After(s, steps).Reached?
    ensures Inv(After(s, steps).world)
    decreases |steps|
  {
    if steps != [] {
      StepKeepsInv(s, steps[0]);
      RunsKeepInv(Next(s, steps[0]), steps[1..]);
    }
  }

  /**
   However the watchers interleave with each other and with the workers, no file ever has two
   open runs, and the runs started are exactly what the watchers counted as dispatched.
   */
  lemma EveryStartIsCountedOnce(present: set<Path>, marked: set<Path>, watchers: nat, steps: seq<Step>)
    requires After(Fresh(present, marked, watchers), steps).Reached?
    ensures var s := After(Fresh(present, marked, watchers), steps).world;
            OneOpenRunPerFile(s) && s.started == Sum(s.watchers)
  {
    SumOfNone(watchers);
    RunsKeepInv(Fresh(present, marked, watchers), steps);
  }

  // --- Starts after a file is done with ---

  /** The file is marked, so no check clears it any more, or gone, so nothing lists it any more. */
  predicate Done(s: World, f: Path) {
    f in s.marked || f !in s.present
  }

  predicate NeverRestored(steps: seq<Step>, f: Path) {
    forall i :: 0 <= i < |steps| ==> steps[i] != Restore(f)
  }

  /** The watcher is past its check of `f`, or still has it on its list and `f` is not marked. */
  predicate MayStart(w: Watcher, f: Path, marked: bool) {
    w.position == Cleared(f) || (!marked && f in w.listed)
  }

  function Pending(w: Watcher, f: Path, marked: bool): nat {
    if MayStart(w, f, marked) then 1 else 0
  }

  function PendingOf(ws: seq<Watcher>, f: Path, marked: bool): nat {
    if ws == [] then 0 else PendingOf(ws[..|ws| - 1], f, marked) + Pending(ws[|ws| - 1], f, marked)
  }

  /** How many watchers may still start `f`. */
  function PendingStarts(s: World, f: Path): nat {
    PendingOf(s.watchers, f, f in s.marked)
  }

  lemma {:induction false} PendingAfterUpdate(ws: seq<Watcher>, w: nat, next: Watcher, f: Path, marked: bool)
    requires w < |ws|
    ensures PendingOf(ws[w := next], f, marked) + Pending(ws[w], f, marked)
         == PendingOf(ws, f, marked) + Pending(next, f, marked)
  {
    var last := |ws| - 1;
    if w == last {
      assert ws[w := next][..last] == ws[..last];
    } else {
      assert ws[w := next][..last] == ws[..last][w := next];
      PendingAfterUpdate(ws[..last], w, next, f, marked);
    }
  }

  /** A marker can only stop watchers. */
  lemma {:induction false} MarkingStops(ws: seq<Watcher>, f: Path)
    ensures PendingOf(ws, f, true) <= PendingOf(ws, f, false)
  {
    if ws != [] {
      MarkingStops(ws[..|ws| - 1], f);
    }
  }

  /** What watcher `w` has started and may still start of `f`. */
  function Budget(s: World, w: nat, f: Path): nat
    requires w < |s.watchers|
  {
    s.watchers[w].dispatched[f] + Pending(s.watchers[w], f, f in s.marked)
  }

  ghost predicate NoMore(s: World, next: World, f: Path) {
    && |next.watchers| == |s.watchers|
    && (forall w {:trigger next.watchers[w]} :: 0 <= w < |s.watchers| ==> Budget(next, w, f) <= Budget(s, w, f))
    && next.started[f] + PendingStarts(next, f) <= s.started[f] + PendingStarts(s, f)
  }

  lemma OneWatcherAddsNoMore(s: World, next: World, w: nat, f: Path)
    requires w < |s.watchers| && |next.watchers| == |s.watchers| && next.marked == s.marked
    requires next.watchers == s.watchers[w := next.watchers[w]]
    requires Budget(next, w, f) <= Budget(s, w, f)
    requires next.started[f] + s.watchers[w].dispatched[f] == s.started[f] + next.watchers[w].dispatched[f]
    ensures NoMore(s, next, f)
  {
    PendingAfterUpdate(s.watchers, w, next.watchers[w], f, f in s.marked);
    forall v | 0 <= v < |s.watchers| ensures Budget(next, v, f) <= Budget(s, v, f) {
      assert v != w ==> next.watchers[v] == s.watchers[v];
    }
  }

  lemma SameWatchersAddNoMore(s: World, next: World, f: Path)
    requires next.watchers == s.watchers && next.started == s.started
    requires f in s.marked ==> f in next.marked
    ensures NoMore(s, next, f)
  {
    MarkingStops(s.watchers, f);
  }

  lemma StartAddsNoMore(s: World, w: nat, f: Path)
    requires Inv(s) && w < |s.watchers| && s.watchers[w].position.Cleared?
    ensures NoMore(s, AfterStart(s, w), f)
  {
    assert Settled(s.watchers[w]);
    OneWatcherAddsNoMore(s, AfterStart(s, w), w, f);
  }

  lemma StepAddsNoMore(s: World, step: Step, f: Path)
    requires Inv(s) && Enabled(s, step) && Done(s, f) && step != Restore(f)
    ensures Done(Next(s, step), f) && NoMore(s, Next(s, step), f)
  {
    var next := Next(s, step);
    match step
    case List(w, _) => OneWatcherAddsNoMore(s, next, w, f);
    case Check(w, _) => OneWatcherAddsNoMore(s, next, w, f);
    case Start(w) => StartAddsNoMore(s, w, f);
    case StartFails(w) => OneWatcherAddsNoMore(s, next, w, f);
    case Crash(w) => OneWatcherAddsNoMore(s, next, w, f);
    case _ => SameWatchersAddNoMore(s, next, f);
  }

  lemma {:induction false} DoneAddsNoMore(s: World, steps: seq<Step>, f: Path)
    requires Inv(s) && After(s, steps).Reached? && Done(s, f) && NeverRestored(steps, f)
    ensures NoMore(s, After(s, steps).world, f)
    decreases |steps|
  {
    if steps != [] {
      var next := Next(s, steps[0]);
      StepAddsNoMore(s, steps[0], f);
      StepKeepsInv(s, steps[0]);
      DoneAddsNoMore(next, steps[1..], f);
      NoMoreTrans(s, next, After(s, steps).world, f);
    }
  }

  lemma NoMoreTrans(a: World, b: World, c: World, f: Path)
    requires NoMore(a, b, f) && NoMore(b, c, f)
    ensures NoMore(a, c, f)
  {
    forall w | 0 <= w < |a.watchers| ensures Budget(c, w, f) <= Budget(a, w, f) {
      assert Budget(b, w, f) <= Budget(a, w, f);
    }
  }

  /**
   Once a file is marked or gone, each watcher starts at most one further run of it: of a marked
   file only from an earlier check, of one that is gone also from an earlier listing. Together they
   start at most one run per such watcher.
   */
  lemma OneStaleStartPerWatcher(s: World, steps: seq<Step>, f: Path)
    requires Inv(s) && After(s, steps).Reached? && Done(s, f) && NeverRestored(steps, f)
    ensures var end := After(s, steps).world;
            && |end.watchers| == |s.watchers|
            && (forall w :: 0 <= w < |s.watchers| ==>
                  end.watchers[w].dispatched[f] <= s.watchers[w].dispatched[f]
                    + if MayStart(s.watchers[w], f, f in s.marked) then 1 else 0)
            && end.started[f] <= s.started[f] + PendingStarts(s, f)
  {
    DoneAddsNoMore(s, steps, f);
    var end := After(s, steps).world;
    forall w | 0 <= w < |s.watchers|
      ensures end.watchers[w].dispatched[f] <= Budget(s, w, f)
    {
      assert Budget(end, w, f) <= Budget(s, w, f);
    }
  }

  lemma {:induction false} SomePending(ws: seq<Watcher>, f: Path, marked: bool) returns (w: nat)
    requires PendingOf(ws, f, marked) > 0
    ensures w < |ws| && MayStart(ws[w], f, marked)
  {
    if MayStart(ws[|ws| - 1], f, marked) {
      w := |ws| - 1;
    } else {
      w := SomePending(ws[..|ws| - 1], f, marked);
    }
  }

  // --- The bound is reached ---

  /** `steps` take `s` to `end` without restoring `f`. */
  ghost predicate Goes(s: World, steps: seq<Step>, end: World, f: Path) {
    After(s, steps) == Reached(end) && NeverRestored(steps, f)
  }

  lemma {:induction false} AfterConcat(s: World, xs: seq<Step>, ys: seq<Step>)
    requires After(s, xs).Reached?
    ensures After(s, xs + ys) == After(After(s, xs).world, ys)
    decreases |xs|
  {
    if xs == [] {
      assert xs + ys == ys;
    } else {
      assert (xs + ys)[1..] == xs[1..] + ys;
      AfterConcat(Next(s, xs[0]), xs[1..], ys);
    }
  }

  lemma GoFurther(s: World, steps: seq<Step>, mid: World, step: Step, f: Path)
    requires Goes(s, steps, mid, f) && Enabled(mid, step) && step != Restore(f)
    ensures Goes(s, steps + [step], Next(mid, step), f)
  {
    assert [step][1..] == [];
    assert After(mid, [step]) == Reached(Next(mid, step));
    AfterConcat(s, steps, [step]);
  }

  /** What stays the same while a stale watcher gets ready. */
  ghost predicate Ready(s: World, end: World, f: Path) {
    && Inv(end) && end.started == s.started && end.marked == s.marked && end.present == s.present
    && PendingStarts(end, f) == PendingStarts(s, f)
  }

  /** A watcher that has `f` on its list gives up what it is at and checks `f`. */
  lemma GetCleared(s: World, w: nat, f: Path) returns (steps: seq<Step>, end: World)
    requires Inv(s) && w < |s.watchers| && MayStart(s.watchers[w], f, f in s.marked)
    ensures Goes(s, steps, end, f) && Ready(s, end, f)
    ensures w < |end.watchers| && end.watchers[w].position == Cleared(f)
  {
    steps, end := [], s;
    if s.watchers[w].position != Cleared(f) {
      if s.watchers[w].position.Cleared? {
        var idle := Next(s, StartFails(w));
        StepKeepsInv(s, StartFails(w));
        PendingAfterUpdate(s.watchers, w, idle.watchers[w], f, f in s.marked);
        GoFurther(s, steps, end, StartFails(w), f);
        steps, end := steps + [StartFails(w)], idle;
      }
      var cleared := Next(end, Check(w, f));
      StepKeepsInv(end, Check(w, f));
      PendingAfterUpdate(end.watchers, w, cleared.watchers[w], f, f in s.marked);
      GoFurther(s, steps, end, Check(w, f), f);
      steps, end := steps + [Check(w, f)], cleared;
    }
  }

  /** The run of `f` that is still open closes. */
  lemma GetClosed(s: World, f: Path) returns (steps: seq<Step>, end: World)
    requires Inv(s)
    ensures Goes(s, steps, end, f) && Ready(s, end, f)
    ensures !Running(end, f) && end.watchers == s.watchers
  {
    steps, end := [], s;
    if r :| r in s.open && r.file == f {
      StepKeepsInv(s, Close(r));
      GoFurther(s, steps, end, Close(r), f);
      steps, end := steps + [Close(r)], Next(s, Close(r));
    }
  }

  lemma GoesTrans(a: World, xs: seq<Step>, b: World, ys: seq<Step>, c: World, f: Path)
    requires Goes(a, xs, b, f) && Goes(b, ys, c, f)
    ensures Goes(a, xs + ys, c, f)
  {
    AfterConcat(a, xs, ys);
  }

  /** One stale watcher gets its run, after whatever is still open has closed. */
  lemma StartOne(s: World, f: Path) returns (steps: seq<Step>, end: World)
    requires Inv(s) && Done(s, f) && PendingStarts(s, f) > 0
    ensures Goes(s, steps, end, f) && Inv(end) && Done(end, f)
    ensures end.started[f] == s.started[f] + 1 && PendingStarts(end, f) == PendingStarts(s, f) - 1
  {
    var w := SomePending(s.watchers, f, f in s.marked);
    var toClear, cleared := GetCleared(s, w, f);
    var toClose, closed := GetClosed(cleared, f);
    GoesTrans(s, toClear, cleared, toClose, closed, f);
    end := Next(closed, Start(w));
    StepKeepsInv(closed, Start(w));
    PendingAfterUpdate(closed.watchers, w, end.watchers[w], f, f in s.marked);
    GoFurther(s, toClear + toClose, closed, Start(w), f);
    steps := toClear + toClose + [Start(w)];
  }

  lemma {:induction false} StartMany(s: World, f: Path, n: nat) returns (steps: seq<Step>, end: World)
    requires Inv(s) && Done(s, f) && n <= PendingStarts(s, f)
    ensures Goes(s, steps, end, f) && end.started[f] == s.started[f] + n
    decreases n
  {
    steps, end := [], s;
    if n > 0 {
      var first, mid := StartOne(s, f);
      var rest;
      rest, end := StartMany(mid, f, n - 1);
      GoesTrans(s, first, mid, rest, end, f);
      steps := first + rest;
    }
  }

  ghost predicate CanStart(s: World, f: Path, n: nat) {
    exists steps :: After(s, steps).Reached? && NeverRestored(steps, f)
                 && After(s, steps).world.started[f] == s.started[f] + n
  }

  /**
   The bound is exact: n further runs of a marked file can start exactly when n watchers are past
   their check, of a file that is gone exactly when n watchers are past it or have it listed.
   */
  lemma StaleStartsIff(s: World, f: Path, n: nat)
    requires Inv(s) && Done(s, f)
    ensures CanStart(s, f, n) <==> n <= PendingStarts(s, f)
  {
    if n <= PendingStarts(s, f) {
      var steps, end := StartMany(s, f, n);
    }
    forall steps | After(s, steps).Reached? && NeverRestored(steps, f)
      ensures After(s, steps).world.started[f] <= s.started[f] + PendingStarts(s, f)
    {
      OneStaleStartPerWatcher(s, steps, f);
    }
  }

  /**
   What a run's handling of its source buys: once the run has marked the file, n further runs of it
   can start exactly when n watchers are past their check; once it has deleted the file, and no marker
   is there, when n watchers are past it or have it listed.
   */
  lemma HandlingBoundsStarts(s: World, run: Run, step: Step, n: nat)
    requires Inv(s) && run in s.open && step in {MarkSource(run), DeleteSource(run)}
    ensures CanStart(Next(s, step), run.file, n)
       <==> n <= PendingOf(s.watchers, run.file, step == MarkSource(run) || run.file in s.marked)
  {
    StepKeepsInv(s, step);
    StaleStartsIff(Next(s, step), run.file, n);
  }
}
