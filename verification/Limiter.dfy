/**
 Transcode admission control (pkg/transcodelimiter/limiter.go): a slot supplier whose
 reservations record nothing. Only marking a granted permit counts it in flight and
 starts the cooldown, so what the static cap and the cooldown really bound depends on
 how many permits are granted but not yet marked.
 */
module Limiter {
  import opened Arithmetic
  import opened Wrappers

  /** A permit's identity; the source uses the address of a fresh allocation. */
  type Permit = nat

  /** Instants and durations in nanoseconds. Instant 0 stands for Go's zero time. */
  type Instant = int

  const DEFAULT_STATIC_CAP := 5
  const DEFAULT_GPU_THRESHOLD := 0.8
  const DEFAULT_COOLDOWN := 3_000_000_000

  datatype Config = Config(staticCap: int, gpuThreshold: real, cooldown: int) {
    predicate Valid() {
      staticCap >= 1 && 0.0 < gpuThreshold <= 1.0 && cooldown >= 1
    }

    /** The defaults New applies: field by field, a usable value stays and any other is replaced. */
    function Normalized(): (c: Config)
      ensures c.Valid()
      ensures Valid() ==> c == this
      ensures c.staticCap == if staticCap >= 1 then staticCap else 5
      ensures c.gpuThreshold == if 0.0 < gpuThreshold <= 1.0 then gpuThreshold else 0.8
      ensures c.cooldown == if cooldown >= 1 then cooldown else 3_000_000_000
    {
      Config(if staticCap <= 0 then DEFAULT_STATIC_CAP else staticCap,
             if gpuThreshold <= 0.0 || gpuThreshold > 1.0 then DEFAULT_GPU_THRESHOLD else gpuThreshold,
             if cooldown <= 0 then DEFAULT_COOLDOWN else cooldown)
    }
  }

  /** The fields guarded by the limiter's mutex. */
  datatype State = State(inFlight: int, lastAdmit: Instant, fallback: bool, marked: set<Permit>)

  /** `retryAfter` is 0 when the wait is not for a known time. */
  datatype Admission = Admission(admitted: bool, retryAfter: int)

  function AdmissionState(cfg: Config, s: State, load: real, now: Instant): Admission {
    if s.inFlight >= cfg.staticCap then Admission(false, 0)
    else if s.fallback then Admission(true, 0)
    else if load >= cfg.gpuThreshold then Admission(false, 0)
    else if s.lastAdmit != 0 && now - s.lastAdmit < cfg.cooldown
    then Admission(false, cfg.cooldown - (now - s.lastAdmit))
    else Admission(true, 0)
  }

  function Marked(s: State, permit: Option<Permit>, now: Instant): State {
    if permit.Some? && permit.value in s.marked then s
    else s.(inFlight := s.inFlight + 1,
            lastAdmit := now,
            marked := s.marked + if permit.Some? then {permit.value} else {})
  }

  function Released(s: State, permit: Option<Permit>): State {
    if permit.Some? && permit.value !in s.marked then s
    else s.(inFlight := if s.inFlight > 0 then s.inFlight - 1 else s.inFlight,
            marked := s.marked - if permit.Some? then {permit.value} else {})
  }

  class Limiter {
    const cfg: Config
    var inFlight: int
    var lastAdmit: Instant
    var fallback: bool
    var marked: set<Permit>
    var nextPermit: Permit

    constructor New(cfg: Config, samplerFailed: bool)
      ensures this.cfg == cfg.Normalized()
      ensures Snapshot() == State(0, 0, samplerFailed, {})
    {
      this.cfg := cfg.Normalized();
      inFlight, lastAdmit, fallback, marked, nextPermit := 0, 0, samplerFailed, {}, 0;
    }

    function Snapshot(): State
      reads this
    {
      State(inFlight, lastAdmit, fallback, marked)
    }

    /** A reservation changes no counter: it only hands out a permit never handed out before. */
    method TryReserveSlot(load: real, now: Instant) returns (permit: Option<Permit>)
      modifies this`nextPermit
      ensures permit.Some? <==>
                && inFlight < cfg.staticCap
                && (fallback || (load < cfg.gpuThreshold && (lastAdmit == 0 || now - lastAdmit >= cfg.cooldown)))
      ensures permit.Some? ==> permit.value == old(nextPermit) < nextPermit
      ensures permit.None? ==> nextPermit == old(nextPermit)
    {
      if AdmissionState(cfg, Snapshot(), load, now).admitted {
        permit := Some(nextPermit);
        nextPermit := nextPermit + 1;
      } else {
        permit := None;
      }
    }

    method MarkUsed(permit: Option<Permit>, now: Instant)
      modifies this`inFlight, this`lastAdmit, this`marked
      ensures Snapshot() == Marked(old(Snapshot()), permit, now)
    {
      if permit.Some? {
        if permit.value in marked {
          return;
        }
        marked := marked + {permit.value};
      }
      lastAdmit := now;
      inFlight := inFlight + 1;
    }

    method Release(permit: Option<Permit>)
      modifies this`inFlight, this`marked
      ensures Snapshot() == Released(old(Snapshot()), permit)
    {
      if permit.None? {
        if inFlight > 0 {
          inFlight := inFlight - 1;
        }
        return;
      }
      if permit.value !in marked {
        return;
      }
      marked := marked - {permit.value};
      if inFlight > 0 {
        inFlight := inFlight - 1;
      }
    }

    /** The sampler's failure signal; fallback is never left again. */
    method WatchFallback()
      modifies this`fallback
      ensures Snapshot() == old(Snapshot()).(fallback := true)
    {
      fallback := true;
    }
  }

  // --- Runs ---

  /** The limiter with its clients: who holds an unmarked permit, and when marks happened. */
  datatype System = System(lim: State, outstanding: set<Permit>, issued: Permit, clock: Instant, marks: seq<Instant>)

  datatype Step =
    | Grant(load: real)
    | Mark(permit: Permit)
    | Release(permit: Permit)
    | Tick(elapsed: nat)
    | SamplerFails

  function Initial(startup: Instant): System {
    System(State(0, 0, false, {}), {}, 0, startup, [])
  }

  /**
   What the limiter and its clients may do: at most `k` permits are out unmarked, and only
   a permit that was granted and not given back is marked (possibly twice).
   */
  predicate Enabled(cfg: Config, k: nat, sys: System, step: Step) {
    match step
    case Grant(load) => AdmissionState(cfg, sys.lim, load, sys.clock).admitted && |sys.outstanding| < k
    case Mark(p) => p in sys.outstanding || p in sys.lim.marked
    case Release(_) => true
    case Tick(_) => true
    case SamplerFails => true
  }

  function Do(sys: System, step: Step): System {
    match step
    case Grant(_) => sys.(outstanding := sys.outstanding + {sys.issued}, issued := sys.issued + 1)
    case Mark(p) =>
      sys.(lim := Marked(sys.lim, Some(p), sys.clock),
           outstanding := sys.outstanding - {p},
           marks := if p in sys.lim.marked then sys.marks else sys.marks + [sys.clock])
    case Release(p) => sys.(lim := Released(sys.lim, Some(p)), outstanding := sys.outstanding - {p})
    case Tick(elapsed) => sys.(clock := sys.clock + elapsed)
    case SamplerFails => sys.(lim := sys.lim.(fallback := true))
  }

  function After(startup: Instant, steps: seq<Step>): System {
    if steps == [] then Initial(startup) else Do(After(startup, steps[..|steps| - 1]), steps[|steps| - 1])
  }

  predicate Legal(cfg: Config, k: nat, startup: Instant, steps: seq<Step>) {
    steps != [] ==>
      && Legal(cfg, k, startup, steps[..|steps| - 1])
      && Enabled(cfg, k, After(startup, steps[..|steps| - 1]), steps[|steps| - 1])
  }

  /** Counters and permit bookkeeping. */
  ghost predicate Bounded(cfg: Config, k: nat, sys: System) {
    && sys.lim.inFlight == |sys.lim.marked|
    && sys.lim.marked !! sys.outstanding
    && (forall p :: p in sys.lim.marked ==> p < sys.issued)
    && (forall p :: p in sys.outstanding ==> p < sys.issued)
    && |sys.outstanding| <= k
    && sys.lim.inFlight + |sys.outstanding| <= cfg.staticCap + k - 1
  }

  /** The clock never runs back past a mark, and the last mark is the cooldown's start. */
  ghost predicate Stamped(sys: System) {
    && sys.clock > 0
    && (forall i :: 0 <= i < |sys.marks| ==> 0 < sys.marks[i] <= sys.clock)
    && (forall i, j :: 0 <= i <= j < |sys.marks| ==> sys.marks[i] <= sys.marks[j])
    && sys.lim.lastAdmit == (if sys.marks == [] then 0 else sys.marks[|sys.marks| - 1])
  }

  /** A window still open at the clock has room for every permit that is out. */
  ghost predicate OpenWindowsHaveRoom(cooldown: int, k: nat, marks: seq<Instant>, clock: Instant, outstanding: nat) {
    forall i :: 0 <= i < |marks| && clock - marks[i] < cooldown ==> |marks| - i + outstanding <= k
  }

  /** No window shorter than `cooldown` holds more than `k` of the marks. */
  ghost predicate WindowsHold(cooldown: int, k: nat, marks: seq<Instant>) {
    forall i, j :: 0 <= i <= j < |marks| && marks[j] - marks[i] < cooldown ==> j - i + 1 <= k
  }

  ghost predicate Spaced(cfg: Config, k: nat, sys: System) {
    && Stamped(sys)
    && (!sys.lim.fallback ==>
          && OpenWindowsHaveRoom(cfg.cooldown, k, sys.marks, sys.clock, |sys.outstanding|)
          && WindowsHold(cfg.cooldown, k, sys.marks))
  }

  lemma RemoveSize(s: set<Permit>, p: Permit)
    ensures |s - {p}| == |s| - if p in s then 1 else 0
  {
    if p !in s {
      assert s - {p} == s;
    }
  }

  lemma MarkKeepsBounded(cfg: Config, k: nat, sys: System, p: Permit)
    requires cfg.Valid() && Bounded(cfg, k, sys) && Enabled(cfg, k, sys, Mark(p))
    ensures Bounded(cfg, k, Do(sys, Mark(p)))
  {
    RemoveSize(sys.outstanding, p);
    if p in sys.lim.marked {
      assert sys.outstanding - {p} == sys.outstanding;
    }
  }

  lemma ReleaseKeepsBounded(cfg: Config, k: nat, sys: System, p: Permit)
    requires cfg.Valid() && Bounded(cfg, k, sys)
    ensures Bounded(cfg, k, Do(sys, Release(p)))
  {
    RemoveSize(sys.outstanding, p);
    RemoveSize(sys.lim.marked, p);
  }

  lemma GrantKeepsBounded(cfg: Config, k: nat, sys: System, load: real)
    requires cfg.Valid() && Bounded(cfg, k, sys) && Enabled(cfg, k, sys, Grant(load))
    ensures Bounded(cfg, k, Do(sys, Grant(load)))
  {
  }

  /** A grant in probe mode finds every window closed. */
  lemma GrantFindsWindowsClosed(cfg: Config, k: nat, sys: System, load: real)
    requires cfg.Valid() && Stamped(sys) && !sys.lim.fallback && Enabled(cfg, k, sys, Grant(load))
    ensures forall i :: 0 <= i < |sys.marks| ==> sys.clock - sys.marks[i] >= cfg.cooldown
  {
    forall i | 0 <= i < |sys.marks| ensures sys.clock - sys.marks[i] >= cfg.cooldown {
      assert sys.marks[i] <= sys.marks[|sys.marks| - 1];
    }
  }

  /** A mark moves one permit from "out" into every open window. */
  lemma MarkFillsWindows(cooldown: int, k: nat, marks: seq<Instant>, clock: Instant, outstanding: nat)
    requires outstanding >= 1 && outstanding <= k
    requires OpenWindowsHaveRoom(cooldown, k, marks, clock, outstanding) && WindowsHold(cooldown, k, marks)
    ensures OpenWindowsHaveRoom(cooldown, k, marks + [clock], clock, outstanding - 1)
    ensures WindowsHold(cooldown, k, marks + [clock])
  {
  }

  lemma MarkKeepsSpaced(cfg: Config, k: nat, sys: System, p: Permit)
    requires cfg.Valid() && Bounded(cfg, k, sys) && Spaced(cfg, k, sys) && Enabled(cfg, k, sys, Mark(p))
    ensures Spaced(cfg, k, Do(sys, Mark(p)))
  {
    RemoveSize(sys.outstanding, p);
    if p in sys.lim.marked {
      assert p !in sys.outstanding && sys.outstanding - {p} == sys.outstanding;
    } else if !sys.lim.fallback {
      MarkFillsWindows(cfg.cooldown, k, sys.marks, sys.clock, |sys.outstanding|);
    }
  }

  lemma ReleaseKeepsSpaced(cfg: Config, k: nat, sys: System, p: Permit)
    requires cfg.Valid() && Spaced(cfg, k, sys)
    ensures Spaced(cfg, k, Do(sys, Release(p)))
  {
    RemoveSize(sys.outstanding, p);
  }

  lemma StepKeepsSpaced(cfg: Config, k: nat, sys: System, step: Step)
    requires cfg.Valid() && Bounded(cfg, k, sys) && Spaced(cfg, k, sys) && Enabled(cfg, k, sys, step)
    ensures Spaced(cfg, k, Do(sys, step))
  {
    match step
    case Grant(load) =>
      if !sys.lim.fallback {
        GrantFindsWindowsClosed(cfg, k, sys, load);
      }
    case Mark(p) => MarkKeepsSpaced(cfg, k, sys, p);
    case Release(p) => ReleaseKeepsSpaced(cfg, k, sys, p);
    case Tick(_) =>
    case SamplerFails =>
  }

  lemma {:induction false} RunsKeepInvariants(cfg: Config, k: nat, startup: Instant, steps: seq<Step>)
    requires cfg.Valid() && k >= 1 && startup > 0 && Legal(cfg, k, startup, steps)
    ensures Bounded(cfg, k, After(startup, steps)) && Spaced(cfg, k, After(startup, steps))
  {
    if steps != [] {
      var prior := steps[..|steps| - 1];
      RunsKeepInvariants(cfg, k, startup, prior);
      StepKeepsSpaced(cfg, k, After(startup, prior), steps[|steps| - 1]);
    }
  }

  /**
   In every run with at most `k` unmarked permits, the in-flight count is the number of
   marked permits and, with the permits still out, stays below the cap plus `k`.
   */
  lemma {:induction false} AdmissionBound(cfg: Config, k: nat, startup: Instant, steps: seq<Step>)
    requires cfg.Valid() && k >= 1 && startup > 0 && Legal(cfg, k, startup, steps)
    ensures var sys := After(startup, steps);
            && sys.lim.inFlight == |sys.lim.marked|
            && sys.lim.inFlight + |sys.outstanding| <= cfg.staticCap + k - 1
  {
    RunsKeepInvariants(cfg, k, startup, steps);
  }

  /**
   A mark counts one more transcode, and giving the permit back undoes it but for the cooldown, for a
   permit not marked before and for the nil permit alike; and no release takes the count below zero.
   */
  lemma ReleaseUndoesMark(s: State, permit: Option<Permit>, now: Instant)
    requires s.inFlight >= 0 && (permit.Some? ==> permit.value !in s.marked)
    ensures Marked(s, permit, now).inFlight == s.inFlight + 1
    ensures Released(Marked(s, permit, now), permit) == s.(lastAdmit := now)
    ensures Released(s, permit).inFlight >= 0
  {
    if permit.Some? {
      assert s.marked + {permit.value} - {permit.value} == s.marked;
    } else {
      assert s.marked + {} - {} == s.marked;
    }
  }

  /** Giving back a permit that was never marked does not change what the limiter counts. */
  lemma UnusedReleaseChangesNothing(s: State, p: Permit)
    ensures p !in s.marked <==> Released(s, Some(p)) == s
  {
    if p in s.marked {
      assert p !in Released(s, Some(p)).marked;
    }
  }

  /** While the probe is in charge, no window shorter than the cooldown holds more than `k` marks. */
  lemma CooldownWindows(cfg: Config, k: nat, startup: Instant, steps: seq<Step>)
    requires cfg.Valid() && k >= 1 && startup > 0 && Legal(cfg, k, startup, steps)
    requires !After(startup, steps).lim.fallback
    ensures WindowsHold(cfg.cooldown, k, After(startup, steps).marks)
  {
    RunsKeepInvariants(cfg, k, startup, steps);
  }

  /** The limiter is in fallback from the sampler's failure on, and before it never. */
  lemma {:induction false} FallbackIffSamplerFailed(cfg: Config, k: nat, startup: Instant, steps: seq<Step>)
    ensures After(startup, steps).lim.fallback <==> SamplerFails in steps
  {
    if steps != [] {
      var prior, step := steps[..|steps| - 1], steps[|steps| - 1];
      FallbackIffSamplerFailed(cfg, k, startup, prior);
      assert steps == prior + [step];
    }
  }

  /** The cooldown since every mark is over. */
  ghost predicate CooledDown(cfg: Config, sys: System) {
    forall i :: 0 <= i < |sys.marks| ==> sys.clock - sys.marks[i] >= cfg.cooldown
  }

  lemma CooledDownSinceLast(cfg: Config, sys: System)
    requires cfg.Valid() && Stamped(sys)
    ensures CooledDown(cfg, sys) <==> sys.lim.lastAdmit == 0 || sys.clock - sys.lim.lastAdmit >= cfg.cooldown
  {
    forall i | 0 <= i < |sys.marks| ensures sys.marks[i] <= sys.marks[|sys.marks| - 1] {
    }
  }

  /**
   The gate, over runs: a permit can be granted exactly when fewer than StaticCap marked permits are
   in flight and the sampler either has failed, or reports a load below the threshold and every mark
   made so far is a cooldown ago.
   */
  lemma GrantableIff(cfg: Config, k: nat, startup: Instant, steps: seq<Step>, load: real)
    requires cfg.Valid() && k >= 1 && startup > 0 && Legal(cfg, k, startup, steps)
    ensures var sys := After(startup, steps);
            Legal(cfg, k, startup, steps + [Grant(load)])
            <==> && |sys.outstanding| < k
                 && |sys.lim.marked| < cfg.staticCap
                 && (SamplerFails in steps || (load < cfg.gpuThreshold && CooledDown(cfg, sys)))
  {
    RunsKeepInvariants(cfg, k, startup, steps);
    FallbackIffSamplerFailed(cfg, k, startup, steps);
    CooledDownSinceLast(cfg, After(startup, steps));
    assert (steps + [Grant(load)])[..|steps + [Grant(load)]| - 1] == steps;
  }

  lemma {:induction false} PrefixIsLegal(cfg: Config, k: nat, startup: Instant, steps: seq<Step>, n: nat)
    requires n <= |steps| && Legal(cfg, k, startup, steps)
    ensures Legal(cfg, k, startup, steps[..n])
  {
    if n == |steps| {
      assert steps[..n] == steps;
    } else {
      PrefixIsLegal(cfg, k, startup, steps[..|steps| - 1], n);
      assert steps[..|steps| - 1][..n] == steps[..n];
    }
  }

  /** So no run holds a grant at or above the threshold, or within a cooldown, before the sampler failed. */
  lemma EveryGrantIsJustified(cfg: Config, k: nat, startup: Instant, steps: seq<Step>, n: nat)
    requires cfg.Valid() && k >= 1 && startup > 0 && Legal(cfg, k, startup, steps)
    requires n < |steps| && steps[n].Grant?
    ensures var sys := After(startup, steps[..n]);
            && |sys.lim.marked| < cfg.staticCap
            && (SamplerFails in steps[..n] || (steps[n].load < cfg.gpuThreshold && CooledDown(cfg, sys)))
  {
    PrefixIsLegal(cfg, k, startup, steps, n);
    PrefixIsLegal(cfg, k, startup, steps, n + 1);
    assert steps[..n + 1] == steps[..n] + [Grant(steps[n].load)];
    GrantableIff(cfg, k, startup, steps[..n], steps[n].load);
  }

  /** `n` admissions in a row, each marked at once, in static-cap mode. */
  function Fill(n: nat): seq<Step> {
    if n == 0 then [SamplerFails] else Fill(n - 1) + [Grant(0.0), Mark(n - 1)]
  }

  /** A system where `n` permits from `lo` on are out, and none of them was marked. */
  ghost predicate Drawn(sys: System, lo: Permit, n: nat) {
    && |sys.outstanding| == n && (forall p :: p in sys.outstanding <==> lo <= p < lo + n)
    && lo + n <= sys.issued
    && (forall p :: p in sys.lim.marked ==> p < lo || lo + n <= p < sys.issued)
  }

  lemma GrantDraws(cfg: Config, k: nat, sys: System, lo: Permit, n: nat)
    requires Drawn(sys, lo, n) && lo + n == sys.issued && n < k
    requires AdmissionState(cfg, sys.lim, 0.0, sys.clock).admitted
    ensures Enabled(cfg, k, sys, Grant(0.0))
    ensures Drawn(Do(sys, Grant(0.0)), lo, n + 1)
    ensures Do(sys, Grant(0.0)).lim == sys.lim && Do(sys, Grant(0.0)).issued == sys.issued + 1
    ensures Do(sys, Grant(0.0)).clock == sys.clock && Do(sys, Grant(0.0)).marks == sys.marks
  {
  }

  lemma MarkUsesLast(cfg: Config, k: nat, sys: System, lo: Permit, n: nat)
    requires Drawn(sys, lo, n) && n > 0
    ensures var step := Mark(lo + n - 1);
            var next := Do(sys, step);
            && Enabled(cfg, k, sys, step)
            && Drawn(next, lo, n - 1)
            && next.lim.inFlight == sys.lim.inFlight + 1 && next.lim.fallback == sys.lim.fallback
            && next.issued == sys.issued && next.clock == sys.clock && next.marks == sys.marks + [sys.clock]
  {
    RemoveSize(sys.outstanding, lo + n - 1);
  }

  /** The run `steps` is legal and ends in `sys`. */
  ghost predicate Reaches(cfg: Config, k: nat, startup: Instant, steps: seq<Step>, sys: System) {
    Legal(cfg, k, startup, steps) && After(startup, steps) == sys
  }

  lemma Extend(cfg: Config, k: nat, startup: Instant, from: seq<Step>, sys: System, step: Step, to: seq<Step>)
    requires Reaches(cfg, k, startup, from, sys) && Enabled(cfg, k, sys, step) && to == from + [step]
    ensures Reaches(cfg, k, startup, to, Do(sys, step))
  {
  }

  /** Static-cap mode with `n` permits, all of them marked. */
  ghost predicate Filled(sys: System, n: nat) {
    sys.lim.inFlight == n && sys.lim.fallback && sys.issued == n && Drawn(sys, n, 0)
  }

  lemma FillStepFills(cfg: Config, k: nat, n: nat, sys: System)
    requires cfg.Valid() && k >= 1 && n < cfg.staticCap && Filled(sys, n)
    ensures Enabled(cfg, k, sys, Grant(0.0))
    ensures Enabled(cfg, k, Do(sys, Grant(0.0)), Mark(n))
    ensures Filled(Do(Do(sys, Grant(0.0)), Mark(n)), n + 1)
  {
    GrantDraws(cfg, k, sys, n, 0);
    MarkUsesLast(cfg, k, Do(sys, Grant(0.0)), n, 1);
  }

  /** One draw and one mark in static-cap mode. */
  lemma FillStep(cfg: Config, k: nat, startup: Instant, n: nat, sys: System)
    requires cfg.Valid() && k >= 1 && n < cfg.staticCap && Reaches(cfg, k, startup, Fill(n), sys) && Filled(sys, n)
    ensures var next := Do(Do(sys, Grant(0.0)), Mark(n));
            Reaches(cfg, k, startup, Fill(n + 1), next) && Filled(next, n + 1)
  {
    var drawn := Do(sys, Grant(0.0));
    FillStepFills(cfg, k, n, sys);
    Extend(cfg, k, startup, Fill(n), sys, Grant(0.0), Fill(n) + [Grant(0.0)]);
    assert Fill(n + 1) == Fill(n) + [Grant(0.0)] + [Mark(n)];
    Extend(cfg, k, startup, Fill(n) + [Grant(0.0)], drawn, Mark(n), Fill(n + 1));
  }

  lemma FillStarts(cfg: Config, k: nat, startup: Instant) returns (sys: System)
    ensures Reaches(cfg, k, startup, Fill(0), sys) && Filled(sys, 0)
  {
    assert Fill(0) == [] + [SamplerFails];
    Extend(cfg, k, startup, [], Initial(startup), SamplerFails, Fill(0));
    sys := Do(Initial(startup), SamplerFails);
  }

  lemma {:induction false} FillReaches(cfg: Config, k: nat, startup: Instant, n: nat) returns (sys: System)
    requires cfg.Valid() && k >= 1 && n <= cfg.staticCap
    ensures Reaches(cfg, k, startup, Fill(n), sys) && Filled(sys, n)
  {
    if n == 0 {
      sys := FillStarts(cfg, k, startup);
    } else {
      var prior := FillReaches(cfg, k, startup, n - 1);
      FillStep(cfg, k, startup, n - 1, prior);
      sys := Do(Do(prior, Grant(0.0)), Mark(n - 1));
    }
  }

  function Grants(steps: seq<Step>, m: nat): seq<Step> {
    if m == 0 then steps else Grants(steps, m - 1) + [Grant(0.0)]
  }

  /** From a state that admits, the clients can draw `m <= k` permits without marking any. */
  lemma {:induction false} GrantsReach(cfg: Config, k: nat, startup: Instant, steps: seq<Step>, sys: System, m: nat)
    returns (end: System)
    requires m <= k && Reaches(cfg, k, startup, steps, sys)
    requires Drawn(sys, sys.issued, 0) && AdmissionState(cfg, sys.lim, 0.0, sys.clock).admitted
    ensures Reaches(cfg, k, startup, Grants(steps, m), end)
    ensures Drawn(end, sys.issued, m) && end.issued == sys.issued + m
    ensures end.lim == sys.lim && end.clock == sys.clock && end.marks == sys.marks
  {
    if m == 0 {
      end := sys;
    } else {
      var prior := GrantsReach(cfg, k, startup, steps, sys, m - 1);
      GrantDraws(cfg, k, prior, sys.issued, m - 1);
      Extend(cfg, k, startup, Grants(steps, m - 1), prior, Grant(0.0), Grants(steps, m));
      end := Do(prior, Grant(0.0));
    }
  }

  /** Marks of `lo + n - 1`, `lo + n - 2`, ..., the last `m` of `n` permits. */
  function Marks(steps: seq<Step>, lo: Permit, n: nat, m: nat): seq<Step>
    requires m <= n
  {
    if m == 0 then steps else Marks(steps, lo, n, m - 1) + [Mark(lo + n - m)]
  }

  /** `end` is `sys` after the last `m` of its `n` outstanding permits were marked at once. */
  ghost predicate MarkedLast(sys: System, end: System, lo: Permit, n: nat, m: nat) {
    && m <= n && Drawn(end, lo, n - m)
    && end.lim.inFlight == sys.lim.inFlight + m && end.lim.fallback == sys.lim.fallback
    && end.clock == sys.clock && |end.marks| == |sys.marks| + m
    && forall i :: |sys.marks| <= i < |end.marks| ==> end.marks[i] == sys.clock
  }

  lemma MarkOneMore(cfg: Config, k: nat, sys: System, prior: System, lo: Permit, n: nat, m: nat)
    requires 0 < m <= n && MarkedLast(sys, prior, lo, n, m - 1)
    ensures Enabled(cfg, k, prior, Mark(lo + n - m))
    ensures MarkedLast(sys, Do(prior, Mark(lo + n - m)), lo, n, m)
  {
    MarkUsesLast(cfg, k, prior, lo, n - m + 1);
  }

  function AfterMarks(sys: System, lo: Permit, n: nat, m: nat): System
    requires m <= n
  {
    if m == 0 then sys else Do(AfterMarks(sys, lo, n, m - 1), Mark(lo + n - m))
  }

  lemma {:induction false} AfterMarksHolds(cfg: Config, k: nat, sys: System, lo: Permit, n: nat, m: nat)
    requires m <= n && Drawn(sys, lo, n)
    ensures MarkedLast(sys, AfterMarks(sys, lo, n, m), lo, n, m)
  {
    if m > 0 {
      AfterMarksHolds(cfg, k, sys, lo, n, m - 1);
      MarkOneMore(cfg, k, sys, AfterMarks(sys, lo, n, m - 1), lo, n, m);
    }
  }

  lemma NextMarkEnabled(cfg: Config, k: nat, sys: System, lo: Permit, n: nat, m: nat)
    requires 0 < m <= n && Drawn(sys, lo, n)
    ensures Enabled(cfg, k, AfterMarks(sys, lo, n, m - 1), Mark(lo + n - m))
  {
    AfterMarksHolds(cfg, k, sys, lo, n, m - 1);
    assert lo + n - m in AfterMarks(sys, lo, n, m - 1).outstanding;
  }

  /** Permits that are out can all be marked at once. */
  lemma {:induction false} MarksReach(cfg: Config, k: nat, startup: Instant, steps: seq<Step>, sys: System,
                                      lo: Permit, n: nat, m: nat)
    requires m <= n && Reaches(cfg, k, startup, steps, sys) && Drawn(sys, lo, n)
    ensures Reaches(cfg, k, startup, Marks(steps, lo, n, m), AfterMarks(sys, lo, n, m))
  {
    if m > 0 {
      var prior := AfterMarks(sys, lo, n, m - 1);
      MarksReach(cfg, k, startup, steps, sys, lo, n, m - 1);
      NextMarkEnabled(cfg, k, sys, lo, n, m);
      Extend(cfg, k, startup, Marks(steps, lo, n, m - 1), prior, Mark(lo + n - m), Marks(steps, lo, n, m));
    }
  }

  /** The bound is reached: some run has cap - 1 in flight and `k` permits out on top. */
  lemma AdmissionBoundIsReached(cfg: Config, k: nat, startup: Instant) returns (steps: seq<Step>)
    requires cfg.Valid() && k >= 1 && startup > 0
    ensures Legal(cfg, k, startup, steps)
    ensures var sys := After(startup, steps);
            sys.lim.inFlight == cfg.staticCap - 1 && |sys.outstanding| == k
  {
    var full := FillReaches(cfg, k, startup, cfg.staticCap - 1);
    var end := GrantsReach(cfg, k, startup, Fill(cfg.staticCap - 1), full, k);
    steps := Grants(Fill(cfg.staticCap - 1), k);
  }

  /** So is the window bound: some probe-mode run marks `k` permits at one instant. */
  lemma CooldownWindowIsReached(cfg: Config, k: nat, startup: Instant) returns (steps: seq<Step>)
    requires cfg.Valid() && startup > 0
    ensures Legal(cfg, k, startup, steps) && !After(startup, steps).lim.fallback
    ensures var marks := After(startup, steps).marks;
            |marks| == k && forall i :: 0 <= i < k ==> marks[i] == startup
  {
    var drawn := GrantsReach(cfg, k, startup, [], Initial(startup), k);
    MarksReach(cfg, k, startup, Grants([], k), drawn, 0, k, k);
    AfterMarksHolds(cfg, k, drawn, 0, k, k);
    steps := Marks(Grants([], k), 0, k, k);
  }

  ghost predicate CapHolds(cfg: Config, k: nat, startup: Instant) {
    forall steps :: Legal(cfg, k, startup, steps) ==> After(startup, steps).lim.inFlight <= cfg.staticCap
  }

  /** "At most StaticCap in flight" is true of every run exactly when one permit at a time is out. */
  lemma CapHoldsIffOneOutstanding(cfg: Config, k: nat, startup: Instant)
    requires cfg.Valid() && k >= 1 && startup > 0
    ensures CapHolds(cfg, k, startup) <==> k == 1
  {
    if k == 1 {
      forall steps | Legal(cfg, k, startup, steps)
        ensures After(startup, steps).lim.inFlight <= cfg.staticCap
      {
        AdmissionBound(cfg, k, startup, steps);
      }
    } else {
      var lo := cfg.staticCap - 1;
      var full := FillReaches(cfg, k, startup, lo);
      var drawn := GrantsReach(cfg, k, startup, Fill(lo), full, k);
      var steps := Marks(Grants(Fill(lo), k), lo, k, k);
      MarksReach(cfg, k, startup, Grants(Fill(lo), k), drawn, lo, k, k);
      AfterMarksHolds(cfg, k, drawn, lo, k, k);
      assert Legal(cfg, k, startup, steps) && After(startup, steps).lim.inFlight > cfg.staticCap;
    }
  }

  /** Successive marks of probe-mode runs are at least a cooldown apart. */
  ghost predicate SpacingHolds(cfg: Config, k: nat, startup: Instant) {
    forall steps :: Legal(cfg, k, startup, steps) && !After(startup, steps).lim.fallback ==>
      var marks := After(startup, steps).marks;
      forall i :: 0 <= i < |marks| - 1 ==> marks[i + 1] - marks[i] >= cfg.cooldown
  }

  /** The documented minimum interval between marks holds exactly when one permit at a time is out. */
  lemma SpacingHoldsIffOneOutstanding(cfg: Config, k: nat, startup: Instant)
    requires cfg.Valid() && k >= 1 && startup > 0
    ensures SpacingHolds(cfg, k, startup) <==> k == 1
  {
    if k == 1 {
      forall steps | Legal(cfg, k, startup, steps) && !After(startup, steps).lim.fallback
        ensures var marks := After(startup, steps).marks;
                forall i :: 0 <= i < |marks| - 1 ==> marks[i + 1] - marks[i] >= cfg.cooldown
      {
        CooldownWindows(cfg, k, startup, steps);
      }
    } else {
      var drawn := GrantsReach(cfg, k, startup, [], Initial(startup), 2);
      MarksReach(cfg, k, startup, Grants([], 2), drawn, 0, 2, 2);
      AfterMarksHolds(cfg, k, drawn, 0, 2, 2);
      var steps := Marks(Grants([], 2), 0, 2, 2);
      var marks := After(startup, steps).marks;
      assert Legal(cfg, k, startup, steps) && !After(startup, steps).lim.fallback;
      assert marks[0 + 1] - marks[0] < cfg.cooldown;
    }
  }

  /**
   The wait that a refusal asks for is exact: from the same state and load a later request is
   admitted if and only if that long has passed. Without a wait, time alone never helps.
   */
  lemma RetryAfterIsExact(cfg: Config, s: State, load: real, now: Instant, later: Instant)
    requires cfg.Valid() && now <= later && !AdmissionState(cfg, s, load, now).admitted
    ensures var retryAfter := AdmissionState(cfg, s, load, now).retryAfter;
            AdmissionState(cfg, s, load, later).admitted <==> retryAfter > 0 && later >= now + retryAfter
  {
  }

  // --- The blocking reservation ---

  datatype Wake = TimerFired | CtxDone | LimiterClosed

  /** One turn of the polling loop: what it saw under the mutex, and what ended its wait. */
  datatype Observation = Observation(state: State, load: real, now: Instant, wake: Wake)

  datatype Reservation = Granted | Cancelled | Closed | StillBlocked

  datatype Outcome = Outcome(result: Reservation, waits: seq<int>)

  function Wait(cfg: Config, poll: int, o: Observation): (w: int)
    requires poll > 0
    ensures 0 < w <= poll
  {
    var retryAfter := AdmissionState(cfg, o.state, o.load, o.now).retryAfter;
    if 0 < retryAfter < poll then retryAfter else poll
  }

  /** The reservation as a function of what its turns observe. */
  function Reserve(cfg: Config, poll: int, turns: seq<Observation>): Outcome
    requires poll > 0
  {
    if turns == [] then Outcome(StillBlocked, [])
    else if AdmissionState(cfg, turns[0].state, turns[0].load, turns[0].now).admitted then Outcome(Granted, [])
    else
      match turns[0].wake
      case CtxDone => Outcome(Cancelled, [Wait(cfg, poll, turns[0])])
      case LimiterClosed => Outcome(Closed, [Wait(cfg, poll, turns[0])])
      case TimerFired => Following([Wait(cfg, poll, turns[0])], Reserve(cfg, poll, turns[1..]))
  }

  /** An outcome reached after some more sleeps. */
  function Following(waits: seq<int>, rest: Outcome): Outcome {
    Outcome(rest.result, waits + rest.waits)
  }

  /** What a turn must see: a free slot, and the sampler failed or unloaded with the cooldown over. */
  ghost predicate SeesOpening(cfg: Config, o: Observation) {
    && o.state.inFlight < cfg.staticCap
    && (|| o.state.fallback
        || (o.load < cfg.gpuThreshold && (o.state.lastAdmit == 0 || o.now - o.state.lastAdmit >= cfg.cooldown)))
  }

  /** The time a refused turn sets its timer to: the rest of the cooldown if nothing else blocks. */
  ghost function Pause(cfg: Config, poll: int, o: Observation): int {
    if o.state.inFlight < cfg.staticCap && o.load < cfg.gpuThreshold
       && o.state.lastAdmit + cfg.cooldown - o.now < poll
    then o.state.lastAdmit + cfg.cooldown - o.now
    else poll
  }

  /** All turns before the `n`-th were refused and slept to the end. */
  ghost predicate SleepsThrough(cfg: Config, turns: seq<Observation>, n: nat) {
    n <= |turns| && forall i :: 0 <= i < n ==> !SeesOpening(cfg, turns[i]) && turns[i].wake == TimerFired
  }

  /** Turn `n` is the first that sees an opening or is interrupted. */
  ghost predicate Stops(cfg: Config, turns: seq<Observation>, n: nat) {
    n < |turns| && SleepsThrough(cfg, turns, n) && (SeesOpening(cfg, turns[n]) || turns[n].wake != TimerFired)
  }

  lemma FirstStop(cfg: Config, turns: seq<Observation>, n: nat, m: nat)
    requires Stops(cfg, turns, n) && SleepsThrough(cfg, turns, m)
    ensures m <= n
  {
  }

  /** The reservation ends in turn `n` with `out`; `n == |turns|` if it does not end. */
  ghost predicate EndsAt(cfg: Config, poll: int, turns: seq<Observation>, n: nat, out: Outcome) {
    && (if n == |turns| then SleepsThrough(cfg, turns, n) && out.result == StillBlocked && |out.waits| == n
        else
          && Stops(cfg, turns, n)
          && (if SeesOpening(cfg, turns[n]) then out.result == Granted && |out.waits| == n
              else out.result == (if turns[n].wake == CtxDone then Cancelled else Closed) && |out.waits| == n + 1))
    && forall i :: 0 <= i < |out.waits| ==> out.waits[i] == Pause(cfg, poll, turns[i])
  }

  ghost predicate Ends(cfg: Config, poll: int, turns: seq<Observation>, out: Outcome) {
    exists n: nat :: EndsAt(cfg, poll, turns, n, out)
  }

  /** That settles both the turn and the outcome. */
  lemma OneEnd(cfg: Config, poll: int, turns: seq<Observation>, n: nat, out: Outcome, m: nat, other: Outcome)
    requires EndsAt(cfg, poll, turns, n, out) && EndsAt(cfg, poll, turns, m, other)
    ensures n == m && out == other
  {
    if n < |turns| {
      FirstStop(cfg, turns, n, m);
    }
    if m < |turns| {
      FirstStop(cfg, turns, m, n);
    }
  }

  lemma TurnIsJudged(cfg: Config, poll: int, o: Observation)
    requires poll > 0
    ensures AdmissionState(cfg, o.state, o.load, o.now).admitted <==> SeesOpening(cfg, o)
    ensures !SeesOpening(cfg, o) ==> Wait(cfg, poll, o) == Pause(cfg, poll, o)
  {
  }

  /** What a reservation does, on the fields its turns observe. */
  lemma {:induction false} ReserveEnds(cfg: Config, poll: int, turns: seq<Observation>) returns (n: nat)
    requires poll > 0
    ensures EndsAt(cfg, poll, turns, n, Reserve(cfg, poll, turns))
  {
    n := 0;
    if turns != [] {
      TurnIsJudged(cfg, poll, turns[0]);
      if !SeesOpening(cfg, turns[0]) && turns[0].wake == TimerFired {
        var m := ReserveEnds(cfg, poll, turns[1..]);
        n := m + 1;
      }
    }
  }

  lemma EndIsReserve(cfg: Config, poll: int, turns: seq<Observation>, n: nat, out: Outcome)
    requires poll > 0 && EndsAt(cfg, poll, turns, n, out)
    ensures Ends(cfg, poll, turns, out) && out == Reserve(cfg, poll, turns)
  {
    var end := ReserveEnds(cfg, poll, turns);
    OneEnd(cfg, poll, turns, n, out, end, Reserve(cfg, poll, turns));
  }

  /**
   A reservation is granted exactly when some turn sees an opening and every earlier turn ended by
   its timer; it ends in an error exactly when the context or the limiter interrupts a refused turn
   first.
   */
  lemma {:induction false} ReserveGrantsIff(cfg: Config, poll: int, turns: seq<Observation>)
    requires poll > 0
    ensures var result := Reserve(cfg, poll, turns).result;
            && (result == Granted <==> exists n: nat :: Stops(cfg, turns, n) && SeesOpening(cfg, turns[n]))
            && (result == Cancelled <==>
                exists n: nat :: Stops(cfg, turns, n) && !SeesOpening(cfg, turns[n]) && turns[n].wake == CtxDone)
            && (result == Closed <==>
                exists n: nat :: Stops(cfg, turns, n) && !SeesOpening(cfg, turns[n]) && turns[n].wake == LimiterClosed)
            && (result == StillBlocked <==> SleepsThrough(cfg, turns, |turns|))
  {
    var end := ReserveEnds(cfg, poll, turns);
    forall n: nat | Stops(cfg, turns, n) ensures n == end {
      FirstStop(cfg, turns, n, end);
      if end < |turns| {
        FirstStop(cfg, turns, end, n);
      }
    }
  }

  /** `waits` are the timers of the first `n` turns. */
  ghost predicate Paused(cfg: Config, poll: int, turns: seq<Observation>, waits: seq<int>, n: nat) {
    |waits| == n <= |turns| && forall i :: 0 <= i < n ==> waits[i] == Pause(cfg, poll, turns[i])
  }

  /** The loop of ReserveSlot; it sleeps a positive time of at most the poll interval per turn. */
  method ReserveSlot(cfg: Config, poll: int, ctxErr: bool, turns: seq<Observation>) returns (out: Outcome)
    requires poll > 0
    ensures out == if ctxErr then Outcome(Cancelled, []) else Reserve(cfg, poll, turns)
    ensures !ctxErr ==> Ends(cfg, poll, turns, out)
    ensures forall i :: 0 <= i < |out.waits| ==> 0 < out.waits[i] <= poll
  {
    if ctxErr {
      return Outcome(Cancelled, []);
    }
    var waits := [];
    for n := 0 to |turns|
      invariant SleepsThrough(cfg, turns, n) && Paused(cfg, poll, turns, waits, n)
      invariant forall i :: 0 <= i < |waits| ==> 0 < waits[i] <= poll
    {
      var o := turns[n];
      TurnIsJudged(cfg, poll, o);
      var admission := AdmissionState(cfg, o.state, o.load, o.now);
      if admission.admitted {
        EndIsReserve(cfg, poll, turns, n, Outcome(Granted, waits));
        return Outcome(Granted, waits);
      }
      var wait := poll;
      if admission.retryAfter > 0 && admission.retryAfter < wait {
        wait := admission.retryAfter;
      }
      assert wait == Wait(cfg, poll, o);
      waits := waits + [wait];
      if o.wake != TimerFired {
        out := Outcome(if o.wake == CtxDone then Cancelled else Closed, waits);
        EndIsReserve(cfg, poll, turns, n, out);
        return;
      }
    }
    out := Outcome(StillBlocked, waits);
    EndIsReserve(cfg, poll, turns, |turns|, out);
  }

  /** Only the cooldown blocks: a free slot, an unloaded probe, the same last mark, exact timers. */
  ghost predicate BlockedByCooldownOnly(cfg: Config, poll: int, turns: seq<Observation>)
    requires poll > 0
  {
    && (forall i :: 0 <= i < |turns| ==>
          && turns[i].state.inFlight < cfg.staticCap
          && !turns[i].state.fallback
          && turns[i].load < cfg.gpuThreshold
          && turns[i].state.lastAdmit == turns[0].state.lastAdmit != 0
          && turns[i].wake == TimerFired)
    && (forall i :: 0 <= i < |turns| - 1 ==> turns[i + 1].now == turns[i].now + Wait(cfg, poll, turns[i]))
  }

  function Sum(xs: seq<int>): int {
    if xs == [] then 0 else xs[0] + Sum(xs[1..])
  }

  function Remaining(cfg: Config, o: Observation): nat {
    var left := cfg.cooldown - (o.now - o.state.lastAdmit);
    if left > 0 then left else 0
  }

  /**
   A reservation blocked only by a cooldown with `r` remaining is granted after
   ceil(r / poll) sleeps that add up to exactly `r`.
   */
  lemma {:induction false} CooldownWaitIsExact(cfg: Config, poll: int, turns: seq<Observation>)
    requires poll > 0 && turns != [] && BlockedByCooldownOnly(cfg, poll, turns)
    requires |turns| > CeilDiv(Remaining(cfg, turns[0]), poll)
    ensures var out := Reserve(cfg, poll, turns);
            var r := Remaining(cfg, turns[0]);
            out.result == Granted && |out.waits| == CeilDiv(r, poll) && Sum(out.waits) == r
    decreases |turns|
  {
    var r := Remaining(cfg, turns[0]);
    if r > 0 {
      CeilDivStep(r, poll);
      assert turns[0 + 1].now == turns[0].now + Wait(cfg, poll, turns[0]);
      CooldownWaitIsExact(cfg, poll, turns[1..]);
    }
  }
}
