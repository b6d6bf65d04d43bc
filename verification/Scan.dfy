/**
 One scan tick (scan in cmd/watcher/watcher.go): a walk of every watch directory that skips
 ignored subtrees, markers and marked files, dispatches the rest, and collects errors
 instead of stopping. The walk order and its error calls are those of filepath.WalkDir.
 Ignore patterns, marker checks and dispatches are oracles; the context is cancelled after
 a number of callbacks.
 */
module Scan {
  import opened Filesystem
  import opened Wrappers
  import Workflow

  /** A directory that cannot be listed in full still yields the entries it got. */
  datatype Entry =
    | FileEntry(path: Path)
    | DirEntry(path: Path, children: seq<Entry>, listFails: bool)
    | Unreadable(path: Path)

  datatype Stat = Exists | Absent | StatFails

  datatype Dispatch = Started | AlreadyStarted | DispatchFails

  datatype Site = Site(ignored: Path -> bool, stat: Path -> Stat, dispatch: Path -> Dispatch)

  datatype Problem = NotListed(path: Path) | NotChecked(path: Path) | NotDispatched(path: Path)

  datatype Tally = Tally(discovered: seq<Path>, submitted: seq<Path>, duplicates: seq<Path>, problems: seq<Problem>)

  const NOTHING := Tally([], [], [], [])

  /** One call of the walk's callback. */
  datatype Visit = AtFile(path: Path) | AtDir(path: Path) | AtError(path: Path)

  function VisitFile(tally: Tally, site: Site, p: Path): Tally {
    if site.ignored(p) || LooksLikeSentinel(Base(p)) then tally
    else
      match site.stat(SentinelPath(p))
      case Exists => tally
      case StatFails => tally.(problems := tally.problems + [NotChecked(p)])
      case Absent => DispatchFile(tally.(discovered := tally.discovered + [p]), p, site.dispatch(p))
  }

  function DispatchFile(found: Tally, p: Path, outcome: Dispatch): Tally {
    match outcome
    case Started => found.(submitted := found.submitted + [p])
    case AlreadyStarted => found.(duplicates := found.duplicates + [p])
    case DispatchFails => found.(problems := found.problems + [NotDispatched(p)])
  }

  function OneVisit(tally: Tally, site: Site, v: Visit): Tally {
    match v
    case AtFile(p) => VisitFile(tally, site, p)
    case AtDir(_) => tally
    case AtError(p) => tally.(problems := tally.problems + [NotListed(p)])
  }

  function TallyOf(site: Site, visits: seq<Visit>): Tally {
    if visits == [] then NOTHING
    else OneVisit(TallyOf(site, visits[..|visits| - 1]), site, visits[|visits| - 1])
  }

  function DirHead(site: Site, p: Path, listFails: bool): seq<Visit> {
    if listFails && !site.ignored(p) then [AtDir(p)] + [AtError(p)] else [AtDir(p)]
  }

  function DirVisits(site: Site, p: Path, children: seq<Entry>, listFails: bool): seq<Visit>
    decreases children, 1
  {
    if site.ignored(p) then DirHead(site, p, listFails)
    else DirHead(site, p, listFails) + VisitsOf(site, children)
  }

  /** The calls a walk makes when nothing cancels it; an ignored directory is not entered. */
  function Visits(site: Site, e: Entry): seq<Visit>
    decreases e
  {
    match e
    case FileEntry(p) => [AtFile(p)]
    case Unreadable(p) => [AtError(p)]
    case DirEntry(p, children, listFails) => DirVisits(site, p, children, listFails)
  }

  function VisitsOf(site: Site, es: seq<Entry>): seq<Visit>
    decreases es, 0
  {
    if es == [] then [] else VisitsOf(site, es[..|es| - 1]) + Visits(site, es[|es| - 1])
  }

  // --- The walk ---

  datatype Action = Continue | SkipDir | Cancelled

  class Walker {
    const site: Site
    var tally: Tally
    /** Callbacks left before the context is cancelled. */
    var budget: nat
    ghost var visits: seq<Visit>

    ghost predicate Valid()
      reads this
    {
      tally == TallyOf(site, visits)
    }

    constructor (site: Site, budget: nat)
      ensures Valid() && visits == [] && this.site == site && this.budget == budget
    {
      this.site, this.budget, this.tally, this.visits := site, budget, NOTHING, [];
    }

    /** The callback on a file. */
    method CheckAndDispatch(p: Path)
      modifies this`tally
      ensures tally == VisitFile(old(tally), site, p)
    {
      if site.ignored(p) || LooksLikeSentinel(Base(p)) {
        return;
      }
      var stat := site.stat(SentinelPath(p));
      if stat == Exists {
        return;
      }
      if stat == StatFails {
        tally := tally.(problems := tally.problems + [NotChecked(p)]);
        return;
      }
      tally := tally.(discovered := tally.discovered + [p]);
      match site.dispatch(p) {
        case Started => tally := tally.(submitted := tally.submitted + [p]);
        case AlreadyStarted => tally := tally.(duplicates := tally.duplicates + [p]);
        case DispatchFails => tally := tally.(problems := tally.problems + [NotDispatched(p)]);
      }
    }

    method Account(v: Visit)
      modifies this`tally
      ensures tally == OneVisit(old(tally), site, v)
    {
      match v {
        case AtError(p) => tally := tally.(problems := tally.problems + [NotListed(p)]);
        case AtDir(_) =>
        case AtFile(p) => CheckAndDispatch(p);
      }
    }

    method Callback(v: Visit) returns (action: Action)
      requires Valid()
      modifies this
      ensures Valid()
      ensures Walked(Log(old(visits), old(budget)), [v], Log(visits, budget), action != Cancelled)
      ensures action == SkipDir <==> old(budget) > 0 && v.AtDir? && site.ignored(v.path)
    {
      if budget == 0 {
        return Cancelled;
      }
      ghost var next := visits + [v];
      OneWalked(visits, budget, v);
      TallyGrows(site, visits, v);
      Account(v);
      budget := budget - 1;
      visits := next;
      return if v.AtDir? && site.ignored(v.path) then SkipDir else Continue;
    }

    method Walk(e: Entry) returns (done: bool)
      requires Valid()
      modifies this
      ensures Valid() && Walked(Log(old(visits), old(budget)), Visits(site, e), Log(visits, budget), done)
      decreases e
    {
      match e {
        case FileEntry(p) =>
          var action := Callback(AtFile(p));
          return action != Cancelled;
        case Unreadable(p) =>
          var action := Callback(AtError(p));
          return action != Cancelled;
        case DirEntry(p, children, listFails) =>
          done := WalkDirectory(p, children, listFails);
      }
    }

    /** The callbacks on a directory itself, before its entries. */
    method EnterDirectory(p: Path, listFails: bool) returns (action: Action)
      requires Valid()
      modifies this
      ensures Valid()
      ensures Walked(Log(old(visits), old(budget)), DirHead(site, p, listFails), Log(visits, budget), action != Cancelled)
      ensures action == SkipDir ==> site.ignored(p)
      ensures action == Continue ==> !site.ignored(p)
    {
      ghost var start := Log(visits, budget);
      action := Callback(AtDir(p));
      ghost var entered := Log(visits, budget);
      if action == Continue && listFails {
        action := Callback(AtError(p));
        WalkedOn(start, [AtDir(p)], entered, [AtError(p)], Log(visits, budget), action != Cancelled);
      }
    }

    method WalkDirectory(p: Path, children: seq<Entry>, listFails: bool) returns (done: bool)
      requires Valid()
      modifies this
      ensures Valid()
      ensures Walked(Log(old(visits), old(budget)), DirVisits(site, p, children, listFails), Log(visits, budget), done)
      decreases children, 1
    {
      ghost var start := Log(visits, budget);
      var action := EnterDirectory(p, listFails);
      ghost var entered := Log(visits, budget);
      if action == Cancelled {
        return false;
      }
      if action == SkipDir {
        return true;
      }
      done := WalkChildren(children);
      WalkedOn(start, DirHead(site, p, listFails), entered, VisitsOf(site, children), Log(visits, budget), done);
    }

    method WalkChildren(es: seq<Entry>) returns (done: bool)
      requires Valid()
      modifies this
      ensures Valid() && Walked(Log(old(visits), old(budget)), VisitsOf(site, es), Log(visits, budget), done)
      decreases es, 0
    {
      ghost var start := Log(visits, budget);
      for i := 0 to |es|
        invariant Valid() && Walked(start, VisitsOf(site, es[..i]), Log(visits, budget), true)
      {
        VisitsOfGrows(site, es, i);
        ghost var before := Log(visits, budget);
        var complete := Walk(es[i]);
        WalkedOn(start, VisitsOf(site, es[..i]), before, Visits(site, es[i]), Log(visits, budget), complete);
        if !complete {
          return false;
        }
      }
      assert es[..|es|] == es;
      return true;
    }
  }

  lemma TallyGrows(site: Site, visits: seq<Visit>, v: Visit)
    ensures TallyOf(site, visits + [v]) == OneVisit(TallyOf(site, visits), site, v)
  {
    assert (visits + [v])[..|visits|] == visits;
  }

  /** The callbacks made so far, and how many are left. */
  datatype Log = Log(visits: seq<Visit>, budget: nat)

  /** What was walked: as many of the expected visits as the budget allows. */
  ghost predicate Walked(start: Log, expected: seq<Visit>, end: Log, done: bool) {
    var n := if |expected| <= start.budget then |expected| else start.budget;
    && end == Log(start.visits + expected[..n], start.budget - n)
    && (done <==> n == |expected|)
  }

  lemma OneWalked(visits: seq<Visit>, budget: nat, v: Visit)
    requires budget > 0
    ensures Walked(Log(visits, budget), [v], Log(visits + [v], budget - 1), true)
  {
    assert [v][..1] == [v];
  }

  lemma WalkedOn(start: Log, head: seq<Visit>, mid: Log, tail: seq<Visit>, end: Log, done: bool)
    requires Walked(start, head, mid, true) && Walked(mid, tail, end, done)
    ensures Walked(start, head + tail, end, done)
  {
    var n := end.visits[|mid.visits|..];
    assert (head + tail)[..|head| + |n|] == head + tail[..|n|];
  }

  lemma {:induction false} VisitsOfGrows(site: Site, es: seq<Entry>, n: nat)
    requires n < |es|
    ensures VisitsOf(site, es[..n + 1]) == VisitsOf(site, es[..n]) + Visits(site, es[n])
    ensures VisitsOf(site, es[..n + 1]) <= VisitsOf(site, es)
    decreases |es|
  {
    assert es[..n + 1][..n] == es[..n];
    if n == |es| - 1 {
      assert es[..n + 1] == es;
    } else {
      var init := es[..|es| - 1];
      assert init[..n + 1] == es[..n + 1] && init[..n] == es[..n];
      VisitsOfGrows(site, init, n);
    }
  }

  // --- What is dispatched ---

  /** The whole way down to `p`, from its first `r` components on, matches no ignore pattern. */
  ghost predicate Open(site: Site, r: nat, p: Path) {
    forall n :: r <= n <= |p| ==> !site.ignored(p[..n])
  }

  /** What the walk is for: an unmarked file that is no marker, below nothing ignored. */
  ghost predicate Selected(site: Site, r: nat, p: Path) {
    Open(site, r, p) && !LooksLikeSentinel(Base(p)) && site.stat(SentinelPath(p)).Absent?
  }

  ghost function Select(site: Site, r: nat, files: seq<Path>): seq<Path> {
    if files == [] then []
    else
      var last := files[|files| - 1];
      Select(site, r, files[..|files| - 1]) + if Selected(site, r, last) then [last] else []
  }

  function AllFiles(e: Entry): seq<Path>
    decreases e
  {
    match e
    case FileEntry(p) => [p]
    case Unreadable(_) => []
    case DirEntry(_, children, _) => AllFilesOf(children)
  }

  function AllFilesOf(es: seq<Entry>): seq<Path>
    decreases es
  {
    if es == [] then [] else AllFilesOf(es[..|es| - 1]) + AllFiles(es[|es| - 1])
  }

  /** Entries sit in the directory that lists them. */
  ghost predicate Rooted(e: Entry)
    decreases e
  {
    e.DirEntry? ==> ListedIn(e.children, e.path)
  }

  ghost predicate ListedIn(es: seq<Entry>, dir: Path)
    decreases es
  {
    es == [] || (var last := es[|es| - 1];
      ListedIn(es[..|es| - 1], dir) && last.path != [] && Parent(last.path) == dir && Rooted(last))
  }

  lemma {:induction false} SelectConcat(site: Site, r: nat, xs: seq<Path>, ys: seq<Path>)
    ensures Select(site, r, xs + ys) == Select(site, r, xs) + Select(site, r, ys)
  {
    if ys == [] {
      assert xs + ys == xs;
    } else {
      SelectConcat(site, r, xs, ys[..|ys| - 1]);
      assert (xs + ys)[..|xs + ys| - 1] == xs + ys[..|ys| - 1];
    }
  }

  lemma {:induction false} NoneSelected(site: Site, r: nat, dir: Path, files: seq<Path>)
    requires site.ignored(dir) && r <= |dir|
    requires forall i :: 0 <= i < |files| ==> dir <= files[i]
    ensures Select(site, r, files) == []
  {
    if files != [] {
      var last := files[|files| - 1];
      assert last[..|dir|] == dir;
      NoneSelected(site, r, dir, files[..|files| - 1]);
    }
  }

  lemma {:induction false} FilesBelow(e: Entry)
    requires Rooted(e)
    ensures forall i :: 0 <= i < |AllFiles(e)| ==> e.path <= AllFiles(e)[i]
    decreases e
  {
    if e.DirEntry? {
      FilesBelowDir(e.children, e.path);
    }
  }

  lemma {:induction false} FilesBelowDir(es: seq<Entry>, dir: Path)
    requires ListedIn(es, dir)
    ensures forall i :: 0 <= i < |AllFilesOf(es)| ==> dir <= AllFilesOf(es)[i]
    decreases es
  {
    if es != [] {
      var last := es[|es| - 1];
      FilesBelowDir(es[..|es| - 1], dir);
      FilesBelow(last);
      forall i | 0 <= i < |AllFiles(last)| ensures dir <= AllFiles(last)[i] {
        PrefixTrans(dir, last.path, AllFiles(last)[i]);
      }
    }
  }

  predicate Wanted(site: Site, p: Path) {
    !site.ignored(p) && !LooksLikeSentinel(Base(p)) && site.stat(SentinelPath(p)).Absent?
  }

  function Find(site: Site, v: Visit): seq<Path> {
    if v.AtFile? && Wanted(site, v.path) then [v.path] else []
  }

  /** The files among the visits that pass the callback's own tests. */
  function Discoveries(site: Site, visits: seq<Visit>): seq<Path> {
    if visits == [] then [] else Discoveries(site, visits[..|visits| - 1]) + Find(site, visits[|visits| - 1])
  }

  lemma {:induction false} DiscoveriesConcat(site: Site, xs: seq<Visit>, ys: seq<Visit>)
    ensures Discoveries(site, xs + ys) == Discoveries(site, xs) + Discoveries(site, ys)
  {
    if ys == [] {
      assert xs + ys == xs;
    } else {
      var all, prior, v := xs + ys, ys[..|ys| - 1], ys[|ys| - 1];
      DiscoveriesConcat(site, xs, prior);
      ConcatEnds(xs, ys);
      ConcatAssociative(Discoveries(site, xs), Discoveries(site, prior), Find(site, v));
    }
  }

  lemma ConcatEnds<T>(xs: seq<T>, ys: seq<T>)
    requires ys != []
    ensures var all := xs + ys;
            all[..|all| - 1] == xs + ys[..|ys| - 1] && all[|all| - 1] == ys[|ys| - 1]
  {
  }

  lemma {:induction false} TallyDiscovers(site: Site, visits: seq<Visit>)
    ensures TallyOf(site, visits).discovered == Discoveries(site, visits)
  {
    if visits != [] {
      TallyDiscovers(site, visits[..|visits| - 1]);
    }
  }

  lemma OpenStep(site: Site, r: nat, p: Path)
    requires r == |p| || (p != [] && r < |p| && Open(site, r, Parent(p)))
    ensures Open(site, r, p) <==> !site.ignored(p)
  {
    assert p[..|p|] == p;
    if r < |p| && !site.ignored(p) {
      forall n | r <= n <= |p| ensures !site.ignored(p[..n]) {
        if n < |p| {
          assert Parent(p)[..n] == p[..n];
        }
      }
    }
  }

  lemma QuietHead(site: Site, p: Path, listFails: bool)
    ensures Discoveries(site, DirHead(site, p, listFails)) == []
  {
    assert [AtDir(p)][..0] == [] && Discoveries(site, [AtDir(p)]) == [];
    assert ([AtDir(p)] + [AtError(p)])[..1] == [AtDir(p)];
  }

  lemma {:induction false} WalkFinds(site: Site, e: Entry, r: nat)
    requires Rooted(e) && (r == |e.path| || (e.path != [] && r < |e.path| && Open(site, r, Parent(e.path))))
    ensures Discoveries(site, Visits(site, e)) == Select(site, r, AllFiles(e))
    decreases e, 0
  {
    OpenStep(site, r, e.path);
    match e
    case FileEntry(p) =>
      assert [AtFile(p)][..0] == [] && [p][..0] == [];
    case Unreadable(p) =>
      assert [AtError(p)][..0] == [];
    case DirEntry(p, children, listFails) =>
      QuietHead(site, p, listFails);
      if site.ignored(p) {
        FilesBelow(e);
        NoneSelected(site, r, p, AllFiles(e));
        assert [AtDir(p)][..0] == [];
      } else {
        ChildrenFind(site, children, p, r);
        DiscoveriesConcat(site, DirHead(site, p, listFails), VisitsOf(site, children));
      }
  }

  lemma {:induction false} ChildrenFind(site: Site, es: seq<Entry>, dir: Path, r: nat)
    requires ListedIn(es, dir) && r <= |dir| && Open(site, r, dir)
    ensures Discoveries(site, VisitsOf(site, es)) == Select(site, r, AllFilesOf(es))
    decreases es, 0
  {
    if es != [] {
      var before, last := es[..|es| - 1], es[|es| - 1];
      ChildrenFind(site, before, dir, r);
      WalkFinds(site, last, r);
      DiscoveriesConcat(site, VisitsOf(site, before), Visits(site, last));
      SelectConcat(site, r, AllFilesOf(before), AllFiles(last));
    }
  }

  /**
   A walk that is not cancelled dispatches, in walk order, exactly the files it is for: skipping
   subtrees loses nothing else, and errors elsewhere lose nothing at all.
   */
  lemma DispatchesExactlySelected(site: Site, e: Entry)
    requires Rooted(e)
    ensures TallyOf(site, Visits(site, e)).discovered == Select(site, |e.path|, AllFiles(e))
  {
    TallyDiscovers(site, Visits(site, e));
    WalkFinds(site, e, |e.path|);
  }

  /** A cancelled walk has dispatched the first of them. */
  lemma CancelledWalkIsPrefix(site: Site, visits: seq<Visit>, n: nat)
    requires n <= |visits|
    ensures TallyOf(site, visits[..n]).discovered <= TallyOf(site, visits).discovered
  {
    TallyDiscovers(site, visits[..n]);
    TallyDiscovers(site, visits);
    DiscoveriesOfPrefix(site, visits, n);
  }

  lemma DiscoveriesOfPrefix(site: Site, visits: seq<Visit>, n: nat)
    requires n <= |visits|
    ensures Discoveries(site, visits[..n]) <= Discoveries(site, visits)
  {
    DiscoveriesConcat(site, visits[..n], visits[n..]);
    assert visits[..n] + visits[n..] == visits;
  }

  // --- Counters ---

  function DispatchFailures(problems: seq<Problem>): seq<Path> {
    if problems == [] then []
    else
      var last := problems[|problems| - 1];
      DispatchFailures(problems[..|problems| - 1]) + if last.NotDispatched? then [last.path] else []
  }

  lemma DispatchFailuresSnoc(problems: seq<Problem>, p: Problem)
    ensures DispatchFailures(problems + [p])
         == DispatchFailures(problems) + if p.NotDispatched? then [p.path] else []
  {
    assert (problems + [p])[..|problems|] == problems;
  }

  /** The files among `files` whose dispatch ends in `outcome`. */
  function OfOutcome(site: Site, files: seq<Path>, outcome: Dispatch): seq<Path> {
    if files == [] then []
    else
      var last := files[|files| - 1];
      var prior := OfOutcome(site, files[..|files| - 1], outcome);
      if site.dispatch(last) == outcome then prior + [last] else prior
  }

  lemma OfOutcomeSnoc(site: Site, files: seq<Path>, p: Path, outcome: Dispatch)
    ensures var prior := OfOutcome(site, files, outcome);
            OfOutcome(site, files + [p], outcome) == if site.dispatch(p) == outcome then prior + [p] else prior
  {
    assert (files + [p])[..|files|] == files;
  }

  ghost predicate Counted(site: Site, tally: Tally) {
    && tally.submitted == OfOutcome(site, tally.discovered, Started)
    && tally.duplicates == OfOutcome(site, tally.discovered, AlreadyStarted)
    && DispatchFailures(tally.problems) == OfOutcome(site, tally.discovered, DispatchFails)
  }

  lemma ProblemIsCounted(site: Site, tally: Tally, p: Problem)
    requires Counted(site, tally) && !p.NotDispatched?
    ensures Counted(site, tally.(problems := tally.problems + [p]))
  {
    DispatchFailuresSnoc(tally.problems, p);
  }

  lemma DispatchIsCounted(site: Site, tally: Tally, p: Path)
    requires Counted(site, tally)
    ensures Counted(site, DispatchFile(tally.(discovered := tally.discovered + [p]), p, site.dispatch(p)))
  {
    OfOutcomeSnoc(site, tally.discovered, p, Started);
    OfOutcomeSnoc(site, tally.discovered, p, AlreadyStarted);
    OfOutcomeSnoc(site, tally.discovered, p, DispatchFails);
    DispatchFailuresSnoc(tally.problems, NotDispatched(p));
  }

  lemma VisitIsCounted(site: Site, tally: Tally, v: Visit)
    requires Counted(site, tally)
    ensures Counted(site, OneVisit(tally, site, v))
  {
    match v
    case AtDir(_) =>
    case AtError(p) => ProblemIsCounted(site, tally, NotListed(p));
    case AtFile(p) =>
      ProblemIsCounted(site, tally, NotChecked(p));
      DispatchIsCounted(site, tally, p);
  }

  /**
   The counters mean what they are called: in order, the submitted files are the discovered ones
   whose dispatch started a run, the duplicates those that found one running, and the dispatch
   errors the rest.
   */
  lemma {:induction false} OutcomesAreCounted(site: Site, visits: seq<Visit>)
    ensures Counted(site, TallyOf(site, visits))
  {
    if visits != [] {
      OutcomesAreCounted(site, visits[..|visits| - 1]);
      VisitIsCounted(site, TallyOf(site, visits[..|visits| - 1]), visits[|visits| - 1]);
    }
  }

  ghost predicate Partitioned(files: seq<Path>, a: seq<Path>, b: seq<Path>, c: seq<Path>) {
    multiset(files) == multiset(a) + multiset(b) + multiset(c)
  }

  lemma PartitionedSnoc(files: seq<Path>, a: seq<Path>, b: seq<Path>, c: seq<Path>, p: Path)
    requires Partitioned(files, a, b, c)
    ensures Partitioned(files + [p], a + [p], b, c)
    ensures Partitioned(files + [p], a, b + [p], c)
    ensures Partitioned(files + [p], a, b, c + [p])
  {
  }

  lemma {:induction false} OutcomesPartition(site: Site, files: seq<Path>)
    ensures Partitioned(files, OfOutcome(site, files, Started), OfOutcome(site, files, AlreadyStarted),
                        OfOutcome(site, files, DispatchFails))
  {
    if files != [] {
      var prior, p := files[..|files| - 1], files[|files| - 1];
      var a, b := OfOutcome(site, prior, Started), OfOutcome(site, prior, AlreadyStarted);
      var c := OfOutcome(site, prior, DispatchFails);
      OutcomesPartition(site, prior);
      PartitionedSnoc(prior, a, b, c, p);
      OfOutcomeSnoc(site, prior, p, Started);
      OfOutcomeSnoc(site, prior, p, AlreadyStarted);
      OfOutcomeSnoc(site, prior, p, DispatchFails);
      assert files == prior + [p];
    }
  }

  /** Hence every discovered file is counted once: submitted, already running, or a dispatch error. */
  lemma CountersBalance(site: Site, visits: seq<Visit>)
    ensures var tally := TallyOf(site, visits);
            multiset(tally.discovered)
              == multiset(tally.submitted) + multiset(tally.duplicates) + multiset(DispatchFailures(tally.problems))
  {
    OutcomesAreCounted(site, visits);
    OutcomesPartition(site, TallyOf(site, visits).discovered);
  }

  /** A visit that must be reported. */
  predicate Fails(site: Site, v: Visit) {
    match v
    case AtError(_) => true
    case AtDir(_) => false
    case AtFile(p) =>
      && !site.ignored(p) && !LooksLikeSentinel(Base(p))
      && (site.stat(SentinelPath(p)).StatFails?
      || (site.stat(SentinelPath(p)).Absent? && site.dispatch(p).DispatchFails?))
  }

  /** The scan counts as a success exactly when no visit failed. */
  lemma {:induction false} SuccessIffNothingFailed(site: Site, visits: seq<Visit>)
    ensures TallyOf(site, visits).problems == [] <==> forall i :: 0 <= i < |visits| ==> !Fails(site, visits[i])
  {
    if visits != [] {
      var n := |visits| - 1;
      SuccessIffNothingFailed(site, visits[..n]);
      assert (forall i :: 0 <= i < |visits| ==> !Fails(site, visits[i]))
        <==> (forall i :: 0 <= i < n ==> !Fails(site, visits[..n][i])) && !Fails(site, visits[n]);
    }
  }

  // --- What is reported ---

  /** `e` and everything below it. */
  function AllEntries(e: Entry): seq<Entry>
    decreases e, 0
  {
    [e] + if e.DirEntry? then AllEntriesOf(e.children) else []
  }

  function AllEntriesOf(es: seq<Entry>): seq<Entry>
    decreases es
  {
    if es == [] then [] else AllEntriesOf(es[..|es| - 1]) + AllEntries(es[|es| - 1])
  }

  /** The walk comes as far as `p`: no directory above it, from its first `r` components on, is ignored. */
  ghost predicate Reached(site: Site, r: nat, p: Path) {
    forall n :: r <= n < |p| ==> !site.ignored(p[..n])
  }

  /** The callbacks that an entry causes once the walk has come to it. */
  predicate Calls(site: Site, e: Entry, v: Visit) {
    match e
    case FileEntry(p) => v == AtFile(p)
    case Unreadable(p) => v == AtError(p)
    case DirEntry(p, _, listFails) => v == AtDir(p) || (v == AtError(p) && listFails && !site.ignored(p))
  }

  ghost predicate SomeCalls(site: Site, r: nat, es: seq<Entry>, v: Visit) {
    exists e :: e in es && Reached(site, r, e.path) && Calls(site, e, v)
  }

  lemma SomeCallsConcat(site: Site, r: nat, xs: seq<Entry>, ys: seq<Entry>, v: Visit)
    ensures SomeCalls(site, r, xs + ys, v) <==> SomeCalls(site, r, xs, v) || SomeCalls(site, r, ys, v)
  {
    assert forall e :: e in xs + ys <==> e in xs || e in ys;
  }

  lemma {:induction false} EntriesBelow(e: Entry, dir: Path, sub: Entry)
    requires Rooted(e) && dir < e.path && sub in AllEntries(e)
    ensures dir < sub.path
    decreases e, 0
  {
    if sub != e {
      PrefixTrans(dir, e.path, e.path);
      EntriesBelowDir(e.children, e.path, sub);
      PrefixTrans(dir, e.path, sub.path);
    }
  }

  lemma {:induction false} EntriesBelowDir(es: seq<Entry>, dir: Path, sub: Entry)
    requires ListedIn(es, dir) && sub in AllEntriesOf(es)
    ensures dir < sub.path
    decreases es
  {
    var before, last := es[..|es| - 1], es[|es| - 1];
    if sub in AllEntriesOf(before) {
      EntriesBelowDir(before, dir, sub);
    } else {
      EntriesBelow(last, dir, sub);
    }
  }

  /** Nothing below an ignored directory is reached. */
  lemma NothingBelowIgnored(site: Site, r: nat, es: seq<Entry>, dir: Path, v: Visit)
    requires ListedIn(es, dir) && r <= |dir| && site.ignored(dir)
    ensures !SomeCalls(site, r, AllEntriesOf(es), v)
  {
    forall e | e in AllEntriesOf(es) ensures !Reached(site, r, e.path) {
      EntriesBelowDir(es, dir, e);
      assert e.path[..|dir|] == dir;
    }
  }

  lemma ReachedStep(site: Site, r: nat, dir: Path, p: Path)
    requires p != [] && Parent(p) == dir && r <= |dir| && Reached(site, r, dir) && !site.ignored(dir)
    ensures Reached(site, r, p)
  {
    forall n | r <= n < |p| ensures !site.ignored(p[..n]) {
      assert n < |dir| ==> p[..n] == dir[..n];
      assert n == |dir| ==> p[..n] == dir;
    }
  }

  lemma OwnCalls(site: Site, r: nat, e: Entry, v: Visit)
    requires Reached(site, r, e.path)
    ensures SomeCalls(site, r, [e], v) <==> Calls(site, e, v)
  {
    assert e in [e];
  }

  /** The callbacks of a walk are those of the entries it comes to. */
  lemma {:induction false} VisitsAreCalls(site: Site, e: Entry, r: nat, v: Visit)
    requires Rooted(e) && r <= |e.path| && Reached(site, r, e.path)
    ensures v in Visits(site, e) <==> SomeCalls(site, r, AllEntries(e), v)
    decreases e, 0
  {
    OwnCalls(site, r, e, v);
    if e.DirEntry? {
      SomeCallsConcat(site, r, [e], AllEntriesOf(e.children), v);
      if site.ignored(e.path) {
        NothingBelowIgnored(site, r, e.children, e.path, v);
      } else {
        ChildrenVisitsAreCalls(site, e.children, e.path, r, v);
      }
    } else {
      assert AllEntries(e) == [e];
    }
  }

  lemma {:induction false} ChildrenVisitsAreCalls(site: Site, es: seq<Entry>, dir: Path, r: nat, v: Visit)
    requires ListedIn(es, dir) && r <= |dir| && Reached(site, r, dir) && !site.ignored(dir)
    ensures v in VisitsOf(site, es) <==> SomeCalls(site, r, AllEntriesOf(es), v)
    decreases es, 0
  {
    if es != [] {
      var before, last := es[..|es| - 1], es[|es| - 1];
      ChildrenVisitsAreCalls(site, before, dir, r, v);
      ReachedStep(site, r, dir, last.path);
      VisitsAreCalls(site, last, r, v);
      SomeCallsConcat(site, r, AllEntriesOf(before), AllEntries(last), v);
    }
  }

  /** What a callback reports. */
  predicate Reports(site: Site, v: Visit, problem: Problem) {
    match v
    case AtError(p) => problem == NotListed(p)
    case AtDir(_) => false
    case AtFile(p) =>
      && !site.ignored(p) && !LooksLikeSentinel(Base(p))
      && ((site.stat(SentinelPath(p)).StatFails? && problem == NotChecked(p))
       || (site.stat(SentinelPath(p)).Absent? && site.dispatch(p).DispatchFails? && problem == NotDispatched(p)))
  }

  lemma {:induction false} ProblemsAreReports(site: Site, visits: seq<Visit>, problem: Problem)
    ensures problem in TallyOf(site, visits).problems <==> exists v :: v in visits && Reports(site, v, problem)
  {
    if visits != [] {
      var prior, last := visits[..|visits| - 1], visits[|visits| - 1];
      ProblemsAreReports(site, prior, problem);
      VisitReports(site, TallyOf(site, prior), last, problem);
      assert visits == prior + [last];
      assert forall v :: v in visits <==> v in prior || v == last;
    }
  }

  lemma VisitReports(site: Site, tally: Tally, v: Visit, problem: Problem)
    ensures problem in OneVisit(tally, site, v).problems <==> problem in tally.problems || Reports(site, v, problem)
  {
  }

  /** Entry `e` is in trouble: unreadable, a directory not listed in full, or a file not checked or not dispatched. */
  predicate InTrouble(site: Site, e: Entry, problem: Problem) {
    match e
    case Unreadable(p) => problem == NotListed(p)
    case DirEntry(p, _, listFails) => listFails && !site.ignored(p) && problem == NotListed(p)
    case FileEntry(p) => Reports(site, AtFile(p), problem)
  }

  ghost predicate SomeTrouble(site: Site, r: nat, es: seq<Entry>, problem: Problem) {
    exists e :: e in es && Reached(site, r, e.path) && InTrouble(site, e, problem)
  }

  /**
   A walk that is not cancelled reports exactly the troubles of the entries below nothing ignored:
   no error is swallowed, and none outside that part of the tree is reported.
   */
  lemma ReportsExactlyTroubles(site: Site, e: Entry, problem: Problem)
    requires Rooted(e)
    ensures problem in TallyOf(site, Visits(site, e)).problems
       <==> SomeTrouble(site, |e.path|, AllEntries(e), problem)
  {
    var r := |e.path|;
    ProblemsAreReports(site, Visits(site, e), problem);
    forall v ensures v in Visits(site, e) <==> SomeCalls(site, r, AllEntries(e), v) {
      VisitsAreCalls(site, e, r, v);
    }
    if v :| v in Visits(site, e) && Reports(site, v, problem) {
      var sub :| sub in AllEntries(e) && Reached(site, r, sub.path) && Calls(site, sub, v);
      CallerIsInTrouble(site, sub, v, problem);
    }
    if sub :| sub in AllEntries(e) && Reached(site, r, sub.path) && InTrouble(site, sub, problem) {
      var v := TroubleIsReported(site, sub, problem);
      assert SomeCalls(site, r, AllEntries(e), v);
    }
  }

  lemma CallerIsInTrouble(site: Site, e: Entry, v: Visit, problem: Problem)
    requires Calls(site, e, v) && Reports(site, v, problem)
    ensures InTrouble(site, e, problem)
  {
  }

  lemma TroubleIsReported(site: Site, e: Entry, problem: Problem) returns (v: Visit)
    requires InTrouble(site, e, problem)
    ensures Calls(site, e, v) && Reports(site, v, problem)
  {
    v := if e.FileEntry? then AtFile(e.path) else AtError(e.path);
  }

  // --- All watches ---

  /** `configured` is false when a path of the watch cannot be resolved or its output path is blank. */
  datatype Watch = Watch(configured: bool, root: Entry, site: Site)

  datatype Report = Rejected | Completed(tally: Tally)

  /** `cancelled` stands for the context's error, otherwise the errors of all watches are joined. */
  datatype ScanResult = ScanResult(reports: seq<Report>, cancelled: bool)

  function Cost(w: Watch): nat {
    if w.configured then |Visits(w.site, w.root)| else 0
  }

  function TotalCost(ws: seq<Watch>): nat {
    if ws == [] then 0 else TotalCost(ws[..|ws| - 1]) + Cost(ws[|ws| - 1])
  }

  function ReportOf(w: Watch): Report {
    if w.configured then Completed(TallyOf(w.site, Visits(w.site, w.root))) else Rejected
  }

  /** What the report of one watch means: nothing for a rejected one, and otherwise what its tree holds. */
  lemma ReportIsExact(w: Watch)
    requires Rooted(w.root)
    ensures ReportOf(w).Rejected? <==> !w.configured
    ensures ReportOf(w).Completed? ==>
              var tally, r := ReportOf(w).tally, |w.root.path|;
              && tally.discovered == Select(w.site, r, AllFiles(w.root))
              && Counted(w.site, tally)
              && forall problem :: problem in tally.problems <==> SomeTrouble(w.site, r, AllEntries(w.root), problem)
  {
    var r := |w.root.path|;
    DispatchesExactlySelected(w.site, w.root);
    OutcomesAreCounted(w.site, Visits(w.site, w.root));
    forall problem
      ensures problem in TallyOf(w.site, Visits(w.site, w.root)).problems
         <==> SomeTrouble(w.site, r, AllEntries(w.root), problem)
    {
      ReportsExactlyTroubles(w.site, w.root, problem);
    }
  }

  /** One watch: nothing to report when the context ends the walk. */
  method ScanOne(w: Watch, budget: nat) returns (report: Option<Report>, left: nat)
    ensures report == if Cost(w) <= budget then Some(ReportOf(w)) else None
    ensures Cost(w) <= budget ==> left == budget - Cost(w)
  {
    if !w.configured {
      return Some(Rejected), budget;
    }
    var walker := new Walker(w.site, budget);
    var done := walker.Walk(w.root);
    ghost var visits := Visits(w.site, w.root);
    if !done {
      return None, 0;
    }
    assert walker.visits == visits[..|visits|] == visits;
    return Some(Completed(walker.tally)), walker.budget;
  }

  /**
   One pass over the watches. Unless it is cancelled, every watch gets the report it would get
   alone; a cancelled pass has reported a proper prefix of them. It is cancelled exactly when the
   callbacks run out before the last watch begins, or before it ends.
   */
  method ScanAll(ws: seq<Watch>, budget: nat) returns (result: ScanResult)
    ensures |result.reports| <= |ws|
    ensures forall i :: 0 <= i < |result.reports| ==> result.reports[i] == ReportOf(ws[i])
    ensures result.cancelled <==> |result.reports| < |ws|
    ensures result.cancelled <==> ws != [] && (budget <= TotalCost(ws[..|ws| - 1]) || budget < TotalCost(ws))
  {
    var reports: seq<Report> := [];
    var left: nat := budget;
    for n := 0 to |ws|
      invariant n > 0 ==> budget > TotalCost(ws[..n - 1])
      invariant |reports| == n
      invariant forall i :: 0 <= i < n ==> reports[i] == ReportOf(ws[i])
      invariant left + TotalCost(ws[..n]) == budget
    {
      TotalCostGrows(ws, n);
      if left == 0 {
        return ScanResult(reports, true);
      }
      var report;
      report, left := ScanOne(ws[n], left);
      if report.None? {
        return ScanResult(reports, true);
      }
      reports := reports + [report.value];
    }
    assert ws[..|ws|] == ws;
    return ScanResult(reports, false);
  }

  lemma {:induction false} TotalCostGrows(ws: seq<Watch>, n: nat)
    requires n < |ws|
    ensures TotalCost(ws[..n + 1]) == TotalCost(ws[..n]) + Cost(ws[n])
    ensures TotalCost(ws[..n]) + Cost(ws[n]) <= TotalCost(ws)
    ensures TotalCost(ws[..n]) <= TotalCost(ws[..|ws| - 1])
    decreases |ws|
  {
    var init := ws[..|ws| - 1];
    assert ws[..n + 1][..n] == ws[..n];
    if n == |ws| - 1 {
      assert ws[..n + 1] == ws;
    } else {
      assert init[..n] == ws[..n] && init[..n + 1] == ws[..n + 1];
      TotalCostGrows(init, n);
    }
  }

  // --- Scanning what a workflow leaves ---

  /** The walk sees the tree: it lists existing files only, and markers as they are. */
  ghost predicate Sees(site: Site, e: Entry, t: Tree) {
    && (forall i :: 0 <= i < |AllFiles(e)| ==> IsFile(t, AllFiles(e)[i]))
    && (forall p :: IsFile(t, p) ==> site.stat(p).Exists?)
  }

  lemma {:induction false} SelectedIsFile(site: Site, r: nat, files: seq<Path>, p: Path)
    requires p in Select(site, r, files)
    ensures p in files && Selected(site, r, p)
  {
    if p !in Select(site, r, files[..|files| - 1]) {
      assert p == files[|files| - 1];
    } else {
      SelectedIsFile(site, r, files[..|files| - 1], p);
    }
  }

  /** A file whose workflow succeeded is not dispatched by a scan of what the workflow left. */
  lemma FinishedFileIsNotDispatched(input: Workflow.MediaInput, s: Workflow.Script, t: Tree, site: Site, e: Entry)
    requires ParentClosed(t) && input.source != [] && !Workflow.Run(input, s, t).failed
    requires Rooted(e) && Sees(site, e, Workflow.Run(input, s, t).tree)
    ensures input.source !in TallyOf(site, Visits(site, e)).discovered
  {
    Workflow.SuccessLeavesNothingToDo(input, s, t);
    DispatchesExactlySelected(site, e);
    if input.source in Select(site, |e.path|, AllFiles(e)) {
      SelectedIsFile(site, |e.path|, AllFiles(e), input.source);
    }
  }
}
