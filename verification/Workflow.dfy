/**
 One media workflow run (workflows/media/workflow.go) over a file tree: the activities of
 workflows/media/activities.go, probe.go, transcode.go and cleanup.go, each attempted
 under its retry policy, where an attempt may die after any of its filesystem steps or
 finish without its result being recorded.
 */
module Workflow {
  import opened Filesystem
  import opened OutputPaths
  import opened Wrappers

  datatype MediaInput = MediaInput(
    source: Path,
    watchRoot: Option<Path>,
    outputPath: Path,
    preserveSource: bool,
    retainEmptyDirs: bool,
    skipCropDetection: bool)

  /**
   How far one attempt of an activity gets: its first `stages` filesystem stages are done
   in full, a prune it dies in removes `pruned` directories, and `recorded` tells whether
   the server learns that a finished attempt succeeded.
   */
  datatype Attempt = Attempt(stages: nat, pruned: nat, recorded: bool)

  const COMPLETE := Attempt(4, 0, true)

  /** The tree an attempt leaves, and its result if it finished and was recorded. */
  datatype Left<T> = Left(tree: Tree, result: Option<T>)

  function PruneUpTo(t: Tree, root: Option<Path>, p: Path): Tree {
    match root
    case None => t
    case Some(r) => Prune(t, r, Parent(p))
  }

  function PrunePartly(t: Tree, root: Option<Path>, p: Path, budget: nat): Tree {
    match root
    case None => t
    case Some(r) => PruneWithin(t, r, Parent(p), budget)
  }

  // --- Probe ---

  datatype Verdict = Video | NoVideo | Unreadable | ContextError

  predicate NotMedia(v: Verdict) {
    v == NoVideo || v == Unreadable
  }

  /** RunProbe: a file judged not to be media is deleted at once, unless it is to be preserved. */
  function ProbeAttempt(input: MediaInput, t: Tree, v: Verdict, a: Attempt): Left<bool> {
    var done := (valid: bool) => if a.recorded then Some(valid) else None;
    if v == ContextError then Left(t, None)
    else if v == Video then Left(t, done(true))
    else if input.preserveSource then Left(t, done(false))
    else if a.stages == 0 || RemoveOutcome(t, input.source) == NotEmpty then Left(t, None)
    else
      var removed := Remove(t, input.source);
      if input.retainEmptyDirs then Left(removed, done(false))
      else if a.stages == 1 then Left(PrunePartly(removed, input.watchRoot, input.source, a.pruned), None)
      else Left(PruneUpTo(removed, input.watchRoot, input.source), done(false))
  }

  // --- Transcode ---

  /** Whether the encode succeeds, or is skipped because the output is already there. */
  datatype Encoding = Encodes(content: int) | Reuses | EncodeFails

  /** os.MkdirAll; None when a file is in the way. */
  function MakeDirs(t: Tree, dir: Path): Option<Tree> {
    if IsDir(t, dir) then Some(t)
    else if dir == [] || dir in t then None
    else
      match MakeDirs(t, Parent(dir))
      case None => None
      case Some(u) => Some(u[dir := Dir])
  }

  /** The directories exist: temporary file, then rename; or the output is already there. */
  function Encode(made: Tree, final: Path, temp: Path, e: Encoding, a: Attempt): Left<Path> {
    var done := if a.recorded then Some(final) else None;
    if e.Reuses? then Left(made, if IsFile(made, final) then done else None)
    else if a.stages == 1 || !CanWrite(made, temp) then Left(made, None)
    else if e.EncodeFails? || IsDir(made, final) then Left(made - {temp}, None)
    else if a.stages == 2 then Left(made[temp := EMPTY], None)
    else Left((made - {temp})[final := File(e.content)], done)
  }

  function TranscodeTo(t: Tree, final: Path, temp: Path, e: Encoding, a: Attempt): Left<Path> {
    match MakeDirs(t, Parent(final))
    case None => Left(t, None)
    case Some(made) => if a.stages == 0 then Left(t, None) else Encode(made, final, temp, e, a)
  }

  function TempPath(source: Path, final: Path): Path {
    Parent(final) + [TempName(Base(source))]
  }

  /** RunTranscode. */
  function TranscodeAttempt(input: MediaInput, t: Tree, e: Encoding, a: Attempt): Left<Path> {
    match FinalPath(input.source, input.watchRoot, input.outputPath)
    case None => Left(t, None)
    case Some(final) =>
      if IsFile(t, input.source) then TranscodeTo(t, final, TempPath(input.source, final), e, a) else Left(t, None)
  }

  method MkdirAll(disk: Disk, dir: Path) returns (ok: bool)
    modifies disk
    ensures var made := MakeDirs(old(disk.tree), dir);
            && (ok <==> made.Some?)
            && disk.tree == if ok then made.value else old(disk.tree)
    decreases |dir|
  {
    if IsDir(disk.tree, dir) {
      return true;
    }
    if dir == [] || dir in disk.tree {
      return false;
    }
    ok := MkdirAll(disk, Parent(dir));
    if ok {
      disk.tree := disk.tree[dir := Dir];
    }
  }

  /** The activity itself, run to its end. */
  method Transcode(disk: Disk, input: MediaInput, e: Encoding) returns (dest: Option<Path>)
    modifies disk
    ensures Left(disk.tree, dest) == TranscodeAttempt(input, old(disk.tree), e, COMPLETE)
  {
    dest := FinalPath(input.source, input.watchRoot, input.outputPath);
    if dest.None? || !IsFile(disk.tree, input.source) {
      return None;
    }
    var final := dest.value;
    var made := MkdirAll(disk, Parent(final));
    if !made {
      return None;
    }
    if e.Reuses? {
      return if IsFile(disk.tree, final) then dest else None;
    }
    var temp := TempPath(input.source, final);
    if !CanWrite(disk.tree, temp) {
      return None;
    }
    if e.EncodeFails? || IsDir(disk.tree, final) {
      disk.tree := disk.tree - {temp};
      return None;
    }
    disk.tree := (disk.tree - {temp})[final := File(e.content)];
  }

  // --- Notify ---

  datatype ImportOutcome = Imported | NotInLibrary | NotAnUpgrade | Transient | Refused

  /** One import request; the library may move the output away whatever it then reports. */
  datatype NotifyAttempt = NotifyAttempt(outcome: ImportOutcome, moves: bool, recorded: bool)

  function Moved(t: Tree, dest: Path, moves: bool): Tree {
    if moves && IsFile(t, dest) then t - {dest} else t
  }

  /** Recorded result of an attempt: whether the import was skipped for good. */
  function NotifyResult(n: NotifyAttempt): Option<bool> {
    if !n.recorded || n.outcome == Transient || n.outcome == Refused then None
    else Some(n.outcome != Imported)
  }

  // --- Cleanup ---

  /** Stage 0: the orphaned output goes when the import was skipped. None is an error. */
  function WithoutOutput(t: Tree, dest: Option<Path>, skipped: bool): Option<Tree> {
    if !skipped || dest.None? then Some(t)
    else if RemoveOutcome(t, dest.value) == NotEmpty then None
    else Some(Remove(t, dest.value))
  }

  /** Stage 1: the sentinel is written or the source deleted. */
  function SourceHandled(input: MediaInput, t: Tree): Option<Tree> {
    if input.preserveSource then
      if CanWrite(t, SentinelPath(input.source)) then Some(t[SentinelPath(input.source) := EMPTY]) else None
    else if RemoveOutcome(t, input.source) == NotEmpty then None
    else Some(Remove(t, input.source))
  }

  predicate PrunesSource(input: MediaInput) {
    !input.preserveSource && !input.retainEmptyDirs
  }

  predicate PrunesOutput(input: MediaInput, dest: Option<Path>) {
    !input.retainEmptyDirs && dest.Some?
  }

  function SourcePruned(input: MediaInput, t: Tree): Tree {
    if PrunesSource(input) then PruneUpTo(t, input.watchRoot, input.source) else t
  }

  function OutputPruned(input: MediaInput, t: Tree, dest: Option<Path>): Tree {
    if PrunesOutput(input, dest) then PruneUpTo(t, Some(input.outputPath), dest.value) else t
  }

  /** Stages 2 and 3: the prunes. */
  function PruneAttempt(input: MediaInput, t: Tree, dest: Option<Path>, a: Attempt): Left<()> {
    if a.stages == 2 then
      Left(if PrunesSource(input) then PrunePartly(t, input.watchRoot, input.source, a.pruned) else t, None)
    else
      var t3 := SourcePruned(input, t);
      if a.stages == 3 then
        Left(if PrunesOutput(input, dest) then PrunePartly(t3, Some(input.outputPath), dest.value, a.pruned) else t3, None)
      else Left(OutputPruned(input, t3, dest), if a.recorded then Some(()) else None)
  }

  function CleanupAttempt(input: MediaInput, t: Tree, dest: Option<Path>, skipped: bool, a: Attempt): Left<()> {
    var t1 := WithoutOutput(t, dest, skipped);
    if a.stages == 0 || t1.None? then Left(t, None)
    else
      var t2 := SourceHandled(input, t1.value);
      if a.stages == 1 || t2.None? then Left(t1.value, None)
      else PruneAttempt(input, t2.value, dest, a)
  }

  /** The source-side half of the activity. */
  method HandleSource(disk: Disk, input: MediaInput) returns (ok: bool)
    modifies disk
    ensures var handled := SourceHandled(input, old(disk.tree));
            && (ok <==> handled.Some?)
            && disk.tree == if ok then SourcePruned(input, handled.value) else old(disk.tree)
  {
    if input.preserveSource {
      ok := disk.WriteSentinel(input.source);
    } else {
      ok := disk.RunCleanup(input.source, input.watchRoot, input.retainEmptyDirs);
    }
  }

  /** The activity itself, run to its end: the last attempt of the model when nothing dies. */
  method Cleanup(disk: Disk, input: MediaInput, dest: Option<Path>, skipped: bool) returns (ok: bool)
    modifies disk
    ensures var left := CleanupAttempt(input, old(disk.tree), dest, skipped, COMPLETE);
            disk.tree == left.tree && (ok <==> left.result.Some?)
  {
    if skipped {
      ok := disk.RemoveOutputFile(dest);
      if !ok {
        return;
      }
    }
    assert WithoutOutput(old(disk.tree), dest, skipped) == Some(disk.tree);
    ok := HandleSource(disk, input);
    if ok && !input.retainEmptyDirs {
      disk.PruneOutputDirs(dest, Some(input.outputPath));
    }
  }

  /** The activity itself, run to its end. */
  method Probe(disk: Disk, input: MediaInput, v: Verdict) returns (valid: Option<bool>)
    modifies disk
    ensures Left(disk.tree, valid) == ProbeAttempt(input, old(disk.tree), v, COMPLETE)
  {
    if v == ContextError {
      return None;
    }
    if v == Video {
      return Some(true);
    }
    if !input.preserveSource {
      var ok := disk.RunCleanup(input.source, input.watchRoot, input.retainEmptyDirs);
      if !ok {
        return None;
      }
    }
    return Some(false);
  }

  // --- What cleanup does to files ---

  /** The files a finished cleanup leaves, starting from files `f`. */
  function CleanedFiles(input: MediaInput, f: Tree, dest: Option<Path>, skipped: bool): Tree {
    var kept := f - (if skipped && dest.Some? then {dest.value} else {});
    if input.preserveSource then kept[SentinelPath(input.source) := EMPTY] else kept - {input.source}
  }

  /** The marker is not the output: one ends in ".done", the other in ".mkv". */
  ghost predicate Sane(input: MediaInput, t: Tree, dest: Option<Path>) {
    && ParentClosed(t) && input.source != []
    && (dest.Some? ==> dest.value != [] && dest.value != SentinelPath(input.source))
  }

  lemma PruneUpToKeepsFiles(t: Tree, root: Option<Path>, p: Path, budget: nat)
    requires ParentClosed(t)
    ensures Files(PruneUpTo(t, root, p)) == Files(t) && ParentClosed(PruneUpTo(t, root, p))
    ensures Files(PrunePartly(t, root, p, budget)) == Files(t) && ParentClosed(PrunePartly(t, root, p, budget))
  {
    if root.Some? {
      PruneWithinKeepsFiles(t, root.value, Parent(p), |Parent(p)| + 1);
      PruneWithinKeepsFiles(t, root.value, Parent(p), budget);
    }
  }

  lemma WithoutOutputOnFiles(t: Tree, dest: Option<Path>, skipped: bool)
    requires ParentClosed(t) && (dest.Some? ==> dest.value != []) && WithoutOutput(t, dest, skipped).Some?
    ensures var u := WithoutOutput(t, dest, skipped).value;
            ParentClosed(u) && Files(u) == Files(t) - (if skipped && dest.Some? then {dest.value} else {})
  {
    if skipped && dest.Some? {
      RemoveKeepsParentClosed(t, dest.value);
      RemoveOnFiles(t, dest.value);
    }
  }

  lemma SourceHandledOnFiles(input: MediaInput, t: Tree)
    requires ParentClosed(t) && input.source != [] && SourceHandled(input, t).Some?
    ensures var u := SourceHandled(input, t).value;
            && ParentClosed(u)
            && Files(u) == if input.preserveSource then Files(t)[SentinelPath(input.source) := EMPTY]
                           else Files(t) - {input.source}
  {
    if input.preserveSource {
      WriteKeepsParentClosed(t, SentinelPath(input.source), EMPTY);
    } else {
      RemoveKeepsParentClosed(t, input.source);
      RemoveOnFiles(t, input.source);
    }
  }

  lemma PruneAttemptOnFiles(input: MediaInput, t: Tree, dest: Option<Path>, a: Attempt)
    requires ParentClosed(t)
    ensures var left := PruneAttempt(input, t, dest, a);
            ParentClosed(left.tree) && Files(left.tree) == Files(t)
  {
    PruneUpToKeepsFiles(t, input.watchRoot, input.source, a.pruned);
    if dest.Some? {
      PruneUpToKeepsFiles(SourcePruned(input, t), Some(input.outputPath), dest.value, a.pruned);
    }
  }

  /** The three sets of files an attempt can leave, in the order it reaches them. */
  lemma AttemptOnFiles(input: MediaInput, t: Tree, dest: Option<Path>, skipped: bool, a: Attempt)
    requires Sane(input, t, dest)
    ensures var left := CleanupAttempt(input, t, dest, skipped, a);
            var kept := Files(t) - (if skipped && dest.Some? then {dest.value} else {});
            && ParentClosed(left.tree)
            && (Files(left.tree) == Files(t) || Files(left.tree) == kept
             || Files(left.tree) == CleanedFiles(input, Files(t), dest, skipped))
            && (left.result.Some? ==> Files(left.tree) == CleanedFiles(input, Files(t), dest, skipped))
  {
    var t1 := WithoutOutput(t, dest, skipped);
    if a.stages > 0 && t1.Some? {
      WithoutOutputOnFiles(t, dest, skipped);
      var t2 := SourceHandled(input, t1.value);
      if a.stages > 1 && t2.Some? {
        SourceHandledOnFiles(input, t1.value);
        PruneAttemptOnFiles(input, t2.value, dest, a);
      }
    }
  }

  /** A failed attempt does not change what a finished cleanup will leave. */
  lemma AttemptKeepsGoal(input: MediaInput, t: Tree, dest: Option<Path>, skipped: bool, a: Attempt)
    requires Sane(input, t, dest)
    ensures var left := CleanupAttempt(input, t, dest, skipped, a);
            && Sane(input, left.tree, dest)
            && CleanedFiles(input, Files(left.tree), dest, skipped) == CleanedFiles(input, Files(t), dest, skipped)
  {
    AttemptOnFiles(input, t, dest, skipped, a);
  }

  datatype Tried<T> = Tried(tree: Tree, entries: seq<Entry>, result: Option<T>)

  /** Attempts of the cleanup activity until one succeeds. */
  function CleanupAll(input: MediaInput, t: Tree, dest: Option<Path>, skipped: bool, attempts: seq<Attempt>): Tried<()>
    decreases |attempts|
  {
    if attempts == [] then Tried(t, [], None)
    else
      var left := CleanupAttempt(input, t, dest, skipped, attempts[0]);
      var entry := Entry(CleanupTried(left.result.Some?), left.tree);
      if left.result.Some? then Tried(left.tree, [entry], left.result)
      else
        var rest := CleanupAll(input, left.tree, dest, skipped, attempts[1..]);
        Tried(rest.tree, [entry] + rest.entries, rest.result)
  }

  /**
   Any number of attempts that die or go unrecorded, followed by one that succeeds, leave
   exactly the files of a single cleanup: source gone or marked, skipped output gone,
   everything else as it was.
   */
  lemma {:induction false} RetriedCleanupLeavesCleanedFiles(input: MediaInput, t: Tree, dest: Option<Path>,
                                                             skipped: bool, attempts: seq<Attempt>)
    requires Sane(input, t, dest)
    requires CleanupAll(input, t, dest, skipped, attempts).result.Some?
    ensures Files(CleanupAll(input, t, dest, skipped, attempts).tree) == CleanedFiles(input, Files(t), dest, skipped)
    decreases |attempts|
  {
    AttemptOnFiles(input, t, dest, skipped, attempts[0]);
    AttemptKeepsGoal(input, t, dest, skipped, attempts[0]);
    var left := CleanupAttempt(input, t, dest, skipped, attempts[0]);
    if left.result.None? {
      RetriedCleanupLeavesCleanedFiles(input, left.tree, dest, skipped, attempts[1..]);
    }
  }

  // --- The run ---

  datatype Event =
    | ProbeJudged(notMedia: bool)
    | CropTried(ok: bool)
    | TranscodeTried(ok: bool)
    | NotifyTried(ok: bool)
    | CleanupTried(ok: bool)
    | FailureNotified

  /** An attempt, and the tree it leaves. */
  datatype Entry = Entry(event: Event, tree: Tree)

  const CLEANUP_MAX_ATTEMPTS := 3

  /** Everything the run does not decide itself. Probe, crop and transcode are tried once. */
  datatype Script = Script(
    verdict: Verdict,
    probe: Attempt,
    cropOk: bool,
    encoding: Encoding,
    transcode: Attempt,
    notifyMaxAttempts: nat,
    notify: seq<NotifyAttempt>,
    cleanup: seq<Attempt>)

  function Take<T>(xs: seq<T>, n: nat): seq<T> {
    if |xs| <= n then xs else xs[..n]
  }

  /** Attempts of the notify activity until one is recorded or refused for good. */
  function NotifyAll(t: Tree, dest: Path, attempts: seq<NotifyAttempt>): Tried<bool> {
    if attempts == [] then Tried(t, [], None)
    else
      var n := attempts[0];
      var after := Moved(t, dest, n.moves);
      var entry := Entry(NotifyTried(NotifyResult(n).Some?), after);
      if Final(n) then Tried(after, [entry], NotifyResult(n))
      else
        var rest := NotifyAll(after, dest, attempts[1..]);
        Tried(rest.tree, [entry] + rest.entries, rest.result)
  }

  datatype Outcome = Outcome(trace: seq<Entry>, tree: Tree, failed: bool)

  /** The deferred handler: a failing run schedules the failure webhook. */
  function Fail(trace: seq<Entry>, tree: Tree): Outcome {
    Outcome(trace + [Entry(FailureNotified, tree)], tree, true)
  }

  function Finish(input: MediaInput, trace: seq<Entry>, t: Tree, dest: Option<Path>, skipped: bool, s: Script): Outcome {
    var c := CleanupAll(input, t, dest, skipped, Take(s.cleanup, CLEANUP_MAX_ATTEMPTS));
    if c.result.None? then Fail(trace + c.entries, c.tree) else Outcome(trace + c.entries, c.tree, false)
  }

  function AfterTranscode(input: MediaInput, s: Script, trace: seq<Entry>, t: Tree, dest: Path): Outcome {
    var n := NotifyAll(t, dest, Take(s.notify, s.notifyMaxAttempts));
    if n.result.None? then Fail(trace + n.entries, n.tree)
    else Finish(input, trace + n.entries, n.tree, Some(dest), n.result.value, s)
  }

  function Transcoding(input: MediaInput, s: Script, cropped: seq<Entry>, t: Tree): Outcome {
    var x := TranscodeAttempt(input, t, s.encoding, s.transcode);
    var tried := cropped + [Entry(TranscodeTried(x.result.Some?), x.tree)];
    if x.result.None? then Fail(tried, x.tree) else AfterTranscode(input, s, tried, x.tree, x.result.value)
  }

  function Cropped(input: MediaInput, s: Script, trace: seq<Entry>, t: Tree): seq<Entry> {
    if input.skipCropDetection then trace else trace + [Entry(CropTried(s.cropOk), t)]
  }

  function AfterProbe(input: MediaInput, s: Script, trace: seq<Entry>, t: Tree): Outcome {
    var cropped := Cropped(input, s, trace, t);
    if !input.skipCropDetection && !s.cropOk then Fail(cropped, t) else Transcoding(input, s, cropped, t)
  }

  function Run(input: MediaInput, s: Script, t: Tree): Outcome {
    var p := ProbeAttempt(input, t, s.verdict, s.probe);
    var trace := [Entry(ProbeJudged(NotMedia(s.verdict)), p.tree)];
    if p.result.None? then Fail(trace, p.tree)
    else if !p.result.value then Finish(input, trace, p.tree, None, false, s)
    else AfterProbe(input, s, trace, p.tree)
  }

  // --- The run, step by step ---

  /** What precedes the rest of a retry loop. */
  function Resumed<T>(entries: seq<Entry>, rest: Tried<T>): Tried<T> {
    Tried(rest.tree, entries + rest.entries, rest.result)
  }

  predicate Final(n: NotifyAttempt) {
    NotifyResult(n).Some? || (n.outcome == Refused && n.recorded)
  }

  /** The notify activity under its retry policy. */
  method ExecuteNotify(disk: Disk, dest: Path, attempts: seq<NotifyAttempt>)
    returns (entries: seq<Entry>, skipped: Option<bool>)
    modifies disk
    ensures Tried(disk.tree, entries, skipped) == NotifyAll(old(disk.tree), dest, attempts)
  {
    entries, skipped := [], None;
    var i := 0;
    while i < |attempts|
      invariant 0 <= i <= |attempts|
      invariant NotifyAll(old(disk.tree), dest, attempts) == Resumed(entries, NotifyAll(disk.tree, dest, attempts[i..]))
    {
      var n := attempts[i];
      disk.tree := Moved(disk.tree, dest, n.moves);
      var entry := Entry(NotifyTried(NotifyResult(n).Some?), disk.tree);
      entries := entries + [entry];
      if Final(n) {
        return entries, NotifyResult(n);
      }
      i := i + 1;
    }
  }

  /** The cleanup activity under its retry policy. */
  method ExecuteCleanup(disk: Disk, input: MediaInput, dest: Option<Path>, skipped: bool, attempts: seq<Attempt>)
    returns (entries: seq<Entry>, ok: Option<()>)
    modifies disk
    ensures Tried(disk.tree, entries, ok) == CleanupAll(input, old(disk.tree), dest, skipped, attempts)
  {
    entries, ok := [], None;
    var i := 0;
    while i < |attempts|
      invariant 0 <= i <= |attempts|
      invariant CleanupAll(input, old(disk.tree), dest, skipped, attempts)
             == Resumed(entries, CleanupAll(input, disk.tree, dest, skipped, attempts[i..]))
    {
      var left := CleanupAttempt(input, disk.tree, dest, skipped, attempts[i]);
      disk.tree := left.tree;
      var entry := Entry(CleanupTried(left.result.Some?), disk.tree);
      entries := entries + [entry];
      if left.result.Some? {
        return entries, left.result;
      }
      i := i + 1;
    }
  }

  /** What the notify step hands to cleanup. */
  datatype Notified = Notified(dest: Path, skipped: bool)

  /** Transcode and notify; None when either ended the run. */
  method TranscodeAndNotify(disk: Disk, input: MediaInput, s: Script, cropped: seq<Entry>)
    returns (trace: seq<Entry>, notified: Option<Notified>)
    modifies disk
    ensures Transcoding(input, s, cropped, old(disk.tree)) ==
              match notified
              case None => Fail(trace, disk.tree)
              case Some(n) => Finish(input, trace, disk.tree, Some(n.dest), n.skipped, s)
  {
    var transcode := TranscodeAttempt(input, disk.tree, s.encoding, s.transcode);
    disk.tree := transcode.tree;
    trace := cropped + [Entry(TranscodeTried(transcode.result.Some?), disk.tree)];
    if transcode.result.None? {
      return trace, None;
    }
    var dest := transcode.result.value;
    var tried, skipped := ExecuteNotify(disk, dest, Take(s.notify, s.notifyMaxAttempts));
    trace := trace + tried;
    return trace, if skipped.None? then None else Some(Notified(dest, skipped.value));
  }

  /** MediaWorkflow: straight-line steps, each of which may end the run, then the deferred handler. */
  method MediaWorkflow(disk: Disk, input: MediaInput, s: Script) returns (trace: seq<Entry>, failed: bool)
    modifies disk
    ensures Outcome(trace, disk.tree, failed) == Run(input, s, old(disk.tree))
  {
    failed := true;
    label steps: {
      var probe := ProbeAttempt(input, disk.tree, s.verdict, s.probe);
      disk.tree := probe.tree;
      trace := [Entry(ProbeJudged(NotMedia(s.verdict)), disk.tree)];
      if probe.result.None? {
        break steps;
      }
      var dest, skipped := None, false;
      if probe.result.value {
        if !input.skipCropDetection {
          trace := trace + [Entry(CropTried(s.cropOk), disk.tree)];
          if !s.cropOk {
            break steps;
          }
        }
        var notified;
        trace, notified := TranscodeAndNotify(disk, input, s, trace);
        if notified.None? {
          break steps;
        }
        dest, skipped := Some(notified.value.dest), notified.value.skipped;
      }
      var cleaned, ok := ExecuteCleanup(disk, input, dest, skipped, Take(s.cleanup, CLEANUP_MAX_ATTEMPTS));
      trace := trace + cleaned;
      failed := ok.None?;
    }
    if failed {
      trace := trace + [Entry(FailureNotified, disk.tree)];
    }
  }

  // --- Failure notification ---

  function Notifications(trace: seq<Entry>): nat {
    if trace == [] then 0
    else Notifications(trace[..|trace| - 1]) + if trace[|trace| - 1].event == FailureNotified then 1 else 0
  }

  lemma {:induction false} NotificationsConcat(xs: seq<Entry>, ys: seq<Entry>)
    ensures Notifications(xs + ys) == Notifications(xs) + Notifications(ys)
  {
    if ys == [] {
      assert xs + ys == xs;
    } else {
      NotificationsConcat(xs, ys[..|ys| - 1]);
      assert (xs + ys)[..|xs + ys| - 1] == xs + ys[..|ys| - 1];
    }
  }

  lemma {:induction false} RetriesDoNotNotify(input: MediaInput, t: Tree, dest: Option<Path>, skipped: bool,
                                              attempts: seq<Attempt>)
    ensures Notifications(CleanupAll(input, t, dest, skipped, attempts).entries) == 0
    decreases |attempts|
  {
    if attempts != [] {
      var left := CleanupAttempt(input, t, dest, skipped, attempts[0]);
      var entry := Entry(CleanupTried(left.result.Some?), left.tree);
      if left.result.None? {
        RetriesDoNotNotify(input, left.tree, dest, skipped, attempts[1..]);
        NotificationsConcat([entry], CleanupAll(input, left.tree, dest, skipped, attempts[1..]).entries);
      }
    }
  }

  lemma {:induction false} ImportsDoNotNotify(t: Tree, dest: Path, attempts: seq<NotifyAttempt>)
    ensures Notifications(NotifyAll(t, dest, attempts).entries) == 0
    decreases |attempts|
  {
    if attempts != [] {
      var after := Moved(t, dest, attempts[0].moves);
      var entry := Entry(NotifyTried(NotifyResult(attempts[0]).Some?), after);
      ImportsDoNotNotify(after, dest, attempts[1..]);
      NotificationsConcat([entry], NotifyAll(after, dest, attempts[1..]).entries);
    }
  }

  predicate NotifiedOnceIffFailed(o: Outcome) {
    Notifications(o.trace) == if o.failed then 1 else 0
  }

  lemma FinishNotifies(input: MediaInput, trace: seq<Entry>, t: Tree, dest: Option<Path>, skipped: bool, s: Script)
    requires Notifications(trace) == 0
    ensures NotifiedOnceIffFailed(Finish(input, trace, t, dest, skipped, s))
  {
    var attempts := Take(s.cleanup, CLEANUP_MAX_ATTEMPTS);
    var c := CleanupAll(input, t, dest, skipped, attempts);
    RetriesDoNotNotify(input, t, dest, skipped, attempts);
    NotificationsConcat(trace, c.entries);
  }

  lemma AfterTranscodeNotifies(input: MediaInput, s: Script, trace: seq<Entry>, t: Tree, dest: Path)
    requires Notifications(trace) == 0
    ensures NotifiedOnceIffFailed(AfterTranscode(input, s, trace, t, dest))
  {
    var attempts := Take(s.notify, s.notifyMaxAttempts);
    var n := NotifyAll(t, dest, attempts);
    ImportsDoNotNotify(t, dest, attempts);
    NotificationsConcat(trace, n.entries);
    if n.result.Some? {
      FinishNotifies(input, trace + n.entries, n.tree, Some(dest), n.result.value, s);
    }
  }

  lemma TranscodingNotifies(input: MediaInput, s: Script, cropped: seq<Entry>, t: Tree)
    requires Notifications(cropped) == 0
    ensures NotifiedOnceIffFailed(Transcoding(input, s, cropped, t))
  {
    var x := TranscodeAttempt(input, t, s.encoding, s.transcode);
    var entry := Entry(TranscodeTried(x.result.Some?), x.tree);
    if x.result.Some? {
      AfterTranscodeNotifies(input, s, cropped + [entry], x.tree, x.result.value);
    }
  }

  lemma AfterProbeNotifies(input: MediaInput, s: Script, trace: seq<Entry>, t: Tree)
    requires Notifications(trace) == 0
    ensures NotifiedOnceIffFailed(AfterProbe(input, s, trace, t))
  {
    TranscodingNotifies(input, s, Cropped(input, s, trace, t), t);
  }

  /** The failure webhook is scheduled exactly once when the run returns an error, and never otherwise. */
  lemma FailureIsNotifiedOnce(input: MediaInput, s: Script, t: Tree)
    ensures NotifiedOnceIffFailed(Run(input, s, t))
  {
    var p := ProbeAttempt(input, t, s.verdict, s.probe);
    var trace := [Entry(ProbeJudged(NotMedia(s.verdict)), p.tree)];
    FinishNotifies(input, trace, p.tree, None, false, s);
    AfterProbeNotifies(input, s, trace, p.tree);
  }

  // --- The source file ---

  /** The source is there with its original content. */
  predicate Intact(input: MediaInput, original: Node, t: Tree) {
    input.source in t && t[input.source] == original
  }

  /**
   What justifies a missing source at entry `k`: it may be removed at all, and either the
   probe judged it not to be media, or both transcode and notify had succeeded before.
   */
  ghost predicate Justified(input: MediaInput, trace: seq<Entry>, k: nat)
    requires k < |trace|
  {
    && !input.preserveSource
    && ((exists j :: 0 <= j <= k && trace[j].event == ProbeJudged(true))
     || (exists i, j :: 0 <= i < j < k && trace[i].event == TranscodeTried(true) && trace[j].event == NotifyTried(true)))
  }

  /** The same, for what follows a trace. */
  ghost predicate MayRemove(trace: seq<Entry>) {
    || (exists j :: 0 <= j < |trace| && trace[j].event == ProbeJudged(true))
    || (exists i, j :: 0 <= i < j < |trace| && trace[i].event == TranscodeTried(true) && trace[j].event == NotifyTried(true))
  }

  ghost predicate SourceSafe(input: MediaInput, original: Node, trace: seq<Entry>) {
    forall k :: 0 <= k < |trace| ==> Intact(input, original, trace[k].tree) || Justified(input, trace, k)
  }

  ghost predicate AllIntact(input: MediaInput, original: Node, trace: seq<Entry>) {
    forall k :: 0 <= k < |trace| ==> Intact(input, original, trace[k].tree)
  }

  /** Any entries may follow once the removal is justified. */
  lemma SafeAfterJustification(input: MediaInput, original: Node, before: seq<Entry>, after: seq<Entry>)
    requires SourceSafe(input, original, before) && !input.preserveSource
    requires MayRemove(before)
    ensures SourceSafe(input, original, before + after)
  {
    var all := before + after;
    forall k | 0 <= k < |all| ensures Intact(input, original, all[k].tree) || Justified(input, all, k) {
      if k < |before| {
        SafeInLonger(input, original, before, after, k);
      } else if j :| 0 <= j < |before| && before[j].event == ProbeJudged(true) {
        assert all[j].event == ProbeJudged(true);
      } else {
        var i, j :| 0 <= i < j < |before|
                 && before[i].event == TranscodeTried(true) && before[j].event == NotifyTried(true);
        assert all[i].event == TranscodeTried(true) && all[j].event == NotifyTried(true);
      }
    }
  }

  lemma SafeInLonger(input: MediaInput, original: Node, before: seq<Entry>, after: seq<Entry>, k: nat)
    requires SourceSafe(input, original, before) && k < |before|
    ensures Intact(input, original, (before + after)[k].tree) || Justified(input, before + after, k)
  {
    var all := before + after;
    if !Intact(input, original, before[k].tree) {
      assert Justified(input, before, k);
      if j :| 0 <= j <= k && before[j].event == ProbeJudged(true) {
        assert all[j].event == ProbeJudged(true);
      } else {
        var i, j :| 0 <= i < j < k && before[i].event == TranscodeTried(true) && before[j].event == NotifyTried(true);
        assert all[i].event == TranscodeTried(true) && all[j].event == NotifyTried(true);
      }
    }
  }

  lemma AddDirKeepsParentClosed(t: Tree, dir: Path)
    requires ParentClosed(t) && dir != [] && IsDir(t, Parent(dir))
    ensures ParentClosed(t[dir := Dir])
  {
    forall p | p in t[dir := Dir] && p != [] ensures IsDir(t[dir := Dir], Parent(p)) {
      assert IsDir(t, Parent(p));
    }
  }

  ghost predicate Contains(t: Tree, u: Tree) {
    forall p :: p in u ==> p in t && t[p] == u[p]
  }

  lemma {:induction false} MakeDirsOnlyAdds(t: Tree, dir: Path)
    requires MakeDirs(t, dir).Some?
    ensures Contains(MakeDirs(t, dir).value, t)
    ensures ParentClosed(t) ==> ParentClosed(MakeDirs(t, dir).value) && IsDir(MakeDirs(t, dir).value, dir)
    decreases |dir|
  {
    if !IsDir(t, dir) {
      MakeDirsOnlyAdds(t, Parent(dir));
      if ParentClosed(t) {
        AddDirKeepsParentClosed(MakeDirs(t, Parent(dir)).value, dir);
      }
    }
  }

  lemma EncodeKeepsParentClosed(made: Tree, final: Path, temp: Path, e: Encoding, a: Attempt)
    requires ParentClosed(made) && final != [] && IsDir(made, Parent(final))
    requires temp != [] && Parent(temp) == Parent(final)
    ensures ParentClosed(Encode(made, final, temp, e, a).tree)
  {
    if CanWrite(made, temp) {
      WriteKeepsParentClosed(made, temp, EMPTY);
      if !IsDir(made, final) && e.Encodes? {
        assert |Parent(final)| < |temp|;
        WriteKeepsParentClosed(made - {temp}, final, File(e.content));
      }
    }
  }

  lemma {:induction false} MakeDirsStaysAbove(t: Tree, dir: Path, p: Path)
    requires MakeDirs(t, dir).Some? && p in MakeDirs(t, dir).value && |p| > |dir|
    ensures p in t
    decreases |dir|
  {
    if !IsDir(t, dir) {
      MakeDirsStaysAbove(t, Parent(dir), p);
    }
  }

  /** `u` has at `p` what `t` has there. */
  predicate Agree(t: Tree, u: Tree, p: Path) {
    if p in t then p in u && u[p] == t[p] else p !in u
  }

  lemma {:induction false} MakeDirsAddsDirs(t: Tree, dir: Path, p: Path)
    requires MakeDirs(t, dir).Some? && p in MakeDirs(t, dir).value && p !in t
    ensures MakeDirs(t, dir).value[p].Dir? && p <= dir
    decreases |dir|
  {
    if !IsDir(t, dir) && p != dir {
      MakeDirsAddsDirs(t, Parent(dir), p);
      PrefixTrans(p, Parent(dir), dir);
    }
  }

  /** The directories above the output may appear, as directories. */
  predicate MadeAbove(t: Tree, u: Tree, final: Path, p: Path) {
    p !in t && IsDir(u, p) && p <= Parent(final)
  }

  lemma TranscodeToKeeps(t: Tree, final: Path, temp: Path, e: Encoding, a: Attempt, p: Path)
    requires p != final && p != temp
    ensures var u := TranscodeTo(t, final, temp, e, a).tree;
            Agree(t, u, p) || MadeAbove(t, u, final, p)
  {
    var made := MakeDirs(t, Parent(final));
    if made.Some? {
      MakeDirsOnlyAdds(t, Parent(final));
      if p in made.value && p !in t {
        MakeDirsAddsDirs(t, Parent(final), p);
      }
    }
  }

  /** A transcode touches its output, its temporary file and missing directories above them only. */
  lemma TranscodeKeeps(input: MediaInput, t: Tree, e: Encoding, a: Attempt, p: Path)
    requires p !in Written(input)
    ensures var u := TranscodeAttempt(input, t, e, a).tree;
            var dest := FinalPath(input.source, input.watchRoot, input.outputPath);
            Agree(t, u, p) || (dest.Some? && MadeAbove(t, u, dest.value, p))
  {
    var dest := FinalPath(input.source, input.watchRoot, input.outputPath);
    if dest.Some? {
      TranscodeToKeeps(t, dest.value, TempPath(input.source, dest.value), e, a, p);
    }
  }

  /** The paths a transcode writes files to. */
  function Written(input: MediaInput): set<Path> {
    match FinalPath(input.source, input.watchRoot, input.outputPath)
    case None => {}
    case Some(final) => {final, TempPath(input.source, final)}
  }

  /** What an attempt may leave at the output path, starting from `t`. */
  predicate WholeOutput(t: Tree, left: Left<Path>, final: Path, e: Encoding) {
    && (Agree(t, left.tree, final) || (e.Encodes? && IsFile(left.tree, final) && left.tree[final] == File(e.content)))
    && (left.result.Some? ==>
          && IsFile(left.tree, final)
          && (e.Reuses? || (e.Encodes? && left.tree[final] == File(e.content))))
  }

  lemma MakeDirsAgrees(t: Tree, final: Path)
    requires final != [] && MakeDirs(t, Parent(final)).Some?
    ensures Agree(t, MakeDirs(t, Parent(final)).value, final)
  {
    MakeDirsOnlyAdds(t, Parent(final));
    if final in MakeDirs(t, Parent(final)).value {
      MakeDirsStaysAbove(t, Parent(final), final);
    }
  }

  lemma TranscodeToIsAtomic(t: Tree, final: Path, temp: Path, e: Encoding, a: Attempt)
    requires final != [] && temp != final
    ensures WholeOutput(t, TranscodeTo(t, final, temp, e, a), final, e)
  {
    var made := MakeDirs(t, Parent(final));
    if made.Some? {
      MakeDirsAgrees(t, final);
    }
  }

  /**
   The output is never seen half-written: whenever an attempt dies, it holds what it held before
   or the whole new content; and a path is reported only if a file is there.
   */
  lemma OutputIsAtomic(input: MediaInput, t: Tree, e: Encoding, a: Attempt, final: Path)
    requires FinalPath(input.source, input.watchRoot, input.outputPath) == Some(final)
    ensures WholeOutput(t, TranscodeAttempt(input, t, e, a), final, e)
  {
    OutputIsNotSentinel(input.source, input.watchRoot, input.outputPath);
    assert |TempName(Base(input.source))| > |MkvName(Base(input.source))|;
    TranscodeToIsAtomic(t, final, TempPath(input.source, final), e, a);
  }

  /** A transcode touches the source only when the output is the source. */
  lemma TranscodeKeepsSource(input: MediaInput, original: Node, t: Tree, e: Encoding, a: Attempt)
    requires input.source != [] && Intact(input, original, t)
    requires FinalPath(input.source, input.watchRoot, input.outputPath) != Some(input.source)
    ensures Intact(input, original, TranscodeAttempt(input, t, e, a).tree)
  {
    TempIsNotSource(Base(input.source));
    TranscodeKeeps(input, t, e, a, input.source);
  }

  lemma TranscodeToKeepsParentClosed(t: Tree, final: Path, temp: Path, e: Encoding, a: Attempt)
    requires ParentClosed(t) && final != []
    requires temp != [] && Parent(temp) == Parent(final)
    ensures ParentClosed(TranscodeTo(t, final, temp, e, a).tree)
    ensures TranscodeTo(t, final, temp, e, a).result in {None, Some(final)}
  {
    var made := MakeDirs(t, Parent(final));
    if made.Some? {
      MakeDirsOnlyAdds(t, Parent(final));
      EncodeKeepsParentClosed(made.value, final, temp, e, a);
    }
  }

  /** What a transcode leaves is a well-formed tree, and its result is a path of its own. */
  lemma TranscodeIsSane(input: MediaInput, t: Tree, e: Encoding, a: Attempt)
    requires ParentClosed(t) && input.source != []
    ensures var x := TranscodeAttempt(input, t, e, a);
            && Sane(input, x.tree, x.result)
            && (x.result.Some? ==> x.result == FinalPath(input.source, input.watchRoot, input.outputPath))
  {
    var dest := FinalPath(input.source, input.watchRoot, input.outputPath);
    if dest.Some? && IsFile(t, input.source) {
      OutputIsNotSentinel(input.source, input.watchRoot, input.outputPath);
      var temp := TempPath(input.source, dest.value);
      TranscodeToKeepsParentClosed(t, dest.value, temp, e, a);
      assert TranscodeAttempt(input, t, e, a) == TranscodeTo(t, dest.value, temp, e, a);
    }
  }

  lemma {:induction false} NotifyKeepsParentClosed(t: Tree, dest: Path, attempts: seq<NotifyAttempt>)
    requires ParentClosed(t) && dest != []
    ensures ParentClosed(NotifyAll(t, dest, attempts).tree)
    decreases |attempts|
  {
    if attempts != [] {
      var moved := Moved(t, dest, attempts[0].moves);
      RemoveKeepsParentClosed(t, dest);
      if attempts[0].moves && IsFile(t, dest) {
        assert Remove(t, dest) == t - {dest};
      }
      NotifyKeepsParentClosed(moved, dest, attempts[1..]);
    }
  }

  lemma {:induction false} NotifyKeepsSource(input: MediaInput, original: Node, t: Tree, dest: Path,
                                             attempts: seq<NotifyAttempt>)
    requires Intact(input, original, t) && dest != input.source
    ensures var n := NotifyAll(t, dest, attempts);
            && Intact(input, original, n.tree)
            && AllIntact(input, original, n.entries)
            && (n.result.Some? ==> n.entries != [] && n.entries[|n.entries| - 1].event == NotifyTried(true))
    decreases |attempts|
  {
    if attempts != [] {
      NotifyKeepsSource(input, original, Moved(t, dest, attempts[0].moves), dest, attempts[1..]);
    }
  }

  /** With PreserveSource a cleanup attempt touches the source only when the output is the source. */
  lemma CleanupKeepsPreserved(input: MediaInput, original: Node, t: Tree, dest: Option<Path>, skipped: bool, a: Attempt)
    requires Sane(input, t, dest) && input.preserveSource && original.File? && Intact(input, original, t)
    requires dest != Some(input.source)
    ensures Intact(input, original, CleanupAttempt(input, t, dest, skipped, a).tree)
  {
    AttemptOnFiles(input, t, dest, skipped, a);
    SentinelsAreSkipped(input.source);
    var left := CleanupAttempt(input, t, dest, skipped, a).tree;
    assert input.source in Files(t) && Files(t)[input.source] == original;
    assert input.source in Files(left) && Files(left)[input.source] == original;
  }

  lemma {:induction false} RetriesKeepPreserved(input: MediaInput, original: Node, t: Tree, dest: Option<Path>,
                                                skipped: bool, attempts: seq<Attempt>)
    requires Sane(input, t, dest) && input.preserveSource && original.File? && Intact(input, original, t)
    requires dest != Some(input.source)
    ensures var c := CleanupAll(input, t, dest, skipped, attempts);
            Intact(input, original, c.tree) && AllIntact(input, original, c.entries)
    decreases |attempts|
  {
    if attempts != [] {
      CleanupKeepsPreserved(input, original, t, dest, skipped, attempts[0]);
      AttemptOnFiles(input, t, dest, skipped, attempts[0]);
      RetriesKeepPreserved(input, original, CleanupAttempt(input, t, dest, skipped, attempts[0]).tree,
                           dest, skipped, attempts[1..]);
    }
  }

  /** Cleanup after a justified removal, or one that must preserve the source. */
  lemma FinishIsSafe(input: MediaInput, original: Node, trace: seq<Entry>, t: Tree, dest: Option<Path>,
                     skipped: bool, s: Script)
    requires Sane(input, t, dest) && original.File? && dest != Some(input.source)
    requires SourceSafe(input, original, trace)
    requires input.preserveSource ==> Intact(input, original, t)
    requires input.preserveSource || MayRemove(trace)
    ensures SourceSafe(input, original, Finish(input, trace, t, dest, skipped, s).trace)
  {
    var attempts := Take(s.cleanup, CLEANUP_MAX_ATTEMPTS);
    var c := CleanupAll(input, t, dest, skipped, attempts);
    var last := if c.result.None? then [Entry(FailureNotified, c.tree)] else [];
    assert Finish(input, trace, t, dest, skipped, s).trace == trace + (c.entries + last);
    if input.preserveSource {
      RetriesKeepPreserved(input, original, t, dest, skipped, attempts);
      forall k | 0 <= k < |trace| ensures Intact(input, original, trace[k].tree) {
        assert !Justified(input, trace, k);
      }
    } else {
      SafeAfterJustification(input, original, trace, c.entries + last);
    }
  }

  /** The part of a run between a transcode that succeeded and its end. */
  lemma AfterTranscodeIsSafe(input: MediaInput, original: Node, s: Script, trace: seq<Entry>, t: Tree, dest: Path)
    requires Sane(input, t, Some(dest)) && original.File? && dest != input.source
    requires AllIntact(input, original, trace) && Intact(input, original, t)
    requires trace != [] && trace[|trace| - 1].event == TranscodeTried(true)
    ensures SourceSafe(input, original, AfterTranscode(input, s, trace, t, dest).trace)
  {
    var attempts := Take(s.notify, s.notifyMaxAttempts);
    var n := NotifyAll(t, dest, attempts);
    NotifyKeepsSource(input, original, t, dest, attempts);
    NotifyKeepsParentClosed(t, dest, attempts);
    var all := trace + n.entries;
    if n.result.Some? {
      assert all[|trace| - 1].event == TranscodeTried(true) && all[|all| - 1].event == NotifyTried(true);
      FinishIsSafe(input, original, all, n.tree, Some(dest), n.result.value, s);
    }
  }

  lemma IntactIsSafe(input: MediaInput, original: Node, trace: seq<Entry>)
    requires AllIntact(input, original, trace)
    ensures SourceSafe(input, original, trace)
  {
  }

  lemma TranscodingIsSafe(input: MediaInput, original: Node, s: Script, cropped: seq<Entry>, t: Tree)
    requires ParentClosed(t) && input.source != [] && original.File?
    requires FinalPath(input.source, input.watchRoot, input.outputPath) != Some(input.source)
    requires AllIntact(input, original, cropped) && Intact(input, original, t)
    ensures SourceSafe(input, original, Transcoding(input, s, cropped, t).trace)
  {
    var x := TranscodeAttempt(input, t, s.encoding, s.transcode);
    TranscodeKeepsSource(input, original, t, s.encoding, s.transcode);
    TranscodeIsSane(input, t, s.encoding, s.transcode);
    var tried := cropped + [Entry(TranscodeTried(x.result.Some?), x.tree)];
    if x.result.Some? {
      AfterTranscodeIsSafe(input, original, s, tried, x.tree, x.result.value);
    } else {
      IntactIsSafe(input, original, Fail(tried, x.tree).trace);
    }
  }

  lemma AfterProbeIsSafe(input: MediaInput, original: Node, s: Script, trace: seq<Entry>, t: Tree)
    requires ParentClosed(t) && input.source != [] && original.File?
    requires FinalPath(input.source, input.watchRoot, input.outputPath) != Some(input.source)
    requires AllIntact(input, original, trace) && Intact(input, original, t)
    ensures SourceSafe(input, original, AfterProbe(input, s, trace, t).trace)
  {
    var cropped := Cropped(input, s, trace, t);
    if input.skipCropDetection || s.cropOk {
      TranscodingIsSafe(input, original, s, cropped, t);
    } else {
      IntactIsSafe(input, original, Fail(cropped, t).trace);
    }
  }

  lemma ProbeKeepsParentClosed(input: MediaInput, t: Tree, v: Verdict, a: Attempt)
    requires ParentClosed(t) && input.source != []
    ensures ParentClosed(ProbeAttempt(input, t, v, a).tree)
  {
    RemoveKeepsParentClosed(t, input.source);
    PruneUpToKeepsFiles(Remove(t, input.source), input.watchRoot, input.source, a.pruned);
  }

  lemma NotMediaIsSafe(input: MediaInput, original: Node, s: Script, t: Tree)
    requires ParentClosed(t) && input.source != [] && original.File?
    requires input.preserveSource ==> Intact(input, original, t)
    ensures SourceSafe(input, original, Fail([Entry(ProbeJudged(true), t)], t).trace)
    ensures SourceSafe(input, original, Finish(input, [Entry(ProbeJudged(true), t)], t, None, false, s).trace)
  {
    var trace := [Entry(ProbeJudged(true), t)];
    assert trace[0].event == ProbeJudged(true);
    assert SourceSafe(input, original, trace);
    FinishIsSafe(input, original, trace, t, None, false, s);
    if input.preserveSource {
      IntactIsSafe(input, original, Fail(trace, t).trace);
    } else {
      SafeAfterJustification(input, original, trace, [Entry(FailureNotified, t)]);
    }
  }

  /**
   Whatever fails, is retried or dies part-way, the source is intact after every attempt of
   the run unless its removal is justified - provided the output is not the source itself.
   */
  lemma SourceRemovedOnlyWhenJustified(input: MediaInput, s: Script, t: Tree)
    requires ParentClosed(t) && input.source != [] && IsFile(t, input.source)
    requires FinalPath(input.source, input.watchRoot, input.outputPath) != Some(input.source)
    ensures SourceSafe(input, t[input.source], Run(input, s, t).trace)
  {
    var original := t[input.source];
    var p := ProbeAttempt(input, t, s.verdict, s.probe);
    var trace := [Entry(ProbeJudged(NotMedia(s.verdict)), p.tree)];
    ProbeKeepsParentClosed(input, t, s.verdict, s.probe);
    ProbeKeepsMedia(input, t, s.verdict, s.probe);
    if NotMedia(s.verdict) {
      NotMediaIsSafe(input, original, s, p.tree);
    } else {
      IntactIsSafe(input, original, Fail(trace, p.tree).trace);
      AfterProbeIsSafe(input, original, s, trace, p.tree);
    }
  }

  lemma ProbeKeepsMedia(input: MediaInput, t: Tree, v: Verdict, a: Attempt)
    ensures !NotMedia(v) || input.preserveSource ==> ProbeAttempt(input, t, v, a).tree == t
    ensures NotMedia(v) ==> ProbeAttempt(input, t, v, a).result in {None, Some(false)}
  {
  }

  /** A run whose output is already there and is moved into the library by the import. */
  const REUSE_AND_MOVE :=
    Script(Video, COMPLETE, true, Reuses, COMPLETE, 1, [NotifyAttempt(Imported, true, true)], [])

  /**
   The guarantee holds of every run exactly when the output path is not the source path:
   otherwise importing the output takes the source away before notify has succeeded.
   */
  lemma SourceIsSafeIffOutputElsewhere(input: MediaInput, t: Tree)
    requires ParentClosed(t) && input.source != [] && IsFile(t, input.source)
    ensures (forall s: Script :: SourceSafe(input, t[input.source], Run(input, s, t).trace))
        <==> FinalPath(input.source, input.watchRoot, input.outputPath) != Some(input.source)
  {
    var original := t[input.source];
    if FinalPath(input.source, input.watchRoot, input.outputPath) != Some(input.source) {
      forall s: Script ensures SourceSafe(input, original, Run(input, s, t).trace) {
        SourceRemovedOnlyWhenJustified(input, s, t);
      }
    } else {
      ReuseAndMoveLosesSource(input, t);
    }
  }

  lemma ReusingIsInstant(input: MediaInput, t: Tree)
    requires ParentClosed(t) && input.source != [] && IsFile(t, input.source)
    requires FinalPath(input.source, input.watchRoot, input.outputPath) == Some(input.source)
    ensures TranscodeAttempt(input, t, Reuses, COMPLETE) == Left(t, Some(input.source))
  {
  }

  /** A file missing before notify succeeded is not justified. */
  lemma FirstNotifyIsTooEarly(input: MediaInput, original: Node, tried: seq<Entry>, moved: Entry, trace: seq<Entry>)
    requires tried + [moved] <= trace && !Intact(input, original, moved.tree)
    requires moved.event == NotifyTried(true)
    requires forall j :: 0 <= j < |tried| ==> tried[j].event != ProbeJudged(true) && tried[j].event != NotifyTried(true)
    ensures !SourceSafe(input, original, trace)
  {
    var k := |tried|;
    var through := tried + [moved];
    assert trace[k] == through[k];
    forall j | 0 <= j <= k ensures trace[j].event != ProbeJudged(true) && (j < k ==> trace[j].event != NotifyTried(true)) {
      assert trace[j] == through[j];
    }
    assert !Justified(input, trace, k);
  }

  lemma ImportMovesSource(input: MediaInput, tried: seq<Entry>, t: Tree)
    requires IsFile(t, input.source)
    ensures tried + [Entry(NotifyTried(true), t - {input.source})]
         <= AfterTranscode(input, REUSE_AND_MOVE, tried, t, input.source).trace
  {
    var n := NotifyAll(t, input.source, REUSE_AND_MOVE.notify);
    assert n == Tried(t - {input.source}, [Entry(NotifyTried(true), t - {input.source})], Some(false));
    assert Take(REUSE_AND_MOVE.notify, 1) == REUSE_AND_MOVE.notify;
  }

  /** Everything before the import, in the run that reuses the source as its own output. */
  function UpToImport(input: MediaInput, t: Tree): seq<Entry> {
    Cropped(input, REUSE_AND_MOVE, [Entry(ProbeJudged(false), t)], t) + [Entry(TranscodeTried(true), t)]
  }

  lemma ReachesImport(input: MediaInput, t: Tree)
    requires TranscodeAttempt(input, t, Reuses, COMPLETE) == Left(t, Some(input.source))
    ensures Run(input, REUSE_AND_MOVE, t) == AfterTranscode(input, REUSE_AND_MOVE, UpToImport(input, t), t, input.source)
  {
    var start := [Entry(ProbeJudged(false), t)];
    assert ProbeAttempt(input, t, Video, COMPLETE) == Left(t, Some(true));
    assert Run(input, REUSE_AND_MOVE, t) == AfterProbe(input, REUSE_AND_MOVE, start, t);
  }

  lemma ImportLosesSource(input: MediaInput, t: Tree, trace: seq<Entry>)
    requires IsFile(t, input.source)
    requires UpToImport(input, t) + [Entry(NotifyTried(true), t - {input.source})] <= trace
    ensures !SourceSafe(input, t[input.source], trace)
  {
    FirstNotifyIsTooEarly(input, t[input.source], UpToImport(input, t),
                          Entry(NotifyTried(true), t - {input.source}), trace);
  }

  lemma ReuseAndMoveLosesSource(input: MediaInput, t: Tree)
    requires ParentClosed(t) && input.source != [] && IsFile(t, input.source)
    requires FinalPath(input.source, input.watchRoot, input.outputPath) == Some(input.source)
    ensures !SourceSafe(input, t[input.source], Run(input, REUSE_AND_MOVE, t).trace)
  {
    ReusingIsInstant(input, t);
    ReachesImport(input, t);
    ImportMovesSource(input, UpToImport(input, t), t);
    ImportLosesSource(input, t, Run(input, REUSE_AND_MOVE, t).trace);
  }

  /** In terms a caller can check: the output directory is the watch root and the file is a .mkv. */
  lemma SourceIsSafeIffNotMkvInPlace(input: MediaInput, root: Path, t: Tree)
    requires ParentClosed(t) && input.source != [] && IsFile(t, input.source)
    requires input.watchRoot == Some(root) && root <= Parent(input.source)
    requires Normal(input.source) && Normal(input.outputPath)
    ensures (forall s: Script :: SourceSafe(input, t[input.source], Run(input, s, t).trace))
        <==> !(input.outputPath == root && HasSuffix(Base(input.source), ".mkv"))
  {
    SourceIsSafeIffOutputElsewhere(input, t);
    OutputIsSourceIff(input.source, root, input.outputPath);
  }

  // --- What success and reruns leave ---

  /** The library took the file, or will never take it. */
  predicate Settles(n: NotifyAttempt) {
    n.recorded && (n.outcome == Imported || n.outcome == NotInLibrary || n.outcome == NotAnUpgrade)
  }

  predicate Refuses(n: NotifyAttempt) {
    n.recorded && n.outcome == Refused
  }

  /** Attempt `i` ends the retries with a success. */
  ghost predicate FirstSettled(attempts: seq<NotifyAttempt>, i: nat) {
    && i < |attempts| && Settles(attempts[i])
    && forall j :: 0 <= j < i ==> !Settles(attempts[j]) && !Refuses(attempts[j])
  }

  /**
   Notify succeeds exactly when some attempt settles before any is refused for good, and it
   reports a skipped import exactly when that attempt did not import.
   */
  lemma {:induction false} NotifySucceedsIff(t: Tree, dest: Path, attempts: seq<NotifyAttempt>)
    ensures var n := NotifyAll(t, dest, attempts);
            && (n.result.Some? <==> exists i: nat :: FirstSettled(attempts, i))
            && forall i: nat :: FirstSettled(attempts, i) ==> n.result == Some(attempts[i].outcome != Imported)
    decreases |attempts|
  {
    if attempts != [] {
      var rest := attempts[1..];
      NotifySucceedsIff(Moved(t, dest, attempts[0].moves), dest, rest);
      if Settles(attempts[0]) {
        assert FirstSettled(attempts, 0);
      }
      forall i: nat | 0 < i ensures FirstSettled(attempts, i)
                                   <==> !Settles(attempts[0]) && !Refuses(attempts[0]) && FirstSettled(rest, i - 1) {
        ShiftSettled(attempts, i);
      }
      if i: nat :| FirstSettled(rest, i) && !Settles(attempts[0]) && !Refuses(attempts[0]) {
        assert FirstSettled(attempts, i + 1);
      }
    }
  }

  lemma ShiftSettled(attempts: seq<NotifyAttempt>, i: nat)
    requires attempts != [] && i > 0
    ensures FirstSettled(attempts, i)
       <==> !Settles(attempts[0]) && !Refuses(attempts[0]) && FirstSettled(attempts[1..], i - 1)
  {
    var rest := attempts[1..];
    assert forall j :: 0 < j < |attempts| ==> attempts[j] == rest[j - 1];
    if FirstSettled(rest, i - 1) && !Settles(attempts[0]) && !Refuses(attempts[0]) {
      forall j | 0 <= j < i ensures !Settles(attempts[j]) && !Refuses(attempts[j]) {
        assert j > 0 ==> attempts[j] == rest[j - 1];
      }
    }
    if FirstSettled(attempts, i) {
      forall j | 0 <= j < i - 1 ensures !Settles(rest[j]) && !Refuses(rest[j]) {
        assert rest[j] == attempts[j + 1];
      }
    }
  }

  /**
   The end of a run that succeeds leaves the output exactly when the import was not skipped, the
   library left it, and it is not the source that has to go.
   */
  lemma OutputStaysIffNotSkipped(input: MediaInput, s: Script, trace: seq<Entry>, t: Tree, dest: Path)
    requires Sane(input, t, Some(dest))
    ensures var n := NotifyAll(t, dest, Take(s.notify, s.notifyMaxAttempts));
            var o := AfterTranscode(input, s, trace, t, dest);
            !o.failed ==>
              (IsFile(o.tree, dest)
          <==> n.result == Some(false) && IsFile(n.tree, dest) && (input.preserveSource || dest != input.source))
  {
    var attempts := Take(s.notify, s.notifyMaxAttempts);
    var n := NotifyAll(t, dest, attempts);
    NotifyKeepsParentClosed(t, dest, attempts);
    if n.result.Some? {
      FinishSettles(input, trace + n.entries, n.tree, Some(dest), n.result.value, s);
      var o := Finish(input, trace + n.entries, n.tree, Some(dest), n.result.value, s);
      assert IsFile(o.tree, dest) <==> dest in Files(o.tree);
      assert IsFile(n.tree, dest) <==> dest in Files(n.tree);
    }
  }

  /** Attempt `i` imported the output, and neither it nor one before moved the output away. */
  predicate LeftByLibrary(attempts: seq<NotifyAttempt>, i: nat)
    requires i < |attempts|
  {
    attempts[i].outcome == Imported && forall j :: 0 <= j <= i ==> !attempts[j].moves
  }

  /** The output survives the attempts up to the one that ends them exactly when none moved it. */
  lemma {:induction false} NotifyLeavesIff(t: Tree, dest: Path, attempts: seq<NotifyAttempt>, i: nat)
    requires IsFile(t, dest) && FirstSettled(attempts, i)
    ensures IsFile(NotifyAll(t, dest, attempts).tree, dest) <==> forall j :: 0 <= j <= i ==> !attempts[j].moves
    decreases |attempts|
  {
    var rest := attempts[1..];
    assert forall j :: 0 < j <= i ==> attempts[j] == rest[j - 1];
    if i > 0 {
      ShiftSettled(attempts, i);
      if attempts[0].moves {
        NotifyNeverRestores(t - {dest}, dest, rest);
      } else {
        NotifyLeavesIff(t, dest, rest, i - 1);
        assert forall j :: 0 <= j <= i - 1 ==> rest[j] == attempts[j + 1];
      }
    }
  }

  lemma {:induction false} NotifyNeverRestores(t: Tree, dest: Path, attempts: seq<NotifyAttempt>)
    requires dest !in t
    ensures dest !in NotifyAll(t, dest, attempts).tree
    decreases |attempts|
  {
    if attempts != [] {
      NotifyNeverRestores(t, dest, attempts[1..]);
    }
  }

  /**
   After a run on a media file that succeeded, the output is where it was written exactly when the
   settling attempt imported it, the library never moved it away, and it is not a source that has
   to go: nothing else is lost, and a skipped import leaves no orphan.
   */
  lemma OutputStaysIffLeftByLibrary(input: MediaInput, s: Script, t: Tree, final: Path) returns (i: nat)
    requires ParentClosed(t) && input.source != [] && s.verdict == Video && !Run(input, s, t).failed
    requires FinalPath(input.source, input.watchRoot, input.outputPath) == Some(final)
    ensures FirstSettled(Take(s.notify, s.notifyMaxAttempts), i)
    ensures IsFile(Run(input, s, t).tree, final)
       <==> LeftByLibrary(Take(s.notify, s.notifyMaxAttempts), i) && (input.preserveSource || final != input.source)
  {
    var attempts := Take(s.notify, s.notifyMaxAttempts);
    var x := TranscodeAttempt(input, t, s.encoding, s.transcode);
    TranscodeIsSane(input, t, s.encoding, s.transcode);
    OutputIsAtomic(input, t, s.encoding, s.transcode, final);
    NotifySucceedsIff(x.tree, final, attempts);
    i :| FirstSettled(attempts, i);
    NotifyLeavesIff(x.tree, final, attempts, i);
    var cropped := Cropped(input, s, [Entry(ProbeJudged(false), t)], t);
    OutputStaysIffNotSkipped(input, s, cropped + [Entry(TranscodeTried(true), x.tree)], x.tree, final);
  }

  // --- What a run may touch ---

  /** The only paths at which a run may change a file. */
  function Touched(input: MediaInput): set<Path> {
    {input.source, SentinelPath(input.source)} + Written(input)
  }

  ghost predicate Framed(input: MediaInput, t: Tree, u: Tree) {
    Files(u) - Touched(input) == Files(t) - Touched(input)
  }

  ghost predicate AllFramed(input: MediaInput, t: Tree, trace: seq<Entry>) {
    forall k :: 0 <= k < |trace| ==> Framed(input, t, trace[k].tree)
  }

  ghost predicate FramedOutcome(input: MediaInput, t: Tree, o: Outcome) {
    AllFramed(input, t, o.trace) && Framed(input, t, o.tree)
  }

  lemma AgreeIsFramed(input: MediaInput, t: Tree, u: Tree)
    requires forall p :: p !in Touched(input) ==> Agree(t, u, p) || (p !in t && IsDir(u, p))
    ensures Framed(input, t, u)
  {
    forall p | p !in Touched(input) ensures Agree(Files(t), Files(u), p) {
      assert Agree(t, u, p) || (p !in t && IsDir(u, p));
    }
  }

  lemma ProbeOnFiles(input: MediaInput, t: Tree, v: Verdict, a: Attempt)
    requires ParentClosed(t) && input.source != []
    ensures Files(ProbeAttempt(input, t, v, a).tree) in {Files(t), Files(t) - {input.source}}
  {
    var removed := Remove(t, input.source);
    RemoveKeepsParentClosed(t, input.source);
    PruneUpToKeepsFiles(removed, input.watchRoot, input.source, a.pruned);
    if RemoveOutcome(t, input.source) != NotEmpty {
      RemoveOnFiles(t, input.source);
    }
  }

  lemma WithoutSourceIsFramed(input: MediaInput, f: Tree)
    ensures f - {input.source} - Touched(input) == f - Touched(input)
  {
  }

  lemma ProbeIsFramed(input: MediaInput, t: Tree, v: Verdict, a: Attempt)
    requires ParentClosed(t) && input.source != []
    ensures Framed(input, t, ProbeAttempt(input, t, v, a).tree)
  {
    ProbeOnFiles(input, t, v, a);
    WithoutSourceIsFramed(input, Files(t));
  }

  lemma TranscodeIsFramed(input: MediaInput, t: Tree, e: Encoding, a: Attempt)
    ensures Framed(input, t, TranscodeAttempt(input, t, e, a).tree)
  {
    var u := TranscodeAttempt(input, t, e, a).tree;
    forall p | p !in Touched(input) ensures Agree(t, u, p) || (p !in t && IsDir(u, p)) {
      TranscodeKeeps(input, t, e, a, p);
    }
    AgreeIsFramed(input, t, u);
  }

  lemma {:induction false} NotifyIsFramed(input: MediaInput, t: Tree, dest: Path, attempts: seq<NotifyAttempt>)
    requires dest in Touched(input)
    ensures var n := NotifyAll(t, dest, attempts);
            AllFramed(input, t, n.entries) && Framed(input, t, n.tree)
    decreases |attempts|
  {
    if attempts != [] {
      var moved := Moved(t, dest, attempts[0].moves);
      AgreeIsFramed(input, t, moved);
      NotifyIsFramed(input, moved, dest, attempts[1..]);
    }
  }

  lemma CleanupAttemptIsFramed(input: MediaInput, t: Tree, dest: Option<Path>, skipped: bool, a: Attempt)
    requires Sane(input, t, dest) && (dest.Some? ==> dest.value in Touched(input))
    ensures var u := CleanupAttempt(input, t, dest, skipped, a).tree;
            Sane(input, u, dest) && Framed(input, t, u)
  {
    AttemptOnFiles(input, t, dest, skipped, a);
  }

  lemma {:induction false} CleanupIsFramed(input: MediaInput, t: Tree, dest: Option<Path>, skipped: bool,
                                           attempts: seq<Attempt>)
    requires Sane(input, t, dest) && (dest.Some? ==> dest.value in Touched(input))
    ensures var c := CleanupAll(input, t, dest, skipped, attempts);
            AllFramed(input, t, c.entries) && Framed(input, t, c.tree)
    decreases |attempts|
  {
    if attempts != [] {
      CleanupAttemptIsFramed(input, t, dest, skipped, attempts[0]);
      CleanupIsFramed(input, CleanupAttempt(input, t, dest, skipped, attempts[0]).tree, dest, skipped, attempts[1..]);
    }
  }

  lemma FinishIsFramed(input: MediaInput, start: Tree, trace: seq<Entry>, t: Tree, dest: Option<Path>, skipped: bool, s: Script)
    requires Sane(input, t, dest) && (dest.Some? ==> dest.value in Touched(input))
    requires AllFramed(input, start, trace) && Framed(input, start, t)
    ensures FramedOutcome(input, start, Finish(input, trace, t, dest, skipped, s))
  {
    CleanupIsFramed(input, t, dest, skipped, Take(s.cleanup, CLEANUP_MAX_ATTEMPTS));
  }

  lemma AfterTranscodeIsFramed(input: MediaInput, start: Tree, s: Script, trace: seq<Entry>, t: Tree, dest: Path)
    requires Sane(input, t, Some(dest)) && dest in Touched(input)
    requires AllFramed(input, start, trace) && Framed(input, start, t)
    ensures FramedOutcome(input, start, AfterTranscode(input, s, trace, t, dest))
  {
    var attempts := Take(s.notify, s.notifyMaxAttempts);
    var n := NotifyAll(t, dest, attempts);
    NotifyIsFramed(input, t, dest, attempts);
    NotifyKeepsParentClosed(t, dest, attempts);
    if n.result.Some? {
      FinishIsFramed(input, start, trace + n.entries, n.tree, Some(dest), n.result.value, s);
    }
  }

  lemma TranscodingIsFramed(input: MediaInput, start: Tree, s: Script, cropped: seq<Entry>, t: Tree)
    requires ParentClosed(t) && input.source != []
    requires AllFramed(input, start, cropped) && Framed(input, start, t)
    ensures FramedOutcome(input, start, Transcoding(input, s, cropped, t))
  {
    var x := TranscodeAttempt(input, t, s.encoding, s.transcode);
    var entry := Entry(TranscodeTried(x.result.Some?), x.tree);
    TranscodeIsFramed(input, t, s.encoding, s.transcode);
    TranscodeIsSane(input, t, s.encoding, s.transcode);
    if x.result.Some? {
      AfterTranscodeIsFramed(input, start, s, cropped + [entry], x.tree, x.result.value);
    }
  }

  lemma AfterProbeIsFramed(input: MediaInput, start: Tree, s: Script, trace: seq<Entry>, t: Tree)
    requires ParentClosed(t) && input.source != []
    requires AllFramed(input, start, trace) && Framed(input, start, t)
    ensures FramedOutcome(input, start, AfterProbe(input, s, trace, t))
  {
    TranscodingIsFramed(input, start, s, Cropped(input, s, trace, t), t);
  }

  /**
   A frame for whole runs: after every attempt, and at the end, every file other than the source,
   its marker, the output and its temporary file is there with the content it had, and no other
   file has appeared.
   */
  lemma RunTouchesOnlyItsFiles(input: MediaInput, s: Script, t: Tree)
    requires ParentClosed(t) && input.source != []
    ensures FramedOutcome(input, t, Run(input, s, t))
  {
    var p := ProbeAttempt(input, t, s.verdict, s.probe);
    var trace := [Entry(ProbeJudged(NotMedia(s.verdict)), p.tree)];
    ProbeIsFramed(input, t, s.verdict, s.probe);
    ProbeKeepsParentClosed(input, t, s.verdict, s.probe);
    FinishIsFramed(input, t, trace, p.tree, None, false, s);
    AfterProbeIsFramed(input, t, s, trace, p.tree);
  }

  /** What a watcher looks for before dispatching the file again. */
  predicate Settled(input: MediaInput, t: Tree) {
    if input.preserveSource then IsFile(t, SentinelPath(input.source)) else !IsFile(t, input.source)
  }

  lemma FinishSettles(input: MediaInput, trace: seq<Entry>, t: Tree, dest: Option<Path>, skipped: bool, s: Script)
    requires Sane(input, t, dest)
    ensures var o := Finish(input, trace, t, dest, skipped, s);
            !o.failed ==> Files(o.tree) == CleanedFiles(input, Files(t), dest, skipped) && Settled(input, o.tree)
  {
    var attempts := Take(s.cleanup, CLEANUP_MAX_ATTEMPTS);
    var c := CleanupAll(input, t, dest, skipped, attempts);
    if c.result.Some? {
      RetriedCleanupLeavesCleanedFiles(input, t, dest, skipped, attempts);
      assert IsFile(c.tree, SentinelPath(input.source)) <==> SentinelPath(input.source) in Files(c.tree);
      assert IsFile(c.tree, input.source) <==> input.source in Files(c.tree);
    }
  }

  lemma AfterTranscodeSettles(input: MediaInput, s: Script, trace: seq<Entry>, t: Tree, dest: Path)
    requires Sane(input, t, Some(dest))
    ensures var o := AfterTranscode(input, s, trace, t, dest);
            !o.failed ==> Settled(input, o.tree)
  {
    var attempts := Take(s.notify, s.notifyMaxAttempts);
    var n := NotifyAll(t, dest, attempts);
    NotifyKeepsParentClosed(t, dest, attempts);
    if n.result.Some? {
      FinishSettles(input, trace + n.entries, n.tree, Some(dest), n.result.value, s);
    }
  }

  /**
   A run that succeeds cannot be dispatched again from what it leaves: the source is gone,
   or its marker is there.
   */
  lemma SuccessLeavesNothingToDo(input: MediaInput, s: Script, t: Tree)
    requires ParentClosed(t) && input.source != [] && !Run(input, s, t).failed
    ensures Settled(input, Run(input, s, t).tree)
  {
    var p := ProbeAttempt(input, t, s.verdict, s.probe);
    ProbeKeepsParentClosed(input, t, s.verdict, s.probe);
    var trace := [Entry(ProbeJudged(NotMedia(s.verdict)), p.tree)];
    if !p.result.value {
      FinishSettles(input, trace, p.tree, None, false, s);
    } else {
      var x := TranscodeAttempt(input, p.tree, s.encoding, s.transcode);
      TranscodeIsSane(input, p.tree, s.encoding, s.transcode);
      AfterTranscodeSettles(input, s, Cropped(input, s, trace, p.tree) + [Entry(TranscodeTried(true), x.tree)],
                            x.tree, x.result.value);
    }
  }

  /** The source is gone. */
  ghost predicate Stale(input: MediaInput, t: Tree) {
    ParentClosed(t) && input.source != [] && input.source !in t
  }

  /** All files are as they were, but a source to be preserved may have got its marker. */
  ghost predicate OnlyMarked(input: MediaInput, t: Tree, u: Tree) {
    if input.preserveSource then u == t || (CanWrite(t, SentinelPath(input.source)) && u == Marked(input, t))
    else Files(u) == Files(t)
  }

  function Marked(input: MediaInput, t: Tree): Tree {
    t[SentinelPath(input.source) := EMPTY]
  }

  predicate CanMark(input: MediaInput, t: Tree) {
    input.preserveSource ==> CanWrite(t, SentinelPath(input.source))
  }

  predicate ProbeFinishes(input: MediaInput, a: Attempt) {
    a.recorded && (input.preserveSource || a.stages >= if input.retainEmptyDirs then 1 else 2)
  }

  lemma StaleProbe(input: MediaInput, t: Tree, v: Verdict, a: Attempt)
    requires Stale(input, t)
    ensures var p := ProbeAttempt(input, t, v, a);
            && Stale(input, p.tree) && OnlyMarked(input, t, p.tree)
            && (input.preserveSource ==> p.tree == t)
            && (NotMedia(v) ==> (p.result.Some? <==> ProbeFinishes(input, a)))
            && (p.result.Some? ==> p.result == Some(v == Video))
  {
    PruneUpToKeepsFiles(t, input.watchRoot, input.source, a.pruned);
    PrunedKeysShrink(t, input.watchRoot, input.source, a.pruned);
  }

  predicate Finishes(a: Attempt) {
    a.stages >= 4 && a.recorded
  }

  /** What one cleanup attempt does about a source that is gone. */
  ghost predicate StaleLeft(input: MediaInput, t: Tree, a: Attempt, left: Left<()>) {
    && Stale(input, left.tree) && OnlyMarked(input, t, left.tree)
    && (left.result.Some? <==> Finishes(a) && CanMark(input, t))
    && (left.result.Some? && input.preserveSource ==> left.tree == Marked(input, t))
  }

  lemma StaleMarking(input: MediaInput, t: Tree, a: Attempt)
    requires Stale(input, t) && input.preserveSource
    ensures StaleLeft(input, t, a, CleanupAttempt(input, t, None, false, a))
  {
    SentinelsAreSkipped(input.source);
    if CanWrite(t, SentinelPath(input.source)) {
      WriteKeepsParentClosed(t, SentinelPath(input.source), EMPTY);
    }
  }

  lemma StaleDeleting(input: MediaInput, t: Tree, a: Attempt)
    requires Stale(input, t) && !input.preserveSource
    ensures StaleLeft(input, t, a, CleanupAttempt(input, t, None, false, a))
  {
    AttemptOnFiles(input, t, None, false, a);
    assert input.source !in Files(t);
    PrunedKeysShrink(t, input.watchRoot, input.source, a.pruned);
  }

  lemma StaleCleanup(input: MediaInput, t: Tree, a: Attempt)
    requires Stale(input, t)
    ensures StaleLeft(input, t, a, CleanupAttempt(input, t, None, false, a))
  {
    if input.preserveSource {
      StaleMarking(input, t, a);
    } else {
      StaleDeleting(input, t, a);
    }
  }

  lemma {:induction false} StaleCleanups(input: MediaInput, t: Tree, attempts: seq<Attempt>)
    requires Stale(input, t)
    ensures var c := CleanupAll(input, t, None, false, attempts);
            && OnlyMarked(input, t, c.tree)
            && (c.result.Some? <==> (exists i :: 0 <= i < |attempts| && Finishes(attempts[i])) && CanMark(input, t))
            && (c.result.Some? && input.preserveSource ==> c.tree == Marked(input, t))
    decreases |attempts|
  {
    if attempts != [] {
      StaleCleanup(input, t, attempts[0]);
      var left := CleanupAttempt(input, t, None, false, attempts[0]);
      StaleCleanups(input, left.tree, attempts[1..]);
      assert forall i :: 0 < i < |attempts| ==> attempts[i] == attempts[1..][i - 1];
    }
  }

  ghost predicate SomeCleanupFinishes(s: Script) {
    var attempts := Take(s.cleanup, CLEANUP_MAX_ATTEMPTS);
    exists i :: 0 <= i < |attempts| && Finishes(attempts[i])
  }

  /**
   A run on a source that is already gone removes and changes no file, whatever happens in it;
   with PreserveSource it may leave a marker. It ends without error exactly when the probe finds
   nothing to read, the probe and one of the cleanup attempts finish, and a marker that has to be
   written can be: a preserved file whose directory is gone as well fails every time.
   */
  lemma StaleRunIsHarmless(input: MediaInput, s: Script, t: Tree)
    requires Stale(input, t)
    ensures OnlyMarked(input, t, Run(input, s, t).tree)
    ensures !Run(input, s, t).failed
       <==> NotMedia(s.verdict) && ProbeFinishes(input, s.probe) && SomeCleanupFinishes(s) && CanMark(input, t)
    ensures !Run(input, s, t).failed && input.preserveSource ==> Run(input, s, t).tree == Marked(input, t)
  {
    var p := ProbeAttempt(input, t, s.verdict, s.probe);
    StaleProbe(input, t, s.verdict, s.probe);
    if p.result.Some? {
      StaleCleanups(input, p.tree, Take(s.cleanup, CLEANUP_MAX_ATTEMPTS));
      assert TranscodeAttempt(input, p.tree, s.encoding, s.transcode) == Left(p.tree, None);
    }
  }

  lemma PrunedKeysShrink(t: Tree, root: Option<Path>, p: Path, budget: nat)
    ensures PruneUpTo(t, root, p).Keys <= t.Keys
    ensures PrunePartly(t, root, p, budget).Keys <= t.Keys
  {
    if root.Some? {
      PruneWithinOnlyRemoves(t, root.value, Parent(p), |Parent(p)| + 1);
      PruneWithinOnlyRemoves(t, root.value, Parent(p), budget);
    }
  }
}
