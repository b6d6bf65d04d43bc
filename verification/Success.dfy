/**
 When a media workflow run (Workflow) succeeds and what it leaves then: the exact conditions on the
 file tree and on what the activities report, for a transcode attempt, for cleanup and for the run.
 */
module Success {
  import opened Filesystem
  import opened OutputPaths
  import opened Wrappers
  import opened Workflow

  // --- Making directories ---

  /** Whatever exists on the way to `dir` is a directory. */
  ghost predicate WayIsFree(t: Tree, dir: Path) {
    forall p :: p in t && p <= dir ==> t[p].Dir?
  }

  lemma WayToParent(t: Tree, dir: Path)
    requires dir != [] && dir !in t
    ensures WayIsFree(t, dir) <==> WayIsFree(t, Parent(dir))
  {
    forall p | p in t ensures p <= dir <==> p <= Parent(dir) {
      if p <= dir {
        PrefixOfParent(p, dir);
      }
      if p <= Parent(dir) {
        PrefixTrans(p, Parent(dir), dir);
      }
    }
  }

  lemma DirOnWay(t: Tree, dir: Path, p: Path)
    requires ParentClosed(t) && IsDir(t, dir) && p <= dir
    ensures IsDir(t, p)
  {
    if p != dir {
      AncestorsExist(t, dir, |p|);
      assert dir[..|p|] == p;
    }
  }

  /** MkdirAll fails exactly when a file is in the way. */
  lemma {:induction false} MakeDirsSucceedsIff(t: Tree, dir: Path)
    requires ParentClosed(t)
    ensures MakeDirs(t, dir).Some? <==> WayIsFree(t, dir)
    decreases |dir|
  {
    if IsDir(t, dir) {
      forall p | p in t && p <= dir ensures t[p].Dir? {
        DirOnWay(t, dir, p);
      }
    } else if dir !in t {
      WayToParent(t, dir);
      MakeDirsSucceedsIff(t, Parent(dir));
    }
  }

  // --- A transcode attempt ---

  /** What must hold of the tree before, for an encode to write its output to `final`. */
  ghost predicate CanProduce(t: Tree, source: Path, final: Path, temp: Path) {
    IsFile(t, source) && WayIsFree(t, Parent(final)) && !IsDir(t, final) && !IsDir(t, temp)
  }

  /** `u` is `t` with the output written, its directories there, and no temporary file. */
  ghost predicate Produced(t: Tree, u: Tree, final: Path, temp: Path, content: int) {
    && final in u && u[final] == File(content)
    && temp !in u
    && (forall p :: p <= Parent(final) ==> IsDir(u, p))
    && (forall p :: p != final && p != temp && !(p <= Parent(final)) ==> Agree(t, u, p))
  }

  lemma MakeDirsBelow(t: Tree, dir: Path, p: Path)
    requires ParentClosed(t) && MakeDirs(t, dir).Some? && !(p <= dir)
    ensures Agree(t, MakeDirs(t, dir).value, p)
  {
    MakeDirsOnlyAdds(t, dir);
    if p in MakeDirs(t, dir).value && p !in t {
      MakeDirsAddsDirs(t, dir, p);
    }
  }

  lemma LongerIsNoPrefix(p: Path, q: Path)
    requires |p| > |q|
    ensures !(p <= q)
  {
  }

  /** A full encode in the directories made for it. */
  lemma EncodeProduces(made: Tree, final: Path, temp: Path, content: int, a: Attempt)
    requires ParentClosed(made) && final != [] && IsDir(made, Parent(final))
    requires temp != [] && temp != final && Parent(temp) == Parent(final) && a.stages >= 1
    ensures var left := Encode(made, final, temp, Encodes(content), a);
            && (left.result.Some? <==> a.recorded && a.stages >= 3 && !IsDir(made, final) && !IsDir(made, temp))
            && (left.result.Some? ==> left == Left((made - {temp})[final := File(content)], Some(final)))
  {
  }

  lemma WrittenIsProduced(t: Tree, final: Path, temp: Path, content: int)
    requires ParentClosed(t) && final != [] && MakeDirs(t, Parent(final)).Some?
    requires temp != [] && temp != final && Parent(temp) == Parent(final)
    ensures Produced(t, (MakeDirs(t, Parent(final)).value - {temp})[final := File(content)], final, temp, content)
  {
    var dir := Parent(final);
    var made := MakeDirs(t, dir).value;
    var u := (made - {temp})[final := File(content)];
    MakeDirsOnlyAdds(t, dir);
    forall p | p <= dir ensures IsDir(u, p) {
      DirOnWay(made, dir, p);
      LongerIsNoPrefix(final, dir);
      LongerIsNoPrefix(temp, dir);
    }
    forall p | p != final && p != temp && !(p <= dir)
      ensures Agree(t, u, p)
    {
      MakeDirsBelow(t, dir, p);
    }
  }

  lemma TranscodeToSucceedsIff(t: Tree, final: Path, temp: Path, content: int, a: Attempt)
    requires ParentClosed(t) && final != []
    requires temp != [] && temp != final && Parent(temp) == Parent(final)
    ensures var left := TranscodeTo(t, final, temp, Encodes(content), a);
            && (left.result.Some? <==>
                a.recorded && a.stages >= 3 && WayIsFree(t, Parent(final)) && !IsDir(t, final) && !IsDir(t, temp))
            && (left.result.Some? ==> left.result == Some(final) && Produced(t, left.tree, final, temp, content))
  {
    var dir := Parent(final);
    MakeDirsSucceedsIff(t, dir);
    if MakeDirs(t, dir).Some? {
      MakeDirsOnlyAdds(t, dir);
      LongerIsNoPrefix(final, dir);
      LongerIsNoPrefix(temp, dir);
      MakeDirsBelow(t, dir, final);
      MakeDirsBelow(t, dir, temp);
      if a.stages > 0 {
        EncodeProduces(MakeDirs(t, dir).value, final, temp, content, a);
        WrittenIsProduced(t, final, temp, content);
      }
    }
  }

  lemma TempIsBeside(source: Path, final: Path)
    requires final != [] && Base(final) == MkvName(Base(source))
    ensures TempPath(source, final) != [] && Parent(TempPath(source, final)) == Parent(final)
    ensures TempPath(source, final) != final
  {
    assert |TempName(Base(source))| > |MkvName(Base(source))|;
  }

  /**
   An encode reports its path, and leaves exactly the new content there, no temporary file and the
   rest of the tree as it was but for directories above it, exactly when: it gets through and is
   recorded, the source is a file that has an output path, no file is in the way of the output's
   directories, and neither the output nor the temporary file is a directory.
   */
  lemma EncodeSucceedsIff(input: MediaInput, t: Tree, content: int, a: Attempt)
    requires ParentClosed(t)
    ensures var dest := FinalPath(input.source, input.watchRoot, input.outputPath);
            var left := TranscodeAttempt(input, t, Encodes(content), a);
            && (left.result.Some? <==>
                && a.recorded && a.stages >= 3
                && dest.Some? && CanProduce(t, input.source, dest.value, TempPath(input.source, dest.value)))
            && (left.result.Some? ==>
                && left.result == dest
                && Produced(t, left.tree, dest.value, TempPath(input.source, dest.value), content))
  {
    var dest := FinalPath(input.source, input.watchRoot, input.outputPath);
    if dest.Some? {
      OutputIsNotSentinel(input.source, input.watchRoot, input.outputPath);
      TempIsBeside(input.source, dest.value);
      TranscodeToSucceedsIff(t, dest.value, TempPath(input.source, dest.value), content, a);
    }
  }

  /** An output that is there already is reported, and nothing changes; an encode that fails reports nothing. */
  lemma ReuseSucceedsIff(input: MediaInput, t: Tree, a: Attempt)
    requires ParentClosed(t)
    ensures var dest := FinalPath(input.source, input.watchRoot, input.outputPath);
            var left := TranscodeAttempt(input, t, Reuses, a);
            && (left.result.Some? <==>
                && a.recorded && a.stages >= 1 && IsFile(t, input.source)
                && dest.Some? && IsFile(t, dest.value))
            && (left.result.Some? ==> left == Left(t, dest))
    ensures TranscodeAttempt(input, t, EncodeFails, a).result.None?
  {
    var dest := FinalPath(input.source, input.watchRoot, input.outputPath);
    if dest.Some? {
      OutputIsNotSentinel(input.source, input.watchRoot, input.outputPath);
      var dir := Parent(dest.value);
      if MakeDirs(t, dir).Some? {
        MakeDirsAgrees(t, dest.value);
      }
      if IsFile(t, dest.value) {
        assert IsDir(t, dir);
      }
    }
  }

  /** However a full attempt to encode ends, it leaves no temporary file. */
  lemma NoTempIsLeft(input: MediaInput, t: Tree, e: Encoding, a: Attempt, final: Path)
    requires ParentClosed(t) && IsFile(t, input.source) && !e.Reuses? && a.stages >= 3
    requires FinalPath(input.source, input.watchRoot, input.outputPath) == Some(final)
    requires WayIsFree(t, Parent(final)) && !IsDir(t, TempPath(input.source, final))
    ensures TempPath(input.source, final) !in TranscodeAttempt(input, t, e, a).tree
  {
    var temp, dir := TempPath(input.source, final), Parent(final);
    OutputIsNotSentinel(input.source, input.watchRoot, input.outputPath);
    TempIsBeside(input.source, final);
    MakeDirsSucceedsIff(t, dir);
    MakeDirsOnlyAdds(t, dir);
    LongerIsNoPrefix(temp, dir);
    MakeDirsBelow(t, dir, temp);
  }

  // --- Cleanup ---

  /** Nothing that cleanup has to remove or write is in the way. */
  ghost predicate Ready(input: MediaInput, t: Tree, dest: Option<Path>) {
    && Sane(input, t, dest)
    && !IsDir(t, input.source)
    && (dest.Some? ==> !IsDir(t, dest.value))
    && CanMark(input, t)
  }

  /** `u` has nothing that `t` has not, except perhaps the marker. */
  ghost predicate Shrinks(input: MediaInput, t: Tree, u: Tree) {
    forall p :: p in u ==> (p in t && u[p] == t[p]) || (p == SentinelPath(input.source) && u[p] == EMPTY)
  }

  lemma {:induction false} PruneWithinShrinks(t: Tree, root: Path, dir: Path, budget: nat)
    ensures Contains(t, PruneWithin(t, root, dir, budget))
    decreases |dir|
  {
    if budget > 0 && Prunable(t, root, dir) {
      PruneWithinShrinks(t - {dir}, root, Parent(dir), budget - 1);
    }
  }

  lemma PruneUpToShrinks(t: Tree, root: Option<Path>, p: Path, budget: nat)
    ensures Contains(t, PruneUpTo(t, root, p)) && Contains(t, PrunePartly(t, root, p, budget))
  {
    if root.Some? {
      PruneWithinShrinks(t, root.value, Parent(p), |Parent(p)| + 1);
      PruneWithinShrinks(t, root.value, Parent(p), budget);
    }
  }

  lemma PruneAttemptShrinks(input: MediaInput, t: Tree, dest: Option<Path>, a: Attempt)
    ensures Contains(t, PruneAttempt(input, t, dest, a).tree)
  {
    PruneUpToShrinks(t, input.watchRoot, input.source, a.pruned);
    if dest.Some? {
      PruneUpToShrinks(SourcePruned(input, t), Some(input.outputPath), dest.value, a.pruned);
    }
  }

  lemma HandlingShrinks(input: MediaInput, t: Tree, u: Tree)
    requires Contains(t, u) && SourceHandled(input, u).Some?
    ensures Shrinks(input, t, SourceHandled(input, u).value)
  {
  }

  lemma ContainedShrinks(input: MediaInput, t: Tree, u: Tree, v: Tree)
    requires Shrinks(input, t, u) && Contains(u, v)
    ensures Shrinks(input, t, v)
  {
  }

  lemma AttemptShrinks(input: MediaInput, t: Tree, dest: Option<Path>, skipped: bool, a: Attempt)
    ensures Shrinks(input, t, CleanupAttempt(input, t, dest, skipped, a).tree)
  {
    var t1 := WithoutOutput(t, dest, skipped);
    if a.stages > 0 && t1.Some? {
      var t2 := SourceHandled(input, t1.value);
      if a.stages > 1 && t2.Some? {
        HandlingShrinks(input, t, t1.value);
        PruneAttemptShrinks(input, t2.value, dest, a);
        ContainedShrinks(input, t, t2.value, PruneAttempt(input, t2.value, dest, a).tree);
      }
    }
  }

  /** A preserved source keeps a directory for its marker. */
  lemma AttemptKeepsMarkable(input: MediaInput, t: Tree, dest: Option<Path>, skipped: bool, a: Attempt)
    requires Ready(input, t, dest)
    ensures CanMark(input, CleanupAttempt(input, t, dest, skipped, a).tree)
  {
    var marker, left := SentinelPath(input.source), CleanupAttempt(input, t, dest, skipped, a).tree;
    AttemptShrinks(input, t, dest, skipped, a);
    AttemptOnFiles(input, t, dest, skipped, a);
    if input.preserveSource {
      assert Parent(marker) == Parent(input.source);
      assert !IsDir(left, marker);
      if Files(left) == CleanedFiles(input, Files(t), dest, skipped) {
        assert marker in Files(left) && marker in left;
        assert IsDir(left, Parent(marker));
      }
      MarkedOrUnpruned(input, t, dest, skipped, a);
    }
  }

  /** With the source preserved, directories go only once the marker is there. */
  lemma MarkedOrUnpruned(input: MediaInput, t: Tree, dest: Option<Path>, skipped: bool, a: Attempt)
    requires Ready(input, t, dest) && input.preserveSource
    ensures var left := CleanupAttempt(input, t, dest, skipped, a).tree;
            || Files(left) == CleanedFiles(input, Files(t), dest, skipped)
            || forall p :: IsDir(t, p) ==> IsDir(left, p)
  {
    var t1 := WithoutOutput(t, dest, skipped);
    if a.stages > 1 {
      WithoutOutputOnFiles(t, dest, skipped);
      var t2 := SourceHandled(input, t1.value);
      SourceHandledOnFiles(input, t1.value);
      PruneAttemptOnFiles(input, t2.value, dest, a);
    }
  }

  /** From a tree where nothing is in the way an attempt succeeds as soon as it is allowed to finish. */
  lemma AttemptSucceedsIff(input: MediaInput, t: Tree, dest: Option<Path>, skipped: bool, a: Attempt)
    requires Ready(input, t, dest)
    ensures var left := CleanupAttempt(input, t, dest, skipped, a);
            (left.result.Some? <==> Finishes(a)) && Ready(input, left.tree, dest)
  {
    AttemptKeepsMarkable(input, t, dest, skipped, a);
    AttemptShrinks(input, t, dest, skipped, a);
    AttemptKeepsGoal(input, t, dest, skipped, a);
  }

  ghost predicate SomeFinishes(attempts: seq<Attempt>) {
    exists i :: 0 <= i < |attempts| && Finishes(attempts[i])
  }

  lemma SomeFinishesUnfolds(attempts: seq<Attempt>)
    requires attempts != []
    ensures SomeFinishes(attempts) <==> Finishes(attempts[0]) || SomeFinishes(attempts[1..])
  {
    assert forall i :: 0 < i < |attempts| ==> attempts[i] == attempts[1..][i - 1];
    if SomeFinishes(attempts[1..]) {
      var i :| 0 <= i < |attempts[1..]| && Finishes(attempts[1..][i]);
      assert Finishes(attempts[i + 1]);
    }
  }

  /** So cleanup under its retry policy succeeds exactly when one of its attempts finishes. */
  lemma {:induction false} CleanupSucceedsIff(input: MediaInput, t: Tree, dest: Option<Path>, skipped: bool,
                                              attempts: seq<Attempt>)
    requires Ready(input, t, dest)
    ensures CleanupAll(input, t, dest, skipped, attempts).result.Some? <==> SomeFinishes(attempts)
    decreases |attempts|
  {
    if attempts != [] {
      SomeFinishesUnfolds(attempts);
      AttemptSucceedsIff(input, t, dest, skipped, attempts[0]);
      CleanupSucceedsIff(input, CleanupAttempt(input, t, dest, skipped, attempts[0]).tree, dest, skipped, attempts[1..]);
    }
  }

  // --- The run ---

  /** The transcode reports its output; by EncodeSucceedsIff and ReuseSucceedsIff. */
  ghost predicate Transcodes(input: MediaInput, t: Tree, e: Encoding, a: Attempt) {
    var dest := FinalPath(input.source, input.watchRoot, input.outputPath);
    && a.recorded && IsFile(t, input.source) && dest.Some?
    && match e
       case Encodes(_) => a.stages >= 3 && CanProduce(t, input.source, dest.value, TempPath(input.source, dest.value))
       case Reuses => a.stages >= 1 && IsFile(t, dest.value)
       case EncodeFails => false
  }

  lemma TranscodesIff(input: MediaInput, t: Tree, e: Encoding, a: Attempt)
    requires ParentClosed(t)
    ensures TranscodeAttempt(input, t, e, a).result.Some? <==> Transcodes(input, t, e, a)
  {
    if e.Encodes? {
      EncodeSucceedsIff(input, t, e.content, a);
    } else {
      ReuseSucceedsIff(input, t, a);
    }
  }

  /** The marker of a source to be preserved can be written once `dest` and its directories are there. */
  ghost predicate MarkerIsFree(input: MediaInput, t: Tree) {
    var dest := FinalPath(input.source, input.watchRoot, input.outputPath);
    var marker := SentinelPath(input.source);
    input.preserveSource ==> !IsDir(t, marker) && (dest.Some? ==> !(marker <= Parent(dest.value)))
  }

  lemma EncodedIsReady(input: MediaInput, t: Tree, u: Tree, final: Path, temp: Path, content: int)
    requires Sane(input, u, Some(final)) && ParentClosed(t) && IsFile(t, input.source)
    requires FinalPath(input.source, input.watchRoot, input.outputPath) == Some(final)
    requires final != [] && temp == TempPath(input.source, final)
    requires CanProduce(t, input.source, final, temp) && Produced(t, u, final, temp, content)
    ensures Ready(input, u, Some(final)) <==> MarkerIsFree(input, t)
  {
    var marker := SentinelPath(input.source);
    TempIsNotSource(Base(input.source));
    assert input.source != temp;
    assert Agree(t, u, input.source) || input.source == final;
    assert IsDir(u, Parent(input.source));
    assert Parent(marker) == Parent(input.source);
    assert IsDir(u, marker) <==> IsDir(t, marker) || marker <= Parent(final) by {
      if marker == temp {
        LongerIsNoPrefix(temp, Parent(final));
      } else if !(marker <= Parent(final)) {
        assert Agree(t, u, marker);
      }
    }
  }

  lemma ReusedIsReady(input: MediaInput, t: Tree, final: Path)
    requires Sane(input, t, Some(final)) && IsFile(t, input.source) && IsFile(t, final)
    requires FinalPath(input.source, input.watchRoot, input.outputPath) == Some(final)
    ensures Ready(input, t, Some(final)) <==> MarkerIsFree(input, t)
  {
    var marker := SentinelPath(input.source);
    assert IsDir(t, Parent(input.source)) && Parent(marker) == Parent(input.source);
    assert IsDir(t, Parent(final));
    if marker <= Parent(final) {
      DirOnWay(t, Parent(final), marker);
    }
  }

  lemma TranscodedIsReady(input: MediaInput, t: Tree, e: Encoding, a: Attempt)
    requires ParentClosed(t) && input.source != [] && Transcodes(input, t, e, a)
    ensures var x := TranscodeAttempt(input, t, e, a);
            && x.result == FinalPath(input.source, input.watchRoot, input.outputPath) && x.result.Some?
            && Sane(input, x.tree, x.result)
            && (if MarkerIsFree(input, t) then Ready(input, x.tree, x.result)
                else input.preserveSource && IsDir(x.tree, SentinelPath(input.source)))
  {
    var x := TranscodeAttempt(input, t, e, a);
    var final := FinalPath(input.source, input.watchRoot, input.outputPath).value;
    TranscodesIff(input, t, e, a);
    TranscodeIsSane(input, t, e, a);
    if e.Encodes? {
      EncodeSucceedsIff(input, t, e.content, a);
      EncodedIsReady(input, t, x.tree, final, TempPath(input.source, final), e.content);
      BlockedMarker(input, t, x.tree, final, e.content);
    } else {
      ReuseSucceedsIff(input, t, a);
      ReusedIsReady(input, t, final);
      BlockedMarkerOfReuse(input, t, final);
    }
  }

  lemma BlockedMarker(input: MediaInput, t: Tree, u: Tree, final: Path, content: int)
    requires FinalPath(input.source, input.watchRoot, input.outputPath) == Some(final)
    requires final != SentinelPath(input.source)
    requires CanProduce(t, input.source, final, TempPath(input.source, final))
    requires Produced(t, u, final, TempPath(input.source, final), content)
    ensures !MarkerIsFree(input, t) ==> input.preserveSource && IsDir(u, SentinelPath(input.source))
  {
    var marker := SentinelPath(input.source);
    if !(marker <= Parent(final)) && marker != TempPath(input.source, final) {
      assert Agree(t, u, marker);
    }
  }

  lemma BlockedMarkerOfReuse(input: MediaInput, t: Tree, final: Path)
    requires FinalPath(input.source, input.watchRoot, input.outputPath) == Some(final)
    requires ParentClosed(t) && final != [] && IsFile(t, final)
    ensures !MarkerIsFree(input, t) ==> input.preserveSource && IsDir(t, SentinelPath(input.source))
  {
    assert IsDir(t, Parent(final));
    if SentinelPath(input.source) <= Parent(final) {
      DirOnWay(t, Parent(final), SentinelPath(input.source));
    }
  }

  /** An import can only take the output away: it makes no directory and removes none. */
  lemma {:induction false} NotifyKeepsDirs(t: Tree, dest: Path, attempts: seq<NotifyAttempt>, p: Path)
    ensures IsDir(NotifyAll(t, dest, attempts).tree, p) <==> IsDir(t, p)
    decreases |attempts|
  {
    if attempts != [] {
      NotifyKeepsDirs(Moved(t, dest, attempts[0].moves), dest, attempts[1..], p);
    }
  }

  lemma NotifyKeepsReady(input: MediaInput, t: Tree, dest: Path, attempts: seq<NotifyAttempt>)
    requires Ready(input, t, Some(dest))
    ensures Ready(input, NotifyAll(t, dest, attempts).tree, Some(dest))
  {
    var marker := SentinelPath(input.source);
    NotifyKeepsParentClosed(t, dest, attempts);
    NotifyKeepsDirs(t, dest, attempts, input.source);
    NotifyKeepsDirs(t, dest, attempts, dest);
    NotifyKeepsDirs(t, dest, attempts, marker);
    NotifyKeepsDirs(t, dest, attempts, Parent(marker));
  }

  /** A directory in the marker's place stays there, and no attempt gets past it. */
  lemma {:induction false} BlockedCleanupFails(input: MediaInput, t: Tree, dest: Option<Path>, skipped: bool,
                                               attempts: seq<Attempt>)
    requires input.preserveSource && IsDir(t, SentinelPath(input.source)) && dest != Some(SentinelPath(input.source))
    ensures CleanupAll(input, t, dest, skipped, attempts).result.None?
    decreases |attempts|
  {
    if attempts != [] {
      BlockedCleanupFails(input, CleanupAttempt(input, t, dest, skipped, attempts[0]).tree, dest, skipped, attempts[1..]);
    }
  }

  /** An import attempt settles within the limit, before any is refused for good. */
  ghost predicate ImportSettles(s: Script) {
    exists i: nat :: i < s.notifyMaxAttempts && FirstSettled(s.notify, i)
  }

  /** One of the first three cleanup attempts finishes. */
  ghost predicate CleanupFinishes(s: Script) {
    exists i :: 0 <= i < 3 && i < |s.cleanup| && Finishes(s.cleanup[i])
  }

  lemma TakenSettles(s: Script)
    ensures (exists i: nat :: FirstSettled(Take(s.notify, s.notifyMaxAttempts), i)) <==> ImportSettles(s)
  {
    var taken := Take(s.notify, s.notifyMaxAttempts);
    assert forall i :: 0 <= i < |taken| ==> taken[i] == s.notify[i];
    forall i: nat ensures FirstSettled(taken, i) <==> i < s.notifyMaxAttempts && FirstSettled(s.notify, i) {
    }
  }

  lemma TakenFinishes(s: Script)
    ensures SomeFinishes(Take(s.cleanup, CLEANUP_MAX_ATTEMPTS)) <==> CleanupFinishes(s)
  {
    var taken := Take(s.cleanup, CLEANUP_MAX_ATTEMPTS);
    forall i | 0 <= i < 3 && i < |s.cleanup| ensures i < |taken| && taken[i] == s.cleanup[i] {
    }
  }

  /** From a finished transcode on. */
  lemma AfterTranscodeSucceedsIff(input: MediaInput, s: Script, trace: seq<Entry>, t: Tree, dest: Path, free: bool)
    requires dest != SentinelPath(input.source)
    requires if free then Ready(input, t, Some(dest))
             else input.preserveSource && IsDir(t, SentinelPath(input.source))
    ensures !AfterTranscode(input, s, trace, t, dest).failed <==> ImportSettles(s) && CleanupFinishes(s) && free
  {
    var attempts, cleanups := Take(s.notify, s.notifyMaxAttempts), Take(s.cleanup, CLEANUP_MAX_ATTEMPTS);
    var n := NotifyAll(t, dest, attempts);
    NotifySucceedsIff(t, dest, attempts);
    TakenSettles(s);
    if n.result.Some? {
      if free {
        NotifyKeepsReady(input, t, dest, attempts);
        CleanupSucceedsIff(input, n.tree, Some(dest), n.result.value, cleanups);
      } else {
        NotifyKeepsDirs(t, dest, attempts, SentinelPath(input.source));
        BlockedCleanupFails(input, n.tree, Some(dest), n.result.value, cleanups);
      }
      TakenFinishes(s);
    }
  }

  /**
   A run on a media file ends without error exactly when the probe and, unless it is skipped, the
   crop detection report, the transcode can produce its output or finds it there, an import attempt
   settles, a cleanup attempt finishes, and a marker that has to be written is not a directory.
   */
  lemma MediaRunSucceedsIff(input: MediaInput, s: Script, t: Tree)
    requires ParentClosed(t) && input.source != [] && s.verdict == Video
    ensures !Run(input, s, t).failed
       <==> && s.probe.recorded && (input.skipCropDetection || s.cropOk)
            && Transcodes(input, t, s.encoding, s.transcode)
            && ImportSettles(s) && CleanupFinishes(s) && MarkerIsFree(input, t)
  {
    var x := TranscodeAttempt(input, t, s.encoding, s.transcode);
    TranscodesIff(input, t, s.encoding, s.transcode);
    if x.result.Some? {
      TranscodedIsReady(input, t, s.encoding, s.transcode);
      var tried := Cropped(input, s, [Entry(ProbeJudged(false), t)], t) + [Entry(TranscodeTried(true), x.tree)];
      AfterTranscodeSucceedsIff(input, s, tried, x.tree, x.result.value, MarkerIsFree(input, t));
      assert x == Left(x.tree, Some(x.result.value));
    }
    RunUnfolds(input, s, t);
  }

  /** The stages of a run on a media file up to notify. */
  lemma RunUnfolds(input: MediaInput, s: Script, t: Tree)
    requires s.verdict == Video
    ensures var x := TranscodeAttempt(input, t, s.encoding, s.transcode);
            var tried := Cropped(input, s, [Entry(ProbeJudged(false), t)], t) + [Entry(TranscodeTried(true), x.tree)];
            (Run(input, s, t).failed
             <==> || !s.probe.recorded || (!input.skipCropDetection && !s.cropOk) || x.result.None?
                  || AfterTranscode(input, s, tried, x.tree, x.result.value).failed)
  {
  }

  /** An import never changes what an output that it leaves contains. */
  lemma {:induction false} NotifyKeepsContent(t: Tree, dest: Path, attempts: seq<NotifyAttempt>)
    ensures var u := NotifyAll(t, dest, attempts).tree;
            dest in u ==> dest in t && u[dest] == t[dest]
    decreases |attempts|
  {
    if attempts != [] {
      NotifyKeepsContent(Moved(t, dest, attempts[0].moves), dest, attempts[1..]);
    }
  }

  /** An output that is there after a run that encoded it and succeeded is the whole new one. */
  lemma SuccessLeavesNewContent(input: MediaInput, s: Script, t: Tree, final: Path)
    requires ParentClosed(t) && input.source != [] && s.verdict == Video && s.encoding.Encodes?
    requires FinalPath(input.source, input.watchRoot, input.outputPath) == Some(final)
    requires !Run(input, s, t).failed && IsFile(Run(input, s, t).tree, final)
    ensures Run(input, s, t).tree[final] == File(s.encoding.content)
  {
    var x := TranscodeAttempt(input, t, s.encoding, s.transcode);
    var attempts := Take(s.notify, s.notifyMaxAttempts);
    var tried := Cropped(input, s, [Entry(ProbeJudged(false), t)], t) + [Entry(TranscodeTried(true), x.tree)];
    RunUnfolds(input, s, t);
    EncodeSucceedsIff(input, t, s.encoding.content, s.transcode);
    TranscodeIsSane(input, t, s.encoding, s.transcode);
    NotifyKeepsContent(x.tree, final, attempts);
    NotifyKeepsParentClosed(x.tree, final, attempts);
    var n := NotifyAll(x.tree, final, attempts);
    FinishSettles(input, tried + n.entries, n.tree, Some(final), n.result.value, s);
    var o := AfterTranscode(input, s, tried, x.tree, final);
    assert Run(input, s, t).tree == o.tree;
    assert final in Files(o.tree) && Files(o.tree)[final] == Files(n.tree)[final];
  }

  /** A probe cut short by its context fails the run, and nothing is touched. */
  lemma CancelledProbeFails(input: MediaInput, s: Script, t: Tree)
    requires s.verdict == ContextError
    ensures Run(input, s, t).failed && Run(input, s, t).tree == t
  {
  }

  /** Nothing is in the way of cleaning up a source that is a file. */
  lemma FileIsReady(input: MediaInput, t: Tree)
    requires ParentClosed(t) && input.source != [] && IsFile(t, input.source)
    ensures Ready(input, t, None) <==> (input.preserveSource ==> !IsDir(t, SentinelPath(input.source)))
  {
    assert Parent(SentinelPath(input.source)) == Parent(input.source);
    assert IsDir(t, Parent(input.source));
  }

  /** A run on a file that is not media: no transcode, and cleanup is all that is left. */
  lemma NotMediaRunSucceedsIff(input: MediaInput, s: Script, t: Tree)
    requires ParentClosed(t) && input.source != [] && IsFile(t, input.source) && NotMedia(s.verdict)
    ensures !Run(input, s, t).failed
       <==> && ProbeFinishes(input, s.probe) && CleanupFinishes(s)
            && (input.preserveSource ==> !IsDir(t, SentinelPath(input.source)))
  {
    var p := ProbeAttempt(input, t, s.verdict, s.probe);
    var cleanups := Take(s.cleanup, CLEANUP_MAX_ATTEMPTS);
    TakenFinishes(s);
    FileIsReady(input, t);
    if p.result.Some? {
      if !input.preserveSource {
        ProbedIsReady(input, t, s.verdict, s.probe);
        CleanupSucceedsIff(input, p.tree, None, false, cleanups);
      } else if IsDir(t, SentinelPath(input.source)) {
        BlockedCleanupFails(input, t, None, false, cleanups);
      } else {
        CleanupSucceedsIff(input, t, None, false, cleanups);
      }
    }
  }

  lemma ProbedIsReady(input: MediaInput, t: Tree, v: Verdict, a: Attempt)
    requires ParentClosed(t) && input.source != [] && IsFile(t, input.source) && !input.preserveSource
    ensures Ready(input, ProbeAttempt(input, t, v, a).tree, None)
  {
    ProbeKeepsParentClosed(input, t, v, a);
    PruneUpToShrinks(Remove(t, input.source), input.watchRoot, input.source, a.pruned);
  }

  // --- What a finished cleanup leaves ---

  /** The directories above `p` below `root` that hold only the way to `p`. */
  ghost function ChainAbove(t: Tree, root: Option<Path>, p: Path): set<Path> {
    if root.None? then {} else Chain(t, root.value, Parent(p))
  }

  /** The tree once the skipped output is gone and the source is gone or marked. */
  ghost predicate Handled(input: MediaInput, t: Tree, dest: Option<Path>, skipped: bool, u: Tree) {
    var orphan := if skipped && dest.Some? then {dest.value} else {};
    u == if input.preserveSource then (t - orphan)[SentinelPath(input.source) := EMPTY]
         else t - orphan - {input.source}
  }

  /** What goes along with a deleted source. */
  ghost function SourceChain(input: MediaInput, t: Tree): set<Path> {
    if input.preserveSource || input.retainEmptyDirs then {} else ChainAbove(t, input.watchRoot, input.source)
  }

  /** What goes above the output. */
  ghost function OutputChain(input: MediaInput, t: Tree, dest: Option<Path>): set<Path> {
    if input.retainEmptyDirs || dest.None? then {} else ChainAbove(t, Some(input.outputPath), dest.value)
  }

  /**
   A finished cleanup takes out of the tree the skipped output, and the source unless it is marked
   instead; then, unless empty directories are to be kept, the chain of directories that held only a
   deleted source; then, seen from there, the chain above the output. Nothing else.
   */
  lemma CleanupLeavesExactly(input: MediaInput, t: Tree, dest: Option<Path>, skipped: bool, a: Attempt)
    returns (handled: Tree, pruned: Tree)
    requires Ready(input, t, dest) && Finishes(a)
    ensures Handled(input, t, dest, skipped, handled)
    ensures pruned == handled - SourceChain(input, handled)
    ensures CleanupAttempt(input, t, dest, skipped, a) == Left(pruned - OutputChain(input, pruned, dest), Some(()))
  {
    HandledExactly(input, t, dest, skipped);
    var kept := WithoutOutput(t, dest, skipped).value;
    handled := SourceHandled(input, kept).value;
    pruned := SourcePruned(input, handled);
    PrunesExactly(input, handled, dest, a);
    assert CleanupAttempt(input, t, dest, skipped, a) == PruneAttempt(input, handled, dest, a);
  }

  /** A cleanup that dies before it handles the source, or can never mark it, has removed the skipped output only. */
  lemma UnfinishedCleanupLeaves(input: MediaInput, t: Tree, dest: Option<Path>, skipped: bool, a: Attempt)
    requires Sane(input, t, dest) && (dest.Some? ==> !IsDir(t, dest.value)) && a.stages >= 1
    requires a.stages == 1 || (input.preserveSource && IsDir(t, SentinelPath(input.source)))
    ensures CleanupAttempt(input, t, dest, skipped, a)
         == Left(t - if skipped && dest.Some? then {dest.value} else {}, None)
  {
    var orphan := if skipped && dest.Some? then {dest.value} else {};
    if skipped && dest.Some? {
      assert Remove(t, dest.value) == t - orphan;
    } else {
      assert t == t - orphan;
    }
  }

  /** Both prunes, run to their end. */
  lemma PrunesExactly(input: MediaInput, t: Tree, dest: Option<Path>, a: Attempt)
    requires ParentClosed(t) && Finishes(a)
    ensures var pruned := SourcePruned(input, t);
            && pruned == t - SourceChain(input, t)
            && PruneAttempt(input, t, dest, a) == Left(pruned - OutputChain(input, pruned, dest), Some(()))
  {
    var pruned := SourcePruned(input, t);
    PrunedExactly(t, input.watchRoot, input.source);
    if dest.Some? {
      PrunedExactly(pruned, Some(input.outputPath), dest.value);
    }
  }

  lemma HandledExactly(input: MediaInput, t: Tree, dest: Option<Path>, skipped: bool)
    requires Ready(input, t, dest)
    ensures WithoutOutput(t, dest, skipped).Some?
    ensures var kept := WithoutOutput(t, dest, skipped).value;
            && SourceHandled(input, kept).Some?
            && ParentClosed(SourceHandled(input, kept).value)
            && Handled(input, t, dest, skipped, SourceHandled(input, kept).value)
  {
    WithoutOutputOnFiles(t, dest, skipped);
    var kept := WithoutOutput(t, dest, skipped).value;
    assert kept == t - if skipped && dest.Some? then {dest.value} else {};
    SourceHandledOnFiles(input, kept);
  }

  lemma PrunedExactly(t: Tree, root: Option<Path>, p: Path)
    requires ParentClosed(t)
    ensures PruneUpTo(t, root, p) == t - ChainAbove(t, root, p)
    ensures ParentClosed(PruneUpTo(t, root, p))
  {
    if root.Some? {
      PruneRemovesChain(t, root.value, Parent(p));
    }
  }
}
