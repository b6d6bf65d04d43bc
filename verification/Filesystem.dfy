/**
 A file tree as a map from clean absolute paths to nodes, and the operations that the
 cleanup code (workflows/media/cleanup.go) performs on it. Permissions, symbolic links
 and concurrent writers are not modelled here.
 */
module Filesystem {
  import opened Wrappers

  /** Path components from the root of the tree down. */
  type Path = seq<string>

  datatype Node = File(content: int) | Dir

  type Tree = map<Path, Node>

  function Parent(p: Path): Path {
    if p == [] then [] else p[..|p| - 1]
  }

  function Base(p: Path): string {
    if p == [] then "" else p[|p| - 1]
  }

  predicate IsDir(t: Tree, p: Path) {
    p in t && t[p].Dir?
  }

  predicate IsFile(t: Tree, p: Path) {
    p in t && t[p].File?
  }

  /** Whatever exists sits in an existing directory. */
  ghost predicate ParentClosed(t: Tree) {
    IsDir(t, []) && forall p {:trigger Parent(p)} :: p in t && p != [] ==> IsDir(t, Parent(p))
  }

  predicate IsChild(p: Path, dir: Path) {
    p != [] && Parent(p) == dir
  }

  predicate HasChild(t: Tree, dir: Path) {
    exists p :: p in t && IsChild(p, dir)
  }

  /** The files, with their contents. */
  function Files(t: Tree): Tree {
    map p | p in t && t[p].File? :: t[p]
  }

  lemma {:induction false} AncestorsExist(t: Tree, p: Path, n: nat)
    requires ParentClosed(t) && p in t && n < |p|
    ensures IsDir(t, p[..n])
    decreases |p|
  {
    var up := Parent(p);
    assert IsDir(t, up);
    if n < |p| - 1 {
      AncestorsExist(t, up, n);
      assert up[..n] == p[..n];
    }
  }

  /** Anything below a directory shows up as one of its children. */
  lemma DescendantGivesChild(t: Tree, dir: Path, p: Path)
    requires ParentClosed(t) && p in t && dir < p
    ensures HasChild(t, dir)
  {
    var child := p[..|dir| + 1];
    if |p| > |dir| + 1 {
      AncestorsExist(t, p, |dir| + 1);
    } else {
      assert child == p;
    }
    assert child in t && IsChild(child, dir);
  }

  // --- Removing one name ---

  datatype RemoveResult = Removed | NotExist | NotEmpty

  /** os.Remove: a file or an empty directory. */
  function RemoveOutcome(t: Tree, p: Path): RemoveResult {
    if p !in t then NotExist else if t[p].Dir? && HasChild(t, p) then NotEmpty else Removed
  }

  function Remove(t: Tree, p: Path): Tree {
    if RemoveOutcome(t, p).Removed? then t - {p} else t
  }

  lemma RemoveKeepsParentClosed(t: Tree, p: Path)
    requires ParentClosed(t) && p != []
    ensures ParentClosed(Remove(t, p))
  {
    var next := Remove(t, p);
    forall q | q in next && q != [] ensures IsDir(next, Parent(q)) {
      assert IsChild(q, Parent(q));
    }
  }

  // --- Pruning ---

  /** The root is a directory strictly above `dir`, and `dir` is an empty one. */
  predicate Prunable(t: Tree, root: Path, dir: Path) {
    IsDir(t, root) && root < dir && IsDir(t, dir) && !HasChild(t, dir)
  }

  /**
   pruneEmptyParents from directory `dir` up to `root`, stopping after `budget` removals
   when the worker dies there. Every stop of the loop is a condition below: the root is
   missing, reached, or not above `dir`; `dir` cannot be read as a directory; it is not empty.
   */
  function PruneWithin(t: Tree, root: Path, dir: Path, budget: nat): Tree {
    if budget == 0 || !Prunable(t, root, dir) then t
    else PruneWithin(t - {dir}, root, Parent(dir), budget - 1)
  }

  /** The whole prune: at most one removal per path component. */
  function Prune(t: Tree, root: Path, dir: Path): Tree {
    PruneWithin(t, root, dir, |dir| + 1)
  }

  lemma {:induction false} BudgetSuffices(t: Tree, root: Path, dir: Path, budget: nat)
    requires budget > |dir|
    ensures PruneWithin(t, root, dir, budget) == Prune(t, root, dir)
    decreases |dir|
  {
    if Prunable(t, root, dir) {
      BudgetSuffices(t - {dir}, root, Parent(dir), budget - 1);
    }
  }

  /** `p` is strictly below the root, on the way to `dir`, and holds nothing but that way. */
  ghost predicate InChain(t: Tree, root: Path, dir: Path, p: Path) {
    && IsDir(t, dir)
    && root < p <= dir
    && (forall q :: q in t && p <= q ==> q <= dir)
  }

  ghost function Chain(t: Tree, root: Path, dir: Path): set<Path> {
    set p | p in t && InChain(t, root, dir, p)
  }

  lemma PrefixOfParent(p: Path, q: Path)
    requires p <= q && p != q
    ensures p <= Parent(q)
  {
    assert Parent(q)[..|p|] == q[..|p|];
  }

  lemma NothingBelowEmpty(t: Tree, dir: Path, q: Path)
    requires ParentClosed(t) && !HasChild(t, dir) && q in t && dir <= q
    ensures q == dir
  {
    if q != dir {
      DescendantGivesChild(t, dir, q);
    }
  }

  lemma ChainDown(t: Tree, root: Path, dir: Path, p: Path)
    requires ParentClosed(t) && IsDir(t, dir) && dir != [] && p != dir && InChain(t, root, dir, p)
    ensures InChain(t - {dir}, root, Parent(dir), p)
  {
    PrefixOfParent(p, dir);
    forall q | q in t - {dir} && p <= q ensures q <= Parent(dir) {
      PrefixOfParent(q, dir);
    }
  }

  lemma ChainUp(t: Tree, root: Path, dir: Path, p: Path)
    requires IsDir(t, dir) && dir != [] && InChain(t - {dir}, root, Parent(dir), p)
    ensures InChain(t, root, dir, p)
  {
    PrefixTrans(p, Parent(dir), dir);
    forall q | q in t && p <= q ensures q <= dir {
      if q != dir {
        assert q in t - {dir};
        PrefixTrans(q, Parent(dir), dir);
      }
    }
  }

  lemma ChainStep(t: Tree, root: Path, dir: Path)
    requires ParentClosed(t) && root < dir && IsDir(t, dir) && !HasChild(t, dir)
    ensures Chain(t, root, dir) == Chain(t - {dir}, root, Parent(dir)) + {dir}
  {
    assert InChain(t, root, dir, dir) by {
      forall q | q in t && dir <= q ensures q <= dir {
        NothingBelowEmpty(t, dir, q);
      }
    }
    forall p ensures p in Chain(t, root, dir) <==> p in Chain(t - {dir}, root, Parent(dir)) + {dir} {
      if p != dir && p in t {
        if InChain(t, root, dir, p) {
          ChainDown(t, root, dir, p);
        } else if InChain(t - {dir}, root, Parent(dir), p) {
          ChainUp(t, root, dir, p);
        }
      }
    }
  }

  lemma PrefixTrans(a: Path, b: Path, c: Path)
    requires a <= b && b <= c
    ensures a <= c
  {
    assert c[..|a|] == b[..|a|];
  }

  lemma NoChainAboveEntry(t: Tree, root: Path, dir: Path)
    requires HasChild(t, dir)
    ensures Chain(t, root, dir) == {}
  {
    var child :| child in t && IsChild(child, dir);
    forall p | p in t && root < p <= dir ensures !InChain(t, root, dir, p) {
      assert dir <= child;
      PrefixTrans(p, dir, child);
      assert !(child <= dir);
    }
  }

  lemma NoChain(t: Tree, root: Path, dir: Path)
    requires ParentClosed(t) && !Prunable(t, root, dir)
    ensures Chain(t, root, dir) == {}
  {
    if HasChild(t, dir) {
      NoChainAboveEntry(t, root, dir);
    } else {
      forall p | p in t ensures !InChain(t, root, dir, p) {
        if root < p <= dir && IsDir(t, dir) {
          PrefixTrans(root, p, dir);
          RootIsDir(t, root, dir);
        }
      }
    }
  }

  lemma RootIsDir(t: Tree, root: Path, dir: Path)
    requires ParentClosed(t) && root < dir && dir in t
    ensures IsDir(t, root)
  {
    AncestorsExist(t, dir, |root|);
    assert dir[..|root|] == root;
  }

  /** Removing an empty directory leaves a well-formed tree. */
  lemma RemoveEmptyKeepsParentClosed(t: Tree, dir: Path)
    requires ParentClosed(t) && dir != [] && IsDir(t, dir) && !HasChild(t, dir)
    ensures ParentClosed(t - {dir})
  {
    RemoveKeepsParentClosed(t, dir);
  }

  /**
   Pruning removes exactly the chain of directories strictly below the root that hold
   nothing but that chain; all other nodes stay.
   */
  lemma {:induction false} PruneRemovesChain(t: Tree, root: Path, dir: Path)
    requires ParentClosed(t)
    ensures Prune(t, root, dir) == t - Chain(t, root, dir)
    ensures ParentClosed(Prune(t, root, dir))
    decreases |dir|
  {
    if Prunable(t, root, dir) {
      ChainStep(t, root, dir);
      RemoveEmptyKeepsParentClosed(t, dir);
      PruneRemovesChain(t - {dir}, root, Parent(dir));
      BudgetSuffices(t - {dir}, root, Parent(dir), |dir|);
      assert t - {dir} - Chain(t - {dir}, root, Parent(dir)) == t - Chain(t, root, dir);
    } else {
      NoChain(t, root, dir);
    }
  }

  /** A chain is made of directories, so pruning never touches a file. */
  lemma PruneKeepsFiles(t: Tree, root: Path, dir: Path)
    requires ParentClosed(t)
    ensures Files(Prune(t, root, dir)) == Files(t)
  {
    PruneWithinKeepsFiles(t, root, dir, |dir| + 1);
  }

  /** Neither does a prune that stops part-way; and it too leaves a well-formed tree. */
  lemma PruneWithinKeepsFiles(t: Tree, root: Path, dir: Path, budget: nat)
    requires ParentClosed(t)
    ensures Files(PruneWithin(t, root, dir, budget)) == Files(t)
    ensures ParentClosed(PruneWithin(t, root, dir, budget))
  {
    PruneWithinOnFiles(t, root, dir, budget);
    PruneWithinKeepsParentClosed(t, root, dir, budget);
  }

  lemma {:induction false} PruneWithinOnFiles(t: Tree, root: Path, dir: Path, budget: nat)
    ensures Files(PruneWithin(t, root, dir, budget)) == Files(t)
    decreases |dir|
  {
    if budget > 0 && Prunable(t, root, dir) {
      PruneWithinOnFiles(t - {dir}, root, Parent(dir), budget - 1);
    }
  }

  lemma {:induction false} PruneWithinKeepsParentClosed(t: Tree, root: Path, dir: Path, budget: nat)
    requires ParentClosed(t)
    ensures ParentClosed(PruneWithin(t, root, dir, budget))
    decreases |dir|
  {
    if budget > 0 && Prunable(t, root, dir) {
      RemoveEmptyKeepsParentClosed(t, dir);
      PruneWithinKeepsParentClosed(t - {dir}, root, Parent(dir), budget - 1);
    }
  }

  /** Pruning twice is pruning once. */
  lemma PruneIsIdempotent(t: Tree, root: Path, dir: Path)
    requires ParentClosed(t)
    ensures Prune(Prune(t, root, dir), root, dir) == Prune(t, root, dir)
  {
    PruneRemovesChain(t, root, dir);
    if IsDir(t, dir) && root < dir && !HasChild(t, dir) {
      ChainStep(t, root, dir);
      assert dir !in Prune(t, root, dir);
    }
  }

  /** How many directories a prune removes. */
  function ChainLength(t: Tree, root: Path, dir: Path): nat
    decreases |dir|
  {
    if Prunable(t, root, dir) then 1 + ChainLength(t - {dir}, root, Parent(dir)) else 0
  }

  lemma {:induction false} ChainLengthIsSize(t: Tree, root: Path, dir: Path)
    requires ParentClosed(t)
    ensures ChainLength(t, root, dir) == |Chain(t, root, dir)|
    decreases |dir|
  {
    if Prunable(t, root, dir) {
      ChainStep(t, root, dir);
      RemoveEmptyKeepsParentClosed(t, dir);
      ChainLengthIsSize(t - {dir}, root, Parent(dir));
    } else {
      NoChain(t, root, dir);
    }
  }

  /** A prune that dies within the chain has removed a directory for each step it took. */
  lemma {:induction false} PruneWithinCount(t: Tree, root: Path, dir: Path, budget: nat)
    requires budget <= ChainLength(t, root, dir)
    ensures |PruneWithin(t, root, dir, budget)| == |t| - budget
    decreases |dir|
  {
    if budget > 0 {
      PruneWithinCount(t - {dir}, root, Parent(dir), budget - 1);
    }
  }

  /** As many steps as the chain has directories are the whole prune. */
  lemma {:induction false} PruneWithinSuffices(t: Tree, root: Path, dir: Path, budget: nat)
    requires budget >= ChainLength(t, root, dir)
    ensures PruneWithin(t, root, dir, budget) == Prune(t, root, dir)
    decreases |dir|
  {
    if Prunable(t, root, dir) {
      PruneWithinSuffices(t - {dir}, root, Parent(dir), budget - 1);
      BudgetSuffices(t - {dir}, root, Parent(dir), |dir|);
    }
  }

  /** A retry after a prune that has begun removes nothing: the start directory is gone, or was never empty. */
  lemma RetriedPruneRemovesNothing(t: Tree, root: Path, dir: Path, budget: nat)
    requires budget > 0
    ensures Prune(PruneWithin(t, root, dir, budget), root, dir) == PruneWithin(t, root, dir, budget)
  {
    if Prunable(t, root, dir) {
      PruneWithinOnlyRemoves(t - {dir}, root, Parent(dir), budget - 1);
      assert dir !in PruneWithin(t, root, dir, budget);
    }
  }

  /**
   A retry does not resume a prune that died part-way: the two together do the whole prune
   exactly when the first had not begun or was through.
   */
  lemma InterruptedPruneIsResumedIff(t: Tree, root: Path, dir: Path, budget: nat)
    requires ParentClosed(t)
    ensures Prune(PruneWithin(t, root, dir, budget), root, dir) == Prune(t, root, dir)
       <==> budget == 0 || budget >= |Chain(t, root, dir)|
  {
    var chain := ChainLength(t, root, dir);
    ChainLengthIsSize(t, root, dir);
    if budget > 0 {
      RetriedPruneRemovesNothing(t, root, dir, budget);
      if budget >= chain {
        PruneWithinSuffices(t, root, dir, budget);
      } else {
        PruneWithinCount(t, root, dir, budget);
        PruneWithinCount(t, root, dir, chain);
        PruneWithinSuffices(t, root, dir, chain);
      }
    }
  }

  lemma {:induction false} PruneWithinOnlyRemoves(t: Tree, root: Path, dir: Path, budget: nat)
    ensures PruneWithin(t, root, dir, budget).Keys <= t.Keys
    decreases |dir|
  {
    if budget > 0 && Prunable(t, root, dir) {
      PruneWithinOnlyRemoves(t - {dir}, root, Parent(dir), budget - 1);
    }
  }

  // --- Sentinels ---

  /** The hidden marker next to a processed file. */
  function SentinelName(base: string): string {
    "." + base + ".done"
  }

  function SentinelPath(p: Path): Path {
    Parent(p) + [SentinelName(Base(p))]
  }

  predicate HasPrefix(s: string, prefix: string) {
    prefix <= s
  }

  predicate HasSuffix(s: string, suffix: string) {
    |s| >= |suffix| && s[|s| - |suffix|..] == suffix
  }

  predicate LooksLikeSentinel(base: string) {
    HasPrefix(base, ".") && HasSuffix(base, ".done")
  }

  /** Every marker the cleanup writes is one the watcher skips, and no file is its own marker. */
  lemma SentinelsAreSkipped(p: Path)
    requires p != []
    ensures LooksLikeSentinel(Base(SentinelPath(p)))
    ensures SentinelPath(p) != p
  {
    var name := SentinelName(Base(p));
    assert name[|name| - 5..] == ".done";
    assert SentinelPath(p)[|SentinelPath(p)| - 1] == name;
    assert |name| == |Base(p)| + 6;
  }

  /** Distinct files have distinct markers. */
  lemma SentinelsAreDistinct(p: Path, q: Path)
    requires p != [] && q != [] && SentinelPath(p) == SentinelPath(q)
    ensures p == q
  {
    var a, b := SentinelName(Base(p)), SentinelName(Base(q));
    assert SentinelPath(p)[..|p| - 1] == Parent(p) && SentinelPath(q)[..|q| - 1] == Parent(q);
    assert |SentinelPath(p)| == |p| && |SentinelPath(q)| == |q|;
    assert SentinelPath(p)[|p| - 1] == a && SentinelPath(q)[|q| - 1] == b;
    assert a[1..|a| - 5] == Base(p) && b[1..|b| - 5] == Base(q);
    assert p == Parent(p) + [Base(p)] && q == Parent(q) + [Base(q)];
  }

  /** os.WriteFile with no content. */
  predicate CanWrite(t: Tree, p: Path) {
    p != [] && IsDir(t, Parent(p)) && !IsDir(t, p)
  }

  const EMPTY := File(0)

  lemma WriteKeepsParentClosed(t: Tree, p: Path, n: Node)
    requires ParentClosed(t) && CanWrite(t, p) && n.File?
    ensures ParentClosed(t[p := n])
    ensures Files(t[p := n]) == Files(t)[p := n]
  {
    var next := t[p := n];
    forall q | q in next && q != [] ensures IsDir(next, Parent(q)) {
      assert q in t || q == p;
      assert IsDir(t, Parent(q));
    }
  }

  lemma RemoveOnFiles(t: Tree, p: Path)
    requires RemoveOutcome(t, p) != NotEmpty
    ensures Files(Remove(t, p)) == Files(t) - {p}
  {
  }

  // --- The imperative form ---

  class Disk {
    var tree: Tree

    constructor (tree: Tree)
      ensures this.tree == tree
    {
      this.tree := tree;
    }

    method RemoveName(p: Path) returns (r: RemoveResult)
      modifies this
      ensures r == RemoveOutcome(old(tree), p) && tree == Remove(old(tree), p)
    {
      r := RemoveOutcome(tree, p);
      if r == Removed {
        tree := tree - {p};
      }
    }

    /** `watchRoot` None is the empty string, which disables pruning. */
    method PruneEmptyParents(filePath: Path, watchRoot: Option<Path>)
      modifies this
      ensures tree == match watchRoot
                      case None => old(tree)
                      case Some(root) => Prune(old(tree), root, Parent(filePath))
    {
      if watchRoot.None? || !IsDir(tree, watchRoot.value) {
        return;
      }
      var root := watchRoot.value;
      var dir := Parent(filePath);
      ghost var budget := |dir| + 1;
      while true
        invariant budget > |dir|
        invariant PruneWithin(tree, root, dir, budget) == Prune(old(tree), root, Parent(filePath))
        decreases |dir|
      {
        if dir == root || !(root <= dir) {
          return;
        }
        if !IsDir(tree, root) || !IsDir(tree, dir) || HasChild(tree, dir) {
          return;
        }
        var r := RemoveName(dir);
        dir := Parent(dir);
        budget := budget - 1;
      }
    }

    /** Deletes the file, tolerating its absence, and prunes above it. */
    method RunCleanup(filePath: Path, watchRoot: Option<Path>, retainEmptyDirs: bool) returns (ok: bool)
      modifies this
      ensures ok <==> RemoveOutcome(old(tree), filePath) != NotEmpty
      ensures !ok ==> tree == old(tree)
      ensures ok && (retainEmptyDirs || watchRoot.None?) ==> tree == Remove(old(tree), filePath)
      ensures ok && !retainEmptyDirs && watchRoot.Some? ==>
                tree == Prune(Remove(old(tree), filePath), watchRoot.value, Parent(filePath))
    {
      var r := RemoveName(filePath);
      if r == NotEmpty {
        return false;
      }
      if !retainEmptyDirs {
        PruneEmptyParents(filePath, watchRoot);
      }
      return true;
    }

    method RemoveOutputFile(destFilePath: Option<Path>) returns (ok: bool)
      modifies this
      ensures destFilePath.None? ==> ok && tree == old(tree)
      ensures destFilePath.Some? ==> (ok <==> RemoveOutcome(old(tree), destFilePath.value) != NotEmpty)
      ensures destFilePath.Some? ==> tree == Remove(old(tree), destFilePath.value)
    {
      if destFilePath.None? {
        return true;
      }
      var r := RemoveName(destFilePath.value);
      return r != NotEmpty;
    }

    method WriteSentinel(filePath: Path) returns (ok: bool)
      modifies this
      ensures ok <==> CanWrite(old(tree), SentinelPath(filePath))
      ensures tree == if ok then old(tree)[SentinelPath(filePath) := EMPTY] else old(tree)
    {
      ok := CanWrite(tree, SentinelPath(filePath));
      if ok {
        tree := tree[SentinelPath(filePath) := EMPTY];
      }
    }

    method PruneOutputDirs(destFilePath: Option<Path>, outputRoot: Option<Path>)
      modifies this
      ensures tree == if destFilePath.None? || outputRoot.None? then old(tree)
                      else Prune(old(tree), outputRoot.value, Parent(destFilePath.value))
    {
      if destFilePath.Some? {
        PruneEmptyParents(destFilePath.value, outputRoot);
      }
    }
  }
}
