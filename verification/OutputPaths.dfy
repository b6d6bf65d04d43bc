/**
 Where a transcode is written and what path the library is told to import: the mirroring
 of RunTranscode (workflows/media/transcode.go) and the substitution of Notify
 (workflows/media/activities.go), on clean absolute paths split into components.
 */
module OutputPaths {
  import opened Filesystem
  import opened Wrappers

  /** An ordinary path component. */
  predicate Normal(p: Path) {
    forall i :: 0 <= i < |p| ==> p[i] != ".." && p[i] != "." && p[i] != ""
  }

  function CommonPrefix(a: Path, b: Path): (n: nat)
    ensures n <= |a| && n <= |b| && a[..n] == b[..n]
    ensures n < |a| && n < |b| ==> a[n] != b[n]
  {
    if a == [] || b == [] || a[0] != b[0] then 0 else 1 + CommonPrefix(a[1..], b[1..])
  }

  /** filepath.Rel between two absolute paths. */
  function Rel(base: Path, target: Path): Path {
    var n := CommonPrefix(base, target);
    seq(|base| - n, _ => "..") + target[n..]
  }

  /** The test the code makes on a relative path: it leaves its base. */
  predicate Escapes(rel: Path) {
    rel != [] && rel[0] == ".."
  }

  /** filepath.Clean of an absolute path. */
  function Clean(p: Path): Path {
    if p == [] then []
    else
      var prior, c := Clean(p[..|p| - 1]), p[|p| - 1];
      if c == "" || c == "." then prior
      else if c == ".." then Parent(prior)
      else prior + [c]
  }

  function Join(dir: Path, rel: Path): Path {
    Clean(dir + rel)
  }

  lemma {:induction false} CleanNormal(p: Path)
    requires Normal(p)
    ensures Clean(p) == p
  {
    if p != [] {
      CleanNormal(p[..|p| - 1]);
    }
  }

  lemma RelDescends(base: Path, target: Path)
    requires Normal(target)
    ensures base <= target <==> !Escapes(Rel(base, target))
    ensures base <= target ==> Rel(base, target) == target[|base|..]
  {
    var n := CommonPrefix(base, target);
    if base <= target {
      assert n == |base|;
      assert seq(0, _ => "..") + target[n..] == target[n..];
    } else {
      assert n < |base|;
      assert Rel(base, target)[0] == "..";
    }
  }

  // --- Names ---

  /** Length of the name without its extension: everything before the last dot. */
  function StemLength(name: string): (n: nat)
    ensures n <= |name|
    ensures n < |name| ==> name[n] == '.'
    ensures forall i :: n < i < |name| ==> name[i] != '.'
    ensures n == |name| ==> '.' !in name
  {
    if name == [] then 0
    else if name[|name| - 1] == '.' then |name| - 1
    else
      var n := StemLength(name[..|name| - 1]);
      if n == |name| - 1 then |name| else n
  }

  function Stem(name: string): string {
    name[..StemLength(name)]
  }

  function MkvName(name: string): string {
    Stem(name) + ".mkv"
  }

  function TempName(name: string): string {
    "._" + MkvName(name) + ".tmp"
  }

  /** A name is its own output name exactly when it ends in ".mkv". */
  lemma MkvNameIsOwnIff(name: string)
    ensures MkvName(name) == name <==> HasSuffix(name, ".mkv")
  {
    if HasSuffix(name, ".mkv") {
      var k := |name| - 4;
      assert name[k] == name[k..][0] && name[k + 1] == name[k..][1];
      assert name[k + 2] == name[k..][2] && name[k + 3] == name[k..][3];
      assert StemLength(name) == k;
      assert name == name[..k] + name[k..];
    }
  }

  /** The temporary name never is the source's own. */
  lemma TempIsNotSource(name: string)
    ensures TempName(name) != name
  {
    var t := TempName(name);
    var k := |t| - 4;
    assert t[k] == '.' && t[k + 1] == 't' && t[k + 2] == 'm' && t[k + 3] == 'p';
    assert StemLength(t) == k;
  }

  // --- Transcode ---

  /** The directory the output goes to; None is the refusal of a file outside the watch root. */
  function EffectiveOutputDir(filePath: Path, watchRoot: Option<Path>, outputDir: Path): Option<Path> {
    if watchRoot.None? then Some(outputDir)
    else
      var relDir := Rel(watchRoot.value, Parent(filePath));
      if Escapes(relDir) then None
      else
        var candidate := Join(outputDir, relDir);
        if Escapes(Rel(outputDir, candidate)) then None else Some(candidate)
  }

  function FinalPath(filePath: Path, watchRoot: Option<Path>, outputDir: Path): Option<Path> {
    match EffectiveOutputDir(filePath, watchRoot, outputDir)
    case None => None
    case Some(dir) => Some(Join(dir, [MkvName(Base(filePath))]))
  }

  lemma CleanSnoc(p: Path, c: string)
    requires c != "" && c != "." && c != ".."
    ensures Clean(p + [c]) == Clean(p) + [c]
  {
    assert (p + [c])[..|p|] == p;
  }

  /** Whatever the directories, an output is called stem.mkv, so it is nobody's marker. */
  lemma OutputIsNotSentinel(filePath: Path, watchRoot: Option<Path>, outputDir: Path)
    requires FinalPath(filePath, watchRoot, outputDir).Some?
    ensures FinalPath(filePath, watchRoot, outputDir).value != []
    ensures Base(FinalPath(filePath, watchRoot, outputDir).value) == MkvName(Base(filePath))
    ensures FinalPath(filePath, watchRoot, outputDir).value != SentinelPath(filePath)
  {
    var dir, name := EffectiveOutputDir(filePath, watchRoot, outputDir).value, MkvName(Base(filePath));
    var sentinel := SentinelName(Base(filePath));
    assert name[|name| - 1] == 'v' && sentinel[|sentinel| - 1] == 'e';
    CleanSnoc(dir, name);
    var final := FinalPath(filePath, watchRoot, outputDir).value;
    assert final[|final| - 1] == name;
    assert SentinelPath(filePath)[|SentinelPath(filePath)| - 1] == sentinel;
  }

  // --- Notify ---

  /** The path the library is given; None is the non-retryable refusal. */
  function ImportPath(dest: Path, outputPath: Path, remotePath: Option<Path>): Option<Path> {
    if remotePath.None? then Some(dest)
    else
      var rel := Rel(outputPath, dest);
      if Escapes(rel) then None else Some(Join(remotePath.value, rel))
  }

  /** The file's place below the watch root, with the output's name. */
  function MirroredPlace(filePath: Path, root: Path): Path
    requires filePath != [] && root <= Parent(filePath)
  {
    Parent(filePath)[|root|..] + [MkvName(Base(filePath))]
  }

  lemma DirUnderOutput(dir: Path, root: Path, outputDir: Path)
    requires Normal(dir) && Normal(outputDir) && root <= dir
    ensures Join(outputDir, dir[|root|..]) == outputDir + dir[|root|..]
    ensures !Escapes(Rel(outputDir, outputDir + dir[|root|..]))
  {
    CleanNormal(outputDir + dir[|root|..]);
    RelDescends(outputDir, outputDir + dir[|root|..]);
  }

  lemma EffectiveDirIs(filePath: Path, root: Path, outputDir: Path)
    requires filePath != [] && Normal(filePath) && Normal(outputDir)
    ensures EffectiveOutputDir(filePath, Some(root), outputDir)
         == if root <= Parent(filePath) then Some(outputDir + Parent(filePath)[|root|..]) else None
  {
    RelDescends(root, Parent(filePath));
    if root <= Parent(filePath) {
      DirUnderOutput(Parent(filePath), root, outputDir);
    }
  }

  lemma JoinMkv(dir: Path, name: string)
    requires Normal(dir)
    ensures Join(dir, [MkvName(name)]) == dir + [MkvName(name)]
  {
    var mkv := MkvName(name);
    assert mkv[|mkv| - 1] == 'v';
    CleanNormal(dir + [mkv]);
  }

  /** Files under the watch root, and only those, are given an output: their own place below it. */
  lemma OutputMirrorsSource(filePath: Path, root: Path, outputDir: Path)
    requires filePath != [] && Normal(filePath) && Normal(outputDir)
    ensures FinalPath(filePath, Some(root), outputDir)
         == if root <= Parent(filePath) then Some(outputDir + MirroredPlace(filePath, root)) else None
  {
    EffectiveDirIs(filePath, root, outputDir);
    if root <= Parent(filePath) {
      var below := Parent(filePath)[|root|..];
      JoinBelow(outputDir, below, Base(filePath));
    }
  }

  lemma JoinBelow(outputDir: Path, below: Path, name: string)
    requires Normal(outputDir) && Normal(below)
    ensures Join(outputDir + below, [MkvName(name)]) == outputDir + (below + [MkvName(name)])
  {
    JoinMkv(outputDir + below, name);
    assert outputDir + below + [MkvName(name)] == outputDir + (below + [MkvName(name)]);
  }

  /**
   End to end: whatever the remote prefix, the path the library is told to import sits below
   it exactly where the source sits below the watch root, as stem.mkv.
   */
  lemma ImportMirrorsSource(filePath: Path, root: Path, outputPath: Path, remotePath: Path)
    requires filePath != [] && root <= Parent(filePath)
    requires Normal(filePath) && Normal(outputPath) && Normal(remotePath)
    ensures var dest := FinalPath(filePath, Some(root), outputPath);
            && dest.Some?
            && ImportPath(dest.value, outputPath, Some(remotePath))
            == Some(remotePath + MirroredPlace(filePath, root))
  {
    OutputMirrorsSource(filePath, root, outputPath);
    var place := MirroredPlace(filePath, root);
    var name := MkvName(Base(filePath));
    assert name[|name| - 1] == 'v';
    assert Normal(place);
    RelDescends(outputPath, outputPath + place);
    assert (outputPath + place)[|outputPath|..] == place;
    CleanNormal(remotePath + place);
  }

  /**
   The output replaces its own source exactly when the output directory is the watch root
   and the source is already called *.mkv.
   */
  lemma OutputIsSourceIff(filePath: Path, root: Path, outputDir: Path)
    requires filePath != [] && Normal(filePath) && Normal(outputDir) && root <= Parent(filePath)
    ensures FinalPath(filePath, Some(root), outputDir) == Some(filePath)
        <==> outputDir == root && HasSuffix(Base(filePath), ".mkv")
  {
    OutputMirrorsSource(filePath, root, outputDir);
    MkvNameIsOwnIff(Base(filePath));
    PlacesAgreeIff(outputDir, root, Parent(filePath)[|root|..], MkvName(Base(filePath)), Base(filePath));
    assert filePath == root + (Parent(filePath)[|root|..] + [Base(filePath)]);
  }

  lemma PlacesAgreeIff(a: Path, b: Path, below: Path, x: string, y: string)
    ensures a + (below + [x]) == b + (below + [y]) <==> a == b && x == y
  {
    var p, q := a + (below + [x]), b + (below + [y]);
    if p == q {
      assert p[..|a|] == a && q[..|b|] == b && |a| == |b|;
      assert p[|p| - 1] == x && q[|q| - 1] == y;
    }
  }

  lemma PlaceDeterminesSource(f: Path, g: Path, root: Path)
    requires f != [] && g != [] && root <= Parent(f) && root <= Parent(g)
    requires MirroredPlace(f, root) == MirroredPlace(g, root)
    ensures Parent(f) == Parent(g) && Stem(Base(f)) == Stem(Base(g))
  {
    var x, y := Parent(f)[|root|..], Parent(g)[|root|..];
    var m, n := MkvName(Base(f)), MkvName(Base(g));
    assert x == (x + [m])[..|x + [m]| - 1] && y == (y + [n])[..|y + [n]| - 1];
    assert m == (x + [m])[|x|] && n == (y + [n])[|y|];
    assert Stem(Base(f)) == m[..|m| - 4] && Stem(Base(g)) == n[..|n| - 4];
    assert Parent(f) == root + x && Parent(g) == root + y;
  }

  /** Two sources share an output exactly when they share directory and stem. */
  lemma OutputsCollideIff(f: Path, g: Path, root: Path, outputDir: Path)
    requires f != [] && g != [] && Normal(f) && Normal(g) && Normal(outputDir)
    requires root <= Parent(f) && root <= Parent(g)
    ensures FinalPath(f, Some(root), outputDir) == FinalPath(g, Some(root), outputDir)
        <==> Parent(f) == Parent(g) && Stem(Base(f)) == Stem(Base(g))
  {
    OutputMirrorsSource(f, root, outputDir);
    OutputMirrorsSource(g, root, outputDir);
    var x, y := outputDir + MirroredPlace(f, root), outputDir + MirroredPlace(g, root);
    if x == y {
      assert x[|outputDir|..] == MirroredPlace(f, root) && y[|outputDir|..] == MirroredPlace(g, root);
      PlaceDeterminesSource(f, g, root);
    }
  }
}
