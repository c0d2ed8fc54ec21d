/**
  Path safety of the workload simulator. A resolved path is its sequence of segments below the
  root; one path lies at or under another when the other is a prefix of it. Resolution, which
  follows symbolic links and may fail, is an arbitrary function.
 */
module WorkloadPaths {
  import opened Wrappers
  import W = WorkloadSelection

  type Path = seq<string>

  /** `Path.resolve()` at one moment: None where it raises. */
  type Resolver = Path -> Option<Path>

  datatype PathError =
    | ResolveFailed | Unresolvable | Escapes
    | SameRoot | ResultInsideDataset | DatasetInsideResult
    | RunNotOneSegment | PodNotOneSegment | UnderDataset

  /** `_is_inside`: also true of the path itself. */
  predicate Inside(child: Path, parent: Path) { parent <= child }

  /** `ensure_within`. */
  function EnsureWithin(resolve: Resolver, base: Path, candidate: Path): (r: Result<Path, PathError>)
    ensures r.Ok? <==>
            resolve(base).Some? && resolve(candidate).Some? && resolve(base).value <= resolve(candidate).value
    ensures r.Ok? ==> resolve(candidate) == Some(r.value)
    ensures resolve(base).None? ==> r == Err(ResolveFailed)
    ensures resolve(base).Some? && resolve(candidate).None? ==> r == Err(Unresolvable)
    ensures r == Err(Escapes) <==> resolve(base).Some? && resolve(candidate).Some? && r.Err?
  {
    if resolve(base).None? then Err(ResolveFailed)
    else if resolve(candidate).None? then Err(Unresolvable)
    else
      var b, c := resolve(base).value, resolve(candidate).value;
      if !Inside(c, b) && c != b then Err(Escapes) else Ok(c)
  }

  /** `assert_disjoint_roots`. */
  function AssertDisjointRoots(resolve: Resolver, dataset: Path, result: Path): (r: Result<(Path, Path), PathError>)
    ensures r.Ok? <==>
            && resolve(dataset).Some? && resolve(result).Some?
            && !(resolve(dataset).value <= resolve(result).value) && !(resolve(result).value <= resolve(dataset).value)
    ensures r.Ok? ==> resolve(dataset) == Some(r.value.0) && resolve(result) == Some(r.value.1)
    ensures r == Err(ResolveFailed) <==> resolve(dataset).None? || resolve(result).None?
    ensures r == Err(SameRoot) <==> resolve(dataset).Some? && resolve(dataset) == resolve(result)
    ensures r == Err(ResultInsideDataset) <==>
            resolve(dataset).Some? && resolve(result).Some? && resolve(dataset).value < resolve(result).value
  {
    if resolve(dataset).None? || resolve(result).None? then Err(ResolveFailed)
    else
      var d, r := resolve(dataset).value, resolve(result).value;
      if d == r then Err(SameRoot)
      else if Inside(r, d) then Err(ResultInsideDataset)
      else if Inside(d, r) then Err(DatasetInsideResult)
      else Ok((d, r))
  }

  /**
    The pod directory of a write-only run: the run directory (the result root joined with the run
    id) must resolve under the result root, and the pod directory under the run directory.
   */
  function PodDirectory(resolve: Resolver, dataset: Path, result: Path, run: Path, pod: Path -> Path)
    : (r: Result<Path, PathError>)
    ensures r.Ok? <==>
            && resolve(dataset).Some? && resolve(result).Some? && resolve(run).Some?
            && !(resolve(dataset).value <= resolve(result).value) && !(resolve(result).value <= resolve(dataset).value)
            && resolve(result).value <= resolve(run).value
            && resolve(pod(resolve(run).value)).Some?
            && resolve(run).value <= resolve(pod(resolve(run).value)).value
    ensures r.Ok? ==> resolve(pod(resolve(run).value)) == Some(r.value)
  {
    var roots := AssertDisjointRoots(resolve, dataset, result);
    if roots.Err? then Err(roots.error)
    else if resolve(run).None? then Err(ResolveFailed)
    else if !Inside(resolve(run).value, roots.value.1) then Err(RunNotOneSegment)
    else
      var runDir := resolve(run).value;
      if resolve(pod(runDir)).None? then Err(ResolveFailed)
      else if !Inside(resolve(pod(runDir)).value, runDir) then Err(PodNotOneSegment)
      else Ok(resolve(pod(runDir)).value)
  }

  /** The check of derived outputs: with a dataset root it keeps them off the dataset even when the roots overlap. */
  function CheckOutput(resolve: Resolver, podDir: Path, dataset: Option<Path>, candidate: Path)
    : (r: Result<Path, PathError>)
    ensures r.Ok? <==>
            && resolve(podDir).Some? && resolve(candidate).Some? && resolve(podDir).value <= resolve(candidate).value
            && (dataset.Some? ==> resolve(dataset.value).Some? && !(resolve(dataset.value).value <= resolve(candidate).value))
    ensures r.Ok? ==> resolve(candidate) == Some(r.value)
  {
    if dataset.Some? && resolve(dataset.value).None? then Err(ResolveFailed)
    else
      var r := EnsureWithin(resolve, podDir, candidate);
      if r.Err? || dataset.None? then r
      else
        var d := resolve(dataset.value).value;
        if r.value == d || Inside(r.value, d) then Err(UnderDataset) else r
  }

  // ---------------------------------------------------------------- decimal file names

  function Digit(n: nat): char
    requires n < 10
  {
    "0123456789"[n]
  }

  /** Zero-padded decimal of at least `width` digits. */
  function Padded(n: nat, width: nat): (r: string)
    ensures |r| >= 1
    decreases n, width
  {
    if n < 10 && width <= 1 then [Digit(n)]
    else Padded(n / 10, if width > 0 then width - 1 else 0) + [Digit(n % 10)]
  }

  lemma {:induction false} PaddedInjective(m: nat, n: nat, width: nat)
    requires Padded(m, width) == Padded(n, width)
    ensures m == n
    decreases m, width
  {
    var a, b := Padded(m, width), Padded(n, width);
    var w := if width > 0 then width - 1 else 0;
    assert a[|a| - 1] == Digit(m % 10) && b[|b| - 1] == Digit(n % 10);
    if |a| > 1 {
      assert a[..|a| - 1] == Padded(m / 10, w);
      assert b[..|b| - 1] == Padded(n / 10, w);
      PaddedInjective(m / 10, n / 10, w);
    }
  }

  predicate IsDigit(c: char) { '0' <= c <= '9' }

  /** The number a decimal numeral stands for. */
  function Decimal(s: string): int {
    if s == "" then 0 else Decimal(s[..|s| - 1]) * 10 + (s[|s| - 1] as int - '0' as int)
  }

  /** The numeral of `n`: digits, at least `width` of them, and more only without a leading zero. */
  lemma {:induction false} PaddedMeaning(n: nat, width: nat)
    ensures var s := Padded(n, width);
            && (forall i | 0 <= i < |s| :: IsDigit(s[i])) && Decimal(s) == n
            && |s| >= width && (|s| > width && |s| > 1 ==> s[0] != '0')
    decreases n, width
  {
    var s, w := Padded(n, width), if width > 0 then width - 1 else 0;
    DigitMeaning(n % 10);
    if n < 10 && width <= 1 {
      assert s[..0] == "";
    } else {
      PaddedMeaning(n / 10, w);
      assert s[..|s| - 1] == Padded(n / 10, w);
      if |s| > width && |s| == 2 {
        OneDigit(n / 10, w);
      }
    }
  }

  lemma DigitMeaning(n: nat)
    requires n < 10
    ensures Digit(n) as int == n + '0' as int
  {}

  lemma OneDigit(n: nat, width: nat)
    requires |Padded(n, width)| == 1
    ensures n < 10 && Padded(n, width) == [Digit(n)]
  {}

  function FilePath(podDir: Path, fileIndex: nat, fanout: nat): Path
    requires fanout > 0
  {
    podDir + [DirectoryName(fileIndex % fanout), "file-" + Padded(fileIndex, 8) + ".bin"]
  }

  function DirectoryName(directory: nat): string { "dir-" + Padded(directory, 4) }

  /** Where a file goes: two segments below the pod directory, its number modulo the fan-out and its number. */
  lemma FilePathMeaning(podDir: Path, fileIndex: nat, fanout: nat)
    requires fanout > 0
    ensures var p := FilePath(podDir, fileIndex, fanout);
            && |p| == |podDir| + 2 && p[..|podDir|] == podDir
            && var directory, file := p[|podDir|], p[|podDir| + 1];
               && |directory| >= 4 + 4 && directory[..4] == "dir-" && Decimal(directory[4..]) == fileIndex % fanout
               && |file| >= 5 + 8 + 4 && file[..5] == "file-" && file[|file| - 4..] == ".bin"
               && Decimal(file[5..|file| - 4]) == fileIndex
  {
    var directory, number := Padded(fileIndex % fanout, 4), Padded(fileIndex, 8);
    PaddedMeaning(fileIndex % fanout, 4);
    PaddedMeaning(fileIndex, 8);
    assert DirectoryName(fileIndex % fanout)[4..] == directory;
    assert ("file-" + number + ".bin")[5..|number| + 5] == number;
  }

  /** Files with different numbers have different paths. */
  lemma FilePathsDistinct(podDir: Path, i: nat, j: nat, fanout: nat)
    requires fanout > 0 && i != j
    ensures FilePath(podDir, i, fanout) != FilePath(podDir, j, fanout)
  {
    var p, q := FilePath(podDir, i, fanout), FilePath(podDir, j, fanout);
    if p == q {
      assert p[|podDir| + 1] == "file-" + Padded(i, 8) + ".bin";
      assert q[|podDir| + 1] == "file-" + Padded(j, 8) + ".bin";
      MiddleUnique("file-", Padded(i, 8), Padded(j, 8), ".bin");
      PaddedInjective(i, j, 8);
    }
  }

  /** The numbers of the first `files` files that go to one directory. */
  function DirectoryFiles(files: nat, fanout: nat, directory: nat): seq<int>
    requires directory < fanout
  {
    W.Shard(Numbers(files), directory, fanout)
  }

  function Numbers(n: nat): seq<int> { seq(n, i requires 0 <= i < n => i) }

  /** Files are spread evenly: the loads of two directories differ by at most one, at every point of a run. */
  lemma DirectoriesBalanced(files: nat, fanout: nat, d: nat, e: nat)
    requires d < fanout && e < fanout
    ensures |DirectoryFiles(files, fanout, d)| <= |DirectoryFiles(files, fanout, e)| + 1
  {
    W.ShardSize(Numbers(files), d, fanout);
    W.ShardSize(Numbers(files), e, fanout);
  }

  /** What a directory holds: exactly the files whose paths lead through it. */
  lemma DirectoryHolds(podDir: Path, files: nat, fanout: nat, d: nat, f: nat)
    requires d < fanout && f < files
    ensures f in DirectoryFiles(files, fanout, d) <==> FilePath(podDir, f, fanout)[|podDir|] == DirectoryName(d)
  {
    ShardMembers(Numbers(files), d, fanout, f);
    DirectoryNamesDistinct(f % fanout, d);
  }

  lemma DirectoryNamesDistinct(d: nat, e: nat)
    ensures DirectoryName(d) == DirectoryName(e) <==> d == e
  {
    if DirectoryName(d) == DirectoryName(e) {
      assert DirectoryName(d)[4..] == Padded(d, 4) && DirectoryName(e)[4..] == Padded(e, 4);
      PaddedInjective(d, e, 4);
    }
  }

  lemma {:induction false} ShardMembers(all: seq<int>, d: nat, fanout: nat, f: nat)
    requires d < fanout && f < |all| && forall i | 0 <= i < |all| :: all[i] == i
    ensures f in W.Shard(all, d, fanout) <==> f % fanout == d
  {
    var n := |all| - 1;
    ShardBelow(all[..n], d, fanout);
    if f < n {
      ShardMembers(all[..n], d, fanout, f);
    }
  }

  lemma {:induction false} ShardBelow(all: seq<int>, d: nat, fanout: nat)
    requires d < fanout && forall i | 0 <= i < |all| :: all[i] == i
    ensures forall k | k in W.Shard(all, d, fanout) :: k < |all|
  {
    if all == [] {
    } else {
      ShardBelow(all[..|all| - 1], d, fanout);
    }
  }

  lemma MiddleUnique(before: string, x: string, y: string, after: string)
    requires before + x + after == before + y + after
    ensures x == y
  {
    var p, q := before + x + after, before + y + after;
    assert |x| == |y|;
    assert p[|before|..|before| + |x|] == x && q[|before|..|before| + |y|] == y;
  }

  // ---------------------------------------------------------------- confinement

  /** Two prefixes of one path are prefixes of each other. */
  lemma PrefixesComparable(a: Path, b: Path, p: Path)
    requires a <= p && b <= p
    ensures a <= b || b <= a
  {}

  /** The roots are accepted exactly when no location lies at or under both. */
  lemma DisjointIffNothingShared(resolve: Resolver, dataset: Path, result: Path)
    requires resolve(dataset).Some? && resolve(result).Some?
    ensures AssertDisjointRoots(resolve, dataset, result).Ok?
       <==> forall p: Path :: !(Inside(p, resolve(dataset).value) && Inside(p, resolve(result).value))
  {
    var d, r := resolve(dataset).value, resolve(result).value;
    if AssertDisjointRoots(resolve, dataset, result).Ok? {
      forall p: Path ensures !(Inside(p, d) && Inside(p, r)) {
        if Inside(p, d) && Inside(p, r) { PrefixesComparable(d, r, p); }
      }
    } else {
      assert (Inside(d, d) && Inside(d, r)) || (Inside(r, d) && Inside(r, r));
    }
  }

  /**
    Every path that passes the checks of a write-only run resolves outside the dataset, for any run
    id, pod name and file, provided the pod directory, already resolved, still resolves to itself.
   */
  lemma WritesStayOffDataset(resolve: Resolver, dataset: Path, result: Path, run: Path, pod: Path -> Path, file: Path)
    requires PodDirectory(resolve, dataset, result, run, pod).Ok?
    requires var podDir := PodDirectory(resolve, dataset, result, run, pod).value;
             resolve(podDir) == Some(podDir) && EnsureWithin(resolve, podDir, file).Ok?
    ensures resolve(file).Some? && resolve(dataset).Some?
    ensures !(resolve(dataset).value <= resolve(file).value)
    ensures resolve(result).value <= resolve(file).value
  {
    var podDir := PodDirectory(resolve, dataset, result, run, pod).value;
    var target := EnsureWithin(resolve, podDir, file).value;
    PrefixTrans(resolve(result).value, resolve(run).value, podDir);
    PrefixTrans(resolve(result).value, podDir, target);
    DisjointIffNothingShared(resolve, dataset, result);
    assert Inside(target, resolve(result).value);
    assert !Inside(target, resolve(dataset).value);
  }

  lemma PrefixTrans(a: Path, b: Path, c: Path)
    requires a <= b <= c
    ensures a <= c
  {}
}
