/**
  Which write-only runs repeat a chunk verbatim or account for fewer bytes than they write, told
  from the settings and the number of files.
 */
module WorkloadRepeats {
  import opened Wrappers
  import opened Numbers
  import opened WorkloadChunks
  import opened WorkloadFill

  // ---------------------------------------------------------------- any run

  /** Every chunk of a run is full or the left-over of a file, and the first one is full. */
  ghost predicate RunSizes(c: Config, log: seq<Chunk>)
    requires Sound(c)
  {
    && (forall k | 0 <= k < |log| :: log[k].size == c.chunkSize || log[k].size == LeftOver(c, c.fileSize))
    && (log != [] ==> log[0].size == c.chunkSize)
  }

  lemma {:induction false} LeftOverBelow(c: Config, remaining: nat)
    requires Sound(c)
    ensures LeftOver(c, remaining) < c.chunkSize
  {
    if remaining < c.chunkSize {
    } else {
      LeftOverBelow(c, remaining - c.chunkSize);
    }
  }

  lemma BlockSizes(c: Config, noise: seq<Byte>, a: Attempt, file: nat, p0: Progress, r: FileResult)
    requires Sound(c) && BlockMeets(c, noise, a, file, p0, r) && RunSizes(c, p0.log) && Consistent(c, noise, p0)
    ensures RunSizes(c, r.progress.log)
  {
    var log := r.progress.log;
    forall k | 0 <= k < |log| ensures log[k].size == c.chunkSize || log[k].size == LeftOver(c, c.fileSize) {
      if k < |p0.log| {
        assert log[k] == p0.log[k];
      }
    }
    if p0.log != [] {
      assert log[0] == p0.log[0];
    } else {
      LeftOverBelow(c, c.fileSize);
      if |log| == 1 {
        assert log[..0] == [];
        assert Accounted(log) == log[0].size;
      }
    }
  }

  lemma {:induction false} SizesInRun(c: Config, noise: seq<Byte>, script: seq<Attempt>)
    requires Sound(c) && |noise| == c.chunkSize
    ensures RunSizes(c, After(c, noise, script).state.progress.log)
  {
    if script == [] {
    } else {
      var n := |script| - 1;
      SizesInRun(c, noise, script[..n]);
      RunMeets(c, noise, script[..n]);
      var before := After(c, noise, script[..n]);
      var s0, a := before.state, script[n];
      if before.reason.None? && Stop(c, AtTest(s0, a), a).None? {
        FileBlockMeets(c, noise, a, s0.files, s0.progress);
        BlockSizes(c, noise, a, s0.files, s0.progress, FileBlock(c, a, s0.files, s0.progress));
      }
    }
  }

  /** A file size that leaves nothing or at least eight bytes over: no run repeats a chunk, whatever fails. */
  lemma NoRunRepeats(c: Config, noise: seq<Byte>, script: seq<Attempt>, i: nat, j: nat)
    requires Sound(c) && |noise| == c.chunkSize
    requires c.fileSize % c.chunkSize == 0 || c.fileSize % c.chunkSize >= 8
    requires i < j < |After(c, noise, script).state.progress.log|
    ensures After(c, noise, script).state.progress.log[i].data != After(c, noise, script).state.progress.log[j].data
  {
    var p := After(c, noise, script).state.progress;
    RunMeets(c, noise, script);
    SizesInRun(c, noise, script);
    LeftOverIsRemainder(c, c.fileSize);
    assert Stamped(noise, i, p.log[i]);
    WritesDiffer(c, noise, p, i, j);
  }

  /** A run accounts for exactly the bytes it writes if and only if chunks have at least eight bytes, or it writes nothing. */
  lemma RunAccountsExactlyIff(c: Config, noise: seq<Byte>, script: seq<Attempt>)
    requires Sound(c) && |noise| == c.chunkSize
    ensures var p := After(c, noise, script).state.progress;
            |Contents(p.log)| == p.bytesWritten <==> c.chunkSize >= 8 || p.log == []
  {
    RunMeets(c, noise, script);
    SizesInRun(c, noise, script);
    AccountingExactIff(noise, After(c, noise, script).state.progress.log);
  }

  // ---------------------------------------------------------------- runs of undisturbed files

  /** The chunks of a file. */
  function ChunksOf(c: Config, remaining: nat): nat
    requires Sound(c)
  {
    if remaining == 0 then 0 else 1 + ChunksOf(c, remaining - NextSize(c, remaining))
  }

  function PerFile(c: Config): nat
    requires Sound(c)
  {
    ChunksOf(c, c.fileSize)
  }

  /** The size of the last chunk. */
  function LastSize(c: Config, remaining: nat): nat
    requires Sound(c)
  {
    if remaining <= c.chunkSize then remaining else LastSize(c, remaining - c.chunkSize)
  }

  lemma {:induction false} LastSizeIs(c: Config, remaining: nat)
    requires Sound(c) && remaining > 0
    ensures LastSize(c, remaining) == if LeftOver(c, remaining) == 0 then c.chunkSize else LeftOver(c, remaining)
    ensures 0 < LastSize(c, remaining) <= c.chunkSize
  {
    if remaining <= c.chunkSize {
    } else {
      LastSizeIs(c, remaining - c.chunkSize);
    }
  }

  /** The entries of `log` from `from` on are the chunks of one file. */
  ghost predicate FileSizes(c: Config, log: seq<Chunk>, from: nat, remaining: nat)
    requires Sound(c)
  {
    && |log| == from + ChunksOf(c, remaining)
    && forall k | from <= k < |log| ::
         log[k].size == if k + 1 < |log| then c.chunkSize else LastSize(c, remaining)
  }

  lemma {:induction false} CleanChunks(c: Config, file: nat, p: Progress, remaining: nat, chunk: nat)
    requires Sound(c) && c.target == 0 && |p.buffer| >= c.chunkSize && file < |p.disk|
    requires p.counter + ChunksOf(c, remaining) <= COUNTER_LIMIT
    ensures var r := WriteChunks(c, CLEAN, file, p, remaining, chunk);
            && r.outcome.Complete? && !r.signalled && p.log <= r.progress.log
            && r.progress.counter == p.counter + ChunksOf(c, remaining)
            && FileSizes(c, r.progress.log, |p.log|, remaining)
    decreases remaining
  {
    if remaining == 0 {
    } else {
      var size := NextSize(c, remaining);
      var q := WriteChunk(c, p, file, size);
      CleanChunks(c, file, q, remaining - size, chunk + 1);
      ChunksStep(c, CLEAN, file, p, remaining, chunk);
      var log := WriteChunks(c, CLEAN, file, q, remaining - size, chunk + 1).progress.log;
      assert log[|p.log|] == q.log[|p.log|];
      assert remaining > size ==> ChunksOf(c, remaining - size) > 0;
    }
  }

  /** The size of the k-th chunk of a run of undisturbed files. */
  function SizeAt(c: Config, k: nat): nat
    requires Sound(c)
  {
    if PerFile(c) > 0 && (k + 1) % PerFile(c) == 0 then LastSize(c, c.fileSize) else c.chunkSize
  }

  lemma LastOfFile(f: nat, per: nat, j: nat)
    requires j < per
    ensures (f * per + j + 1) % per == 0 <==> j + 1 == per
  {
    if j + 1 < per {
      DivModUnique(f * per + j + 1, per, f, j + 1);
    } else {
      assert (f + 1) * per == f * per + per;
      DivModUnique(f * per + j + 1, per, f + 1, 0);
    }
  }

  function CleanScript(n: nat): seq<Attempt> { seq(n, _ => CLEAN) }

  /** An unlimited run of `n` undisturbed files with as many counters as it needs. */
  predicate Unlimited(c: Config, noise: seq<Byte>, n: nat) {
    Sound(c) && |noise| == c.chunkSize && c.cap == 0 && c.target == 0 && n * PerFile(c) <= COUNTER_LIMIT
  }

  ghost predicate CleanState(c: Config, s: RunState, n: nat)
    requires Sound(c)
  {
    var p := s.progress;
    && s.files == n && s.failed == 0 && !s.signalled
    && |p.log| == p.counter == n * PerFile(c)
    && forall k | 0 <= k < |p.log| :: p.log[k].size == SizeAt(c, k)
  }

  lemma CleanPass(c: Config, noise: seq<Byte>, s0: RunState, n: nat)
    requires Unlimited(c, noise, n + 1) && CleanState(c, s0, n) && Usable(c, s0)
    ensures var r := PassOf(c, CLEAN, s0); r.reason.None? && CleanState(c, r.state, n + 1)
  {
    var per := PerFile(c);
    var p0 := s0.progress;
    assert (n + 1) * per == n * per + per;
    CleanChunks(c, n, Opened(p0, n), c.fileSize, 0);
    var p := PassOf(c, CLEAN, s0).state.progress;
    forall k | 0 <= k < |p.log| ensures p.log[k].size == SizeAt(c, k) {
      if k < |p0.log| {
        assert p.log[k] == p0.log[k];
      } else {
        LastOfFile(n, per, k - n * per);
      }
    }
  }

  lemma {:induction false} CleanRun(c: Config, noise: seq<Byte>, n: nat)
    requires Unlimited(c, noise, n)
    ensures var r := After(c, noise, CleanScript(n)); r.reason.None? && CleanState(c, r.state, n)
  {
    if n == 0 {
    } else {
      assert n * PerFile(c) == (n - 1) * PerFile(c) + PerFile(c);
      CleanRun(c, noise, n - 1);
      assert CleanScript(n)[..n - 1] == CleanScript(n - 1);
      CleanPass(c, noise, After(c, noise, CleanScript(n - 1)).state, n - 1);
    }
  }

  /** Two chunks of the log are the same. */
  ghost predicate Repeats(log: seq<Chunk>) {
    exists i, j | 0 <= i < j < |log| :: log[i].data == log[j].data
  }

  /** `d` files further on, the counter has come round in its first `t` bytes. */
  predicate ComesRound(c: Config, t: nat, d: nat)
    requires Sound(c)
  {
    Pow256(t) > 0 && (d * PerFile(c)) % Pow256(t) == 0
  }

  lemma RepeatIsTail(c: Config, noise: seq<Byte>, n: nat, log: seq<Chunk>, i: nat, j: nat)
    requires Unlimited(c, noise, n) && AllStamped(noise, log) && |log| == n * PerFile(c)
    requires forall k | 0 <= k < |log| :: log[k].size == SizeAt(c, k)
    requires i < j < |log| && log[i].data == log[j].data
    ensures var t := c.fileSize % c.chunkSize; 0 < t < 8 && exists d | 0 < d < n :: ComesRound(c, t, d)
  {
    var per, t := PerFile(c), LastSize(c, c.fileSize);
    LastSizeIs(c, c.fileSize);
    LeftOverIsRemainder(c, c.fileSize);
    assert Stamped(noise, i, log[i]) && Stamped(noise, j, log[j]);
    ChunksRepeatIff(noise, i, log[i], j, log[j]);
    assert log[i].size == t < c.chunkSize && log[j].size == t;
    PowPositive(t);
    var d := MultiplesApart(i, j, per, Pow256(t));
    Between(d, per, n);
    assert ComesRound(c, t, d);
  }

  lemma Between(d: nat, per: nat, n: nat)
    requires per > 0 && 0 < d * per < n * per
    ensures 0 < d < n
  {
    MultipleBounds(d - n, per);
    assert (d - n) * per == d * per - n * per;
  }

  lemma TailRepeats(c: Config, noise: seq<Byte>, n: nat, log: seq<Chunk>, d: nat)
    requires Unlimited(c, noise, n) && AllStamped(noise, log) && |log| == n * PerFile(c)
    requires forall k | 0 <= k < |log| :: log[k].size == SizeAt(c, k)
    requires var t := c.fileSize % c.chunkSize; 0 < t < 8 && ComesRound(c, t, d)
    requires 0 < d < n
    ensures Repeats(log)
  {
    var per, t := PerFile(c), LastSize(c, c.fileSize);
    LastSizeIs(c, c.fileSize);
    LeftOverIsRemainder(c, c.fileSize);
    var i, j := per - 1, per - 1 + d * per;
    LastOfFile(0, per, i);
    LastOfFile(d, per, i);
    MultipleBounds(d, per);
    MultipleBounds(n - d, per);
    assert (n - d) * per == n * per - d * per;
    assert i < j < |log|;
    assert Stamped(noise, i, log[i]) && Stamped(noise, j, log[j]);
    SameRemainderIff(i, d * per, Pow256(t));
    ChunksRepeatIff(noise, i, log[i], j, log[j]);
    assert log[i].data == log[j].data;
  }

  /**
    Exactly when an undisturbed run of `n` files repeats a chunk: when a file leaves between one and
    seven bytes over, and some number of files below `n` brings the counter round in that many bytes.
   */
  lemma RunRepeatsIff(c: Config, noise: seq<Byte>, n: nat)
    requires Unlimited(c, noise, n)
    ensures var t := c.fileSize % c.chunkSize;
            Repeats(After(c, noise, CleanScript(n)).state.progress.log)
            <==> 0 < t < 8 && exists d | 0 < d < n :: ComesRound(c, t, d)
  {
    var log := After(c, noise, CleanScript(n)).state.progress.log;
    CleanRun(c, noise, n);
    RunMeets(c, noise, CleanScript(n));
    if Repeats(log) {
      var i, j :| 0 <= i < j < |log| && log[i].data == log[j].data;
      RepeatIsTail(c, noise, n, log, i, j);
    }
    var t := c.fileSize % c.chunkSize;
    if 0 < t < 8 && exists d | 0 < d < n :: ComesRound(c, t, d) {
      var d :| 0 < d < n && ComesRound(c, t, d);
      TailRepeats(c, noise, n, log, d);
    }
  }

  /** A run that repeats: 129 files of nine bytes in chunks of eight. */
  lemma NineByteFilesRepeat(noise: seq<Byte>)
    requires |noise| == 8
    ensures Repeats(After(Config(9, 8, 1, 0, 0, false), noise, CleanScript(129)).state.progress.log)
  {
    var c := Config(9, 8, 1, 0, 0, false);
    assert ChunksOf(c, 1) == 1 + ChunksOf(c, 0);
    assert PerFile(c) == 2;
    assert Pow256(1) == 256 * Pow256(0);
    assert ComesRound(c, 1, 128);
    RunRepeatsIff(c, noise, 129);
  }

  /** A run that accounts for fewer bytes than it writes: one file of four bytes in a chunk of four. */
  lemma FourByteChunksUnderCounted(noise: seq<Byte>)
    requires |noise| == 4
    ensures var p := After(Config(4, 4, 1, 0, 0, false), noise, CleanScript(1)).state.progress;
            p.bytesWritten == 4 && |Contents(p.log)| == 8
  {
    var c := Config(4, 4, 1, 0, 0, false);
    assert ChunksOf(c, 4) == 1 + ChunksOf(c, 0);
    CleanRun(c, noise, 1);
    RunMeets(c, noise, CleanScript(1));
    var log := After(c, noise, CleanScript(1)).state.progress.log;
    assert log[..0] == [] && Stamped(noise, 0, log[0]);
  }
}
