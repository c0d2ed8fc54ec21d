/**
  The write-only workload: fill the pod directory with files until the filesystem is full, a byte
  target or file cap is reached, a signal arrives, or a fatal error. What the environment does to
  each attempt at a file is a script given from outside; real runs go on as long as they need.
 */
module WorkloadFill {
  import opened Wrappers
  import opened Numbers
  import opened WorkloadChunks

  // ---------------------------------------------------------------- settings

  /** Command-line settings; zero or absent stand for the defaults described at `Settle`. */
  datatype Arguments = Arguments(
    fileSize: int, writeChunkSize: int, chunkSize: int, fanout: int, target: int, filesPerPod: Option<int>,
    failOnWriteError: bool)

  /** The figures the loop works with: target 0 is no target, cap 0 no cap. */
  datatype Config = Config(fileSize: nat, chunkSize: nat, fanout: nat, target: nat, cap: int, failOnWriteError: bool)

  function AtLeast(x: int, least: int): int { if x < least then least else x }

  /** The chunk size asked for: the write-only setting, or the general one where it is zero. */
  function RequestedChunk(a: Arguments): int {
    if a.writeChunkSize != 0 then a.writeChunkSize else a.chunkSize
  }

  /** The normalisation before the loop: usable settings are kept, others replaced by the nearest usable one. */
  function Settle(a: Arguments): (c: Config)
    ensures Sound(c)
    ensures c.fileSize == if a.fileSize >= 1 then a.fileSize else 1
    ensures var asked := if a.writeChunkSize == 0 then a.chunkSize else a.writeChunkSize;
            c.chunkSize == if asked < 1 then 1 else if asked <= c.fileSize then asked else c.fileSize
    ensures c.fanout == if a.fanout >= 1 then a.fanout else 1
    ensures if a.target > 0 then c.target == a.target else c.target == 0
    ensures c.cap == 0 <==> a.filesPerPod.None? || a.filesPerPod.value == 0
    ensures c.cap != 0 ==> a.filesPerPod == Some(c.cap)
    ensures c.failOnWriteError == a.failOnWriteError
  {
    var fileSize := AtLeast(a.fileSize, 1);
    var chunk := AtLeast(RequestedChunk(a), 1);
    Config(
      fileSize, if chunk > fileSize then fileSize else chunk, AtLeast(a.fanout, 1), AtLeast(a.target, 0),
      a.filesPerPod.GetOr(0), a.failOnWriteError)
  }

  predicate Sound(c: Config) { 1 <= c.chunkSize <= c.fileSize && c.fanout >= 1 }

  // ---------------------------------------------------------------- the environment

  datatype Fault = NoSpace | OtherError

  datatype WriteFault = WriteFault(chunk: nat, fault: Fault)

  /**
    What happens to one pass of the outer loop: a signal before it, a path check that refuses, and
    errors of the directory creation, the open, one of the writes or the close; `signalAt` is the
    chunk before which a signal arrives.
   */
  datatype Attempt = Attempt(
    signalBefore: bool, within: bool, mkdir: Option<Fault>, open: Option<Fault>,
    signalAt: Option<nat>, write: Option<WriteFault>, close: Option<Fault>)

  predicate Undisturbed(a: Attempt) {
    !a.signalBefore && a.within && a.mkdir.None? && a.open.None? && a.signalAt.None? && a.write.None? && a.close.None?
  }

  // ---------------------------------------------------------------- state

  /** Totals, the reused buffer, the file contents by file number, and the successful writes. */
  datatype Progress = Progress(
    bytesWritten: nat, counter: nat, buffer: seq<Byte>, disk: seq<seq<Byte>>, log: seq<Chunk>)

  predicate TargetMet(c: Config, p: Progress) { c.target > 0 && p.bytesWritten >= c.target }

  /** Counters and buffer agree with the writes made so far. */
  ghost predicate Consistent(c: Config, noise: seq<Byte>, p: Progress) {
    && |noise| == c.chunkSize
    && p.counter == |p.log| <= COUNTER_LIMIT
    && p.bytesWritten == Accounted(p.log)
    && (c.target > 0 ==> p.bytesWritten < c.target + c.chunkSize)
    && |p.buffer| >= c.chunkSize && Tail(p.buffer) == Tail(noise)
    && AllStamped(noise, p.log)
  }

  function OnDisk(disk: seq<seq<Byte>>): nat {
    if disk == [] then 0 else OnDisk(disk[..|disk| - 1]) + |disk[|disk| - 1]|
  }

  /** Write the next chunk: stamp, hand over, count. */
  function WriteChunk(c: Config, p: Progress, file: nat, size: nat): (q: Progress)
    requires Sound(c) && 1 <= size <= c.chunkSize <= |p.buffer| && file < |p.disk|
    ensures |q.buffer| >= c.chunkSize && |q.disk| == |p.disk|
  {
    var buffer := Stamp(p.buffer, p.counter);
    var data := if size == c.chunkSize then buffer else buffer[..size];
    Progress(
      p.bytesWritten + size, p.counter + 1, buffer, p.disk[file := p.disk[file] + data], p.log + [Chunk(size, data)])
  }

  lemma ContentsOneMore(log: seq<Chunk>, c: Chunk)
    ensures Contents(log + [c]) == Contents(log) + c.data && Accounted(log + [c]) == Accounted(log) + c.size
  {}

  lemma AllStampedOneMore(noise: seq<Byte>, log: seq<Chunk>, chunk: Chunk)
    requires AllStamped(noise, log) && Stamped(noise, |log|, chunk)
    ensures AllStamped(noise, log + [chunk])
  {
    forall k | 0 <= k <= |log| ensures Stamped(noise, k, (log + [chunk])[k]) {
      if k < |log| {
        assert Stamped(noise, k, log[k]);
      }
    }
  }

  lemma WriteChunkConsistent(c: Config, noise: seq<Byte>, p: Progress, file: nat, size: nat)
    requires Sound(c) && Consistent(c, noise, p) && !TargetMet(c, p) && p.counter < COUNTER_LIMIT
    requires 1 <= size <= c.chunkSize && file < |p.disk|
    ensures Consistent(c, noise, WriteChunk(c, p, file, size))
  {
    var chunk := Chunk(size, if size == c.chunkSize then Stamp(p.buffer, p.counter) else Stamp(p.buffer, p.counter)[..size]);
    ContentsOneMore(p.log, chunk);
    AllStampedOneMore(noise, p.log, chunk);
  }

  /** No two writes of a run that hold a whole stamp are the same, however often files fail and are reopened. */
  lemma WritesDiffer(c: Config, noise: seq<Byte>, p: Progress, i: nat, j: nat)
    requires Consistent(c, noise, p) && i < j < |p.log| && |p.log[i].data| >= 8
    ensures p.log[i].data != p.log[j].data
  {
    assert Stamped(noise, i, p.log[i]) && Stamped(noise, j, p.log[j]);
    ChunksRepeatIff(noise, i, p.log[i], j, p.log[j]);
  }

  // ---------------------------------------------------------------- one file

  datatype Outcome = Complete | Failed(fault: Fault) | CounterOverflow

  /** The file, new or partial, now holds the contents; earlier files are untouched. */
  predicate Replaced(file: nat, before: seq<seq<Byte>>, after: seq<seq<Byte>>, contents: seq<Byte>) {
    && file <= |before| && |after| == file + 1
    && after[..file] == before[..file] && after[file] == contents
  }

  /** What the pass over one file has done to the state. */
  ghost predicate FileWritten(c: Config, noise: seq<Byte>, file: nat, p0: Progress, p: Progress, truncates: bool) {
    && Consistent(c, noise, p)
    && p0.log <= p.log
    && p0.bytesWritten <= p.bytesWritten <= p0.bytesWritten + c.fileSize
    && (!truncates ==> p.disk == p0.disk && p.log == p0.log)
    && (truncates ==> Replaced(file, p0.disk, p.disk, Contents(p.log[|p0.log|..])))
  }

  lemma WriteChunkExtends(c: Config, noise: seq<Byte>, file: nat, p0: Progress, p: Progress, size: nat)
    requires Sound(c) && FileWritten(c, noise, file, p0, p, true)
    requires !TargetMet(c, p) && p.counter < COUNTER_LIMIT
    requires 1 <= size <= c.chunkSize && p.bytesWritten + size <= p0.bytesWritten + c.fileSize
    ensures FileWritten(c, noise, file, p0, WriteChunk(c, p, file, size), true)
  {
    var q := WriteChunk(c, p, file, size);
    WriteChunkConsistent(c, noise, p, file, size);
    var chunk := q.log[|p.log|];
    assert q.log[|p0.log|..] == p.log[|p0.log|..] + [chunk];
    ContentsOneMore(p.log[|p0.log|..], chunk);
  }

  /** What is left of `remaining` bytes after all full chunks. */
  function LeftOver(c: Config, remaining: nat): nat
    requires Sound(c)
  {
    if remaining < c.chunkSize then remaining else LeftOver(c, remaining - c.chunkSize)
  }

  lemma {:induction false} LeftOverIsRemainder(c: Config, remaining: nat)
    requires Sound(c)
    ensures LeftOver(c, remaining) == remaining % c.chunkSize
  {
    if remaining < c.chunkSize {
      DivModUnique(remaining, c.chunkSize, 0, remaining);
    } else {
      LeftOverIsRemainder(c, remaining - c.chunkSize);
      DivModUnique(c.chunkSize, c.chunkSize, 1, 0);
      SameRemainderIff(remaining - c.chunkSize, c.chunkSize, c.chunkSize);
    }
  }

  /** Every chunk written for the file is full, but for one that completes the file with what is left over. */
  ghost predicate ChunksFull(c: Config, p0: Progress, p: Progress)
    requires Sound(c)
  {
    forall k | |p0.log| <= k < |p.log| ::
      p.log[k].size == c.chunkSize
      || (k == |p.log| - 1 && p.bytesWritten == p0.bytesWritten + c.fileSize
          && p.log[k].size == LeftOver(c, c.fileSize))
  }

  lemma WriteChunkFull(c: Config, file: nat, p0: Progress, p: Progress, size: nat)
    requires Sound(c) && ChunksFull(c, p0, p) && 1 <= size <= c.chunkSize <= |p.buffer| && file < |p.disk|
    requires p.bytesWritten + size <= p0.bytesWritten + c.fileSize
    requires size == c.chunkSize
          || (p.bytesWritten + size == p0.bytesWritten + c.fileSize && size == LeftOver(c, c.fileSize))
    ensures ChunksFull(c, p0, WriteChunk(c, p, file, size))
  {
    var q := WriteChunk(c, p, file, size);
    forall k | |p0.log| <= k < |p.log| ensures q.log[k].size == c.chunkSize {
      assert q.log[k] == p.log[k];
    }
  }

  /** The chunks written between two states. */
  ghost function Written(p0: Progress, p: Progress): int { |p.log| - |p0.log| }

  /** A failure is that of the open, of the close, or of the write that would have come next. */
  ghost predicate FaultOf(a: Attempt, chunks: int, fault: Fault) {
    || a.open == Some(fault) || a.close == Some(fault)
    || (a.write.Some? && a.write.value.chunk == chunks && a.write.value.fault == fault)
  }

  /** The state in the file block: the buffer may have been stamped for a write that failed. */
  ghost predicate InFile(c: Config, noise: seq<Byte>, file: nat, p0: Progress, p: Progress)
    requires Sound(c)
  {
    FileWritten(c, noise, file, p0, p, true) && ChunksFull(c, p0, p)
  }

  lemma OpenedFile(c: Config, noise: seq<Byte>, file: nat, p0: Progress)
    requires Sound(c) && Consistent(c, noise, p0) && file <= |p0.disk|
    ensures InFile(c, noise, file, p0, Opened(p0, file))
  {
    assert p0.log[|p0.log|..] == [];
  }

  lemma StampedOnly(c: Config, noise: seq<Byte>, file: nat, p0: Progress, p: Progress)
    requires Sound(c) && InFile(c, noise, file, p0, p)
    ensures InFile(c, noise, file, p0, p.(buffer := Stamp(p.buffer, p.counter)))
  {}

  lemma ChunkInFile(c: Config, noise: seq<Byte>, file: nat, p0: Progress, p: Progress, size: nat)
    requires Sound(c) && InFile(c, noise, file, p0, p) && !TargetMet(c, p) && p.counter < COUNTER_LIMIT
    requires 1 <= size <= c.chunkSize && p.bytesWritten + size <= p0.bytesWritten + c.fileSize
    requires size == c.chunkSize
          || (p.bytesWritten + size == p0.bytesWritten + c.fileSize && size == LeftOver(c, c.fileSize))
    ensures InFile(c, noise, file, p0, WriteChunk(c, p, file, size))
  {
    WriteChunkExtends(c, noise, file, p0, p, size);
    WriteChunkFull(c, file, p0, p, size);
  }

  /** Opening for writing empties the file. */
  function Opened(p: Progress, file: nat): Progress
    requires file <= |p.disk|
  {
    p.(disk := p.disk[..file] + [[]])
  }

  datatype FileResult = FileResult(progress: Progress, outcome: Outcome, signalled: bool)

  /** Leaving the `with` block closes the file. */
  function Closed(a: Attempt, p: Progress, signalled: bool): FileResult {
    FileResult(p, if a.close.Some? then Failed(a.close.value) else Complete, signalled)
  }

  function NextSize(c: Config, remaining: nat): nat {
    if c.chunkSize < remaining then c.chunkSize else remaining
  }

  /** The writes to an open file from its `chunk`-th chunk on. */
  function WriteChunks(c: Config, a: Attempt, file: nat, p: Progress, remaining: nat, chunk: nat): (r: FileResult)
    requires Sound(c) && |p.buffer| >= c.chunkSize && file < |p.disk|
    ensures |r.progress.buffer| >= c.chunkSize && |r.progress.disk| == |p.disk|
    decreases remaining
  {
    if remaining == 0 then Closed(a, p, false)
    else if a.signalAt == Some(chunk) then Closed(a, p, true)
    else if p.counter >= COUNTER_LIMIT then FileResult(p, CounterOverflow, false)
    else if a.write.Some? && a.write.value.chunk == chunk then
      FileResult(p.(buffer := Stamp(p.buffer, p.counter)), Failed(a.write.value.fault), false)
    else
      var size := NextSize(c, remaining);
      var q := WriteChunk(c, p, file, size);
      if TargetMet(c, q) then Closed(a, q, false) else WriteChunks(c, a, file, q, remaining - size, chunk + 1)
  }

  /** The `with open(...)` block of one attempt. */
  function FileBlock(c: Config, a: Attempt, file: nat, p: Progress): (r: FileResult)
    requires Sound(c) && |p.buffer| >= c.chunkSize && file <= |p.disk|
    ensures |r.progress.buffer| >= c.chunkSize
    ensures |r.progress.disk| == if a.open.None? then file + 1 else |p.disk|
  {
    if a.open.Some? then FileResult(p, Failed(a.open.value), false)
    else WriteChunks(c, a, file, Opened(p, file), c.fileSize, 0)
  }

  /**
    What the file block does: the file holds exactly the chunks logged for it, complete unless a
    signal, the target or an error ends it, each at the chunk where it strikes.
   */
  ghost predicate BlockMeets(c: Config, noise: seq<Byte>, a: Attempt, file: nat, p0: Progress, r: FileResult)
    requires Sound(c)
  {
    var p := r.progress;
    && FileWritten(c, noise, file, p0, p, a.open.None?) && ChunksFull(c, p0, p)
    && (a.open.Some? ==> r.outcome == Failed(a.open.value))
    && (r.outcome == CounterOverflow ==> p.counter == COUNTER_LIMIT)
    && (r.outcome.Complete? && !r.signalled && !TargetMet(c, p) ==> p.bytesWritten == p0.bytesWritten + c.fileSize)
    && (r.outcome.Complete? && !r.signalled ==> p.bytesWritten > p0.bytesWritten)
    && (Undisturbed(a) ==> !r.signalled && !r.outcome.Failed?)
    && (r.signalled ==> a.signalAt == Some(Written(p0, p)))
    && (r.outcome.Failed? ==> FaultOf(a, Written(p0, p), r.outcome.fault))
    && (r.outcome.Complete? ==> a.close.None? && (a.write.Some? ==> a.write.value.chunk >= Written(p0, p)))
  }

  lemma NextChunkMeets(c: Config, noise: seq<Byte>, file: nat, p0: Progress, p: Progress, remaining: nat)
    requires Sound(c) && InFile(c, noise, file, p0, p) && !TargetMet(c, p) && p.counter < COUNTER_LIMIT
    requires remaining > 0 && p.bytesWritten + remaining == p0.bytesWritten + c.fileSize
    requires LeftOver(c, remaining) == LeftOver(c, c.fileSize)
    ensures var size := NextSize(c, remaining);
            var q := WriteChunk(c, p, file, size);
            && InFile(c, noise, file, p0, q) && q.bytesWritten == p.bytesWritten + size
            && Written(p0, q) == Written(p0, p) + 1
            && (remaining > size ==> LeftOver(c, remaining - size) == LeftOver(c, c.fileSize))
  {
    ChunkInFile(c, noise, file, p0, p, NextSize(c, remaining));
  }

  lemma ClosedMeets(c: Config, noise: seq<Byte>, a: Attempt, file: nat, p0: Progress, p: Progress, signalled: bool)
    requires Sound(c) && InFile(c, noise, file, p0, p) && a.open.None?
    requires !signalled && !TargetMet(c, p) ==> p.bytesWritten == p0.bytesWritten + c.fileSize
    requires !signalled ==> p.bytesWritten > p0.bytesWritten
    requires signalled ==> a.signalAt == Some(Written(p0, p))
    requires a.write.Some? ==> a.write.value.chunk >= Written(p0, p)
    ensures BlockMeets(c, noise, a, file, p0, Closed(a, p, signalled))
  {}

  lemma BrokenMeets(c: Config, noise: seq<Byte>, a: Attempt, file: nat, p0: Progress, p: Progress)
    requires Sound(c) && InFile(c, noise, file, p0, p) && a.open.None?
    requires a.write.Some? && a.write.value.chunk == Written(p0, p)
    ensures BlockMeets(c, noise, a, file, p0,
                       FileResult(p.(buffer := Stamp(p.buffer, p.counter)), Failed(a.write.value.fault), false))
  {
    StampedOnly(c, noise, file, p0, p);
  }

  lemma OverflowMeets(c: Config, noise: seq<Byte>, a: Attempt, file: nat, p0: Progress, p: Progress)
    requires Sound(c) && InFile(c, noise, file, p0, p) && a.open.None? && p.counter >= COUNTER_LIMIT
    ensures BlockMeets(c, noise, a, file, p0, FileResult(p, CounterOverflow, false))
  {}

  /** The state at the top of the chunk loop. */
  ghost predicate AtChunk(c: Config, noise: seq<Byte>, a: Attempt, file: nat, p0: Progress, p: Progress,
                          remaining: nat, chunk: nat)
    requires Sound(c)
  {
    && InFile(c, noise, file, p0, p) && a.open.None?
    && p.bytesWritten + remaining == p0.bytesWritten + c.fileSize
    && (remaining > 0 ==> LeftOver(c, remaining) == LeftOver(c, c.fileSize) && !TargetMet(c, p))
    && (remaining == 0 ==> p.bytesWritten > p0.bytesWritten)
    && chunk == Written(p0, p) && (a.write.Some? ==> a.write.value.chunk >= chunk)
  }

  lemma NextAtChunk(c: Config, noise: seq<Byte>, a: Attempt, file: nat, p0: Progress, p: Progress,
                    remaining: nat, chunk: nat)
    requires Sound(c) && AtChunk(c, noise, a, file, p0, p, remaining, chunk) && GoesOn(a, p, remaining, chunk)
    ensures var q := WriteChunk(c, p, file, NextSize(c, remaining));
            && (TargetMet(c, q) ==> BlockMeets(c, noise, a, file, p0, Closed(a, q, false)))
            && (!TargetMet(c, q) ==> AtChunk(c, noise, a, file, p0, q, remaining - NextSize(c, remaining), chunk + 1))
  {
    NextChunkMeets(c, noise, file, p0, p, remaining);
    var q := WriteChunk(c, p, file, NextSize(c, remaining));
    if TargetMet(c, q) {
      ClosedMeets(c, noise, a, file, p0, q, false);
    }
  }

  /** No reason to stop before this chunk. */
  predicate GoesOn(a: Attempt, p: Progress, remaining: nat, chunk: nat) {
    remaining > 0 && a.signalAt != Some(chunk) && p.counter < COUNTER_LIMIT
    && !(a.write.Some? && a.write.value.chunk == chunk)
  }

  lemma ChunksStep(c: Config, a: Attempt, file: nat, p: Progress, remaining: nat, chunk: nat)
    requires Sound(c) && |p.buffer| >= c.chunkSize && file < |p.disk| && GoesOn(a, p, remaining, chunk)
    ensures var q := WriteChunk(c, p, file, NextSize(c, remaining));
            WriteChunks(c, a, file, p, remaining, chunk)
            == if TargetMet(c, q) then Closed(a, q, false)
               else WriteChunks(c, a, file, q, remaining - NextSize(c, remaining), chunk + 1)
  {}

  lemma ChunksEnd(c: Config, noise: seq<Byte>, a: Attempt, file: nat, p0: Progress, p: Progress,
                  remaining: nat, chunk: nat, r: FileResult)
    requires Sound(c) && AtChunk(c, noise, a, file, p0, p, remaining, chunk)
    requires !GoesOn(a, p, remaining, chunk)
    requires r == WriteChunks(c, a, file, p, remaining, chunk)
    ensures BlockMeets(c, noise, a, file, p0, r)
  {
    if remaining == 0 {
      ClosedMeets(c, noise, a, file, p0, p, false);
    } else if a.signalAt == Some(chunk) {
      ClosedMeets(c, noise, a, file, p0, p, true);
    } else if p.counter >= COUNTER_LIMIT {
      OverflowMeets(c, noise, a, file, p0, p);
    } else {
      BrokenMeets(c, noise, a, file, p0, p);
    }
  }

  /** A chunk that is written either meets the target and ends the block, or leads to the next chunk. */
  lemma ChunkDone(c: Config, noise: seq<Byte>, a: Attempt, file: nat, p0: Progress, p: Progress,
                  remaining: nat, chunk: nat, r: FileResult)
    returns (q: Progress, done: bool)
    requires Sound(c) && AtChunk(c, noise, a, file, p0, p, remaining, chunk) && GoesOn(a, p, remaining, chunk)
    requires r == WriteChunks(c, a, file, p, remaining, chunk)
    ensures |q.buffer| >= c.chunkSize && file < |q.disk|
    ensures done ==> BlockMeets(c, noise, a, file, p0, r)
    ensures !done ==> AtChunk(c, noise, a, file, p0, q, remaining - NextSize(c, remaining), chunk + 1)
    ensures !done ==> r == WriteChunks(c, a, file, q, remaining - NextSize(c, remaining), chunk + 1)
  {
    NextAtChunk(c, noise, a, file, p0, p, remaining, chunk);
    ChunksStep(c, a, file, p, remaining, chunk);
    q := WriteChunk(c, p, file, NextSize(c, remaining));
    done := TargetMet(c, q);
  }

  lemma {:induction false} ChunksMeet(c: Config, noise: seq<Byte>, a: Attempt, file: nat, p0: Progress, p: Progress,
                                      remaining: nat, chunk: nat, r: FileResult)
    requires Sound(c) && AtChunk(c, noise, a, file, p0, p, remaining, chunk)
    requires r == WriteChunks(c, a, file, p, remaining, chunk)
    ensures BlockMeets(c, noise, a, file, p0, r)
    decreases remaining
  {
    if !GoesOn(a, p, remaining, chunk) {
      ChunksEnd(c, noise, a, file, p0, p, remaining, chunk, r);
    } else {
      var q, done := ChunkDone(c, noise, a, file, p0, p, remaining, chunk, r);
      if !done {
        ChunksMeet(c, noise, a, file, p0, q, remaining - NextSize(c, remaining), chunk + 1, r);
      }
    }
  }

  lemma FileBlockMeets(c: Config, noise: seq<Byte>, a: Attempt, file: nat, p0: Progress)
    requires Sound(c) && Consistent(c, noise, p0) && file <= |p0.disk| && !TargetMet(c, p0)
    ensures BlockMeets(c, noise, a, file, p0, FileBlock(c, a, file, p0))
  {
    if a.open.None? {
      OpenedFile(c, noise, file, p0);
      ChunksMeet(c, noise, a, file, p0, Opened(p0, file), c.fileSize, 0, FileBlock(c, a, file, p0));
    }
  }

  /** The file block, chunk by chunk. */
  method WriteFile(c: Config, a: Attempt, file: nat, p0: Progress) returns (r: FileResult)
    requires Sound(c) && |p0.buffer| >= c.chunkSize && file <= |p0.disk|
    ensures r == FileBlock(c, a, file, p0)
  {
    if a.open.Some? {
      return FileResult(p0, Failed(a.open.value), false);
    }
    var p := Opened(p0, file);
    var signalled := false;
    var remaining: nat, chunk: nat := c.fileSize, 0;
    while remaining > 0
      invariant |p.buffer| >= c.chunkSize && file < |p.disk| && !signalled
      invariant WriteChunks(c, a, file, p, remaining, chunk) == FileBlock(c, a, file, p0)
    {
      if a.signalAt == Some(chunk) {
        signalled := true;
        assert FileBlock(c, a, file, p0) == Closed(a, p, signalled);
        break;
      }
      ghost var before := p;
      var size := if c.chunkSize < remaining then c.chunkSize else remaining;
      if p.counter >= COUNTER_LIMIT {
        return FileResult(p, CounterOverflow, false);
      }
      var buffer := Stamp(p.buffer, p.counter);
      if a.write.Some? && a.write.value.chunk == chunk {
        return FileResult(p.(buffer := buffer), Failed(a.write.value.fault), false);
      }
      var data := if size == c.chunkSize then buffer else buffer[..size];
      p := p.(buffer := buffer, disk := p.disk[file := p.disk[file] + data], log := p.log + [Chunk(size, data)]);
      p := p.(bytesWritten := p.bytesWritten + size, counter := p.counter + 1);
      assert p == WriteChunk(c, before, file, size);
      remaining := remaining - size;
      chunk := chunk + 1;
      if c.target > 0 && p.bytesWritten >= c.target {
        assert FileBlock(c, a, file, p0) == Closed(a, p, signalled);
        break;
      }
    }
    r := FileResult(p, if a.close.Some? then Failed(a.close.value) else Complete, signalled);
  }

  // ---------------------------------------------------------------- the run

  /** Why the run ended. */
  datatype Reason = Sigterm | FilesPerPod | TargetBytes | Enospc | Raised

  lemma {:induction false} OnDiskAppend(disk: seq<seq<Byte>>, contents: seq<Byte>)
    ensures OnDisk(disk + [contents]) == OnDisk(disk) + |contents|
  {}

  /** Bytes of the partial file that the next open of the same path discards. */
  function Partial(disk: seq<seq<Byte>>, file: nat): nat {
    if file < |disk| then |disk[file]| else 0
  }

  lemma {:induction false} AccountedConcat(a: seq<Chunk>, b: seq<Chunk>)
    ensures Accounted(a + b) == Accounted(a) + Accounted(b)
  {
    if b == [] {
      assert a + b == a;
    } else {
      AccountedConcat(a, b[..|b| - 1]);
      assert (a + b)[..|a + b| - 1] == a + b[..|b| - 1];
    }
  }

  ghost predicate Exact(log: seq<Chunk>) {
    forall k | 0 <= k < |log| :: |log[k].data| == log[k].size
  }

  lemma {:induction false} ContentsLength(log: seq<Chunk>)
    requires Exact(log)
    ensures |Contents(log)| == Accounted(log)
  {
    if log == [] {
    } else {
      ContentsLength(log[..|log| - 1]);
    }
  }

  lemma DiskReplaced(file: nat, before: seq<seq<Byte>>, after: seq<seq<Byte>>, contents: seq<Byte>)
    requires Replaced(file, before, after, contents) && |before| <= file + 1
    ensures OnDisk(after) + Partial(before, file) == OnDisk(before) + |contents|
  {
    OnDiskAppend(after[..file], contents);
    assert after == after[..file] + [contents];
    if |before| == file {
      assert before == before[..file];
    } else {
      OnDiskAppend(before[..file], before[file]);
      assert before == before[..file] + [before[file]];
    }
  }

  lemma StampedExact(noise: seq<Byte>, log: seq<Chunk>, from: nat)
    requires AllStamped(noise, log) && |noise| >= 8 && from <= |log|
    ensures Exact(log[from..])
  {
    forall k | 0 <= k < |log| - from ensures |log[from..][k].data| == log[from..][k].size {
      assert Stamped(noise, from + k, log[from + k]);
    }
  }

  lemma NewContents(older: seq<Chunk>, newer: seq<Chunk>)
    requires Exact(newer)
    ensures |Contents(newer)| + Accounted(older) == Accounted(older + newer)
  {
    ContentsLength(newer);
    AccountedConcat(older, newer);
  }

  lemma LogGains(noise: seq<Byte>, older: seq<Chunk>, log: seq<Chunk>)
    requires older <= log && AllStamped(noise, log) && |noise| >= 8
    ensures |Contents(log[|older|..])| + Accounted(older) == Accounted(log)
  {
    StampedExact(noise, log, |older|);
    NewContents(older, log[|older|..]);
    assert log == older + log[|older|..];
  }

  /** With chunks of at least eight bytes, what an opened file gains on disk is what is accounted for it. */
  lemma DiskGains(c: Config, noise: seq<Byte>, file: nat, p0: Progress, p: Progress, truncates: bool)
    requires Consistent(c, noise, p0) && FileWritten(c, noise, file, p0, p, truncates)
    requires |p0.disk| <= file + 1 && c.chunkSize >= 8
    ensures OnDisk(p.disk) + (if truncates then Partial(p0.disk, file) else 0) + p0.bytesWritten
         == OnDisk(p0.disk) + p.bytesWritten
  {
    if truncates {
      LogGains(noise, p0.log, p.log);
      DiskReplaced(file, p0.disk, p.disk, Contents(p.log[|p0.log|..]));
    }
  }

  /** The variables of the outer loop. */
  datatype RunState = RunState(progress: Progress, files: nat, failed: nat, signalled: bool)

  /** What holds at every test of the outer loop; `discarded` bytes went with reopened files. */
  ghost predicate RunInv(c: Config, noise: seq<Byte>, s: RunState, discarded: nat) {
    && Consistent(c, noise, s.progress)
    && s.files <= |s.progress.disk| <= s.files + 1
    && (c.cap > 0 ==> s.files <= c.cap)
    && (c.cap < 0 ==> s.files == 0)
    && (s.failed == 0 ==> discarded == 0)
    && (c.chunkSize >= 8 ==> s.progress.bytesWritten == OnDisk(s.progress.disk) + discarded)
  }

  /** No signal and no error so far: every file is complete, except a last one cut at the target. */
  ghost predicate Steady(c: Config, s: RunState) {
    && !s.signalled && s.failed == 0 && |s.progress.disk| == s.files
    && s.progress.bytesWritten >= s.files
    && (!TargetMet(c, s.progress) ==> s.progress.bytesWritten == s.files * c.fileSize)
  }

  /** What a reason to stop says about the state. */
  predicate Explains(c: Config, s: RunState, reason: Reason) {
    match reason
    case FilesPerPod => (c.cap > 0 && s.files == c.cap) || (c.cap < 0 && s.files == 0)
    case TargetBytes => TargetMet(c, s.progress)
    case Sigterm => s.signalled
    case _ => true
  }

  /** The tests at the top of the loop, then the directory creation. */
  function Stop(c: Config, s: RunState, a: Attempt): Option<Reason> {
    if s.signalled then Some(Sigterm)
    else if c.cap != 0 && s.files >= c.cap then Some(FilesPerPod)
    else if c.target > 0 && s.progress.bytesWritten >= c.target then Some(TargetBytes)
    else if !a.within then Some(Raised)
    else if a.mkdir.Some? then Some(if a.mkdir.value == NoSpace then Enospc else Raised)
    else None
  }

  /** Only a failed attempt leaves a partial file behind while the run goes on. */
  predicate Tidy(s: RunState) { s.failed == 0 ==> |s.progress.disk| == s.files }

  /** The state after the file block keeps the invariant, whatever is counted for it. */
  lemma FileKeeps(c: Config, noise: seq<Byte>, s: RunState, discarded: nat, p: Progress, truncates: bool, q: RunState)
    requires RunInv(c, noise, s, discarded) && Tidy(s) && FileWritten(c, noise, s.files, s.progress, p, truncates)
    requires q.progress == p && (q.failed == s.failed || q.failed == s.failed + 1)
    requires q.files == s.files || (truncates && q.files == s.files + 1)
    requires c.cap != 0 ==> s.files < c.cap
    ensures RunInv(c, noise, q, discarded + if truncates then Partial(s.progress.disk, s.files) else 0)
  {
    if c.chunkSize >= 8 {
      DiskGains(c, noise, s.files, s.progress, p, truncates);
    }
  }

  /** A complete file keeps the run steady. */
  lemma FileKeepsSteady(c: Config, s: RunState, p: Progress)
    requires Sound(c) && Steady(c, s) && !TargetMet(c, s.progress)
    requires |p.disk| == s.files + 1 && p.bytesWritten > s.progress.bytesWritten
    requires !TargetMet(c, p) ==> p.bytesWritten == s.progress.bytesWritten + c.fileSize
    ensures Steady(c, RunState(p, s.files + 1, 0, false))
  {}

  predicate Signals(a: Attempt) { a.signalBefore || a.signalAt.Some? }

  /** Some step of the attempt fails that way. */
  predicate MayFail(a: Attempt, fault: Fault) {
    a.mkdir == Some(fault) || a.open == Some(fault) || a.close == Some(fault)
    || (a.write.Some? && a.write.value.fault == fault)
  }

  datatype PassResult = PassResult(state: RunState, reason: Option<Reason>)

  /** What the loop needs to go on. */
  predicate Usable(c: Config, s: RunState) {
    |s.progress.buffer| >= c.chunkSize && s.files <= |s.progress.disk|
  }

  /** The state at the first test of a pass. */
  function AtTest(s: RunState, a: Attempt): RunState { s.(signalled := s.signalled || a.signalBefore) }

  /** One pass of the outer loop: a reason when the run ends in it. */
  function PassOf(c: Config, a: Attempt, s0: RunState): (r: PassResult)
    requires Sound(c) && Usable(c, s0)
    ensures Usable(c, r.state)
  {
    var s := AtTest(s0, a);
    var stop := Stop(c, s, a);
    if stop.Some? then PassResult(s, stop)
    else
      var r := FileBlock(c, a, s.files, s.progress);
      var q := RunState(r.progress, s.files, s.failed, r.signalled);
      match r.outcome
      case Complete => PassResult(q.(files := s.files + 1), None)
      case Failed(NoSpace) => PassResult(q, Some(Enospc))
      case Failed(OtherError) =>
        PassResult(q.(failed := s.failed + 1), if c.failOnWriteError then Some(Raised) else None)
      case CounterOverflow => PassResult(q, Some(Raised))
  }

  /** The pass opens its file. */
  predicate Opens(c: Config, s0: RunState, a: Attempt) {
    Stop(c, AtTest(s0, a), a).None? && a.open.None?
  }

  /** The bytes of a partial file that the pass discards by opening it again. */
  function Discards(c: Config, s0: RunState, a: Attempt): nat {
    if Opens(c, s0, a) then Partial(s0.progress.disk, s0.files) else 0
  }

  /** What the result of a pass says about the attempt. */
  ghost predicate PassExplained(c: Config, a: Attempt, s0: RunState, r: PassResult) {
    var s, reason := r.state, r.reason;
    && (reason.None? ==> s.files + s.failed == s0.files + s0.failed + 1)
    && (reason.Some? ==> Explains(c, s, reason.value))
    && (reason == Some(Enospc) ==> MayFail(a, NoSpace) && s.files + s.failed == s0.files + s0.failed)
    && (reason == Some(Raised) ==>
          || s.progress.counter == COUNTER_LIMIT
          || ((!a.within || a.mkdir == Some(OtherError)) && s.files + s.failed == s0.files + s0.failed)
          || (c.failOnWriteError && s.files == s0.files && s.failed == s0.failed + 1 && MayFail(a, OtherError)))
    && (reason.None? && s.failed > s0.failed ==> !c.failOnWriteError && MayFail(a, OtherError))
    && (s.signalled ==> s0.signalled || Signals(a))
  }

  /** A pass keeps the invariant, with the bytes it discards added. */
  lemma PassKeeps(c: Config, noise: seq<Byte>, a: Attempt, s0: RunState, discarded0: nat)
    requires Sound(c) && RunInv(c, noise, s0, discarded0) && Tidy(s0)
    ensures var r := PassOf(c, a, s0);
            RunInv(c, noise, r.state, discarded0 + Discards(c, s0, a)) && (r.reason.None? ==> Tidy(r.state))
  {
    var s := AtTest(s0, a);
    if Stop(c, s, a).None? {
      var r := FileBlock(c, a, s.files, s.progress);
      FileBlockMeets(c, noise, a, s.files, s.progress);
      FileKeeps(c, noise, s, discarded0, r.progress, a.open.None?, PassOf(c, a, s0).state);
    }
  }

  lemma OutcomeExplained(c: Config, noise: seq<Byte>, a: Attempt, file: nat, p0: Progress)
    requires Sound(c) && Consistent(c, noise, p0) && file <= |p0.disk| && !TargetMet(c, p0)
    ensures var r := FileBlock(c, a, file, p0);
            && (r.outcome == CounterOverflow ==> r.progress.counter == COUNTER_LIMIT)
            && (r.signalled ==> a.signalAt.Some?)
            && (r.outcome.Failed? ==> MayFail(a, r.outcome.fault))
  {
    FileBlockMeets(c, noise, a, file, p0);
  }

  lemma PassIsExplained(c: Config, noise: seq<Byte>, a: Attempt, s0: RunState, discarded0: nat)
    requires Sound(c) && RunInv(c, noise, s0, discarded0)
    ensures PassExplained(c, a, s0, PassOf(c, a, s0))
  {
    if Stop(c, AtTest(s0, a), a).None? {
      OutcomeExplained(c, noise, a, s0.files, s0.progress);
    }
  }

  lemma SteadyPass(c: Config, noise: seq<Byte>, a: Attempt, s0: RunState, discarded0: nat)
    requires Sound(c) && RunInv(c, noise, s0, discarded0) && Steady(c, s0) && Undisturbed(a)
    ensures var r := PassOf(c, a, s0);
            || (r.reason.None? && Steady(c, r.state))
            || (r.reason == Some(Raised) && r.state.progress.counter == COUNTER_LIMIT)
            || ((r.reason == Some(FilesPerPod) || r.reason == Some(TargetBytes)) && r.state == s0)
  {
    if Stop(c, s0, a).None? {
      FileBlockMeets(c, noise, a, s0.files, s0.progress);
      var r := FileBlock(c, a, s0.files, s0.progress);
      if r.outcome.Complete? {
        FileKeepsSteady(c, s0, r.progress);
      }
    }
  }

  /** One pass of the outer loop, test by test. */
  method Pass(c: Config, a: Attempt, s0: RunState) returns (r: PassResult)
    requires Sound(c) && Usable(c, s0)
    ensures r == PassOf(c, a, s0)
  {
    var s := s0.(signalled := s0.signalled || a.signalBefore);
    if s.signalled {
      return PassResult(s, Some(Sigterm));
    }
    if c.cap != 0 && s.files >= c.cap {
      return PassResult(s, Some(FilesPerPod));
    }
    if c.target > 0 && s.progress.bytesWritten >= c.target {
      return PassResult(s, Some(TargetBytes));
    }
    if !a.within {
      return PassResult(s, Some(Raised));
    }
    if a.mkdir.Some? {
      return PassResult(s, Some(if a.mkdir.value == NoSpace then Enospc else Raised));
    }
    var f := WriteFile(c, a, s.files, s.progress);
    s := s.(progress := f.progress, signalled := f.signalled);
    match f.outcome {
      case Failed(NoSpace) =>
        return PassResult(s, Some(Enospc));
      case Failed(OtherError) =>
        s := s.(failed := s.failed + 1);
        return PassResult(s, if c.failOnWriteError then Some(Raised) else None);
      case CounterOverflow =>
        return PassResult(s, Some(Raised));
      case Complete =>
        return PassResult(s.(files := s.files + 1), None);
    }
  }

  // ---------------------------------------------------------------- every run

  function Begin(noise: seq<Byte>): RunState {
    RunState(Progress(0, 0, noise, [], []), 0, 0, false)
  }

  /** The state after a script: of the pass that ended the run, or of the last pass. */
  function After(c: Config, noise: seq<Byte>, script: seq<Attempt>): (r: PassResult)
    requires Sound(c) && |noise| == c.chunkSize
    ensures Usable(c, r.state)
  {
    if script == [] then PassResult(Begin(noise), None)
    else
      var n := |script| - 1;
      var before := After(c, noise, script[..n]);
      if before.reason.Some? then before else PassOf(c, script[n], before.state)
  }

  /** Pass `k` of the script takes place and discards a non-empty partial file. */
  predicate DiscardsAt(c: Config, noise: seq<Byte>, script: seq<Attempt>, k: nat)
    requires Sound(c) && |noise| == c.chunkSize && k < |script|
  {
    var before := After(c, noise, script[..k]);
    before.reason.None? && Discards(c, before.state, script[k]) > 0
  }

  /** All bytes discarded by reopening partial files. */
  function Discarded(c: Config, noise: seq<Byte>, script: seq<Attempt>): nat
    requires Sound(c) && |noise| == c.chunkSize
  {
    if script == [] then 0
    else
      var n := |script| - 1;
      var before := After(c, noise, script[..n]);
      Discarded(c, noise, script[..n]) + if before.reason.None? then Discards(c, before.state, script[n]) else 0
  }

  /** Enough passes to reach the file cap or the byte target. */
  predicate Outlasts(c: Config, passes: nat) {
    (c.cap != 0 && passes > 0 && passes > c.cap) || (c.target > 0 && passes >= c.target + c.chunkSize)
  }

  /**
    What in the script ended the run. Every pass but the last completes or fails one file, so the
    counts name the attempt in which the run ended.
   */
  ghost predicate Cause(c: Config, script: seq<Attempt>, r: PassResult) {
    var s := r.state;
    var k := s.files + s.failed;
    && (s.signalled ==> exists i :: 0 <= i < |script| && Signals(script[i]))
    && match r.reason
       case None => k == |script| && (c.failOnWriteError ==> s.failed == 0)
       case Some(Enospc) => k < |script| && MayFail(script[k], NoSpace)
       case Some(Raised) =>
         || s.progress.counter == COUNTER_LIMIT
         || (k < |script| && (!script[k].within || script[k].mkdir == Some(OtherError)))
         || (c.failOnWriteError && s.failed == 1 && k <= |script| && MayFail(script[k - 1], OtherError))
       case Some(other) => Explains(c, s, other)
  }

  lemma CauseGrows(c: Config, script: seq<Attempt>, a: Attempt, r: PassResult)
    requires Cause(c, script, r) && r.reason.Some?
    ensures Cause(c, script + [a], r)
  {
    var longer := script + [a];
    assert forall i | 0 <= i < |script| :: longer[i] == script[i];
  }

  lemma CauseOfPass(c: Config, script: seq<Attempt>, a: Attempt, before: PassResult, r: PassResult)
    requires Cause(c, script, before) && before.reason.None? && PassExplained(c, a, before.state, r)
    ensures Cause(c, script + [a], r)
  {
    var longer := script + [a];
    assert forall i | 0 <= i < |script| :: longer[i] == script[i];
    assert longer[|script|] == a;
  }

  lemma {:induction false} RunKeepsInv(c: Config, noise: seq<Byte>, script: seq<Attempt>)
    requires Sound(c) && |noise| == c.chunkSize
    ensures var r := After(c, noise, script);
            RunInv(c, noise, r.state, Discarded(c, noise, script)) && (r.reason.None? ==> Tidy(r.state))
  {
    if script == [] {
    } else {
      var n := |script| - 1;
      var before := After(c, noise, script[..n]);
      RunKeepsInv(c, noise, script[..n]);
      if before.reason.None? {
        PassKeeps(c, noise, script[n], before.state, Discarded(c, noise, script[..n]));
      }
    }
  }

  lemma {:induction false} RunHasCause(c: Config, noise: seq<Byte>, script: seq<Attempt>)
    requires Sound(c) && |noise| == c.chunkSize
    ensures Cause(c, script, After(c, noise, script))
  {
    if script == [] {
    } else {
      var n := |script| - 1;
      var before := After(c, noise, script[..n]);
      RunHasCause(c, noise, script[..n]);
      assert script == script[..n] + [script[n]];
      if before.reason.Some? {
        CauseGrows(c, script[..n], script[n], before);
      } else {
        RunKeepsInv(c, noise, script[..n]);
        PassIsExplained(c, noise, script[n], before.state, Discarded(c, noise, script[..n]));
        CauseOfPass(c, script[..n], script[n], before, After(c, noise, script));
      }
    }
  }

  /**
    Every run: bytes are the sum of the writes and below target plus chunk, files at most the cap,
    and, for chunks of at least eight bytes, what is on disk plus what was discarded is the total.
   */
  lemma RunMeets(c: Config, noise: seq<Byte>, script: seq<Attempt>)
    requires Sound(c) && |noise| == c.chunkSize
    ensures var r := After(c, noise, script);
            && RunInv(c, noise, r.state, Discarded(c, noise, script))
            && (r.reason.None? ==> Tidy(r.state))
            && Cause(c, script, r)
  {
    RunKeepsInv(c, noise, script);
    RunHasCause(c, noise, script);
  }

  /** A run without signals and errors that outlasts its cap or target has ended there, or overflowed its counter. */
  lemma {:induction false} SteadyRunEnds(c: Config, noise: seq<Byte>, script: seq<Attempt>)
    requires Sound(c) && |noise| == c.chunkSize && forall i | 0 <= i < |script| :: Undisturbed(script[i])
    ensures var r := After(c, noise, script);
            || (r.reason == Some(Raised) && r.state.progress.counter == COUNTER_LIMIT)
            || (Steady(c, r.state) && (r.reason == Some(FilesPerPod) || r.reason == Some(TargetBytes)))
            || (Steady(c, r.state) && r.reason.None? && !Outlasts(c, |script|))
  {
    RunMeets(c, noise, script);
    if script == [] {
    } else {
      var n := |script| - 1;
      SteadyRunEnds(c, noise, script[..n]);
      RunMeets(c, noise, script[..n]);
      var before := After(c, noise, script[..n]);
      if before.reason.None? {
        SteadyPass(c, noise, script[n], before.state, Discarded(c, noise, script[..n]));
      }
    }
  }

  lemma {:induction false} NothingDiscardedIff(c: Config, noise: seq<Byte>, script: seq<Attempt>)
    requires Sound(c) && |noise| == c.chunkSize
    ensures Discarded(c, noise, script) == 0 <==> forall k | 0 <= k < |script| :: !DiscardsAt(c, noise, script, k)
  {
    if script == [] {
    } else {
      var n := |script| - 1;
      NothingDiscardedIff(c, noise, script[..n]);
      forall k | 0 <= k < n ensures DiscardsAt(c, noise, script[..n], k) == DiscardsAt(c, noise, script, k) {
        assert script[..n][..k] == script[..k];
      }
      if Discarded(c, noise, script) == 0 {
        forall k | 0 <= k < |script| ensures !DiscardsAt(c, noise, script, k) {
          assert k < n ==> !DiscardsAt(c, noise, script[..n], k);
        }
      } else if Discarded(c, noise, script[..n]) > 0 {
        var k :| 0 <= k < n && DiscardsAt(c, noise, script[..n], k);
        assert DiscardsAt(c, noise, script, k);
      } else {
        assert DiscardsAt(c, noise, script, n);
      }
    }
  }

  /**
    When the bytes accounted for are the bytes on disk, for chunks of at least eight bytes: exactly
    when no pass opens a file of which an earlier, failed pass left a part. Otherwise they are more.
   */
  lemma DiskExactIff(c: Config, noise: seq<Byte>, script: seq<Attempt>)
    requires Sound(c) && |noise| == c.chunkSize >= 8
    ensures var p := After(c, noise, script).state.progress;
            && OnDisk(p.disk) <= p.bytesWritten
            && (OnDisk(p.disk) == p.bytesWritten
                <==> forall k | 0 <= k < |script| :: !DiscardsAt(c, noise, script, k))
  {
    RunMeets(c, noise, script);
    NothingDiscardedIff(c, noise, script);
  }

  /** What a pass after which the run goes on leaves of the next file to open: nothing, or what a failure left. */
  lemma PartialAfterPass(c: Config, noise: seq<Byte>, a: Attempt, s0: RunState, discarded0: nat)
    requires Sound(c) && RunInv(c, noise, s0, discarded0) && Tidy(s0) && c.chunkSize >= 8
    requires PassOf(c, a, s0).reason.None?
    ensures var s := PassOf(c, a, s0).state;
            Partial(s.progress.disk, s.files)
            == if s.failed == s0.failed then 0
               else if a.open.None? then s.progress.bytesWritten - s0.progress.bytesWritten
               else Partial(s0.progress.disk, s0.files)
  {
    var r := FileBlock(c, a, s0.files, s0.progress);
    FileBlockMeets(c, noise, a, s0.files, s0.progress);
    if a.open.None? {
      LogGains(noise, s0.progress.log, r.progress.log);
    }
  }

  const CLEAN := Attempt(false, true, None, None, None, None, None)

  /** An error at the second write of an attempt. */
  const BROKEN := Attempt(false, true, None, None, None, Some(WriteFault(1, OtherError)), None)

  const TWO_CHUNKS := Config(16, 8, 1, 0, 0, false)

  lemma BrokenBlock(p: Progress)
    requires |p.buffer| == 8 && p.counter == 0 && p.bytesWritten == 0 && p.disk == []
    ensures var r := FileBlock(TWO_CHUNKS, BROKEN, 0, p);
            && r.outcome == Failed(OtherError) && !r.signalled
            && r.progress.counter == 1 && r.progress.bytesWritten == 8 && |r.progress.buffer| == 8
  {
    var q := WriteChunk(TWO_CHUNKS, Opened(p, 0), 0, 8);
    ChunksStep(TWO_CHUNKS, BROKEN, 0, Opened(p, 0), 16, 0);
    assert WriteChunks(TWO_CHUNKS, BROKEN, 0, q, 8, 1).outcome == Failed(OtherError);
  }

  lemma CleanBlock(p: Progress)
    requires |p.buffer| == 8 && p.counter == 1 && p.bytesWritten == 8 && |p.disk| == 1
    ensures var r := FileBlock(TWO_CHUNKS, CLEAN, 0, p);
            && r.outcome == Complete && !r.signalled && r.progress.bytesWritten == 24
            && |r.progress.disk| == 1 && |r.progress.disk[0]| == 16
  {
    var q := WriteChunk(TWO_CHUNKS, Opened(p, 0), 0, 8);
    ChunksStep(TWO_CHUNKS, CLEAN, 0, Opened(p, 0), 16, 0);
    ChunksStep(TWO_CHUNKS, CLEAN, 0, q, 8, 1);
    var last := WriteChunk(TWO_CHUNKS, q, 0, 8);
    assert WriteChunks(TWO_CHUNKS, CLEAN, 0, last, 0, 2) == Closed(CLEAN, last, false);
  }

  lemma AfterOneMore(c: Config, noise: seq<Byte>, script: seq<Attempt>, longer: seq<Attempt>, a: Attempt)
    requires Sound(c) && |noise| == c.chunkSize && longer == script + [a] && After(c, noise, script).reason.None?
    ensures After(c, noise, longer) == PassOf(c, a, After(c, noise, script).state)
  {
    assert longer[..|script|] == script;
  }

  lemma BrokenPass(noise: seq<Byte>)
    requires |noise| == 8
    ensures var r := PassOf(TWO_CHUNKS, BROKEN, Begin(noise));
            var s := r.state;
            && r.reason.None? && s.files == 0 && s.failed == 1 && !s.signalled
            && s.progress.counter == 1 && s.progress.bytesWritten == 8
            && |s.progress.buffer| == 8 && |s.progress.disk| == 1
  {
    BrokenBlock(Begin(noise).progress);
  }

  lemma CleanPassAfter(s: RunState)
    requires s.files == 0 && s.failed == 1 && !s.signalled && s.progress.counter == 1 && s.progress.bytesWritten == 8
    requires |s.progress.buffer| == 8 && |s.progress.disk| == 1
    ensures var t := PassOf(TWO_CHUNKS, CLEAN, s).state;
            t.files == 1 && t.failed == 1 && t.progress.bytesWritten == 24 && OnDisk(t.progress.disk) == 16
  {
    CleanBlock(s.progress);
    var disk := PassOf(TWO_CHUNKS, CLEAN, s).state.progress.disk;
    assert disk[..0] == [];
  }

  /** A run in which they differ: two chunks of a file, the second failing once, make 24 bytes out of 16. */
  lemma RetryCountsTwice(noise: seq<Byte>)
    requires |noise| == 8
    ensures var s := After(TWO_CHUNKS, noise, [BROKEN, CLEAN]).state;
            s.files == 1 && s.failed == 1 && s.progress.bytesWritten == 24 && OnDisk(s.progress.disk) == 16
  {
    AfterOneMore(TWO_CHUNKS, noise, [], [BROKEN], BROKEN);
    BrokenPass(noise);
    AfterOneMore(TWO_CHUNKS, noise, [BROKEN], [BROKEN, CLEAN], CLEAN);
    CleanPassAfter(PassOf(TWO_CHUNKS, BROKEN, Begin(noise)).state);
  }

  /** The run so far does not change once it has ended. */
  lemma {:induction false} EndedStays(c: Config, noise: seq<Byte>, script: seq<Attempt>, i: nat)
    requires Sound(c) && |noise| == c.chunkSize && i <= |script| && After(c, noise, script[..i]).reason.Some?
    ensures After(c, noise, script) == After(c, noise, script[..i])
  {
    if i == |script| {
      assert script[..i] == script;
    } else {
      assert script[..|script| - 1][..i] == script[..i];
      EndedStays(c, noise, script[..|script| - 1], i);
    }
  }

  /** The main loop of `run_write_only`; `noise` is the pod's pseudorandom buffer. */
  method Fill(c: Config, noise: seq<Byte>, script: seq<Attempt>) returns (r: PassResult)
    requires Sound(c) && |noise| == c.chunkSize
    ensures r == After(c, noise, script)
    ensures RunInv(c, noise, r.state, Discarded(c, noise, script)) && Cause(c, script, r)
  {
    RunMeets(c, noise, script);
    r := PassResult(RunState(Progress(0, 0, noise, [], []), 0, 0, false), None);
    for i := 0 to |script|
      invariant r == After(c, noise, script[..i]) && r.reason.None?
    {
      assert script[..i + 1][..i] == script[..i];
      r := Pass(c, script[i], r.state);
      if r.reason.Some? {
        EndedStays(c, noise, script, i + 1);
        return;
      }
    }
    assert script[..|script|] == script;
  }
}
