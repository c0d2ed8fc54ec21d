/**
  The order of the tests in a write-only run, spelled out: what each pass does for every state and
  attempt, where the chunk loop of one file stops, and which bytes and paths it writes.
 */
module FillSteps {
  import opened Wrappers
  import opened Numbers
  import opened WorkloadChunks
  import opened WorkloadFill

  // ---------------------------------------------------------------- one file

  /** How the file is left: an error of the close, or none. */
  predicate Closes(a: Attempt, r: FileResult, signalled: bool) {
    r.signalled == signalled && r.outcome == if a.close.Some? then Failed(a.close.value) else Complete
  }

  /**
    Where the chunk loop stops: `n` chunks after chunk `from`, `done` bytes written. It runs to the end
    of the file or to the chunk that meets the byte target, unless a signal, the end of the counter, or
    a write error comes first, in this order.
   */
  ghost predicate StopsAt(c: Config, a: Attempt, p: Progress, remaining: nat, from: nat, r: FileResult) {
    var n, done := |r.progress.log| - |p.log|, r.progress.bytesWritten - p.bytesWritten;
    && 0 <= n && 0 <= done <= remaining && r.progress.counter == p.counter + n
    && (a.signalAt.Some? && from <= a.signalAt.value ==> from + n <= a.signalAt.value)
    && (a.write.Some? && from <= a.write.value.chunk ==> from + n <= a.write.value.chunk)
    && if done == remaining || (n > 0 && c.target > 0 && r.progress.bytesWritten >= c.target) then Closes(a, r, false)
       else if a.signalAt == Some(from + n) then Closes(a, r, true)
       else if r.progress.counter >= 0x1_0000_0000_0000_0000 then r.outcome == CounterOverflow && !r.signalled
       else a.write.Some? && a.write.value.chunk == from + n && r.outcome == Failed(a.write.value.fault) && !r.signalled
  }

  /** Nothing is written once the target is met: before its last chunk a loop of several was below it. */
  ghost predicate StopsAtTarget(c: Config, p: Progress, r: FileResult) {
    var n := |r.progress.log| - |p.log|;
    && (n == 1 ==> |r.progress.log| > 0
                   && r.progress.bytesWritten == p.bytesWritten + r.progress.log[|r.progress.log| - 1].size)
    && (n > 1 && c.target > 0 ==> r.progress.bytesWritten - r.progress.log[|r.progress.log| - 1].size < c.target)
  }

  lemma {:induction false} ChunkLoopHeedsTarget(c: Config, a: Attempt, file: nat, p: Progress, remaining: nat, chunk: nat)
    requires Sound(c) && |p.buffer| >= c.chunkSize && file < |p.disk|
    ensures var r := WriteChunks(c, a, file, p, remaining, chunk);
            && StopsAtTarget(c, p, r) && |r.progress.log| >= |p.log|
            && (|r.progress.log| == |p.log| ==> r.progress.log == p.log && r.progress.bytesWritten == p.bytesWritten)
    decreases remaining
  {
    if GoesOn(a, p, remaining, chunk) {
      ChunksStep(c, a, file, p, remaining, chunk);
      var q := WriteChunk(c, p, file, NextSize(c, remaining));
      if !(c.target > 0 && q.bytesWritten >= c.target) {
        ChunkLoopHeedsTarget(c, a, file, q, remaining - NextSize(c, remaining), chunk + 1);
      }
    }
  }

  lemma {:induction false} ChunkLoopStops(c: Config, a: Attempt, file: nat, p: Progress, remaining: nat, chunk: nat)
    requires Sound(c) && |p.buffer| >= c.chunkSize && file < |p.disk|
    ensures StopsAt(c, a, p, remaining, chunk, WriteChunks(c, a, file, p, remaining, chunk))
    decreases remaining
  {
    if GoesOn(a, p, remaining, chunk) {
      ChunksStep(c, a, file, p, remaining, chunk);
      var q := WriteChunk(c, p, file, NextSize(c, remaining));
      if !(c.target > 0 && q.bytesWritten >= c.target) {
        ChunkLoopStops(c, a, file, q, remaining - NextSize(c, remaining), chunk + 1);
      }
    }
  }

  /** One attempt at a file: an open error leaves everything as it was, else the chunk loop runs from byte 0. */
  lemma FileSteps(c: Config, a: Attempt, file: nat, p: Progress)
    requires Sound(c) && |p.buffer| >= c.chunkSize && file <= |p.disk|
    ensures var r := FileBlock(c, a, file, p);
            if a.open.Some? then r == FileResult(p, Failed(a.open.value), false)
            else StopsAt(c, a, p, c.fileSize, 0, r) && StopsAtTarget(c, p, r)
  {
    if a.open.None? {
      ChunkLoopHeedsTarget(c, a, file, Opened(p, file), c.fileSize, 0);
      ChunkLoopStops(c, a, file, Opened(p, file), c.fileSize, 0);
    }
  }

  // ---------------------------------------------------------------- one pass

  /** The tests before a file, in order: signal, file cap, byte target, path check, directory creation. */
  lemma PassTests(c: Config, a: Attempt, s: RunState)
    requires Sound(c) && Usable(c, s)
    ensures var r := PassOf(c, a, s);
            && ((s.signalled || a.signalBefore) ==> r == PassResult(s.(signalled := true), Some(Sigterm)))
            && (!s.signalled && !a.signalBefore ==>
                  if c.cap != 0 && s.files >= c.cap then r == PassResult(s, Some(FilesPerPod))
                  else if c.target > 0 && s.progress.bytesWritten >= c.target then r == PassResult(s, Some(TargetBytes))
                  else if !a.within || a.mkdir == Some(OtherError) then r == PassResult(s, Some(Raised))
                  else a.mkdir == Some(NoSpace) ==> r == PassResult(s, Some(Enospc)))
  {
    assert s.signalled ==> s == s.(signalled := true);
  }

  /** No test ends the pass before its file. */
  predicate Reaches(c: Config, a: Attempt, s: RunState) {
    && !s.signalled && !a.signalBefore && a.within && a.mkdir.None?
    && (c.cap == 0 || s.files < c.cap) && (c.target == 0 || s.progress.bytesWritten < c.target)
  }

  /**
    What a pass makes of its file: a complete one is counted and the run goes on; a full filesystem
    ends the run; another error is counted as a failure, and ends the run only when errors are to end
    it; the end of the counter ends the run. A signal seen in the file is kept for the next pass.
   */
  lemma PassOutcome(c: Config, a: Attempt, s: RunState)
    requires Sound(c) && Usable(c, s) && Reaches(c, a, s)
    ensures var r, f := PassOf(c, a, s), FileBlock(c, a, s.files, s.progress);
            && r.state.progress == f.progress && r.state.signalled == f.signalled
            && r.state.files == s.files + (if f.outcome == Complete then 1 else 0)
            && r.state.failed == s.failed + (if f.outcome == Failed(OtherError) then 1 else 0)
            && (f.outcome == Complete ==> r.reason == None)
            && (f.outcome == Failed(NoSpace) ==> r.reason == Some(Enospc))
            && (f.outcome == Failed(OtherError) ==> r.reason == if c.failOnWriteError then Some(Raised) else None)
            && (f.outcome == CounterOverflow ==> r.reason == Some(Raised))
  {}

  /** A run is its passes one after the other, from nothing written, until one gives a reason to end. */
  lemma RunIsPasses(c: Config, noise: seq<Byte>, script: seq<Attempt>, a: Attempt)
    requires Sound(c) && |noise| == c.chunkSize
    ensures After(c, noise, []) == PassResult(RunState(Progress(0, 0, noise, [], []), 0, 0, false), None)
    ensures var before := After(c, noise, script);
            After(c, noise, script + [a]) == if before.reason.Some? then before else PassOf(c, a, before.state)
  {
    assert (script + [a])[..|script|] == script;
  }

  // ---------------------------------------------------------------- stamps

  /** The number a sequence of bytes stands for, least significant first. */
  function Value(bytes: seq<Byte>): nat {
    if bytes == [] then 0 else bytes[0] + 256 * Value(bytes[1..])
  }

  /** A stamp is the counter, least significant byte first. */
  lemma {:induction false} StampValue(n: nat, width: nat)
    ensures Pow256(width) > 0 && Value(LittleEndian(n, width)) == n % Pow256(width)
  {
    PowPositive(width);
    if width == 0 {
    } else {
      var p := Pow256(width - 1);
      PowPositive(width - 1);
      StampValue(n / 256, width - 1);
      ModSplit(n, p);
      assert LittleEndian(n, width)[1..] == LittleEndian(n / 256, width - 1);
    }
  }

  /** A stamped buffer starts with the counter, for every counter a run reaches, and keeps its other bytes. */
  lemma StampMeaning(buffer: seq<Byte>, counter: nat)
    requires counter < 0x1_0000_0000_0000_0000
    ensures var r := Stamp(buffer, counter);
            && |r| >= 8 && Value(r[..8]) == counter
            && forall i | 8 <= i < |buffer| :: i < |r| && r[i] == buffer[i]
  {
    StampValue(counter, 8);
    Pow256Of8();
    assert Stamp(buffer, counter)[..8] == LittleEndian(counter, 8);
  }
}
