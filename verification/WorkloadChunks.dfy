/**
  The chunks of the write-only workload. One pseudorandom buffer per pod is reused for every chunk,
  with its first eight bytes overwritten by a little-endian chunk counter.
 */
module WorkloadChunks {
  import opened Numbers

  type Byte = b: int | 0 <= b < 256

  /** The counter is stamped with `to_bytes(8, ...)`, which raises from here on. */
  const COUNTER_LIMIT: nat := 0x1_0000_0000_0000_0000

  function Pow256(w: nat): nat {
    if w == 0 then 1 else 256 * Pow256(w - 1)
  }

  function LittleEndian(n: nat, width: nat): (r: seq<Byte>)
    ensures |r| == width
  {
    if width == 0 then [] else [n % 256] + LittleEndian(n / 256, width - 1)
  }

  /** What the slice assignment keeps of the buffer: everything from byte 8 on. */
  function Tail(buffer: seq<Byte>): seq<Byte> {
    if |buffer| > 8 then buffer[8..] else []
  }

  /** `chunk_buf[:8] = counter_bytes`; a buffer shorter than eight bytes grows to eight. */
  function Stamp(buffer: seq<Byte>, counter: nat): (r: seq<Byte>)
    ensures |r| == if |buffer| < 8 then 8 else |buffer|
    ensures Tail(r) == Tail(buffer)
  {
    LittleEndian(counter, 8) + Tail(buffer)
  }

  /** One successful write: the bytes it is accounted for, and the bytes handed to the file. */
  datatype Chunk = Chunk(size: nat, data: seq<Byte>)

  /** The k-th chunk: the whole stamped buffer when full, else a prefix of it. */
  predicate Stamped(noise: seq<Byte>, k: nat, c: Chunk) {
    && 1 <= c.size <= |noise|
    && c.data == if c.size == |noise| then Stamp(noise, k) else Stamp(noise, k)[..c.size]
  }

  ghost predicate AllStamped(noise: seq<Byte>, log: seq<Chunk>) {
    forall k | 0 <= k < |log| :: Stamped(noise, k, log[k])
  }

  function Accounted(log: seq<Chunk>): nat {
    if log == [] then 0 else Accounted(log[..|log| - 1]) + log[|log| - 1].size
  }

  function Contents(log: seq<Chunk>): seq<Byte> {
    if log == [] then [] else Contents(log[..|log| - 1]) + log[|log| - 1].data
  }

  // ---------------------------------------------------------------- which chunks repeat

  lemma {:induction false} PowPositive(w: nat)
    ensures Pow256(w) > 0
  {
    if w == 0 {
    } else {
      PowPositive(w - 1);
    }
  }

  lemma ModSplit(m: nat, p: nat)
    requires p > 0
    ensures m % (256 * p) == 256 * ((m / 256) % p) + m % 256
  {
    var h := m / 256;
    var q, r := h / p, 256 * (h % p) + m % 256;
    assert h == q * p + h % p;
    assert m == 256 * h + m % 256;
    assert q * (256 * p) == 256 * (q * p);
    DivModUnique(m, 256 * p, q, r);
  }

  lemma {:induction false} LittleEndianEqualIff(m: nat, n: nat, width: nat)
    ensures Pow256(width) > 0
    ensures LittleEndian(m, width) == LittleEndian(n, width) <==> m % Pow256(width) == n % Pow256(width)
  {
    PowPositive(width);
    if width == 0 {
    } else {
      var p := Pow256(width - 1);
      PowPositive(width - 1);
      LittleEndianEqualIff(m / 256, n / 256, width - 1);
      ModSplit(m, p);
      ModSplit(n, p);
      var a, b := LittleEndian(m, width), LittleEndian(n, width);
      assert a[0] == m % 256 && b[0] == n % 256;
      assert a[1..] == LittleEndian(m / 256, width - 1) && b[1..] == LittleEndian(n / 256, width - 1);
    }
  }

  lemma {:induction false} LittleEndianPrefix(n: nat, width: nat, s: nat)
    requires s <= width
    ensures LittleEndian(n, width)[..s] == LittleEndian(n, s)
  {
    if s == 0 {
    } else {
      LittleEndianPrefix(n / 256, width - 1, s - 1);
      assert LittleEndian(n, width)[..s] == [n % 256] + LittleEndian(n / 256, width - 1)[..s - 1];
    }
  }

  lemma Pow256Of8()
    ensures Pow256(8) == COUNTER_LIMIT
  {}

  /** The first bytes of a stamped buffer are those of the counter. */
  lemma ShortPrefix(noise: seq<Byte>, k: nat, s: nat)
    requires s <= 8
    ensures Stamp(noise, k)[..s] == LittleEndian(k, s)
  {
    LittleEndianPrefix(k, 8, s);
    assert Stamp(noise, k)[..s] == LittleEndian(k, 8)[..s];
  }

  /** Equally long prefixes of at least eight bytes include the whole stamp. */
  lemma LongPrefix(noise: seq<Byte>, i: nat, j: nat, s: nat)
    requires 8 <= s <= |Stamp(noise, i)| && i < COUNTER_LIMIT && j < COUNTER_LIMIT
    ensures Stamp(noise, i)[..s] == Stamp(noise, j)[..s] <==> i == j
  {
    var a, b := Stamp(noise, i)[..s], Stamp(noise, j)[..s];
    if a == b {
      assert a[..8] == Stamp(noise, i)[..8] && b[..8] == Stamp(noise, j)[..8];
      ShortPrefix(noise, i, 8);
      ShortPrefix(noise, j, 8);
      LittleEndianEqualIff(i, j, 8);
      Pow256Of8();
    }
  }

  lemma DataIsPrefix(noise: seq<Byte>, k: nat, c: Chunk)
    requires Stamped(noise, k, c)
    ensures |c.data| <= |Stamp(noise, k)| && c.data == Stamp(noise, k)[..|c.data|]
  {}

  /**
    When two chunks repeat verbatim: never if they hold a whole stamp, and otherwise, when they are
    equally short, exactly if their counters agree modulo a power of 256. The promise that no two
    chunks repeat therefore fails only for file tails shorter than eight bytes.
   */
  lemma ChunksRepeatIff(noise: seq<Byte>, i: nat, c: Chunk, j: nat, d: Chunk)
    requires Stamped(noise, i, c) && Stamped(noise, j, d) && i < COUNTER_LIMIT && j < COUNTER_LIMIT
    ensures |c.data| >= 8 ==> (c.data == d.data <==> |c.data| == |d.data| && i == j)
    ensures |c.data| < 8 ==> Pow256(|c.data|) > 0
    ensures |c.data| < 8 ==>
              (c.data == d.data
               <==> |c.data| == |d.data| && i % Pow256(|c.data|) == j % Pow256(|c.data|))
  {
    var s := |c.data|;
    PowPositive(s);
    DataIsPrefix(noise, i, c);
    DataIsPrefix(noise, j, d);
    if s == |d.data| {
      if s >= 8 {
        LongPrefix(noise, i, j, s);
      } else {
        ShortPrefix(noise, i, s);
        ShortPrefix(noise, j, s);
        LittleEndianEqualIff(i, j, s);
      }
    }
  }

  /** Two one-byte tails 256 chunks apart are the same: nine-byte files in chunks of eight. */
  lemma ShortTailsRepeat(noise: seq<Byte>)
    requires |noise| == 8
    ensures Stamped(noise, 1, Chunk(1, [1])) && Stamped(noise, 257, Chunk(1, [1]))
  {
    ShortPrefix(noise, 1, 1);
    ShortPrefix(noise, 257, 1);
    assert LittleEndian(1, 1) == [1] && LittleEndian(257, 1) == [1];
  }

  // ---------------------------------------------------------------- accounting

  /** No chunk carries fewer bytes than it is accounted for, and which carry more. */
  lemma ChunkSurplus(noise: seq<Byte>, k: nat, c: Chunk)
    requires Stamped(noise, k, c)
    ensures |c.data| >= c.size
    ensures |c.data| == c.size <==> |noise| >= 8 || c.size < |noise|
  {}

  lemma {:induction false} LengthsAddUp(log: seq<Chunk>)
    requires forall k | 0 <= k < |log| :: |log[k].data| >= log[k].size
    ensures |Contents(log)| >= Accounted(log)
    ensures |Contents(log)| == Accounted(log) <==> forall k | 0 <= k < |log| :: |log[k].data| == log[k].size
  {
    if log == [] {
    } else {
      var n := |log| - 1;
      LengthsAddUp(log[..n]);
      assert forall k | 0 <= k < n :: log[..n][k] == log[k];
    }
  }

  /**
    The bytes accounted for are the bytes written exactly when the buffer does not grow: for chunks
    of at least eight bytes, or when no full chunk was written.
   */
  lemma {:induction false} AccountingExactIff(noise: seq<Byte>, log: seq<Chunk>)
    requires AllStamped(noise, log)
    ensures |Contents(log)| >= Accounted(log)
    ensures |Contents(log)| == Accounted(log)
       <==> |noise| >= 8 || forall k | 0 <= k < |log| :: log[k].size < |noise|
  {
    forall k | 0 <= k < |log|
      ensures |log[k].data| >= log[k].size
      ensures |log[k].data| == log[k].size <==> |noise| >= 8 || log[k].size < |noise|
    {
      ChunkSurplus(noise, k, log[k]);
    }
    LengthsAddUp(log);
  }
}
