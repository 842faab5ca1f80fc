/** How both loaders cut their input: `for (start = 0; start < n; start += size)`
    with `end = Math.min(start + size, n)` and the chunk `data.subList(start, end)`. */
module Chunking {

  function Min(a: int, b: int): int {
    if a < b then a else b
  }

  /** The exclusive end of the chunk that begins at `start`. */
  function ChunkEnd(start: nat, size: nat, n: nat): (end: nat)
    ensures end <= n && end <= start + size
    ensures end == n || end == start + size
    ensures start < n && 0 < size ==> start < end
  {
    Min(start + size, n)
  }

  /** The concatenation of a sequence of sequences. */
  function Flatten<T>(ss: seq<seq<T>>): seq<T> {
    if ss == [] then [] else ss[0] + Flatten(ss[1..])
  }

  lemma {:induction false} FlattenAppend<T>(a: seq<seq<T>>, b: seq<seq<T>>)
    ensures Flatten(a + b) == Flatten(a) + Flatten(b)
  {
    if a == [] {
      assert a + b == b;
    } else {
      assert (a + b)[1..] == a[1..] + b;
      FlattenAppend(a[1..], b);
    }
  }

  /** The chunks of `s` from `start` on, in the order the loop visits them. */
  function Chunks<T>(s: seq<T>, size: nat, start: nat): seq<seq<T>>
    requires 0 < size
    decreases |s| - start
  {
    if start >= |s| then []
    else [s[start..ChunkEnd(start, size, |s|)]] + Chunks(s, size, start + size)
  }

  /** The chunks cover the input in order, with no gap and no overlap. */
  lemma {:induction false} ChunksCover<T>(s: seq<T>, size: nat, start: nat)
    requires 0 < size && start <= |s|
    ensures Flatten(Chunks(s, size, start)) == s[start..]
    decreases |s| - start
  {
    if start < |s| {
      var end := ChunkEnd(start, size, |s|);
      var rest := Chunks(s, size, start + size);
      if end == |s| {
        assert rest == [];
        assert Flatten(rest) == [];
      } else {
        ChunksCover(s, size, start + size);
      }
      assert Chunks(s, size, start)[1..] == rest;
      assert s[start..] == s[start..end] + s[end..];
    }
  }

  /** There are ceil((|s| - start) / size) chunks, and none only for an empty rest. */
  lemma {:induction false} ChunksCount<T>(s: seq<T>, size: nat, start: nat)
    requires 0 < size && start <= |s|
    ensures var c := |Chunks(s, size, start)|;
      && (c == 0 <==> start == |s|)
      && c * size - size < |s| - start <= c * size
    decreases |s| - start
  {
    if start < |s| {
      var rest := Chunks(s, size, start + size);
      assert Chunks(s, size, start) == [s[start..ChunkEnd(start, size, |s|)]] + rest;
      var r := |rest|;
      if start + size >= |s| {
        assert r == 0;
      } else {
        ChunksCount(s, size, start + size);
      }
      MulSucc(r, size);
    }
  }

  /** Chunk `k` is `s[start + k*size .. min(start + k*size + size, |s|)]`: it is
      non-empty and holds at most `size` elements. */
  lemma {:induction false} ChunksAt<T>(s: seq<T>, size: nat, start: nat, k: nat)
    requires 0 < size && k < |Chunks(s, size, start)|
    ensures start + k * size < |s|
    ensures Chunks(s, size, start)[k] == s[start + k * size .. ChunkEnd(start + k * size, size, |s|)]
    ensures 0 < |Chunks(s, size, start)[k]| <= size
    decreases k
  {
    var rest := Chunks(s, size, start + size);
    assert Chunks(s, size, start) == [s[start..ChunkEnd(start, size, |s|)]] + rest;
    if k > 0 {
      assert Chunks(s, size, start)[k] == rest[k - 1];
      ChunksAt(s, size, start + size, k - 1);
      var first := start + size + (k - 1) * size;
      MulSucc(k - 1, size);
      assert first == start + k * size;
    }
  }

  lemma MulSucc(m: nat, size: nat)
    ensures (m + 1) * size == m * size + size
  {
  }

  lemma MulStep(a: nat, b: nat, size: nat)
    requires a < b
    ensures a * size + size <= b * size
  {
    assert b * size == a * size + size + (b - a - 1) * size;
  }

  /** A given count `c` is the number of chunks exactly when
      `(c - 1) * size < |s| <= c * size`. */
  lemma ChunkCountExact<T>(s: seq<T>, size: nat, count: nat)
    requires 0 < size
    requires count * size - size < |s| <= count * size
    ensures |Chunks(s, size, 0)| == count
  {
    ChunksCount(s, size, 0);
    var c := |Chunks(s, size, 0)|;
    if c < count {
      MulStep(c, count, size);
    } else if c > count {
      MulStep(count, c, size);
    }
  }

  /** The loop runs ceil(|s| / size) times. */
  lemma ChunksCeil<T>(s: seq<T>, size: nat)
    requires 0 < size
    ensures |Chunks(s, size, 0)| == (|s| + size - 1) / size
  {
    var q := (|s| + size - 1) / size;
    var r := (|s| + size - 1) % size;
    assert |s| + size - 1 == q * size + r && 0 <= r < size;
    ChunkCountExact(s, size, q);
  }

  // -------------------------------------------------------------------------
  // The same bound computed in Java `int` arithmetic, as the source writes it.

  const IntMax: int := 0x7fff_ffff

  /** Java's 32-bit two's-complement wrap-around of an `int` result. */
  function Int32(x: int): (r: int)
    ensures -IntMax - 1 <= r <= IntMax
    ensures -IntMax - 1 <= x <= IntMax ==> r == x
    ensures (r - x) % 0x1_0000_0000 == 0
  {
    (x + 0x8000_0000) % 0x1_0000_0000 - 0x8000_0000
  }

  /** `Math.min(start + size, data.size())` with `start + size` evaluated as a Java `int`. */
  function ChunkEndInt32(start: int, size: int, n: int): int {
    Min(Int32(start + size), n)
  }

  /** For a list of more than 2,147,480,000 records the batched loader reaches the
      chunk start 2,147,480,000 (a multiple of 5,000), and `start + 5000`
      overflows: the computed end lies before the start, so `subList` throws. */
  lemma ChunkEndInt32OverflowsBatched(n: int)
    requires 2_147_480_000 < n <= IntMax
    ensures ChunkEndInt32(2_147_480_000, 5_000, n) < 0
  {
  }

  /** The same for the copy loader: chunk start 2,147,450,000, size 50,000. */
  lemma ChunkEndInt32OverflowsCopy(n: int)
    requires 2_147_450_000 < n <= IntMax
    ensures ChunkEndInt32(2_147_450_000, 50_000, n) < 0
  {
  }

  /** Wherever the `int` sum does not overflow, the as-written bound is `ChunkEnd`. */
  lemma ChunkEndInt32Agrees(start: nat, size: nat, n: nat)
    requires start + size <= IntMax
    ensures ChunkEndInt32(start, size, n) == ChunkEnd(start, size, n)
  {
  }
}
