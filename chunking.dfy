/** Fixed-length segmentation of a recording (`split_and_filter`, the chunk
    comprehension). A recording is a sequence of millisecond units, as pydub
    measures `len(audio)` and slices `audio[i:j]` in milliseconds. */
module Chunking {
  import opened Sequences

  /** `chunk_length_ms`, hard-coded in the source. */
  const ChunkLengthMs: nat := 5000

  function Min(a: int, b: int): int
  {
    if a <= b then a else b
  }

  /** Number of windows needed to cover `d` milliseconds: ceil(d / 5000). */
  function WindowCount(d: int): nat
  {
    if d <= 0 then 0 else (d + ChunkLengthMs - 1) / ChunkLengthMs
  }

  /** Python's `range(start, stop, 5000)`. */
  function Starts(start: nat, stop: nat): (r: seq<nat>)
    ensures |r| == WindowCount(stop - start)
    ensures forall k :: 0 <= k < |r| ==> r[k] == start + k * ChunkLengthMs && r[k] < stop
    decreases stop - start
  {
    if start >= stop then [] else [start] + Starts(start + ChunkLengthMs, stop)
  }

  /** `audio[i:i+5000]`: the slice end is clamped to the recording, so the
      last window is truncated, never padded. */
  function Window<T>(audio: seq<T>, i: nat): (r: seq<T>)
    requires i <= |audio|
    ensures |r| <= ChunkLengthMs && (i < |audio| ==> |r| > 0)
    ensures i + |r| <= |audio| && r == audio[i..i + |r|]
    ensures |r| < ChunkLengthMs ==> i + |r| == |audio|
  {
    audio[i..Min(i + ChunkLengthMs, |audio|)]
  }

  /** `[audio[i:i+5000] for i in range(0, len(audio), 5000)]`. */
  function Chunks<T>(audio: seq<T>): (r: seq<seq<T>>)
    ensures |r| == WindowCount(|audio|)
    ensures forall k :: 0 <= k < |r| ==>
      k * ChunkLengthMs < |audio| && r[k] == audio[k * ChunkLengthMs..Min((k + 1) * ChunkLengthMs, |audio|)]
  {
    var starts := Starts(0, |audio|);
    seq(|starts|, k requires 0 <= k < |starts| => Window(audio, starts[k]))
  }

  /** An empty recording yields no chunks; otherwise there are
      ceil(len / 5000) of them. */
  lemma ChunkCount<T>(audio: seq<T>)
    ensures |Chunks(audio)| == 0 <==> |audio| == 0
    ensures |Chunks(audio)| * ChunkLengthMs >= |audio|
    ensures |audio| > 0 ==> (|Chunks(audio)| - 1) * ChunkLengthMs < |audio|
  {
  }

  /** Every chunk but the last is exactly 5000 ms long; the last is non-empty
      and at most 5000 ms long. */
  lemma ChunkSizes<T>(audio: seq<T>)
    ensures forall k :: 0 <= k < |Chunks(audio)| - 1 ==> |Chunks(audio)[k]| == ChunkLengthMs
    ensures Chunks(audio) != [] ==> 0 < |Chunks(audio)[|Chunks(audio)| - 1]| <= ChunkLengthMs
  {
    var c := Chunks(audio);
    forall k | 0 <= k < |c| - 1
      ensures |c[k]| == ChunkLengthMs
    {
      assert (k + 1) * ChunkLengthMs < |audio|;
      assert c[k] == audio[k * ChunkLengthMs..(k + 1) * ChunkLengthMs];
    }
  }

  /** The chunks before index `j` reproduce the first `min(j * 5000, len)`
      milliseconds of the recording. */
  lemma {:induction false} ChunksPrefix<T>(audio: seq<T>, j: nat)
    requires j <= |Chunks(audio)|
    ensures Concat(Chunks(audio)[..j]) == audio[..Min(j * ChunkLengthMs, |audio|)]
  {
    var c := Chunks(audio);
    if j > 0 {
      ChunksPrefix(audio, j - 1);
      ConcatSnoc(c, j);
      var lo := (j - 1) * ChunkLengthMs;
      assert lo < |audio|;
      SliceJoin(audio, lo, Min(j * ChunkLengthMs, |audio|));
    } else {
      assert c[..0] == [];
    }
  }

  /** Adjacent slices of a recording join up. */
  lemma SliceJoin<T>(audio: seq<T>, lo: nat, hi: nat)
    requires lo <= hi <= |audio|
    ensures audio[..lo] + audio[lo..hi] == audio[..hi]
  {
  }

  /** Concatenating the chunks reproduces the recording: the chunks partition
      it, with no gap, overlap or padding. */
  lemma ChunksPartition<T>(audio: seq<T>)
    ensures Concat(Chunks(audio)) == audio
  {
    var c := Chunks(audio);
    ChunkCount(audio);
    ChunksPrefix(audio, |c|);
    assert c[..|c|] == c;
  }
}
