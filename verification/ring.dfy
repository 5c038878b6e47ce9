/** The sample ring shared by the 20 ms timer interrupt (the writer) and the
    polling `update()` (the reader), and the arithmetic of their cursors.

    Both cursors step the same way -- add one, restart at 0 once the result
    would reach a bound -- but with different bounds: the writer restarts
    after slot `RING_SIZE - 1`, the reader already when it would reach slot
    `RING_SIZE - 1`. The reader therefore goes round a circle of
    `RING_SIZE - 1` slots and the writer round one of `RING_SIZE` slots. */
module Ring {
  import opened Words
  import opened Component

  /** The cursor step of both `timer_isr` and `update()`: the successor of
      `p` on a circle of `m` slots. */
  function Succ(p: nat, m: nat): (q: nat)
    requires p < m
    ensures q < m
    ensures q == (p + 1) % m
  {
    if p + 1 >= m then 0 else p + 1
  }

  /** Forward steps from cursor `a` to cursor `b` on a circle of `m` slots. */
  function Dist(a: nat, b: nat, m: nat): (d: nat)
    requires a < m && b < m
    ensures d < m
    ensures d == 0 <==> a == b
  {
    if a <= b then b - a else b + m - a
  }

  /** The slot `i` steps forward of `a` on a circle of `m` slots. */
  function Pos(a: nat, i: nat, m: nat): (p: nat)
    requires a < m && i < m
    ensures p < m
  {
    if a + i < m then a + i else a + i - m
  }

  /** `k` cursor steps from `p` on a circle of `m` slots. */
  function After(p: nat, k: nat, m: nat): (q: nat)
    requires p < m
    ensures q < m
    decreases k
  {
    if k == 0 then p else Succ(After(p, k - 1, m), m)
  }

  /** Stepping `k < m` times from `a` lands `k` slots forward of `a`. */
  lemma {:induction false} AfterIsPos(a: nat, k: nat, m: nat)
    requires a < m && k < m
    ensures After(a, k, m) == Pos(a, k, m)
    decreases k
  {
    if k > 0 {
      AfterIsPos(a, k - 1, m);
    }
  }

  /** A cursor that steps from `a` until it equals `b` stops after exactly
      `Dist(a, b, m)` steps when `b` lies on its circle. */
  lemma ReachesAfterDist(a: nat, b: nat, m: nat)
    requires a < m && b < m
    ensures After(a, Dist(a, b, m), m) == b
    ensures forall k :: 0 <= k < Dist(a, b, m) ==> After(a, k, m) != b
  {
    AfterIsPos(a, Dist(a, b, m), m);
    forall k | 0 <= k < Dist(a, b, m)
      ensures After(a, k, m) != b
    {
      AfterIsPos(a, k, m);
    }
  }

  /** A cursor stepping round a circle of `m` slots never reaches a cursor
      value at or beyond `m`: a `while (cursor != end)` loop with such an
      `end` runs forever. */
  lemma NeverReachesBeyond(a: nat, b: nat, m: nat)
    requires a < m <= b
    ensures forall k :: After(a, k, m) != b
  {
  }

  /** The shared sample buffer: `slots` holds the edge counts, `writer` is
      `current_item`, the next slot the interrupt overwrites. */
  datatype Buffer = Buffer(slots: seq<i16>, writer: nat)

  predicate Valid(r: Buffer)
  {
    |r.slots| == RING_SIZE && r.writer < RING_SIZE
  }

  /** The zero-initialised ring with the writer at slot 0. */
  function Empty(): (r: Buffer)
    ensures Valid(r)
  {
    Buffer(seq(RING_SIZE, _ => 0), 0)
  }

  /** One run of `timer_isr`: store `count` at the writer, then advance the
      writer, restarting at 0 after the last slot. */
  function Sample(r: Buffer, count: i16): (r': Buffer)
    requires Valid(r)
    ensures Valid(r')
    ensures r'.slots[r.writer] == count
    ensures forall i :: 0 <= i < RING_SIZE && i != r.writer ==> r'.slots[i] == r.slots[i]
    ensures r'.writer == (r.writer + 1) % RING_SIZE
    ensures r.writer == RING_SIZE - 1 ==> r'.writer == 0
  {
    Buffer(r.slots[r.writer := count], Succ(r.writer, RING_SIZE))
  }

  /** The interrupt running once per element of `xs`, in order. */
  function SampleAll(r: Buffer, xs: seq<i16>): (r': Buffer)
    requires Valid(r)
    ensures Valid(r')
    decreases |xs|
  {
    if |xs| == 0 then r else Sample(SampleAll(r, xs[..|xs| - 1]), xs[|xs| - 1])
  }

  /** The writer visits the slots in order: after `n` samples it stands `n`
      slots (modulo the ring size) past where it started. */
  lemma {:induction false} WriterAdvancesByCount(r: Buffer, xs: seq<i16>)
    requires Valid(r)
    ensures SampleAll(r, xs).writer == (r.writer + |xs|) % RING_SIZE
    decreases |xs|
  {
    if |xs| > 0 {
      WriterAdvancesByCount(r, xs[..|xs| - 1]);
    }
  }

  /** Fewer than `RING_SIZE` samples land in consecutive slots starting at
      the writer, none overwriting another. */
  lemma {:induction false} SamplesLandInOrder(r: Buffer, xs: seq<i16>)
    requires Valid(r) && |xs| < RING_SIZE
    ensures SampleAll(r, xs).writer == Pos(r.writer, |xs|, RING_SIZE)
    ensures forall i :: 0 <= i < |xs| ==> SampleAll(r, xs).slots[Pos(r.writer, i, RING_SIZE)] == xs[i]
    decreases |xs|
  {
    if |xs| > 0 {
      var n := |xs| - 1;
      SamplesLandInOrder(r, xs[..n]);
      var prev := SampleAll(r, xs[..n]);
      forall i | 0 <= i < |xs|
        ensures SampleAll(r, xs).slots[Pos(r.writer, i, RING_SIZE)] == xs[i]
      {
        if i < n {
          assert Pos(r.writer, i, RING_SIZE) != prev.writer;
          assert prev.slots[Pos(r.writer, i, RING_SIZE)] == xs[..n][i];
        }
      }
    }
  }

  /** The samples a reader stepping round a circle of `m` slots visits when
      it starts at `from` and stops on reaching `to`. */
  function Slice(slots: seq<i16>, from: nat, to: nat, m: nat): (xs: seq<i16>)
    requires from < m && to < m <= |slots|
    ensures |xs| == Dist(from, to, m)
  {
    seq(Dist(from, to, m), i requires 0 <= i < Dist(from, to, m) => slots[Pos(from, i, m)])
  }

  /** Visiting one more slot appends that slot's sample to the slice. */
  lemma SliceStep(slots: seq<i16>, from: nat, pos: nat, to: nat, m: nat)
    requires from < m && pos < m && to < m <= |slots|
    requires pos != to
    requires Dist(from, pos, m) + Dist(pos, to, m) == Dist(from, to, m)
    ensures Dist(from, Succ(pos, m), m) == Dist(from, pos, m) + 1
    ensures Dist(Succ(pos, m), to, m) == Dist(pos, to, m) - 1
    ensures Slice(slots, from, Succ(pos, m), m) == Slice(slots, from, pos, m) + [slots[pos]]
  {
    var a := Slice(slots, from, Succ(pos, m), m);
    var b := Slice(slots, from, pos, m) + [slots[pos]];
    assert |a| == |b|;
    forall i | 0 <= i < |a|
      ensures a[i] == b[i]
    {
    }
  }
}
