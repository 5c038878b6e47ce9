/** The whole component: the sample ring with its two cursors, and the
    decoder/watchdog state, driven by two atomic operations -- one run of
    the 20 ms timer interrupt (`Tick`) and one `update()` (`Update`).

    The interrupt and `update()` are modelled as interleaving whole steps;
    the ring does not change while one `update()` runs.

    As written, `update()` steps its reader round only the first
    `RING_SIZE - 1` slots while the interrupt writes all `RING_SIZE` of
    them. `Update` models that literally: when the writer is at the last
    slot the drain loop can never reach it and the update never returns
    (`Hangs`), and otherwise the sample in the last slot is never decoded.
    `UpdateFixed` is the evidently intended update whose reader steps like
    the writer; it decodes every sample exactly once. */
module Sensor {
  import opened Words
  import opened Component
  import opened Ring
  import opened Decoder
  import Watchdog

  /** The ring, the reader cursor `review_position`, and the persistent
      decoder and watchdog fields. */
  datatype Device = Device(ring: Buffer, reader: u16, st: State)

  /** The number of slots the reader as written steps round. */
  const READER_SLOTS: nat := RING_SIZE - 1

  /** What every reachable state satisfies, whichever reader is used. */
  predicate Valid(s: Device)
  {
    && Ring.Valid(s.ring) && s.reader < RING_SIZE
    && WellFormed(s.st.track) && Watchdog.Bounded(s.st.watch)
  }

  /** What every state reachable with the reader as written satisfies: it
      never stands on the last slot. */
  predicate ValidAsWritten(s: Device)
  {
    Valid(s) && s.reader < READER_SLOTS
  }

  /** The component after construction: empty ring, both cursors at 0. */
  function Start(): (s: Device)
    ensures ValidAsWritten(s)
    ensures s.reader == 0 && s.ring.writer == 0
    ensures forall i :: 0 <= i < RING_SIZE ==> s.ring.slots[i] == 0
    ensures s.st == Init()
  {
    Device(Empty(), 0, Init())
  }

  /** One run of the timer interrupt with the hardware's edge count. */
  function Tick(s: Device, count: i16): (s': Device)
    requires Valid(s)
    ensures Valid(s') && (ValidAsWritten(s) ==> ValidAsWritten(s'))
    ensures s'.reader == s.reader && s'.st == s.st
  {
    s.(ring := Sample(s.ring, count))
  }

  /** The interrupt running once per element of `xs`, with no update in
      between. */
  function TickAll(s: Device, xs: seq<i16>): (s': Device)
    requires Valid(s)
    ensures Valid(s') && (ValidAsWritten(s) ==> ValidAsWritten(s'))
    ensures s'.ring == SampleAll(s.ring, xs) && s'.reader == s.reader && s'.st == s.st
    decreases |xs|
  {
    if |xs| == 0 then s else Tick(TickAll(s, xs[..|xs| - 1]), xs[|xs| - 1])
  }

  /** One `update()` given the samples its drain loop visited: decode them,
      then run the watchdog at time `t`. */
  function Cycle(st: State, xs: seq<i16>, t: nat): State
  {
    var decoded := Decode(st, xs);
    decoded.(watch := Watchdog.Check(decoded.watch, t))
  }

  /** One update keeps the bookkeeping invariant and the watchdog's bounds:
      decoding only ever clears the outstanding flag, so the bound on an
      outstanding test's wait still holds when the watchdog runs. */
  lemma CycleKeepsInvariant(st: State, xs: seq<i16>, t: nat)
    requires WellFormed(st.track) && Watchdog.Bounded(st.watch)
    ensures WellFormed(Cycle(st, xs, t).track) && Watchdog.Bounded(Cycle(st, xs, t).watch)
  {
    ResponseSettlesTest(st, xs);
  }

  /** The result of one `update()`: it returns a new component state, or
      its drain loop never terminates. */
  datatype Outcome = Hangs | Done(device: Device)

  /** One `update()` at time `t` as written: snapshot the writer as the end
      position, decode the slots from the reader up to it on the reader's
      circle of `READER_SLOTS` slots, leave the reader there, run the
      watchdog. */
  function Update(s: Device, t: nat): (o: Outcome)
    requires ValidAsWritten(s)
    ensures o.Done? ==> ValidAsWritten(o.device) && o.device.ring == s.ring
    ensures o.Done? ==> o.device.reader == s.ring.writer
    ensures o.Done? ==> (s.st.tally.clog ==> o.device.st.tally.clog)
    ensures o.Done? ==> (s.st.tally.overheat ==> o.device.st.tally.overheat)
  {
    var end := s.ring.writer;
    if end >= READER_SLOTS then Hangs
    else
      var xs := Slice(s.ring.slots, s.reader, end, READER_SLOTS);
      CycleKeepsInvariant(s.st, xs, t);
      Done(Device(s.ring, end, Cycle(s.st, xs, t)))
  }

  /** `update()` with the reader stepping like the writer, round all
      `RING_SIZE` slots. */
  function UpdateFixed(s: Device, t: nat): (s': Device)
    requires Valid(s)
    ensures Valid(s') && s'.ring == s.ring && s'.reader == s.ring.writer
  {
    var end := s.ring.writer;
    var xs := Slice(s.ring.slots, s.reader, end, RING_SIZE);
    CycleKeepsInvariant(s.st, xs, t);
    Device(s.ring, end, Cycle(s.st, xs, t))
  }

  /** The drain loop of `update()` on a reader circle of `m` slots: from
      cursor `from`, decode one slot and step, until the cursor equals `end`.
      It terminates when `end` lies on the reader's circle -- for the reader
      as written, `end < READER_SLOTS` -- and decodes exactly the slice
      between the two cursors. */
  method Drain(slots: seq<i16>, st: State, from: nat, end: nat, m: nat) returns (r: State, pos: nat)
    requires 0 < m <= |slots|
    requires from < m && end < m
    ensures pos == end
    ensures r == Decode(st, Slice(slots, from, end, m))
  {
    r, pos := st, from;
    while pos != end
      invariant pos < m
      invariant Dist(from, pos, m) + Dist(pos, end, m) == Dist(from, end, m)
      invariant r == Decode(st, Slice(slots, from, pos, m))
      decreases Dist(pos, end, m)
    {
      SliceStep(slots, from, pos, end, m);
      var visited := Slice(slots, from, pos, m);
      assert (visited + [slots[pos]])[..|visited|] == visited;
      r := Step(r, slots[pos]);
      pos := Succ(pos, m);
    }
  }

  /** `update()` as written, run as code: the drain loop on the reader's
      circle of `READER_SLOTS` slots, then the watchdog. It terminates
      exactly when the writer's snapshot is not the last slot, and then
      computes `Update`. */
  method RunUpdate(s: Device, t: nat) returns (s': Device)
    requires ValidAsWritten(s) && s.ring.writer < READER_SLOTS
    ensures Update(s, t) == Done(s')
  {
    var decoded, reader := Drain(s.ring.slots, s.st, s.reader, s.ring.writer, READER_SLOTS);
    s' := Device(s.ring, reader, decoded.(watch := Watchdog.Check(decoded.watch, t)));
  }

  /** `Update` hangs exactly when the reader, stepping round its circle of
      `READER_SLOTS` slots from where it stands, can never arrive at the
      writer's position. */
  lemma HangsIffReaderNeverArrives(s: Device, t: nat)
    requires ValidAsWritten(s)
    ensures Update(s, t).Hangs? <==> forall k :: After(s.reader, k, READER_SLOTS) != s.ring.writer
  {
    if s.ring.writer >= READER_SLOTS {
      NeverReachesBeyond(s.reader, s.ring.writer, READER_SLOTS);
    } else {
      ReachesAfterDist(s.reader, s.ring.writer, READER_SLOTS);
    }
  }

  /** Concretely: with both cursors at slot `RING_SIZE - 2`, one interrupt
      moves the writer to the last slot and the next update hangs. */
  lemma AsWrittenHangs(s: Device, a: i16, t: nat)
    requires ValidAsWritten(s) && s.reader == RING_SIZE - 2 && s.ring.writer == RING_SIZE - 2
    ensures TickAll(s, [a]).ring.writer == RING_SIZE - 1
    ensures Update(TickAll(s, [a]), t) == Hangs
  {
    assert [a][..0] == [];
  }

  /** Concretely: with both cursors at slot `RING_SIZE - 2`, two interrupts
      fill the last two slots and wrap the writer to 0; the next update
      decodes only the first sample and loses the one in the last slot,
      where the corrected update decodes both. */
  lemma AsWrittenSkipsLastSlot(s: Device, a: i16, b: i16, t: nat)
    requires ValidAsWritten(s) && s.reader == RING_SIZE - 2 && s.ring.writer == RING_SIZE - 2
    ensures Update(TickAll(s, [a, b]), t) == Done(Device(TickAll(s, [a, b]).ring, 0, Cycle(s.st, [a], t)))
    ensures UpdateFixed(TickAll(s, [a, b]), t).st == Cycle(s.st, [a, b], t)
  {
    assert [a, b][..1] == [a];
    assert [a][..0] == [];
    var s1 := TickAll(s, [a]);
    assert s1 == Tick(s, a);
    assert s1.ring.writer == RING_SIZE - 1;
    var ring := TickAll(s, [a, b]).ring;
    assert ring == Sample(s1.ring, b);
    assert ring.writer == 0;
    assert Slice(ring.slots, RING_SIZE - 2, 0, READER_SLOTS) == [a];
    assert Slice(ring.slots, RING_SIZE - 2, 0, RING_SIZE) == [a, b];
  }

  /** Producer/consumer round trip of the corrected reader: when the reader
      has caught up with the writer and fewer than `RING_SIZE` samples
      arrive before the next update, that update decodes exactly those
      samples, in order. */
  lemma FixedReadsEverySample(s: Device, xs: seq<i16>, t: nat)
    requires Valid(s) && s.reader == s.ring.writer && |xs| < RING_SIZE
    ensures UpdateFixed(TickAll(s, xs), t).st == Cycle(s.st, xs, t)
  {
    var w := s.ring.writer;
    var ring := TickAll(s, xs).ring;
    SamplesLandInOrder(s.ring, xs);
    assert ring.writer == Pos(w, |xs|, RING_SIZE);
    var read := Slice(ring.slots, w, ring.writer, RING_SIZE);
    assert |read| == |xs|;
    forall i | 0 <= i < |xs|
      ensures read[i] == xs[i]
    {
    }
    assert read == xs;
  }

  /** An update that finds no new samples decodes nothing: only the
      watchdog can change the state, and when no test is due or
      outstanding it changes nothing either, so the same twelve readings
      are published again. */
  lemma CaughtUpUpdateIsIdle(s: Device, t: nat)
    requires ValidAsWritten(s) && s.reader == s.ring.writer
    ensures Update(s, t) == Done(s.(st := s.st.(watch := Watchdog.Check(s.st.watch, t))))
    ensures !s.st.watch.testOutstanding && !Watchdog.Due(s.st.watch, t) ==> Update(s, t) == Done(s)
    ensures Publish(Update(s, t).device.st).(selftestFailed := false) == Publish(s.st).(selftestFailed := false)
  {
    assert Slice(s.ring.slots, s.reader, s.reader, READER_SLOTS) == [];
  }

  /** A packet still open when one update ends stays open into the next:
      across two updates, with the watchdog running after each, the pulse
      bookkeeping and the short-packet counter end as if the two runs had
      been decoded in one. */
  lemma OpenPacketCarriesOver(st: State, xs: seq<i16>, t1: nat, ys: seq<i16>, t2: nat)
    ensures Cycle(Cycle(st, xs, t1), ys, t2).track == Decode(st, xs + ys).track
    ensures Cycle(Cycle(st, xs, t1), ys, t2).tally.shortPacket == Decode(st, xs + ys).tally.shortPacket
  {
    DecodeAppend(st, xs, ys);
    TrackIgnoresRest(Cycle(st, xs, t1), Decode(st, xs), ys);
  }

  /** Self-test deadline: a test started by the update at `t0` fails in the
      third update after it unless one of the three decodes in between
      settles it. Until then it stays outstanding; no update earlier than
      the third declares it failed. */
  lemma SelfTestDeadline(s0: State, xs0: seq<i16>, t0: nat, xs1: seq<i16>, t1: nat,
                         xs2: seq<i16>, t2: nat, xs3: seq<i16>, t3: nat)
    requires WellFormed(s0.track)
    requires Watchdog.Due(Decode(s0, xs0).watch, t0)
    requires t1 <= t0 + TEST_PERIOD && t2 <= t0 + TEST_PERIOD && t3 <= t0 + TEST_PERIOD
    ensures var s1 := Cycle(s0, xs0, t0);
            var s2 := Cycle(s1, xs1, t1);
            var s3 := Cycle(s2, xs2, t2);
            var s4 := Cycle(s3, xs3, t3);
            && s1.watch.testOutstanding && s1.watch.timeSinceTest == 1
            && (Decode(s1, xs1).watch.testOutstanding ==> s2.watch.testOutstanding)
            && (Decode(s1, xs1).watch.testOutstanding && Decode(s2, xs2).watch.testOutstanding ==>
                  s3.watch.testOutstanding)
            && (Decode(s1, xs1).watch.testOutstanding && Decode(s2, xs2).watch.testOutstanding
                && Decode(s3, xs3).watch.testOutstanding ==>
                  s4.watch.testFailed && !s4.watch.testOutstanding)
  {
  }

  /** A decode that settles the outstanding test passes it: after that
      update the failure flag is clear, the pass counter has gone up by one
      and nothing is outstanding. */
  lemma SelfTestAnswered(st: State, xs: seq<i16>, t: nat)
    requires WellFormed(st.track) && st.watch.testOutstanding
    requires !Decode(st, xs).watch.testOutstanding && !Watchdog.Due(st.watch, t)
    ensures !Cycle(st, xs, t).watch.testFailed && !Cycle(st, xs, t).watch.testOutstanding
    ensures Cycle(st, xs, t).tally.selftestCount == IncU16(st.tally.selftestCount)
  {
    ResponseSettlesTest(st, xs);
  }

  /** A failed test stays failed until the next scheduled test: with no
      test outstanding, even a matching response packet does not clear the
      failure flag. */
  lemma FailureStaysUntilNextTest(st: State, xs: seq<i16>, t: nat)
    requires WellFormed(st.track) && st.watch.testFailed && !st.watch.testOutstanding
    requires !Watchdog.Due(st.watch, t)
    ensures Cycle(st, xs, t).watch.testFailed && !Cycle(st, xs, t).watch.testOutstanding
  {
    ResponseSettlesTest(st, xs);
  }
}
