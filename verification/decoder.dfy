/** The pulse/packet decoder of `update()`: one step per ring sample.

    A sample above the noise threshold belongs to a pulse, any other sample
    to a gap. Pulses separated by gaps of at most `PACKET_GAP` ticks form a
    packet; the packet closes on its first gap longer than that and is then
    classified by its pulse count and the length of its last pulse. All of
    this state lives in the component's persistent fields, so a packet that
    is still open when one `update()` ends carries over into the next. */
module Decoder {
  import opened Words
  import opened Component

  /** A sample is part of a pulse when it counts more edges than this. */
  const THRESHOLD: int := 5
  /** A packet closes once a gap grows longer than this many ticks. */
  const PACKET_GAP: int := 50
  /** A gap longer than this is clamped back to `GAP_CLAMP`. */
  const GAP_CEILING: int := 65000
  const GAP_CLAMP: u16 := 101
  /** Length bands of a one-pulse packet. */
  const START_SHORT_BELOW: int := 25
  const START_LONG_ABOVE: int := 45
  /** Length bands of the last pulse of a clog or overheat packet. */
  const CODE_SHORT_BELOW: int := 3
  const CODE_LONG_ABOVE: int := 7

  // ---------------------------------------------------------------------
  // The classification table

  /** Where the last pulse of a clog or overheat packet falls. */
  datatype Width = Short | Nominal | Long

  /** The outcome of classifying a closed packet. */
  datatype Event =
    | ShortStart
    | LongStart
    | SelfTestResponse
    | ClogCode(width: Width)
    | OverheatCode(width: Width)
    | UnknownPacket

  function WidthOf(last: int): Width
  {
    if last < CODE_SHORT_BELOW then Short
    else if last > CODE_LONG_ABOVE then Long
    else Nominal
  }

  /** The classification table: pulse count 1 is the start/self-test chirp,
      3 the clog code, 5 the overheat code, anything else unknown. */
  function Classify(pulses: int, last: int): (e: Event)
    ensures e == ShortStart <==> pulses == 1 && last < START_SHORT_BELOW
    ensures e == LongStart <==> pulses == 1 && last > START_LONG_ABOVE
    ensures e == SelfTestResponse <==> pulses == 1 && START_SHORT_BELOW <= last <= START_LONG_ABOVE
    ensures e.ClogCode? <==> pulses == 3
    ensures e.OverheatCode? <==> pulses == 5
    ensures e.UnknownPacket? <==> pulses != 1 && pulses != 3 && pulses != 5
    ensures e.ClogCode? || e.OverheatCode? ==>
      (e.width == Short <==> last < CODE_SHORT_BELOW) && (e.width == Long <==> last > CODE_LONG_ABOVE)
  {
    match pulses
    case 1 =>
      if last < START_SHORT_BELOW then ShortStart
      else if last > START_LONG_ABOVE then LongStart
      else SelfTestResponse
    case 3 => ClogCode(WidthOf(last))
    case 5 => OverheatCode(WidthOf(last))
    case _ => UnknownPacket
  }

  /** What an event does to the tallies: the counter it names goes up by one
      (modulo 2^16), clog and overheat codes raise their sticky flag, and a
      self-test response settles an outstanding test as passed. Nothing
      else changes. */
  function Record(st: State, e: Event): (r: State)
    ensures r.track == st.track
    ensures r.watch == st.watch.(testOutstanding := r.watch.testOutstanding, testFailed := r.watch.testFailed)
    ensures r.tally.clog == (st.tally.clog || e.ClogCode?)
    ensures r.tally.overheat == (st.tally.overheat || e.OverheatCode?)
    ensures r.watch.testOutstanding == (st.watch.testOutstanding && e != SelfTestResponse)
    ensures r.tally.shortPacket == st.tally.shortPacket
  {
    var t := st.tally;
    match e
    case ShortStart => st.(tally := t.(shortStart := IncU16(t.shortStart)))
    case LongStart => st.(tally := t.(longStart := IncU16(t.longStart)))
    case SelfTestResponse =>
      if st.watch.testOutstanding then
        st.(watch := st.watch.(testOutstanding := false, testFailed := false),
            tally := t.(selftestCount := IncU16(t.selftestCount)))
      else st
    case ClogCode(w) =>
      st.(tally := t.(clog := true, shortClog := Bump(t.shortClog, w == Short),
                      longClog := Bump(t.longClog, w == Long)))
    case OverheatCode(w) =>
      st.(tally := t.(overheat := true, shortOverheat := Bump(t.shortOverheat, w == Short),
                      longOverheat := Bump(t.longOverheat, w == Long)))
    case UnknownPacket => st.(tally := t.(unknownPacket := IncU16(t.unknownPacket)))
  }

  /** `a` and `b` agree on everything a packet's classification may change. */
  predicate SameTallies(a: State, b: State)
  {
    a.watch == b.watch && a.tally.(shortPacket := 0) == b.tally.(shortPacket := 0)
  }

  // ---------------------------------------------------------------------
  // One sample

  /** The branch of a closing packet, in the order the component tests its
      cases; it agrees with the table. */
  function ClosePacket(st: State): (r: State)
    ensures r == Record(st, Classify(st.track.packetPulses, st.track.pulseLength))
                   .(track := st.track.(inPacket := false))
  {
    var len := st.track.pulseLength;
    var t := st.tally;
    var classified :=
      if st.track.packetPulses == 1 then
        if len < START_SHORT_BELOW then st.(tally := t.(shortStart := IncU16(t.shortStart)))
        else if len > START_LONG_ABOVE then st.(tally := t.(longStart := IncU16(t.longStart)))
        else if st.watch.testOutstanding then
          st.(watch := st.watch.(testOutstanding := false, testFailed := false),
              tally := t.(selftestCount := IncU16(t.selftestCount)))
        else st
      else if st.track.packetPulses == 3 then
        var counted :=
          if len < CODE_SHORT_BELOW then t.(shortClog := IncU16(t.shortClog))
          else if len > CODE_LONG_ABOVE then t.(longClog := IncU16(t.longClog))
          else t;
        st.(tally := counted.(clog := true))
      else if st.track.packetPulses == 5 then
        var flagged := t.(overheat := true);
        var counted :=
          if len < CODE_SHORT_BELOW then flagged.(shortOverheat := IncU16(t.shortOverheat))
          else if len > CODE_LONG_ABOVE then flagged.(longOverheat := IncU16(t.longOverheat))
          else flagged;
        st.(tally := counted)
      else st.(tally := t.(unknownPacket := IncU16(t.unknownPacket)));
    classified.(track := classified.track.(inPacket := false))
  }

  /** A sample above the threshold: start a pulse (opening a packet if none
      is open, else counting one more pulse in it) unless one is running,
      then count the tick. The gap counter is left alone. */
  function PulseTick(k: Track): (r: Track)
    ensures r.inPulse
    ensures r.inPacket == (k.inPacket || !k.inPulse)
    ensures r.breakLength == k.breakLength
  {
    var started :=
      if !k.inPulse then
        var joined := if !k.inPacket then k.(inPacket := true, packetPulses := 1)
                      else k.(packetPulses := IncI16(k.packetPulses));
        joined.(inPulse := true, pulseLength := 0)
      else k;
    started.(pulseLength := IncU16(started.pulseLength))
  }

  /** A sample at or below the threshold: end a running pulse (counting it
      as a short packet when it lasted one tick), count the gap tick, close
      and classify an open packet once the gap exceeds `PACKET_GAP`, and
      clamp a runaway gap. */
  function GapTick(st: State): (r: State)
    ensures !r.track.inPulse && r.track.packetPulses == st.track.packetPulses
    ensures r.track.pulseLength == st.track.pulseLength
    ensures WellFormed(st.track) ==> WellFormed(r.track)
    ensures r.track.inPacket ==> st.track.inPacket
    ensures r.watch.nextTest == st.watch.nextTest && r.watch.timeSinceTest == st.watch.timeSinceTest
  {
    var k := st.track;
    var ended :=
      if k.inPulse then
        st.(tally := st.tally.(shortPacket := Bump(st.tally.shortPacket, k.pulseLength == 1)),
            track := k.(inPulse := false, breakLength := 0))
      else st;
    var grown := ended.(track := ended.track.(breakLength := IncU16(ended.track.breakLength)));
    var closed :=
      if grown.track.breakLength > PACKET_GAP && grown.track.inPacket then ClosePacket(grown) else grown;
    if closed.track.breakLength > GAP_CEILING then closed.(track := closed.track.(breakLength := GAP_CLAMP))
    else closed
  }

  /** The invariant of the decoder's bookkeeping: a pulse only runs inside
      a packet, the gap of an open packet between pulses has lasted 1 to
      `PACKET_GAP` ticks, and the gap counter never exceeds the ceiling (so
      its `uint16_t` increment never wraps). */
  predicate WellFormed(k: Track)
  {
    && (k.inPulse ==> k.inPacket)
    && (k.inPacket && !k.inPulse ==> 1 <= k.breakLength <= PACKET_GAP)
    && k.breakLength <= GAP_CEILING
  }

  /** One iteration of the drain loop: the sample at the reader is either a
      pulse tick or a gap tick, never both. It keeps the bookkeeping well
      formed, leaves the watchdog's schedule alone, and
      never lowers a clog or overheat flag. */
  function Step(st: State, sample: i16): (r: State)
    ensures WellFormed(st.track) ==> WellFormed(r.track)
    ensures r.watch.nextTest == st.watch.nextTest && r.watch.timeSinceTest == st.watch.timeSinceTest
    ensures st.tally.clog ==> r.tally.clog
    ensures st.tally.overheat ==> r.tally.overheat
  {
    if sample > THRESHOLD then st.(track := PulseTick(st.track)) else GapTick(st)
  }

  /** A packet opens only on a loud sample and then holds one pulse; it
      closes only on its 51st consecutive quiet sample, and closing is the
      only step that changes a tally, exactly as the table says. */
  lemma PacketBoundaries(st: State, sample: i16)
    requires WellFormed(st.track)
    ensures !st.track.inPacket && Step(st, sample).track.inPacket <==> !st.track.inPacket && sample > THRESHOLD
    ensures !st.track.inPacket && Step(st, sample).track.inPacket ==> Step(st, sample).track.packetPulses == 1
    ensures st.track.inPacket && !Step(st, sample).track.inPacket
        <==> st.track.inPacket && !st.track.inPulse && st.track.breakLength == PACKET_GAP && sample <= THRESHOLD
    ensures st.track.inPacket && !Step(st, sample).track.inPacket ==>
        Step(st, sample) == Record(st.(track := st.track.(inPacket := false, breakLength := PACKET_GAP + 1)),
                                   Classify(st.track.packetPulses, st.track.pulseLength))
    ensures !(st.track.inPacket && !Step(st, sample).track.inPacket) ==> SameTallies(st, Step(st, sample))
  {
  }

  /** A one-tick pulse is counted as a short packet when it ends; no other
      step changes that counter. */
  lemma ShortPulseCounted(st: State, sample: i16)
    ensures Step(st, sample).tally.shortPacket
         == Bump(st.tally.shortPacket, st.track.inPulse && st.track.pulseLength == 1 && sample <= THRESHOLD)
  {
  }

  /** Outside a packet the gap counter counts quiet ticks, and is clamped
      to 101 instead of growing past the ceiling. */
  lemma GapClamped(st: State, sample: i16)
    requires WellFormed(st.track) && !st.track.inPacket && sample <= THRESHOLD
    ensures Step(st, sample).track.breakLength
         == if st.track.breakLength == GAP_CEILING then GAP_CLAMP else st.track.breakLength + 1
  {
  }

  /** One step of the pulse bookkeeping: a loud sample leaves a pulse
      running, one tick longer than before or one tick long if it just
      started; a quiet sample leaves none running. */
  lemma StepPulse(st: State, sample: i16)
    ensures Step(st, sample).track.inPulse <==> sample > THRESHOLD
    ensures sample > THRESHOLD ==>
      Step(st, sample).track.pulseLength == if st.track.inPulse then IncU16(st.track.pulseLength) else 1
  {
  }

  /** One step settles an outstanding self-test only as passed, and never
      touches the failure flag or the pass counter otherwise. */
  lemma StepSettles(st: State, sample: i16)
    requires WellFormed(st.track)
    ensures Step(st, sample).watch.testOutstanding ==> st.watch.testOutstanding
    ensures st.watch.testOutstanding && !Step(st, sample).watch.testOutstanding ==>
      !Step(st, sample).watch.testFailed && Step(st, sample).tally.selftestCount == IncU16(st.tally.selftestCount)
    ensures !(st.watch.testOutstanding && !Step(st, sample).watch.testOutstanding) ==>
      Step(st, sample).watch.testFailed == st.watch.testFailed
      && Step(st, sample).tally.selftestCount == st.tally.selftestCount
  {
    PacketBoundaries(st, sample);
  }

  // ---------------------------------------------------------------------
  // A run of samples

  /** The decoder state after the drain loop has visited `xs` in order. */
  function Decode(st: State, xs: seq<i16>): (r: State)
    ensures WellFormed(st.track) ==> WellFormed(r.track)
    ensures r.watch.nextTest == st.watch.nextTest && r.watch.timeSinceTest == st.watch.timeSinceTest
    ensures st.tally.clog ==> r.tally.clog
    ensures st.tally.overheat ==> r.tally.overheat
    decreases |xs|
  {
    if |xs| == 0 then st else Step(Decode(st, xs[..|xs| - 1]), xs[|xs| - 1])
  }

  /** Decoding is resumable: a run split across two updates decodes like the
      whole run in one. */
  lemma {:induction false} DecodeAppend(st: State, xs: seq<i16>, ys: seq<i16>)
    ensures Decode(st, xs + ys) == Decode(Decode(st, xs), ys)
    decreases |ys|
  {
    if |ys| == 0 {
      assert xs + ys == xs;
    } else {
      var n := |ys| - 1;
      assert (xs + ys)[..|xs + ys| - 1] == xs + ys[..n];
      assert (xs + ys)[|xs + ys| - 1] == ys[n];
      DecodeAppend(st, xs, ys[..n]);
    }
  }

  /** The pulse bookkeeping and the short-packet counter depend on nothing
      else: two states that agree on them still agree after any run, whatever
      the watchdog did to the rest. */
  lemma {:induction false} TrackIgnoresRest(a: State, b: State, xs: seq<i16>)
    requires a.track == b.track && a.tally.shortPacket == b.tally.shortPacket
    ensures Decode(a, xs).track == Decode(b, xs).track
    ensures Decode(a, xs).tally.shortPacket == Decode(b, xs).tally.shortPacket
    decreases |xs|
  {
    if |xs| > 0 {
      TrackIgnoresRest(a, b, xs[..|xs| - 1]);
    }
  }

  /** Samples at or below the threshold never open a packet: from a state
      with no packet open they change nothing but the gap counter. */
  lemma {:induction false} QuietSamples(st: State, xs: seq<i16>)
    requires WellFormed(st.track) && !st.track.inPacket
    requires forall i :: 0 <= i < |xs| ==> xs[i] <= THRESHOLD
    ensures Decode(st, xs) == st.(track := st.track.(breakLength := Decode(st, xs).track.breakLength))
    decreases |xs|
  {
    if |xs| > 0 {
      QuietSamples(st, xs[..|xs| - 1]);
    }
  }

  /** Number of samples above the threshold at the end of `xs`. */
  function LoudSuffix(xs: seq<i16>): (k: nat)
    ensures k <= |xs|
    decreases |xs|
  {
    if |xs| == 0 || xs[|xs| - 1] <= THRESHOLD then 0 else LoudSuffix(xs[..|xs| - 1]) + 1
  }

  /** A pulse is running exactly when the last sample was loud, and its
      length is then the number of consecutive loud samples (continuing a
      pulse already running before `xs`), modulo 2^16. */
  lemma {:induction false} PulseLengthCountsRun(st: State, xs: seq<i16>)
    ensures |xs| > 0 ==> (Decode(st, xs).track.inPulse <==> xs[|xs| - 1] > THRESHOLD)
    ensures LoudSuffix(xs) > 0 ==>
      Decode(st, xs).track.pulseLength
        == AddU16(if LoudSuffix(xs) == |xs| && st.track.inPulse then st.track.pulseLength else 0, LoudSuffix(xs))
    decreases |xs|
  {
    if |xs| > 0 {
      var n := |xs| - 1;
      var prev := Decode(st, xs[..n]);
      PulseLengthCountsRun(st, xs[..n]);
      StepPulse(prev, xs[n]);
      if xs[n] > THRESHOLD {
        var before := LoudSuffix(xs[..n]);
        assert LoudSuffix(xs) == before + 1;
        if before == 0 {
          assert n == 0 || !prev.track.inPulse;
        } else {
          var base := if before == n && st.track.inPulse then st.track.pulseLength else 0;
          assert prev.track.inPulse;
          IncU16OfAdd(base, before);
        }
      }
    }
  }

  lemma IncU16OfAdd(x: u16, n: nat)
    ensures IncU16(AddU16(x, n)) == AddU16(x, n + 1)
  {
  }

  /** Decoding settles an outstanding self-test only as passed: if a test
      was outstanding and no longer is, the failure flag is clear and the
      pass counter went up exactly once; otherwise neither the failure flag
      nor the pass counter moves. Decoding never raises the outstanding flag. */
  lemma {:induction false} ResponseSettlesTest(st: State, xs: seq<i16>)
    requires WellFormed(st.track)
    ensures Decode(st, xs).watch.testOutstanding ==> st.watch.testOutstanding
    ensures st.watch.testOutstanding && !Decode(st, xs).watch.testOutstanding ==>
      !Decode(st, xs).watch.testFailed && Decode(st, xs).tally.selftestCount == IncU16(st.tally.selftestCount)
    ensures !(st.watch.testOutstanding && !Decode(st, xs).watch.testOutstanding) ==>
      Decode(st, xs).watch.testFailed == st.watch.testFailed
      && Decode(st, xs).tally.selftestCount == st.tally.selftestCount
    decreases |xs|
  {
    if |xs| > 0 {
      var n := |xs| - 1;
      ResponseSettlesTest(st, xs[..n]);
      StepSettles(Decode(st, xs[..n]), xs[n]);
    }
  }
}
