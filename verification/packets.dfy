/** Buzzer packets as sample streams, and the decoder's round trip on them.

    A packet is a list of pulse lengths with a gap after every pulse but
    the last, all measured in 20 ms ticks; it is sent as loud ticks for each
    pulse, quiet ticks for each gap, and then the long quiet tail that
    closes it. Decoding such a stream from a state with no packet open
    classifies the packet once, by its pulse count and last pulse length. */
module Packets {
  import opened Words
  import opened Component
  import opened Decoder

  /** A tick with more edges than the noise threshold. */
  const LOUD: i16 := 10
  /** A tick with no edges. */
  const QUIET: i16 := 0

  function Loud(n: nat): (xs: seq<i16>)
    ensures |xs| == n
  {
    seq(n, _ => LOUD)
  }

  function Quiet(n: nat): (xs: seq<i16>)
    ensures |xs| == n
  {
    seq(n, _ => QUIET)
  }

  /** Pulse lengths and the gaps between consecutive pulses, in ticks. */
  datatype Packet = Packet(pulses: seq<nat>, gaps: seq<nat>)

  /** A packet the decoder sees as one packet: at least one pulse, no pulse
      so long that its `uint16_t` length wraps, no gap long enough to close
      the packet early, and fewer pulses than a `short` can count. */
  predicate Valid(p: Packet)
  {
    && 1 <= |p.pulses| < 0x8000
    && |p.gaps| == |p.pulses| - 1
    && (forall i :: 0 <= i < |p.pulses| ==> 1 <= p.pulses[i] < WORD)
    && (forall i :: 0 <= i < |p.gaps| ==> 1 <= p.gaps[i] <= PACKET_GAP)
  }

  function Last(xs: seq<nat>): nat
    requires |xs| > 0
  {
    xs[|xs| - 1]
  }

  /** The pulses and inner gaps of a packet as samples. */
  function Body(ps: seq<nat>, gs: seq<nat>): seq<i16>
    requires |ps| >= 1 && |gs| == |ps| - 1
    decreases |ps|
  {
    Loud(ps[0]) + (if |ps| == 1 then [] else Quiet(gs[0]) + Body(ps[1..], gs[1..]))
  }

  /** A whole packet as samples, closed by a gap one tick longer than
      `PACKET_GAP`. */
  function Encode(p: Packet): seq<i16>
    requires Valid(p)
  {
    Body(p.pulses, p.gaps) + Quiet(PACKET_GAP + 1)
  }

  /** Number of one-tick pulses. */
  function Ones(ps: seq<nat>): nat
  {
    multiset(ps)[1]
  }

  lemma OnesCons(ps: seq<nat>)
    requires |ps| >= 2
    ensures Ones(ps[..|ps| - 1]) == (if ps[0] == 1 then 1 else 0) + Ones(ps[1..][..|ps| - 2])
  {
    assert ps[..|ps| - 1] == [ps[0]] + ps[1..][..|ps| - 2];
  }

  lemma OnesSnoc(ps: seq<nat>)
    requires |ps| >= 1
    ensures Ones(ps) == Ones(ps[..|ps| - 1]) + (if Last(ps) == 1 then 1 else 0)
  {
    assert ps == ps[..|ps| - 1] + [Last(ps)];
  }

  /** Loud ticks from outside a pulse start one pulse and count its length. */
  lemma {:induction false} LoudRun(st: State, n: nat)
    requires 1 <= n < WORD && !st.track.inPulse
    ensures Decode(st, Loud(n)) == st.(track := st.track.(
              inPulse := true, inPacket := true,
              packetPulses := if st.track.inPacket then IncI16(st.track.packetPulses) else 1,
              pulseLength := n))
    decreases n
  {
    assert Loud(n)[..n - 1] == Loud(n - 1);
    if n > 1 {
      LoudRun(st, n - 1);
    }
  }

  /** Up to `PACKET_GAP` quiet ticks after a pulse end it and count the gap,
      leaving the packet open. */
  lemma {:induction false} QuietRun(st: State, n: nat)
    requires 1 <= n <= PACKET_GAP && st.track.inPulse && st.track.inPacket
    ensures Decode(st, Quiet(n)) == st.(
              track := st.track.(inPulse := false, breakLength := n),
              tally := st.tally.(shortPacket := Bump(st.tally.shortPacket, st.track.pulseLength == 1)))
    decreases n
  {
    assert Quiet(n)[..n - 1] == Quiet(n - 1);
    if n > 1 {
      QuietRun(st, n - 1);
    }
  }

  /** The closing tail after the last pulse ends the packet and records its
      classification. */
  lemma CloseRun(st: State)
    requires st.track.inPulse && st.track.inPacket
    ensures Decode(st, Quiet(PACKET_GAP + 1)) == Record(
              st.(track := st.track.(inPulse := false, inPacket := false, breakLength := PACKET_GAP + 1),
                  tally := st.tally.(shortPacket := Bump(st.tally.shortPacket, st.track.pulseLength == 1))),
              Classify(st.track.packetPulses, st.track.pulseLength))
  {
    assert Quiet(PACKET_GAP + 1)[..PACKET_GAP] == Quiet(PACKET_GAP);
    QuietRun(st, PACKET_GAP);
    var open := Decode(st, Quiet(PACKET_GAP));
    assert Decode(st, Quiet(PACKET_GAP + 1)) == Step(open, QUIET);
    PacketBoundaries(open, QUIET);
  }

  /** The pulse count an open packet has reached, 0 when none is open. */
  function Counted(k: Track): int
  {
    if k.inPacket then k.packetPulses else 0
  }

  /** The state after one pulse of `p` ticks and the gap of `g` ticks that
      follows it inside a packet. */
  function PulseAndGap(st: State, p: nat, g: nat): State
    requires p < WORD && g < WORD
  {
    st.(track := st.track.(inPulse := false, inPacket := true,
                           packetPulses := if st.track.inPacket then IncI16(st.track.packetPulses) else 1,
                           pulseLength := p, breakLength := g),
        tally := st.tally.(shortPacket := Bump(st.tally.shortPacket, p == 1)))
  }

  /** A packet body of two or more pulses decodes as its first pulse and
      gap followed by the body of the remaining pulses. */
  lemma BodySplits(st: State, ps: seq<nat>, gs: seq<nat>)
    requires !st.track.inPulse
    requires |ps| >= 2 && |gs| == |ps| - 1
    requires 1 <= ps[0] < WORD && 1 <= gs[0] <= PACKET_GAP
    ensures Decode(st, Body(ps, gs)) == Decode(PulseAndGap(st, ps[0], gs[0]), Body(ps[1..], gs[1..]))
  {
    var tail := Body(ps[1..], gs[1..]);
    var s1 := Decode(st, Loud(ps[0]));
    assert Body(ps, gs) == Loud(ps[0]) + (Quiet(gs[0]) + tail);
    DecodeAppend(st, Loud(ps[0]), Quiet(gs[0]) + tail);
    DecodeAppend(s1, Quiet(gs[0]), tail);
    LoudRun(st, ps[0]);
    QuietRun(s1, gs[0]);
  }

  /** The state a packet body leaves behind: its last pulse running, every
      pulse counted in the packet, and every one-tick pulse but the last
      counted as a short packet. */
  function AfterBody(st: State, ps: seq<nat>, gs: seq<nat>): State
    requires |ps| >= 1 && 0 <= Counted(st.track) && Counted(st.track) + |ps| < 0x8000
    requires forall i :: 0 <= i < |ps| ==> ps[i] < WORD
    requires forall i :: 0 <= i < |gs| ==> gs[i] < WORD
  {
    st.(track := Track(
          inPulse := true, inPacket := true,
          packetPulses := Counted(st.track) + |ps|,
          pulseLength := Last(ps),
          breakLength := if |gs| == 0 then st.track.breakLength else Last(gs)),
        tally := st.tally.(shortPacket := AddU16(st.tally.shortPacket, Ones(ps[..|ps| - 1]))))
  }

  /** The body of a packet leaves its last pulse running, with every pulse
      counted in the packet and every one-tick pulse but the last counted as
      a short packet. */
  lemma {:induction false} BodyRun(st: State, ps: seq<nat>, gs: seq<nat>)
    requires !st.track.inPulse
    requires |ps| >= 1 && |gs| == |ps| - 1
    requires forall i :: 0 <= i < |ps| ==> 1 <= ps[i] < WORD
    requires forall i :: 0 <= i < |gs| ==> 1 <= gs[i] <= PACKET_GAP
    requires 0 <= Counted(st.track) && Counted(st.track) + |ps| < 0x8000
    ensures Decode(st, Body(ps, gs)) == AfterBody(st, ps, gs)
    decreases |ps|
  {
    if |ps| == 1 {
      assert Body(ps, gs) == Loud(ps[0]);
      assert ps[..0] == [];
      LoudRun(st, ps[0]);
    } else {
      var s2 := PulseAndGap(st, ps[0], gs[0]);
      BodySplits(st, ps, gs);
      CountedStep(st, ps[0], gs[0]);
      BodyRun(s2, ps[1..], gs[1..]);
      AfterBodyStep(st, ps, gs);
    }
  }

  /** A pulse and gap inside a packet count one more pulse in it. */
  lemma CountedStep(st: State, p: nat, g: nat)
    requires p < WORD && g < WORD
    requires 0 <= Counted(st.track) < 0x7FFF
    ensures Counted(PulseAndGap(st, p, g).track) == Counted(st.track) + 1
  {
  }

  /** The state after a packet body is the state after the body of its
      remaining pulses, started from after its first pulse and gap. */
  lemma AfterBodyStep(st: State, ps: seq<nat>, gs: seq<nat>)
    requires |ps| >= 2 && |gs| == |ps| - 1
    requires forall i :: 0 <= i < |ps| ==> 1 <= ps[i] < WORD
    requires forall i :: 0 <= i < |gs| ==> 1 <= gs[i] <= PACKET_GAP
    requires 0 <= Counted(st.track) && Counted(st.track) + |ps| < 0x8000
    ensures Counted(PulseAndGap(st, ps[0], gs[0]).track) == Counted(st.track) + 1
    ensures AfterBody(PulseAndGap(st, ps[0], gs[0]), ps[1..], gs[1..]) == AfterBody(st, ps, gs)
  {
    CountedStep(st, ps[0], gs[0]);
    var rest, restGaps := ps[1..], gs[1..];
    var s2 := PulseAndGap(st, ps[0], gs[0]);
    assert Last(rest) == Last(ps);
    assert (if |restGaps| == 0 then s2.track.breakLength else Last(restGaps)) == Last(gs);
    ShortPacketsAdd(st.tally.shortPacket, ps);
  }

  /** Counting the first pulse's short packet and then those of the rest
      but the last is counting all but the last. */
  lemma ShortPacketsAdd(x: u16, ps: seq<nat>)
    requires |ps| >= 2
    ensures AddU16(Bump(x, ps[0] == 1), Ones(ps[1..][..|ps| - 2])) == AddU16(x, Ones(ps[..|ps| - 1]))
  {
    OnesCons(ps);
    BumpThenAdd(x, ps[0] == 1, Ones(ps[1..][..|ps| - 2]));
  }

  /** Round trip: decoding an encoded packet from a state with no packet
      open records exactly the event the classification table assigns to
      its pulse count and last pulse length, counts its one-tick pulses as
      short packets, and leaves the packet closed. */
  lemma DecodeEncode(st: State, p: Packet)
    requires Valid(p) && WellFormed(st.track) && !st.track.inPacket
    ensures Decode(st, Encode(p)) == Record(
              st.(track := Track(inPulse := false, inPacket := false, packetPulses := |p.pulses|,
                                 pulseLength := Last(p.pulses), breakLength := PACKET_GAP + 1),
                  tally := st.tally.(shortPacket := AddU16(st.tally.shortPacket, Ones(p.pulses)))),
              Classify(|p.pulses|, Last(p.pulses)))
  {
    var ps, gs := p.pulses, p.gaps;
    assert Counted(st.track) == 0;
    EncodeSplits(st, p);
    BodyRun(st, ps, gs);
    ClosedBody(st, ps, gs);
  }

  /** The closing tail after a packet body, decoded from a state with no
      packet open, records the table's event for the whole packet. */
  lemma ClosedBody(st: State, ps: seq<nat>, gs: seq<nat>)
    requires !st.track.inPacket
    requires 1 <= |ps| < 0x8000
    requires forall i :: 0 <= i < |ps| ==> 1 <= ps[i] < WORD
    requires forall i :: 0 <= i < |gs| ==> 1 <= gs[i] <= PACKET_GAP
    ensures Decode(AfterBody(st, ps, gs), Quiet(PACKET_GAP + 1)) == Record(
              st.(track := Track(inPulse := false, inPacket := false, packetPulses := |ps|,
                                 pulseLength := Last(ps), breakLength := PACKET_GAP + 1),
                  tally := st.tally.(shortPacket := AddU16(st.tally.shortPacket, Ones(ps)))),
              Classify(|ps|, Last(ps)))
  {
    var body := AfterBody(st, ps, gs);
    CloseRun(body);
    OnesSnoc(ps);
    IncU16OfAdd(st.tally.shortPacket, Ones(ps[..|ps| - 1]));
    assert body.track.packetPulses == |ps|;
    assert Bump(body.tally.shortPacket, body.track.pulseLength == 1) == AddU16(st.tally.shortPacket, Ones(ps));
  }

  lemma EncodeSplits(st: State, p: Packet)
    requires Valid(p) && WellFormed(st.track) && !st.track.inPacket
    ensures Decode(st, Encode(p)) == Decode(Decode(st, Body(p.pulses, p.gaps)), Quiet(PACKET_GAP + 1))
  {
    DecodeAppend(st, Body(p.pulses, p.gaps), Quiet(PACKET_GAP + 1));
  }
}
