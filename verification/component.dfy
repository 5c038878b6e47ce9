/** The persistent fields of the dryer vent sensor component, their initial
    values, the component's compile-time constants and the twelve values it
    publishes after each update. */
module Component {
  import opened Words

  /** Number of 20 ms samples the ring buffer holds. */
  const RING_SIZE: nat := 1500
  /** Re-test period of the self-test: one day in milliseconds. */
  const TEST_PERIOD: nat := 86400000
  /** Number of update cycles a self-test may stay unanswered. */
  const MAX_TEST_TIME: nat := 3
  /** Milliseconds since boot after which the first self-test is due. */
  const FIRST_TEST: nat := 40000

  /** The self-test watchdog's fields. */
  datatype Watch = Watch(
    nextTest: nat,
    timeSinceTest: nat,
    testOutstanding: bool,
    testFailed: bool)

  /** The decoder's pulse, gap and packet bookkeeping. */
  datatype Track = Track(
    inPulse: bool,
    inPacket: bool,
    packetPulses: i16,
    pulseLength: u16,
    breakLength: u16)

  /** The sticky flags and running counters the decoder accumulates. */
  datatype Tally = Tally(
    clog: bool,
    overheat: bool,
    shortStart: u16,
    longStart: u16,
    shortClog: u16,
    longClog: u16,
    shortOverheat: u16,
    longOverheat: u16,
    shortPacket: u16,
    unknownPacket: u16,
    selftestCount: u16)

  /** Every field the decoder and the self-test watchdog keep between two
      calls of `update()`, grouped by concern. The reader cursor
      `review_position` belongs to the ring side of the model. */
  datatype State = State(watch: Watch, track: Track, tally: Tally)

  /** The field initialisers of a freshly constructed component. */
  function Init(): (st: State)
    ensures !st.track.inPulse && !st.track.inPacket
    ensures !st.watch.testOutstanding && !st.watch.testFailed && st.watch.nextTest == FIRST_TEST
    ensures !st.tally.clog && !st.tally.overheat
    ensures st.watch.timeSinceTest == 0
    ensures st.track.packetPulses == 0 && st.track.pulseLength == 0 && st.track.breakLength == 0
    ensures Publish(st) == Readings(false, false, false, 0, 0, 0, 0, 0, 0, 0, 0, 0)
  {
    State(
      Watch(nextTest := FIRST_TEST, timeSinceTest := 0, testOutstanding := false, testFailed := false),
      Track(inPulse := false, inPacket := false, packetPulses := 0, pulseLength := 0, breakLength := 0),
      Tally(clog := false, overheat := false,
            shortStart := 0, longStart := 0, shortClog := 0, longClog := 0,
            shortOverheat := 0, longOverheat := 0, shortPacket := 0,
            unknownPacket := 0, selftestCount := 0))
  }

  /** The twelve output channels, in the order `update()` publishes them. */
  datatype Readings = Readings(
    overheat: bool,
    clog: bool,
    selftestFailed: bool,
    shortPacket: u16,
    shortStart: u16,
    longStart: u16,
    shortClog: u16,
    longClog: u16,
    shortOverheat: u16,
    longOverheat: u16,
    unknownPacket: u16,
    selftestCount: u16)

  /** The snapshot an update pushes to its output channels. */
  function Publish(st: State): Readings
  {
    var t := st.tally;
    Readings(t.overheat, t.clog, st.watch.testFailed, t.shortPacket,
             t.shortStart, t.longStart, t.shortClog, t.longClog,
             t.shortOverheat, t.longOverheat, t.unknownPacket,
             t.selftestCount)
  }
}
