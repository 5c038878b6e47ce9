# Dryer vent sensor: buzzer decode pipeline

A Dafny model of the ESPHome component that listens to a dryer vent
monitor's buzzer. The component has three parts:

- **Sampler.** A 20 ms timer interrupt stores the number of buzzer edges
  counted in the last tick into a 1500-slot ring buffer
  (`timer_isr`, `current_item`).
- **Decoder.** Every poll, `update()` walks the ring from its own cursor
  `review_position` up to a snapshot of the writer. It splits the samples
  into pulses (more than 5 edges) and gaps. It groups pulses into packets
  that close after a gap of more than 50 ticks. Each packet is classified by
  its pulse count and the length of its last pulse:
  - 1 pulse: start chirp or self-test response;
  - 3 pulses: clog;
  - 5 pulses: overheat;
  - any other count: unknown.
  The result goes into sticky flags and 16-bit counters.
- **Self-test watchdog.** Once a day (first after 40 s), `update()` pulses
  the test line and marks a self-test outstanding. The test fails if three
  more updates pass without the decoder seeing the one-pulse response.

The model follows the component version
(`components/dryer_vent_sensor/`). The older single-header version
(`dryer_vent_sensor.h`) has the same sampler, decoder and watchdog, and is
cited alongside it.

Modules:

| file | module | contents |
|---|---|---|
| `words.dfy` | `Words` | `uint16_t`/`short` value ranges and their wrapping increments |
| `component.dfy` | `Component` | constants, the persistent fields (`State`), their initialisers, the twelve published readings |
| `ring.dfy` | `Ring` | the ring buffer, the interrupt's write, cursor arithmetic on a circle of `m` slots |
| `decoder.dfy` | `Decoder` | the classification table, the per-sample step, its fold over a run of samples |
| `packets.dfy` | `Packets` | packets encoded as sample streams and the decode round trip |
| `watchdog.dfy` | `Watchdog` | the self-test trigger and timeout |
| `sensor.dfy` | `Sensor` | the whole component: interrupt and `update()` as interleaved atomic steps |

`uint16_t` counters and cursors are modelled as `0 <= x < 65536`, with the
C++ increment written out as a wrap to 0. `packet_pulses` is a `short` whose
increment wraps from 32767 to -32768. `millis()` is a parameter `t` of
`update()`.

Two details of the code that the model follows exactly:

- A packet closes on its 51st consecutive quiet tick (`break_length > 50`).
- A failed self-test is cleared only by a response that arrives while a
  test is outstanding, not by any later one-pulse packet
  (`Sensor.FailureStaysUntilNextTest`).

## Model

| member | source | states |
|---|---|---|
| `Component.Init` | components/dryer_vent_sensor/dryer_vent_sensor.h:61-81 | a new component has no pulse or packet in progress, no test outstanding or failed, its first test scheduled at `FIRST_TEST`, the wait counter, pulse count, pulse length and gap length at 0, and all twelve published readings false or 0 |
| `Watchdog.FirstTestDue` | components/dryer_vent_sensor/dryer_vent_sensor.h:16-16 | from the initial state, the first test starts exactly when the time passes 40000 ms and schedules the next one a period later; before that the watchdog changes nothing |
| `Ring.Sample` | components/dryer_vent_sensor/dryer_vent_sensor.cpp:13-24 | the interrupt writes the count at the writer, leaves every other slot alone, and advances the writer by one modulo 1500, from 1499 back to 0 |
| `Ring.WriterAdvancesByCount` | dryer_vent_sensor.h:39-48 | after `n` interrupts the writer stands `n` slots further on, modulo the ring size |
| `Ring.SamplesLandInOrder` | dryer_vent_sensor.h:42-47 | fewer than 1500 samples land in consecutive slots from the writer, in order, none overwriting another |
| `Ring.ReachesAfterDist` | components/dryer_vent_sensor/dryer_vent_sensor.cpp:141-144 | a cursor stepping round a circle reaches any slot of that circle after exactly the circular distance, and not earlier |
| `Ring.NeverReachesBeyond` | components/dryer_vent_sensor/dryer_vent_sensor.cpp:141-144 | a cursor stepping round a circle never reaches a slot off that circle |
| `Ring.SliceStep` | components/dryer_vent_sensor/dryer_vent_sensor.cpp:71-145 | each drain iteration appends the sample under the reader to what has been visited and shortens the remaining distance by one |
| `Ring.Succ` | components/dryer_vent_sensor/dryer_vent_sensor.cpp:19-23 | one cursor step on a circle of `m` slots stays on the circle and is the successor modulo `m`; it models the writer's step with `m` = 1500 and, with `m` = 1499, the reader's step of lines 141-144 |
| `Decoder.Classify` | components/dryer_vent_sensor/dryer_vent_sensor.cpp:98-132 | the classification table: one pulse is a short start below 25 ticks, a long start above 45 and a self-test response from 25 to 45; three pulses are the clog code and five the overheat code, short below 3 ticks and long above 7; any other count is unknown |
| `Decoder.Record` | components/dryer_vent_sensor/dryer_vent_sensor.cpp:98-132 | classifying a packet raises the clog flag exactly for a clog code and the overheat flag exactly for an overheat code, clears an outstanding test exactly for a self-test response, and touches no pulse bookkeeping |
| `Decoder.ClosePacket` | components/dryer_vent_sensor/dryer_vent_sensor.cpp:97-134 | the branch that closes a packet, as nested in the code, has the same effect as the classification table applied to the pulse count and last pulse length, then marks the packet closed |
| `Decoder.PulseTick` | components/dryer_vent_sensor/dryer_vent_sensor.cpp:72-84 | a loud sample leaves a pulse running; it opens a packet only when no pulse was running, and leaves the gap counter alone |
| `Decoder.GapTick` | components/dryer_vent_sensor/dryer_vent_sensor.cpp:86-139 | a quiet sample leaves no pulse running, never opens a packet, keeps the pulse count and last pulse length, keeps the bookkeeping invariant, and leaves the test schedule alone |
| `Decoder.Step` | components/dryer_vent_sensor/dryer_vent_sensor.cpp:72-139 | one sample keeps the bookkeeping invariant (a pulse only inside a packet, an open packet's gap between 1 and 50, a gap never above 65000), leaves the test schedule alone, and never lowers clog or overheat |
| `Decoder.PacketBoundaries` | components/dryer_vent_sensor/dryer_vent_sensor.cpp:73-97 | a packet opens exactly on a loud sample, with one pulse. It closes exactly on the 51st consecutive quiet sample, and the close records the table's event. Every other step leaves all classification tallies unchanged |
| `Decoder.ShortPulseCounted` | components/dryer_vent_sensor/dryer_vent_sensor.cpp:87-94 | `short_packet` goes up exactly when a pulse of one tick ends |
| `Decoder.GapClamped` | components/dryer_vent_sensor/dryer_vent_sensor.cpp:136-138 | outside a packet a quiet tick lengthens the gap by one, except that a gap at 65000 becomes 101 |
| `Decoder.StepPulse` | components/dryer_vent_sensor/dryer_vent_sensor.cpp:72-86 | every sample takes exactly one of the pulse and gap branches; a loud one starts a pulse of length 1 or lengthens the running one |
| `Decoder.StepSettles` | components/dryer_vent_sensor/dryer_vent_sensor.cpp:107-111 | one sample never raises the outstanding flag; when it clears it, the failure flag is clear and the pass counter is one higher; otherwise neither moves |
| `Decoder.Decode` | components/dryer_vent_sensor/dryer_vent_sensor.cpp:71-145 | decoding a run keeps the bookkeeping invariant and the test schedule, and clog and overheat stay set once set |
| `Decoder.DecodeAppend` | dryer_vent_sensor.h:57-62 | decoding is resumable: decoding a run and then another run from the resulting state equals decoding the two runs joined, when nothing else changes the state in between |
| `Decoder.TrackIgnoresRest` | dryer_vent_sensor.h:57-62 | the pulse bookkeeping and the short-packet counter after a run depend only on their own values before it, not on the watchdog or the other tallies |
| `Decoder.QuietSamples` | dryer_vent_sensor.h:135-145 | quiet samples never open a packet: with no packet open they change nothing but the gap counter |
| `Decoder.PulseLengthCountsRun` | components/dryer_vent_sensor/dryer_vent_sensor.cpp:73-83 | a pulse is running exactly when the last sample was loud, and its length is then the number of consecutive loud samples, modulo 2^16 |
| `Decoder.ResponseSettlesTest` | dryer_vent_sensor.h:155-162 | decoding never raises the outstanding flag; clearing it always passes the test (failure flag clear, pass counter up once); otherwise the failure flag and pass counter do not move |
| `Packets.DecodeEncode` | components/dryer_vent_sensor/dryer_vent_sensor.cpp:72-134 | round trip: a packet of `n` pulses with inner gaps of at most 50 ticks, followed by 51 quiet ticks, is decoded from an idle state as one packet. It records the table's event for `n` pulses and its last pulse length, counts its one-tick pulses as short packets, and leaves it closed |
| `Watchdog.Check` | components/dryer_vent_sensor/dryer_vent_sensor.cpp:147-166 | when the time passes the schedule a test starts, has waited one cycle, and the next is scheduled a period later. An outstanding test waits one more cycle and fails once it has waited more than 3. With nothing due or outstanding nothing changes. The failure flag never clears here |
| `Sensor.Start` | components/dryer_vent_sensor/dryer_vent_sensor.cpp:9-10 | the initial component has every ring slot 0, the writer and the reader at slot 0, the initial decoder and watchdog fields, and satisfies the invariants |
| `Sensor.Tick` | components/dryer_vent_sensor/dryer_vent_sensor.cpp:13-24 | an interrupt between updates keeps the component's invariants and leaves the reader and the decoder state alone |
| `Sensor.CycleKeepsInvariant` | dryer_vent_sensor.h:120-229 | decoding followed by the watchdog keeps the bookkeeping invariant and the watchdog's bounds, because decoding never raises the outstanding flag |
| `Sensor.Update` | components/dryer_vent_sensor/dryer_vent_sensor.cpp:67-166 | as written: an update that returns leaves the reader at the writer's snapshot, still off the last slot, keeps the invariants, and never lowers clog or overheat |
| `Sensor.UpdateFixed` | components/dryer_vent_sensor/dryer_vent_sensor.cpp:67-145 | with the reader stepping like the writer, an update always returns, leaves the reader at the snapshot and keeps the invariants |
| `Sensor.Drain` | components/dryer_vent_sensor/dryer_vent_sensor.cpp:71-145 | the drain loop, given an end on the reader's circle (for the reader as written, end < 1499), terminates with the reader at the end and the decoder state of the samples between the two cursors |
| `Sensor.RunUpdate` | components/dryer_vent_sensor/dryer_vent_sensor.cpp:67-166 | `update()` run as a loop terminates whenever the writer's snapshot is below 1499, and computes the as-written update: decode from the reader to the snapshot, then the watchdog |
| `Sensor.HangsIffReaderNeverArrives` | components/dryer_vent_sensor/dryer_vent_sensor.cpp:141-144 | as written, an update fails to return exactly when the reader can never arrive at the writer's snapshot, which happens when that snapshot is slot 1499 |
| `Sensor.AsWrittenHangs` | components/dryer_vent_sensor/dryer_vent_sensor.cpp:141-144 | with both cursors at 1498, one interrupt moves the writer to 1499 and the next update never returns |
| `Sensor.AsWrittenSkipsLastSlot` | dryer_vent_sensor.h:196-199 | with both cursors at 1498, after two interrupts the update decodes only the first sample and never the one in slot 1499; the corrected update decodes both |
| `Sensor.FixedReadsEverySample` | components/dryer_vent_sensor/dryer_vent_sensor.cpp:19-23 | with the corrected reader, the samples written since the reader caught up (fewer than 1500) are decoded exactly once, in order |
| `Sensor.CaughtUpUpdateIsIdle` | dryer_vent_sensor.h:118-120 | an update that finds the reader at the writer runs no iteration. Only the watchdog acts, and with no test due or outstanding the component and its readings are unchanged |
| `Sensor.OpenPacketCarriesOver` | dryer_vent_sensor.h:57-62 | a packet open at the end of one update carries over: after two updates, each followed by the watchdog, the pulse bookkeeping and short-packet counter are those of decoding both runs in one |
| `Sensor.SelfTestDeadline` | dryer_vent_sensor.h:120-229 | a test started in update k stays outstanding through updates k+1 and k+2 unless decoded, and fails in update k+3 unless a response is decoded in k+1..k+3 |
| `Sensor.SelfTestAnswered` | components/dryer_vent_sensor/dryer_vent_sensor.cpp:107-111 | an update whose decode settles the outstanding test leaves it passed: not failed, not outstanding, pass counter one higher |
| `Sensor.FailureStaysUntilNextTest` | components/dryer_vent_sensor/dryer_vent_sensor.cpp:107-111 | with no test outstanding, a failure flag stays set through any update before the next scheduled test, whatever is decoded |

## Left out

- `setup()` in both versions: configuring the pulse counter, glitch filter and hardware timer is foreign ESP-IDF/Arduino work. The model starts from the state it leaves (`Sensor.Start`).
- `components/dryer_vent_sensor/__init__.py`: ESPHome configuration schema and code generation, with no runtime behaviour.
- The concurrency between the interrupt and `update()`. The interrupt is one atomic `Sensor.Tick` that runs only between whole updates, so torn reads and an interrupt during a drain are not modelled.
- `millis()` is the parameter `t`. Its 32-bit wrap-around and that of `t + TEST_PERIOD` are not modelled: `next_test` and the time are unbounded.
- `digitalWrite`/`delay(25)` on the test pin: the stimulus pulse is the abstract moment a test becomes outstanding.
- The `publish_state` calls, their null checks and all logging. `Component.Publish` only gives the snapshot of the twelve values.
- Decoder.WellFormed: the invariant "a running pulse implies `packet_pulses >= 1`" is left out. `packet_pulses` is a `short` that wraps to negative after 32767 pulses in one packet, so the invariant does not hold in general. `Packets.DecodeEncode` requires fewer than 32768 pulses instead.
- Packets.DecodeEncode: pulses of 65536 ticks or more, whose `uint16_t` length wraps, are excluded by `Packets.Valid`.
- The hardware pulse counter's own 16-bit count is taken as given (`i16`): the threshold test sees whatever value the interrupt stored.

## Findings

| source | as written | input that shows it | evidently intended | confidence | as-written member | corrected member |
|---|---|---|---|---|---|---|
| components/dryer_vent_sensor/dryer_vent_sensor.cpp:141-144 | the reader wraps to 0 on reaching `RING_SIZE - 1`, while the writer wraps only after writing slot `RING_SIZE - 1` (lines 19-23); when the writer's snapshot is 1499 the loop `while (review_position != end_position)` can never exit | both cursors at 1498, one interrupt: the writer moves to 1499 and the next `update()` never returns | the reader steps round all 1500 slots like the writer (`>= RING_SIZE`) | high, not executed | `Sensor.AsWrittenHangs` | `Sensor.FixedReadsEverySample` |
| dryer_vent_sensor.h:196-199 | the same reader wrap never visits slot 1499, so the sample the interrupt stored there is never decoded | both cursors at 1498, two interrupts with samples a, b: the writer wraps to 0 and the next `update()` decodes only a | every stored sample is decoded exactly once, in order | high, not executed | `Sensor.AsWrittenSkipsLastSlot` | `Sensor.FixedReadsEverySample` |
