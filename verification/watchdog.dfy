/** The self-test watchdog that runs at the end of every `update()`, after
    the drain loop.

    When the clock passes the scheduled test time it pulses the stimulus
    line (an abstract event here: the moment the test becomes outstanding),
    marks the test outstanding, restarts the cycle count and schedules the
    next test one period later. While a test is outstanding every update
    counts one cycle, and after more than `MAX_TEST_TIME` cycles without the
    decoder having seen the response the test is declared failed. */
module Watchdog {
  import opened Component

  /** A self-test is due once the time passes the scheduled test time. */
  predicate Due(w: Watch, t: nat)
  {
    t > w.nextTest
  }

  /** The cycle counter never passes `MAX_TEST_TIME + 1` (so its `unsigned
      long` never wraps), and an outstanding test has waited at most
      `MAX_TEST_TIME` cycles. */
  predicate Bounded(w: Watch)
  {
    w.timeSinceTest <= MAX_TEST_TIME + 1 && (w.testOutstanding ==> w.timeSinceTest <= MAX_TEST_TIME)
  }

  /** The watchdog part of `update()` at time `t` (milliseconds since boot). */
  function Check(w: Watch, t: nat): (r: Watch)
    ensures Bounded(w) ==> Bounded(r)
    ensures Due(w, t) ==>
      r.testOutstanding && r.timeSinceTest == 1 && r.nextTest == t + TEST_PERIOD && r.testFailed == w.testFailed
    ensures !Due(w, t) && !w.testOutstanding ==> r == w
    ensures !Due(w, t) && w.testOutstanding ==>
      && r.nextTest == w.nextTest
      && r.timeSinceTest == w.timeSinceTest + 1
      && (r.testOutstanding <==> w.timeSinceTest + 1 <= MAX_TEST_TIME)
      && (r.testFailed <==> w.testFailed || w.timeSinceTest + 1 > MAX_TEST_TIME)
    ensures w.testFailed ==> r.testFailed
  {
    var armed :=
      if t > w.nextTest then w.(testOutstanding := true, timeSinceTest := 0, nextTest := t + TEST_PERIOD)
      else w;
    if armed.testOutstanding then
      var waited := armed.(timeSinceTest := armed.timeSinceTest + 1);
      if waited.timeSinceTest > MAX_TEST_TIME then waited.(testFailed := true, testOutstanding := false)
      else waited
    else armed
  }

  /** The first self-test starts at the first update after `FIRST_TEST`
      milliseconds, and not before. */
  lemma FirstTestDue(t: nat)
    ensures Check(Init().watch, t).testOutstanding <==> t > FIRST_TEST
    ensures t > FIRST_TEST ==> Check(Init().watch, t).nextTest == t + TEST_PERIOD
    ensures t <= FIRST_TEST ==> Check(Init().watch, t) == Init().watch
  {
  }
}
