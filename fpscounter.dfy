/** `FPSCounter`: frames are counted by `GetFPS`, and once per second of
    game time the count becomes the reported rate. Time is a whole number of
    `TimeSpan` ticks. */
module FpsCounter {

  /** One second in `TimeSpan` ticks of 100 ns. */
  const Second: int := 10_000_000

  /** The three fields of the counter, as a value. */
  datatype Counter = Counter(frameRate: int, frameCounter: int, elapsed: int)

  /** `Update(gameTime)` on a counter value: the elapsed game time is added;
      when the total is strictly more than one second, one second is taken
      off, the count becomes the rate and the count restarts. */
  function Tick(c: Counter, dt: int): Counter {
    var e := c.elapsed + dt;
    if e > Second then Counter(c.frameCounter, 0, e - Second) else c.(elapsed := e)
  }

  /** `GetFPS()` on a counter value: one more frame is counted. */
  function Frame(c: Counter): Counter {
    c.(frameCounter := c.frameCounter + 1)
  }

  /** `n` calls to `GetFPS()` in a row. */
  function Frames(c: Counter, n: nat): Counter {
    if n == 0 then c else Frame(Frames(c, n - 1))
  }

  lemma {:induction false} FramesCount(c: Counter, n: nat)
    ensures Frames(c, n) == c.(frameCounter := c.frameCounter + n)
  {
    if n > 0 {
      FramesCount(c, n - 1);
    }
  }

  /** Between two rollovers the rate becomes the number of `GetFPS()` calls
      made since the count was last reset, and the count restarts. */
  lemma RateIsFramesSinceRollover(c: Counter, n: nat, dt: int)
    requires c.frameCounter == 0
    requires c.elapsed + dt > Second
    ensures Tick(Frames(c, n), dt).frameRate == n
    ensures Tick(Frames(c, n), dt).frameCounter == 0
    ensures Tick(Frames(c, n), dt).elapsed == c.elapsed + dt - Second
  {
    FramesCount(c, n);
  }

  /** Without a rollover `Update` only accumulates time. */
  lemma NoRolloverKeepsRate(c: Counter, dt: int)
    requires c.elapsed + dt <= Second
    ensures Tick(c, dt).frameRate == c.frameRate
    ensures Tick(c, dt).frameCounter == c.frameCounter
    ensures Tick(c, dt).elapsed == c.elapsed + dt
  {
  }

  /** With frame times of at most one second, the accumulator stays within
      one second: a single subtraction per call is enough. */
  lemma ElapsedStaysBounded(c: Counter, dt: int)
    requires 0 <= c.elapsed <= Second && 0 <= dt <= Second
    ensures 0 <= Tick(c, dt).elapsed <= Second
  {
  }

  /** A frame time above one second leaves the accumulator above one second
      after the subtraction: the counter lags and keeps rolling over. */
  lemma ElapsedLagsAfterLongFrame(c: Counter, dt: int)
    requires 0 <= c.elapsed && dt > 2 * Second
    ensures Tick(c, dt).elapsed > Second
  {
  }

  /** The counter object. */
  class FPSCounter {
    var frameRate: int
    var frameCounter: int
    var elapsedTime: int

    function State(): Counter
      reads this
    {
      Counter(frameRate, frameCounter, elapsedTime)
    }

    constructor ()
      ensures State() == Counter(0, 0, 0)
    {
      frameRate := 0;
      frameCounter := 0;
      elapsedTime := 0;
    }

    /** `Update(gameTime)`, given the frame's `ElapsedGameTime` in ticks. */
    method Update(elapsedGameTime: int)
      modifies this
      ensures State() == Tick(old(State()), elapsedGameTime)
    {
      elapsedTime := elapsedTime + elapsedGameTime;
      if elapsedTime > Second {
        elapsedTime := elapsedTime - Second;
        frameRate := frameCounter;
        frameCounter := 0;
      }
    }

    /** `GetFPS()`: counts this frame and returns the rate last computed. */
    method GetFPS() returns (rate: int)
      modifies this
      ensures rate == old(frameRate)
      ensures State() == Frame(old(State()))
    {
      frameCounter := frameCounter + 1;
      rate := frameRate;
    }
  }
}
