/**
 * The LED blinker (Zynq7000Gpio/led_test.c): after setting up the GPIO
 * block it writes a pattern to the LEDs, inverts every bit of it, waits on
 * a busy-wait loop and repeats for ever.
 *
 * `led` is a C `int` passed to the driver as a `u32`; the C complement `~`
 * on a 32-bit two's complement `int` is the bitwise complement of that
 * `u32`, so `led` is modelled as a 32-bit word.
 */
module Blink {
  import opened Driver

  /** GPIO channel 1 drives the LEDs. */
  const LED_CHANNEL: Channel := 1
  /** The first pattern written: LEDs 0 and 3 on, 1 and 2 off. */
  const LED: Word := 0x9
  /** Length of the busy-wait between two writes. */
  const LED_DELAY: int := 10000000

  /** C's `~` on the pattern: every bit inverted. */
  function Complement(x: Word): Word
  {
    !x
  }

  /** The LED writes of `n` rounds of the loop, starting with pattern `led`. */
  function BlinkCalls(led: Word, n: nat): seq<Call>
    decreases n
  {
    if n == 0 then []
    else [Call.GpioDiscreteWrite(LED_CHANNEL, led)] + BlinkCalls(Complement(led), n - 1)
  }

  /** The pattern after `k` complements of `led`. */
  function Pattern(led: Word, k: nat): Word
  {
    if k == 0 then led else Complement(Pattern(led, k - 1))
  }

  /** Complementing twice gives the pattern back. */
  lemma ComplementTwice(led: Word)
    ensures Complement(Complement(led)) == led
  {
  }

  /** Complementing first and then `k` times is complementing `k + 1` times. */
  lemma {:induction false} PatternShift(led: Word, k: nat)
    ensures Pattern(Complement(led), k) == Pattern(led, k + 1)
  {
    if k > 0 {
      PatternShift(led, k - 1);
    }
  }

  /** The patterns alternate: `led` after an even number of complements, its complement after an odd one. */
  lemma {:induction false} PatternParity(led: Word, k: nat)
    ensures k % 2 == 0 ==> Pattern(led, k) == led
    ensures k % 2 == 1 ==> Pattern(led, k) == Complement(led)
  {
    if k > 0 {
      PatternParity(led, k - 1);
      ComplementTwice(led);
    }
  }

  /** Round `k` of `n` writes `led` when `k` is even and its complement when `k` is odd. */
  lemma {:induction false} BlinkCallsAt(led: Word, n: nat, k: nat)
    requires k < n
    ensures |BlinkCalls(led, n)| == n
    ensures BlinkCalls(led, n)[k] == Call.GpioDiscreteWrite(LED_CHANNEL, Pattern(led, k))
    decreases k
  {
    if k == 0 {
      BlinkCallsLength(led, n);
    } else {
      BlinkCallsAt(Complement(led), n - 1, k - 1);
      PatternShift(led, k - 1);
    }
  }

  /** One write per round. */
  lemma {:induction false} BlinkCallsLength(led: Word, n: nat)
    ensures |BlinkCalls(led, n)| == n
    decreases n
  {
    if n > 0 {
      BlinkCallsLength(Complement(led), n - 1);
    }
  }

  /** From LED, the first write is 0x9, and its complement shows LEDs 1 and 2 only. */
  lemma FirstWrites(n: nat)
    requires n >= 2
    ensures |BlinkCalls(LED, n)| == n
    ensures BlinkCalls(LED, n)[0] == Call.GpioDiscreteWrite(LED_CHANNEL, 0x9)
    ensures BlinkCalls(LED, n)[1] == Call.GpioDiscreteWrite(LED_CHANNEL, 0xFFFF_FFF6)
    ensures Complement(LED) == 0xFFFF_FFF6 && Complement(LED) & 0xf == 0x6
  {
    BlinkCallsAt(LED, n, 0);
    BlinkCallsAt(LED, n, 1);
  }

  /** Every write after the first is the bitwise complement of the one before it. */
  lemma BlinkComplements(led: Word, n: nat, k: nat)
    requires 0 < k < n
    ensures |BlinkCalls(led, n)| == n
    ensures BlinkCalls(led, n)[k - 1].GpioDiscreteWrite?
    ensures BlinkCalls(led, n)[k] == Call.GpioDiscreteWrite(LED_CHANNEL, Complement(BlinkCalls(led, n)[k - 1].data))
  {
    BlinkCallsAt(led, n, k - 1);
    BlinkCallsAt(led, n, k);
  }

  /** The writes repeat with period two. */
  lemma BlinkPeriodTwo(led: Word, n: nat, k: nat)
    requires k + 2 < n
    ensures |BlinkCalls(led, n)| == n
    ensures BlinkCalls(led, n)[k + 2] == BlinkCalls(led, n)[k]
  {
    BlinkCallsAt(led, n, k);
    BlinkCallsAt(led, n, k + 2);
    ComplementTwice(Pattern(led, k));
  }

  /** One more round appends the write of the pattern reached after `n` complements. */
  lemma {:induction false} BlinkCallsSnoc(led: Word, n: nat)
    ensures BlinkCalls(led, n + 1) == BlinkCalls(led, n) + [Call.GpioDiscreteWrite(LED_CHANNEL, Pattern(led, n))]
    decreases n
  {
    if n > 0 {
      BlinkCallsSnoc(Complement(led), n - 1);
      PatternShift(led, n - 1);
    }
  }

  /** What one round of the loop adds to the trace extends the writes of the rounds before it. */
  lemma BlinkStep(start: seq<Call>, before: seq<Call>, after: seq<Call>, i: nat)
    requires before == start + BlinkCalls(LED, i)
    requires after == before + [Call.GpioDiscreteWrite(LED_CHANNEL, Pattern(LED, i))]
    ensures after == start + BlinkCalls(LED, i + 1)
  {
    BlinkCallsSnoc(LED, i);
  }

  /**
   * The busy-wait `for (Delay = 0; Delay < LED_DELAY; Delay++);`: it ends
   * with `Delay == LED_DELAY` after LED_DELAY iterations.
   */
  method DelayLoop() returns (delay: int, ghost iterations: nat)
    ensures delay == LED_DELAY && iterations == LED_DELAY
  {
    delay := 0;
    iterations := 0;
    while delay < LED_DELAY
      invariant 0 <= delay <= LED_DELAY
      invariant iterations == delay
    {
      delay := delay + 1;
      iterations := iterations + 1;
    }
  }

  /**
   * LEDOutputExample, up to `rounds` rounds of its endless loop.
   * `initStatus` is what XGpio_Initialize reports. Returns the function's
   * exit and the pattern the next round would write.
   */
  method LedOutputExample(board: Board, initStatus: int, rounds: nat) returns (exit: Exit, led: Word)
    modifies board`gpio, board`trace
    ensures initStatus != XST_SUCCESS ==>
      && exit == Returned(XST_FAILURE)
      && board.trace == old(board.trace) + [Call.GpioInitialize]
      && board.gpio == old(board.gpio).(ready := false)
    ensures initStatus == XST_SUCCESS ==>
      && exit == Looping
      && board.trace == old(board.trace) +
           [Call.GpioInitialize, Call.GpioSetDataDirection(LED_CHANNEL, 0x0)] + BlinkCalls(LED, rounds)
      && led == Pattern(LED, rounds)
      && board.gpio == old(board.gpio).(ready := true, dir1 := 0x0,
           data1 := if rounds > 0 then Pattern(LED, rounds - 1) else old(board.gpio.data1))
  {
    led := LED;
    var status := board.GpioInitialize(initStatus);
    if status != XST_SUCCESS {
      return Returned(XST_FAILURE), led;
    }
    board.GpioSetDataDirection(LED_CHANNEL, 0x0);
    assert board.trace == old(board.trace) + [Call.GpioInitialize, Call.GpioSetDataDirection(LED_CHANNEL, 0x0)];
    ghost var start, configured := board.trace, board.gpio;
    var i := 0;
    while i < rounds
      invariant 0 <= i <= rounds
      invariant board.trace == start + BlinkCalls(LED, i)
      invariant led == Pattern(LED, i)
      invariant board.gpio == configured.(data1 := if i > 0 then Pattern(LED, i - 1) else configured.data1)
    {
      ghost var before := board.trace;
      board.GpioDiscreteWrite(LED_CHANNEL, led);
      BlinkStep(start, before, board.trace, i);
      led := Complement(led);
      var delay, iterations := DelayLoop();
      i := i + 1;
    }
    return Looping, led;
  }
}
