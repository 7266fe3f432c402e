/**
 * The button-driven LED counter (Zynq7000Interruptions/BtnLedCounterInterrupt.c):
 * an interrupt handler that adds the button sample to a counter and shows the
 * counter on the LEDs, and the start-up sequence that wires the GPIO block's
 * interrupt to the handler through the interrupt controller.
 */
module Counter {
  import opened Driver

  /** GPIO channel 1 drives the LEDs. */
  const LED_CHANNEL: Channel := 1
  /** GPIO channel 2 reads the buttons. */
  const BTN_CHANNEL: Channel := 2
  /** The button channel's bit in the GPIO interrupt registers. */
  const BTN_INT: Word := XGPIO_IR_CH2_MASK
  /** BTN_CHANNEL read as an interrupt mask, as IntcInitFunction passes it. */
  const BTN_CHANNEL_MASK: Word := BTN_CHANNEL as Word

  /**
   * IntcInitFunction enables the mask BTN_CHANNEL, not BTN_INT. The channel
   * number 2 read as a mask happens to be the channel-2 interrupt bit.
   */
  lemma ChannelNumberIsChannelMask()
    ensures BTN_CHANNEL_MASK == BTN_INT
  {
  }

  /** Re-enabling the button interrupt after disabling it leaves it as enabling it would. */
  lemma EnableAfterDisable(ier: Word)
    ensures SetBits(ClearBits(ier, BTN_INT), BTN_INT) == SetBits(ier, BTN_INT)
  {
  }

  /** Acknowledging the button's pending bit after it was latched leaves it as acknowledging alone would. */
  lemma ClearAfterLatch(isr: Word)
    ensures ClearBits(SetBits(isr, BTN_INT), BTN_INT) == ClearBits(isr, BTN_INT)
  {
  }

  /** The handler's guard: the button channel's pending bit is set. */
  predicate Pending(isr: Word)
  {
    AllSet(isr, BTN_INT)
  }

  /** Total of a sequence of button samples. */
  function Sum(samples: seq<Word>): int
  {
    if samples == [] then 0
    else Sum(samples[..|samples| - 1]) + Unsigned(samples[|samples| - 1])
  }

  /** Every sample fits the eight lines the button channel is configured with as inputs. */
  predicate EightBit(samples: seq<Word>)
  {
    forall i :: 0 <= i < |samples| ==> Unsigned(samples[i]) <= 0xFF
  }

  /**
   * The counter never decreases over a run of events, and grows by at most
   * 255 per event when the samples come from the eight input lines.
   */
  lemma {:induction false} SumBounds(samples: seq<Word>)
    requires EightBit(samples)
    ensures 0 <= Sum(samples) <= 0xFF * |samples|
  {
    if samples != [] {
      var init := samples[..|samples| - 1];
      assert EightBit(init) by {
        forall i | 0 <= i < |init| ensures Unsigned(init[i]) <= 0xFF {
          assert init[i] == samples[i];
        }
      }
      SumBounds(init);
      assert Unsigned(samples[|samples| - 1]) <= 0xFF;
    }
  }

  /** Extending a prefix of the samples by one adds that sample to the total. */
  lemma SumStep(samples: seq<Word>, i: nat)
    requires i < |samples|
    ensures Sum(samples[..i + 1]) == Sum(samples[..i]) + Unsigned(samples[i])
  {
    assert samples[..i + 1][..i] == samples[..i];
  }

  /** Sums over two runs of events add up. */
  lemma {:induction false} SumAppend(first: seq<Word>, second: seq<Word>)
    ensures Sum(first + second) == Sum(first) + Sum(second)
  {
    if second == [] {
      assert first + second == first;
    } else {
      var init := second[..|second| - 1];
      assert (first + second)[..|first + second| - 1] == first + init;
      SumAppend(first, init);
    }
  }

  /** The calls main makes before IntcInitFunction once the GPIO driver is initialised. */
  function MainPrologueCalls(): seq<Call>
  {
    [Call.GpioInitialize,
     Call.GpioSetDataDirection(LED_CHANNEL, 0x00),
     Call.GpioSetDataDirection(BTN_CHANNEL, 0xFF)]
  }

  /** The calls IntcInitFunction makes once the handler is connected, in order. */
  function EnableCalls(intrId: int): seq<Call>
  {
    [Call.GicEnable(intrId), Call.GpioInterruptEnable(BTN_CHANNEL_MASK),
     Call.GpioInterruptGlobalEnable,
     Call.ExceptionInit, Call.ExceptionRegisterHandler, Call.ExceptionEnable]
  }

  /** The calls IntcInitFunction makes when every step succeeds, in order. */
  function IntcInitCalls(intrId: int): seq<Call>
  {
    [Call.GicLookupConfig, Call.GicCfgInitialize, Call.GicConnect(intrId)] + EnableCalls(intrId)
  }

  /** The calls of `rounds` passes of main's idle loop. */
  function IdleCalls(rounds: nat): seq<Call>
  {
    if rounds == 0 then []
    else IdleCalls(rounds - 1) + [Call.GpioInterruptGetStatus, Call.GpioInterruptGetEnabled]
  }

  /** The calls the handler makes before its guard: disable, then read the pending mask. */
  function GuardCalls(): seq<Call>
  {
    [Call.GpioInterruptDisable(BTN_INT), Call.GpioInterruptGetStatus]
  }

  /** The calls the handler makes past its guard, showing `shown` on the LEDs. */
  function CountCalls(shown: Word): seq<Call>
  {
    [Call.GpioDiscreteRead(BTN_CHANNEL), Call.GpioDiscreteWrite(LED_CHANNEL, shown),
     Call.GpioInterruptClear(BTN_INT), Call.GpioInterruptEnable(BTN_INT)]
  }

  /**
   * The GPIO record after one or more genuine events from `g`, the last one
   * showing `shown`: the LEDs hold it, the button channel's pending bit is
   * acknowledged and its enable bit is on again; nothing else differs.
   */
  function Acknowledged(g: GpioRegs, shown: Word): GpioRegs
  {
    g.(data1 := shown, isr := ClearBits(g.isr, BTN_INT), ier := SetBits(g.ier, BTN_INT))
  }

  /** A second round of events from an acknowledged record only changes what the LEDs show. */
  lemma AcknowledgedTwice(g: GpioRegs, first: Word, second: Word)
    ensures Acknowledged(Acknowledged(g, first), second) == Acknowledged(g, second)
  {
    ClearTwice(g.isr, BTN_INT);
    SetTwice(g.ier, BTN_INT);
  }

  /**
   * The calls of one genuine event per sample, starting from counter value
   * `start`: each event makes the guard's two calls and then the four calls
   * past it, showing the counter as it stands after that event.
   */
  function EventCalls(start: int, samples: seq<Word>): seq<Call>
  {
    if samples == [] then []
    else EventCalls(start, samples[..|samples| - 1]) + OneEventCalls(start + Sum(samples))
  }

  /** The six calls of one genuine event that leaves the counter at `counter`. */
  function OneEventCalls(counter: int): seq<Call>
  {
    GuardCalls() + CountCalls(ToWord(counter))
  }

  /** One more event appends its six calls to the calls of the events before it. */
  lemma EventCallsStep(start: int, samples: seq<Word>, i: nat)
    requires i < |samples|
    ensures EventCalls(start, samples[..i + 1]) ==
      EventCalls(start, samples[..i]) + OneEventCalls(start + Sum(samples[..i + 1]))
  {
    assert samples[..i + 1][..i] == samples[..i];
  }

  /** What one event of DeliverGenuineEvents adds to the trace extends the calls of the events before it. */
  lemma EventTraceStep(origin: seq<Call>, before: seq<Call>, after: seq<Call>, start: int, samples: seq<Word>, i: nat,
                        total: int)
    requires i < |samples|
    requires before == origin + EventCalls(start, samples[..i])
    requires total == start + Sum(samples[..i + 1])
    requires after == before + OneEventCalls(total)
    ensures after == origin + EventCalls(start, samples[..i + 1])
  {
    EventCallsStep(start, samples, i);
  }

  /** Each event makes six calls. */
  lemma {:induction false} EventCallsLength(start: int, samples: seq<Word>)
    ensures |EventCalls(start, samples)| == 6 * |samples|
    decreases |samples|
  {
    if samples != [] {
      EventCallsLength(start, samples[..|samples| - 1]);
    }
  }

  /**
   * Event `k`'s LED write, the fourth of its six calls, shows the counter
   * after the first `k + 1` samples: the LEDs equal the counter at the end
   * of every completed handler run.
   */
  lemma {:induction false} EventCallsShowCounter(start: int, samples: seq<Word>, k: nat)
    requires k < |samples|
    ensures |EventCalls(start, samples)| == 6 * |samples|
    ensures EventCalls(start, samples)[6 * k + 3] ==
      Call.GpioDiscreteWrite(LED_CHANNEL, ToWord(start + Sum(samples[..k + 1])))
    decreases |samples|
  {
    EventCallsLength(start, samples);
    var init := samples[..|samples| - 1];
    EventCallsLength(start, init);
    var prefix := EventCalls(start, init);
    var tail := OneEventCalls(start + Sum(samples));
    assert EventCalls(start, samples) == prefix + tail;
    if k < |init| {
      EventCallsShowCounter(start, init, k);
      assert init[..k + 1] == samples[..k + 1];
      assert (prefix + tail)[6 * k + 3] == prefix[6 * k + 3];
    } else {
      assert (prefix + tail)[6 * k + 3] == tail[3];
      assert samples[..k + 1] == samples;
    }
  }

  /**
   * The program's globals: the GPIO and controller instances (one board)
   * and the two statics `led_data` and `btn_value`, zero at start as C
   * static storage is.
   */
  class CounterApp {
    const board: Board
    var ledData: int
    var btnValue: int

    constructor (board: Board)
      ensures this.board == board && ledData == 0 && btnValue == 0
    {
      this.board := board;
      ledData := 0;
      btnValue := 0;
    }

    /**
     * BTN_Intr_Handler. `buttons` is the value the button channel presents
     * when the handler reads it. On a genuine event the counter grows by
     * the sample and is shown on the LEDs, the pending bit is acknowledged
     * and the interrupt re-enabled. On a spurious call the handler returns
     * early and leaves the button interrupt disabled.
     */
    method BtnIntrHandler(buttons: Word)
      modifies this`ledData, this`btnValue, board`gpio, board`trace
      ensures Pending(old(board.gpio.isr)) ==>
        && btnValue == Unsigned(buttons)
        && ledData == old(ledData) + Unsigned(buttons)
        && board.gpio == old(board.gpio).(data1 := ToWord(ledData),
                                          isr := ClearBits(old(board.gpio.isr), BTN_INT),
                                          ier := SetBits(ClearBits(old(board.gpio.ier), BTN_INT), BTN_INT))
        && board.trace == old(board.trace) + GuardCalls() + CountCalls(ToWord(ledData))
      ensures Pending(old(board.gpio.isr)) ==>
        NoneSet(board.gpio.isr, BTN_INT) && AllSet(board.gpio.ier, BTN_INT)
      ensures !Pending(old(board.gpio.isr)) ==> ledData == old(ledData) && btnValue == old(btnValue)
      ensures !Pending(old(board.gpio.isr)) ==> board.gpio == old(board.gpio).(ier := ClearBits(old(board.gpio.ier), BTN_INT))
      ensures !Pending(old(board.gpio.isr)) ==>
        board.trace == old(board.trace) + GuardCalls()
      ensures !Pending(old(board.gpio.isr)) ==> NoneSet(board.gpio.ier, BTN_INT)
    {
      board.GpioInterruptDisable(BTN_INT);
      ClearBitsClears(old(board.gpio.ier), BTN_INT);
      var status := board.GpioInterruptGetStatus();
      assert board.trace == old(board.trace) + GuardCalls();
      if !AllSet(status, BTN_INT) {
        return;
      }
      CountEvent(buttons);
    }

    /**
     * The part of BTN_Intr_Handler past its guard: read the buttons, add the
     * sample to the counter, show the counter on the LEDs, acknowledge the
     * pending bit and re-enable the button interrupt.
     */
    method CountEvent(buttons: Word)
      modifies this`ledData, this`btnValue, board`gpio, board`trace
      ensures btnValue == Unsigned(buttons)
      ensures ledData == old(ledData) + Unsigned(buttons)
      ensures board.gpio == old(board.gpio).(data1 := ToWord(ledData),
                                             isr := ClearBits(old(board.gpio.isr), BTN_INT),
                                             ier := SetBits(old(board.gpio.ier), BTN_INT))
      ensures board.trace == old(board.trace) + CountCalls(ToWord(ledData))
      ensures NoneSet(board.gpio.isr, BTN_INT) && AllSet(board.gpio.ier, BTN_INT)
    {
      var sample := board.GpioDiscreteRead(BTN_CHANNEL, buttons);
      btnValue := Unsigned(sample);
      ledData := ledData + btnValue;
      var shown := ToWord(ledData);
      board.GpioDiscreteWrite(LED_CHANNEL, shown);
      board.GpioInterruptClear(BTN_INT);
      ClearBitsClears(old(board.gpio.isr), BTN_INT);
      board.GpioInterruptEnable(BTN_INT);
      SetBitsSets(old(board.gpio.ier), BTN_INT);
      assert board.trace == old(board.trace) + CountCalls(shown);
    }

    /**
     * IntcInitFunction. `cfgStatus` and `connectStatus` are what
     * XScuGic_CfgInitialize and XScuGic_Connect report; the first failure
     * ends the function with XST_FAILURE and nothing after it is called.
     * Note that the GPIO enable is given BTN_CHANNEL as its mask.
     */
    method IntcInitFunction(cfgStatus: int, connectStatus: int, intrId: int) returns (status: int)
      modifies board`gpio, board`gic, board`trace
      ensures status == if cfgStatus == XST_SUCCESS && connectStatus == XST_SUCCESS
                        then XST_SUCCESS else XST_FAILURE
      ensures cfgStatus != XST_SUCCESS ==>
        && board.trace == old(board.trace) + [Call.GicLookupConfig, Call.GicCfgInitialize]
        && board.gpio == old(board.gpio)
        && board.gic == old(board.gic).(ready := false)
      ensures cfgStatus == XST_SUCCESS && connectStatus != XST_SUCCESS ==>
        && board.trace == old(board.trace) + [Call.GicLookupConfig, Call.GicCfgInitialize, Call.GicConnect(intrId)]
        && board.gpio == old(board.gpio)
        && board.gic == old(board.gic).(ready := true)
      ensures status == XST_SUCCESS ==>
        && board.trace == old(board.trace) + IntcInitCalls(intrId)
        && board.gpio == old(board.gpio).(ier := SetBits(old(board.gpio.ier), BTN_CHANNEL_MASK), gie := true)
        && board.gic == old(board.gic).(ready := true,
                                        connected := old(board.gic.connected) + {intrId},
                                        enabled := old(board.gic.enabled) + {intrId},
                                        exceptionTableReady := true,
                                        dispatchRegistered := true,
                                        exceptionsEnabled := true)
    {
      board.GicLookupConfig();
      status := board.GicCfgInitialize(cfgStatus);
      if status != XST_SUCCESS {
        return XST_FAILURE;
      }
      status := board.GicConnect(intrId, connectStatus);
      if status != XST_SUCCESS {
        return XST_FAILURE;
      }
      EnableInterrupts(intrId);
      return XST_SUCCESS;
    }

    /**
     * The rest of IntcInitFunction once the handler is connected: the
     * controller forwards the line, the GPIO block raises the button
     * channel's interrupt (mask BTN_CHANNEL) and its global output, and the
     * processor's exception table dispatches IRQs to the controller.
     */
    method EnableInterrupts(intrId: int)
      modifies board`gpio, board`gic, board`trace
      ensures board.trace == old(board.trace) + EnableCalls(intrId)
      ensures board.gpio == old(board.gpio).(ier := SetBits(old(board.gpio.ier), BTN_CHANNEL_MASK), gie := true)
      ensures board.gic == old(board.gic).(enabled := old(board.gic.enabled) + {intrId},
                                           exceptionTableReady := true,
                                           dispatchRegistered := true,
                                           exceptionsEnabled := true)
    {
      board.GicEnable(intrId);
      board.GpioInterruptEnable(BTN_CHANNEL_MASK);
      board.GpioInterruptGlobalEnable();
      board.ExceptionInit();
      board.ExceptionRegisterHandler();
      board.ExceptionEnable();
    }

    /**
     * The first `rounds` passes of main's endless loop: each pass only reads
     * the pending and enable registers. `status` is the last value read.
     */
    method IdleLoop(rounds: nat) returns (status: Word)
      modifies board`trace
      ensures board.trace == old(board.trace) + IdleCalls(rounds)
      ensures board.gpio == old(board.gpio) && board.gic == old(board.gic)
      ensures rounds > 0 ==> status == board.gpio.ier
    {
      status := 0;
      var i := 0;
      while i < rounds
        invariant 0 <= i <= rounds
        invariant board.trace == old(board.trace) + IdleCalls(i)
        invariant i > 0 ==> status == board.gpio.ier
      {
        status := board.GpioInterruptGetStatus();
        status := board.GpioInterruptGetEnabled();
        i := i + 1;
      }
    }

    /**
     * A button interrupt on line `intrId` reaches BTN_Intr_Handler: the
     * button channel's enable bit and the GPIO block's global enable are on,
     * the line is connected and enabled in the controller, the controller's
     * dispatch routine is registered and exceptions are enabled.
     */
    predicate Deliverable(intrId: int)
      reads board
    {
      && AllSet(board.gpio.ier, BTN_INT) && board.gpio.gie
      && intrId in board.gic.connected && intrId in board.gic.enabled
      && board.gic.dispatchRegistered && board.gic.exceptionsEnabled
    }

    /**
     * main, up to `idleRounds` passes of its endless loop. The three status
     * parameters are what XGpio_Initialize, XScuGic_CfgInitialize and
     * XScuGic_Connect report. Any failure returns XST_FAILURE at once; on
     * success main is still looping, with the counter untouched.
     */
    method Run(initStatus: int, cfgStatus: int, connectStatus: int, intrId: int, idleRounds: nat)
      returns (exit: Exit)
      modifies board`gpio, board`gic, board`trace
      ensures exit == if initStatus == XST_SUCCESS && cfgStatus == XST_SUCCESS && connectStatus == XST_SUCCESS
                      then Looping else Returned(XST_FAILURE)
      ensures initStatus != XST_SUCCESS ==>
        && board.trace == old(board.trace) + [Call.GpioInitialize]
        && board.gpio == old(board.gpio).(ready := false)
        && board.gic == old(board.gic)
      ensures initStatus == XST_SUCCESS && cfgStatus != XST_SUCCESS ==>
        && board.trace == old(board.trace) + MainPrologueCalls() + [Call.GicLookupConfig, Call.GicCfgInitialize]
        && board.gpio == old(board.gpio).(ready := true, dir1 := 0x00, dir2 := 0xFF)
        && board.gic == old(board.gic).(ready := false)
      ensures initStatus == XST_SUCCESS && cfgStatus == XST_SUCCESS && connectStatus != XST_SUCCESS ==>
        && board.trace == old(board.trace) + MainPrologueCalls() +
                          [Call.GicLookupConfig, Call.GicCfgInitialize, Call.GicConnect(intrId)]
        && board.gpio == old(board.gpio).(ready := true, dir1 := 0x00, dir2 := 0xFF)
        && board.gic == old(board.gic).(ready := true)
      ensures exit == Looping ==>
        && board.trace == old(board.trace) + MainPrologueCalls() + IntcInitCalls(intrId) + IdleCalls(idleRounds)
        && board.gpio == old(board.gpio).(ready := true, dir1 := 0x00, dir2 := 0xFF,
                                          ier := SetBits(old(board.gpio.ier), BTN_CHANNEL_MASK), gie := true)
        && board.gic == old(board.gic).(ready := true,
                                        connected := old(board.gic.connected) + {intrId},
                                        enabled := old(board.gic.enabled) + {intrId},
                                        exceptionTableReady := true,
                                        dispatchRegistered := true,
                                        exceptionsEnabled := true)
      ensures exit == Looping ==>
        board.gpio.dir1 == 0x00 && board.gpio.dir2 == 0xFF && Deliverable(intrId)
    {
      var status := board.GpioInitialize(initStatus);
      if status != XST_SUCCESS {
        return Returned(XST_FAILURE);
      }
      board.GpioSetDataDirection(LED_CHANNEL, 0x00);
      board.GpioSetDataDirection(BTN_CHANNEL, 0xFF);
      assert board.trace == old(board.trace) + MainPrologueCalls();
      status := IntcInitFunction(cfgStatus, connectStatus, intrId);
      if status != XST_SUCCESS {
        return Returned(XST_FAILURE);
      }
      var _ := IdleLoop(idleRounds);
      return Looping;
    }

    /**
     * The environment delivering one genuine event per sample while the
     * interrupt is Deliverable on line `intrId`: the GPIO block latches the
     * button channel's pending bit and the controller dispatches the
     * handler. The counter ends at its start value plus the sum of the
     * samples, every event's calls are logged in order, and the interrupt
     * stays deliverable.
     */
    method DeliverGenuineEvents(intrId: int, samples: seq<Word>)
      requires Deliverable(intrId)
      modifies this`ledData, this`btnValue, board`gpio, board`trace
      ensures Deliverable(intrId)
      ensures ledData == old(ledData) + Sum(samples)
      ensures board.trace == old(board.trace) + EventCalls(old(ledData), samples)
      ensures board.gpio == if |samples| == 0 then old(board.gpio) else Acknowledged(old(board.gpio), ToWord(ledData))
      ensures |samples| == 0 ==> btnValue == old(btnValue)
      ensures |samples| > 0 ==>
        && btnValue == Unsigned(samples[|samples| - 1])
        && AllSet(board.gpio.ier, BTN_INT)
        && NoneSet(board.gpio.isr, BTN_INT)
    {
      var i := 0;
      while i < |samples|
        invariant 0 <= i <= |samples|
        invariant ledData == old(ledData) + Sum(samples[..i])
        invariant board.trace == old(board.trace) + EventCalls(old(ledData), samples[..i])
        invariant board.gpio == if i == 0 then old(board.gpio) else Acknowledged(old(board.gpio), ToWord(ledData))
        invariant i == 0 ==> btnValue == old(btnValue)
        invariant i > 0 ==> btnValue == Unsigned(samples[i - 1])
        invariant Deliverable(intrId)
      {
        ghost var prev := board.gpio.data1;
        ghost var before := board.trace;
        DeliverOne(intrId, samples[i]);
        SumStep(samples, i);
        assert ledData == old(ledData) + Sum(samples[..i + 1]);
        EventTraceStep(old(board.trace), before, board.trace, old(ledData), samples, i, ledData);
        if i > 0 {
          AcknowledgedTwice(old(board.gpio), prev, ToWord(ledData));
        }
        i := i + 1;
      }
      assert samples[..i] == samples;
      if i > 0 {
        SetBitsSets(old(board.gpio.ier), BTN_INT);
        ClearBitsClears(old(board.gpio.isr), BTN_INT);
      }
    }

    /** One genuine event while the interrupt is deliverable: the pending bit is latched and the handler runs. */
    method DeliverOne(intrId: int, sample: Word)
      requires Deliverable(intrId)
      modifies this`ledData, this`btnValue, board`gpio, board`trace
      ensures Deliverable(intrId)
      ensures btnValue == Unsigned(sample)
      ensures ledData == old(ledData) + Unsigned(sample)
      ensures board.gpio == Acknowledged(old(board.gpio), ToWord(ledData))
      ensures board.trace == old(board.trace) + OneEventCalls(ledData)
    {
      ghost var cur := board.gpio;
      board.RaisePending(BTN_INT);
      SetBitsSets(cur.isr, BTN_INT);
      assert Pending(board.gpio.isr);
      BtnIntrHandler(sample);
      ClearAfterLatch(cur.isr);
      EnableAfterDisable(cur.ier);
      SetBitsSets(cur.ier, BTN_INT);
      assert board.trace == old(board.trace) + OneEventCalls(ledData);
    }
  }

  /**
   * Two handler runs with the pending bit latched and samples 3 and 5, from
   * power-on: the counter reads 3 and then 8, and the LEDs show the counter.
   * The handler itself does not look at the enables.
   */
  method ScenarioTwoPresses() returns (first: int, second: int, shown: Word)
    ensures first == 3 && second == 8 && shown == ToWord(second)
  {
    var board := new Board();
    var app := new CounterApp(board);
    board.RaisePending(BTN_INT);
    app.BtnIntrHandler(3);
    first := app.ledData;
    board.RaisePending(BTN_INT);
    app.BtnIntrHandler(5);
    second := app.ledData;
    shown := board.gpio.data1;
  }

  /**
   * A handler run with the pending bit latched and sample 0, after one with
   * sample 3: the counter stays at 3, but the handler still writes it to the
   * LEDs, so the trace holds two identical writes of the counter.
   */
  method ScenarioZeroSample() returns (count: int, writes: seq<Call>)
    ensures count == 3
    ensures writes == [Call.GpioDiscreteWrite(LED_CHANNEL, ToWord(count)), Call.GpioDiscreteWrite(LED_CHANNEL, ToWord(count))]
  {
    var board := new Board();
    var app := new CounterApp(board);
    board.RaisePending(BTN_INT);
    app.BtnIntrHandler(3);
    var firstWrite := board.trace[3];
    board.RaisePending(BTN_INT);
    app.BtnIntrHandler(0);
    count := app.ledData;
    writes := [firstWrite, board.trace[9]];
  }

  /**
   * A spurious call (pending bit clear) on a board set up by main leaves the
   * button interrupt disabled: the interrupt was Deliverable before the
   * call and is not after it, so no later press reaches the handler.
   */
  method ScenarioSpuriousCall(intrId: int)
    returns (enabled: Word, count: int, wasDeliverable: bool, stillDeliverable: bool)
    ensures NoneSet(enabled, BTN_INT)
    ensures count == 0
    ensures wasDeliverable && !stillDeliverable
  {
    var board := new Board();
    var app := new CounterApp(board);
    var exit := app.Run(XST_SUCCESS, XST_SUCCESS, XST_SUCCESS, intrId, 0);
    wasDeliverable := app.Deliverable(intrId);
    app.BtnIntrHandler(1);
    stillDeliverable := app.Deliverable(intrId);
    enabled := board.gpio.ier;
    count := app.ledData;
  }
}
