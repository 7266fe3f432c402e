/**
 * The driver surface the three Zynq-7000 programs call, as abstract state:
 * the two-channel AXI GPIO block (XGpio_*), the generic interrupt controller
 * (XScuGic_*) and the processor's exception table (Xil_Exception*).
 *
 * The drivers themselves are not shown; each call is modelled only by the
 * state it changes, and every call is appended, in order, to a trace. The
 * fallible calls take their outcome as a parameter (an oracle) and return it.
 */
module Driver {

  /** A 32-bit register or data word (the drivers' `u32`). */
  type Word = bv32

  /** The AXI GPIO block has two channels, numbered 1 and 2. */
  type Channel = c: int | c == 1 || c == 2 witness 1

  const XST_SUCCESS: int := 0
  const XST_FAILURE: int := 1

  /** Channel-2 bit of the GPIO block's interrupt enable and status registers. */
  const XGPIO_IR_CH2_MASK: Word := 0x2

  /** How a program's entry routine ends: it returns a status, or is still in its endless loop. */
  datatype Exit = Returned(status: int) | Looping

  /** One driver call, as logged in the board's trace. */
  datatype Call =
    | GpioInitialize
    | GpioSetDataDirection(channel: Channel, directionMask: Word)
    | GpioDiscreteRead(channel: Channel)
    | GpioDiscreteWrite(channel: Channel, data: Word)
    | GpioInterruptEnable(mask: Word)
    | GpioInterruptDisable(mask: Word)
    | GpioInterruptClear(mask: Word)
    | GpioInterruptGetStatus
    | GpioInterruptGetEnabled
    | GpioInterruptGlobalEnable
    | GicLookupConfig
    | GicCfgInitialize
    | GicConnect(intrId: int)
    | GicEnable(intrId: int)
    | ExceptionInit
    | ExceptionRegisterHandler
    | ExceptionEnable

  /**
   * The GPIO block: whether the driver instance is ready, each channel's
   * direction mask and last written data, the per-channel interrupt enable
   * mask (ier), the global interrupt enable (gie) and the pending mask (isr).
   */
  datatype GpioRegs = GpioRegs(
    ready: bool,
    dir1: Word, dir2: Word,
    data1: Word, data2: Word,
    ier: Word, gie: bool, isr: Word)

  /**
   * The interrupt controller and the exception table: whether the controller
   * is initialised, the interrupt lines that have a handler connected and the
   * lines enabled, and the three steps of exception set-up.
   */
  datatype GicRegs = GicRegs(
    ready: bool,
    connected: set<int>, enabled: set<int>,
    exceptionTableReady: bool, dispatchRegistered: bool, exceptionsEnabled: bool)

  /** `x` with the bits of `mask` set (the drivers' read-modify-write `x | mask`). */
  function SetBits(x: Word, mask: Word): Word
  {
    x | mask
  }

  /** `x` with the bits of `mask` cleared (the drivers' read-modify-write `x & ~mask`). */
  function ClearBits(x: Word, mask: Word): Word
  {
    x & !mask
  }

  /** Every bit of `mask` is set in `x`. */
  predicate AllSet(x: Word, mask: Word)
  {
    x & mask == mask
  }

  /** No bit of `mask` is set in `x`. */
  predicate NoneSet(x: Word, mask: Word)
  {
    x & mask == 0
  }

  /** Setting the bits of a mask sets all of them. */
  lemma SetBitsSets(x: Word, mask: Word)
    ensures AllSet(SetBits(x, mask), mask)
  {
  }

  /** Clearing the bits of a mask clears all of them. */
  lemma ClearBitsClears(x: Word, mask: Word)
    ensures NoneSet(ClearBits(x, mask), mask)
  {
  }

  /** Setting the same bits twice is setting them once. */
  lemma SetTwice(x: Word, mask: Word)
    ensures SetBits(SetBits(x, mask), mask) == SetBits(x, mask)
  {
  }

  /** Clearing the same bits twice is clearing them once. */
  lemma ClearTwice(x: Word, mask: Word)
    ensures ClearBits(ClearBits(x, mask), mask) == ClearBits(x, mask)
  {
  }

  /** A `u32` read as a non-negative integer. */
  function Unsigned(w: Word): nat
  {
    w as nat
  }

  /** C's conversion of an `int` to the drivers' `u32` parameter: reduction modulo 2^32. */
  function ToWord(x: int): Word
  {
    (x % 0x1_0000_0000) as Word
  }

  /** The driver-visible state of the board, updated in place by each driver call. */
  class Board {
    var gpio: GpioRegs
    var gic: GicRegs
    /** Every driver call made so far, oldest first. */
    var trace: seq<Call>

    /**
     * A fresh pair of driver instances: nothing initialised, no calls made.
     * The register values are a fixed choice, not the hardware's reset values.
     */
    constructor ()
      ensures gpio == GpioRegs(false, 0, 0, 0, 0, 0, false, 0)
      ensures gic == GicRegs(false, {}, {}, false, false, false)
      ensures trace == []
    {
      gpio := GpioRegs(false, 0, 0, 0, 0, 0, false, 0);
      gic := GicRegs(false, {}, {}, false, false, false);
      trace := [];
    }

    /** XGpio_Initialize: `outcome` is the status the driver reports. */
    method GpioInitialize(outcome: int) returns (status: int)
      modifies this`gpio, this`trace
      ensures status == outcome
      ensures gpio == old(gpio).(ready := outcome == XST_SUCCESS)
      ensures trace == old(trace) + [Call.GpioInitialize]
    {
      gpio := gpio.(ready := outcome == XST_SUCCESS);
      trace := trace + [Call.GpioInitialize];
      status := outcome;
    }

    /** XGpio_SetDataDirection: a set bit makes that line an input. */
    method GpioSetDataDirection(channel: Channel, directionMask: Word)
      modifies this`gpio, this`trace
      ensures gpio == if channel == 1 then old(gpio).(dir1 := directionMask)
                      else old(gpio).(dir2 := directionMask)
      ensures trace == old(trace) + [Call.GpioSetDataDirection(channel, directionMask)]
    {
      if channel == 1 {
        gpio := gpio.(dir1 := directionMask);
      } else {
        gpio := gpio.(dir2 := directionMask);
      }
      trace := trace + [Call.GpioSetDataDirection(channel, directionMask)];
    }

    /** XGpio_DiscreteRead: `sensed` is the value the channel's lines present at the moment of the read. */
    method GpioDiscreteRead(channel: Channel, sensed: Word) returns (value: Word)
      modifies this`trace
      ensures value == sensed
      ensures trace == old(trace) + [Call.GpioDiscreteRead(channel)]
    {
      trace := trace + [Call.GpioDiscreteRead(channel)];
      value := sensed;
    }

    /** XGpio_DiscreteWrite: the channel's data register takes `data`. */
    method GpioDiscreteWrite(channel: Channel, data: Word)
      modifies this`gpio, this`trace
      ensures gpio == if channel == 1 then old(gpio).(data1 := data)
                      else old(gpio).(data2 := data)
      ensures trace == old(trace) + [Call.GpioDiscreteWrite(channel, data)]
    {
      if channel == 1 {
        gpio := gpio.(data1 := data);
      } else {
        gpio := gpio.(data2 := data);
      }
      trace := trace + [Call.GpioDiscreteWrite(channel, data)];
    }

    /** XGpio_InterruptEnable: sets the bits of `mask` in the enable register. */
    method GpioInterruptEnable(mask: Word)
      modifies this`gpio, this`trace
      ensures gpio == old(gpio).(ier := SetBits(old(gpio.ier), mask))
      ensures trace == old(trace) + [Call.GpioInterruptEnable(mask)]
    {
      gpio := gpio.(ier := SetBits(gpio.ier, mask));
      trace := trace + [Call.GpioInterruptEnable(mask)];
    }

    /** XGpio_InterruptDisable: clears the bits of `mask` in the enable register. */
    method GpioInterruptDisable(mask: Word)
      modifies this`gpio, this`trace
      ensures gpio == old(gpio).(ier := ClearBits(old(gpio.ier), mask))
      ensures trace == old(trace) + [Call.GpioInterruptDisable(mask)]
    {
      gpio := gpio.(ier := ClearBits(gpio.ier, mask));
      trace := trace + [Call.GpioInterruptDisable(mask)];
    }

    /** XGpio_InterruptClear: acknowledges the pending bits of `mask`. */
    method GpioInterruptClear(mask: Word)
      modifies this`gpio, this`trace
      ensures gpio == old(gpio).(isr := ClearBits(old(gpio.isr), mask))
      ensures trace == old(trace) + [Call.GpioInterruptClear(mask)]
    {
      gpio := gpio.(isr := ClearBits(gpio.isr, mask));
      trace := trace + [Call.GpioInterruptClear(mask)];
    }

    /** XGpio_InterruptGetStatus: the pending mask. */
    method GpioInterruptGetStatus() returns (status: Word)
      modifies this`trace
      ensures status == gpio.isr
      ensures trace == old(trace) + [Call.GpioInterruptGetStatus]
    {
      trace := trace + [Call.GpioInterruptGetStatus];
      status := gpio.isr;
    }

    /** XGpio_InterruptGetEnabled: the enable mask. */
    method GpioInterruptGetEnabled() returns (enabled: Word)
      modifies this`trace
      ensures enabled == gpio.ier
      ensures trace == old(trace) + [Call.GpioInterruptGetEnabled]
    {
      trace := trace + [Call.GpioInterruptGetEnabled];
      enabled := gpio.ier;
    }

    /** XGpio_InterruptGlobalEnable: turns on the block's interrupt output. */
    method GpioInterruptGlobalEnable()
      modifies this`gpio, this`trace
      ensures gpio == old(gpio).(gie := true)
      ensures trace == old(trace) + [Call.GpioInterruptGlobalEnable]
    {
      gpio := gpio.(gie := true);
      trace := trace + [Call.GpioInterruptGlobalEnable];
    }

    /**
     * The GPIO block latching an interrupt condition on the lines of `mask`:
     * hardware, not a driver call, so it is not logged.
     */
    method RaisePending(mask: Word)
      modifies this`gpio
      ensures gpio == old(gpio).(isr := SetBits(old(gpio.isr), mask))
    {
      gpio := gpio.(isr := SetBits(gpio.isr, mask));
    }

    /** XScuGic_LookupConfig: the configuration it returns is not modelled. */
    method GicLookupConfig()
      modifies this`trace
      ensures trace == old(trace) + [Call.GicLookupConfig]
    {
      trace := trace + [Call.GicLookupConfig];
    }

    /** XScuGic_CfgInitialize: `outcome` is the status the driver reports. */
    method GicCfgInitialize(outcome: int) returns (status: int)
      modifies this`gic, this`trace
      ensures status == outcome
      ensures gic == old(gic).(ready := outcome == XST_SUCCESS)
      ensures trace == old(trace) + [Call.GicCfgInitialize]
    {
      gic := gic.(ready := outcome == XST_SUCCESS);
      trace := trace + [Call.GicCfgInitialize];
      status := outcome;
    }

    /** XScuGic_Connect: on success a handler is connected to line `intrId`. */
    method GicConnect(intrId: int, outcome: int) returns (status: int)
      modifies this`gic, this`trace
      ensures status == outcome
      ensures gic == if outcome == XST_SUCCESS then old(gic).(connected := old(gic.connected) + {intrId})
                     else old(gic)
      ensures trace == old(trace) + [Call.GicConnect(intrId)]
    {
      if outcome == XST_SUCCESS {
        gic := gic.(connected := gic.connected + {intrId});
      }
      trace := trace + [Call.GicConnect(intrId)];
      status := outcome;
    }

    /** XScuGic_Enable: the controller forwards line `intrId`. */
    method GicEnable(intrId: int)
      modifies this`gic, this`trace
      ensures gic == old(gic).(enabled := old(gic.enabled) + {intrId})
      ensures trace == old(trace) + [Call.GicEnable(intrId)]
    {
      gic := gic.(enabled := gic.enabled + {intrId});
      trace := trace + [Call.GicEnable(intrId)];
    }

    /** Xil_ExceptionInit. */
    method ExceptionInit()
      modifies this`gic, this`trace
      ensures gic == old(gic).(exceptionTableReady := true)
      ensures trace == old(trace) + [Call.ExceptionInit]
    {
      gic := gic.(exceptionTableReady := true);
      trace := trace + [Call.ExceptionInit];
    }

    /** Xil_ExceptionRegisterHandler with the controller's dispatch routine for the IRQ exception. */
    method ExceptionRegisterHandler()
      modifies this`gic, this`trace
      ensures gic == old(gic).(dispatchRegistered := true)
      ensures trace == old(trace) + [Call.ExceptionRegisterHandler]
    {
      gic := gic.(dispatchRegistered := true);
      trace := trace + [Call.ExceptionRegisterHandler];
    }

    /** Xil_ExceptionEnable. */
    method ExceptionEnable()
      modifies this`gic, this`trace
      ensures gic == old(gic).(exceptionsEnabled := true)
      ensures trace == old(trace) + [Call.ExceptionEnable]
    {
      gic := gic.(exceptionsEnabled := true);
      trace := trace + [Call.ExceptionEnable];
    }
  }
}
