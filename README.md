# Zynq-7000 GPIO and interrupt examples, modelled in Dafny

This project models three bare-metal teaching programs for a Zynq-7000 board.

- **Button counter** (`Zynq7000Interruptions/BtnLedCounterInterrupt.c`, module `Counter`). An interrupt handler adds the value read from the button channel to a counter and shows the counter on the LEDs. `main` sets the GPIO directions, connects the GPIO block's interrupt to the handler through the generic interrupt controller (GIC), enables exceptions, and then polls for ever.
- **Keypad decoder** (`Zynq7000Gpio/kypd_leds.c`, module `Keypad`). The program sweeps one low column line across a 4x4 keypad, reads the row lines, decodes the key with a nested `switch`, and shows its value on the LEDs.
- **LED blinker** (`Zynq7000Gpio/led_test.c`, module `Blink`). The program writes 0x9 to the LEDs, complements it, busy-waits, and repeats.

The Xilinx drivers are abstracted in module `Driver` (`driver.dfy`) as one `Board` object. It holds:

- the GPIO block's registers (`GpioRegs`): ready flag, per-channel direction and data, the interrupt-enable mask, the global enable, and the pending mask;
- the controller's state (`GicRegs`): ready, connected and enabled lines, and the three exception set-up flags;
- a trace of every driver call in order. Its `GpioDiscreteWrite` entries are the log of `(channel, value)` writes.

Each driver call is a method that updates this state in place and appends itself to the trace. Some calls can fail: `XGpio_Initialize`, `XScuGic_CfgInitialize` and `XScuGic_Connect`. Each of these takes the status it reports as a parameter and returns it. A read takes, as a parameter, the value the lines present.

The programs' endless `while (1)` loops are modelled up to a given number of passes. Their entry routines return an `Exit`: either `Returned(status)`, or `Looping` when the routine is still in its loop.

Points where the model follows the code rather than a plain reading of it:

- **The handler's early return leaves the interrupt disabled.** `BTN_Intr_Handler` disables the button interrupt before it tests the pending bit. When the bit is clear, it returns without re-enabling the interrupt. The model keeps this behaviour literally. `Counter.ScenarioSpuriousCall` shows that after a spurious call on a fully set-up board, the button interrupt stays disabled. This is a latent defect. The model keeps only the handler as written; no corrected handler is modelled. The model delivers a genuine event only while the interrupt is `Deliverable`: the button enable bit and the block's global enable are on, and the line is connected and enabled in the controller, whose dispatch routine is registered, with exceptions enabled (`Counter.CounterApp.Deliverable`). After the spurious call, the interrupt is no longer deliverable, so no further button interrupt reaches the handler.
- **Two different constants serve as the button mask.** `IntcInitFunction` enables interrupt mask `BTN_CHANNEL`, the channel number 2. The handler uses `BTN_INT`, which is `XGPIO_IR_CH2_MASK`. The model keeps both constants. `Counter.ChannelNumberIsChannelMask` states that they coincide. The value 0x2 of `XGPIO_IR_CH2_MASK` is the channel-2 bit of the AXI GPIO interrupt registers. The driver header that defines it (`xgpio_l.h`) is not part of this model.
- **The counter starts at zero.** `led_data` and `btn_value` are C statics, so they are zero-initialised.
- **The keypad's `cols` is never masked to four bits.** It grows 0xe, 0x1d, 0x3b, 0x77, 0xee, … The reset branch `if (cols == 0x7)` is therefore never taken (`Keypad.ColsNeverReset`). The low nibble still cycles through the four columns (`Keypad.ColsNibbleCycles`).
- **The keypad's first `led` is uninitialised.** It is a parameter (`ledInit`). The decode `switch` has no `default`, so an unrecognised pattern keeps the value shown before.
- **The keypad's `Delay` is never called.** It is modelled on its own. `counter -= counter` empties the counter in one pass.
- **`XScuGic_LookupConfig` may return NULL.** Its result is dereferenced at `BtnLedCounterInterrupt.c:154` without a NULL check. This is a defect that the model does not capture; see "Left out".

## Model

| member | source | states |
|---|---|---|
| Driver.Unsigned | Zynq7000Interruptions/BtnLedCounterInterrupt.c:88 | The `u32` the driver returns, read into the `int` `btn_value` as a non-negative integer. It carries no contract of its own; `Counter.Sum` and its lemmas use it. |
| Driver.ToWord | Zynq7000Interruptions/BtnLedCounterInterrupt.c:93 | C's conversion of the `int` counter to the driver's `u32` argument: the counter reduced modulo 2^32, as a 32-bit word. It carries no contract of its own. |
| Driver.Board.constructor | Zynq7000Interruptions/BtnLedCounterInterrupt.c:42-45 | A fresh pair of driver instances: nothing initialised, nothing connected or enabled, and an empty trace. The register values it starts from (all zero) are the model's choice, not the hardware's reset values; they show only in the exact records that the example methods state. |
| Driver.Board.GpioInitialize | Zynq7000Interruptions/BtnLedCounterInterrupt.c:112 | Returns the driver's status; the GPIO block is ready exactly when that status is XST_SUCCESS; the call is logged. |
| Driver.Board.GpioSetDataDirection | Zynq7000Interruptions/BtnLedCounterInterrupt.c:117-120 | Only the named channel's direction mask is set to the argument; the call is logged. |
| Driver.Board.GpioDiscreteRead | Zynq7000Interruptions/BtnLedCounterInterrupt.c:88 | Returns what the channel's lines present; no register changes; the call is logged. |
| Driver.Board.GpioDiscreteWrite | Zynq7000Interruptions/BtnLedCounterInterrupt.c:93 | Only the named channel's data register takes the value; the write is logged with its channel and value. |
| Driver.Board.GpioInterruptEnable | Zynq7000Interruptions/BtnLedCounterInterrupt.c:99 | The mask's bits are set in the enable register and nothing else changes; the call is logged. |
| Driver.Board.GpioInterruptDisable | Zynq7000Interruptions/BtnLedCounterInterrupt.c:81 | The mask's bits are cleared in the enable register and nothing else changes; the call is logged. |
| Driver.Board.GpioInterruptClear | Zynq7000Interruptions/BtnLedCounterInterrupt.c:96 | The mask's bits are cleared in the pending register and nothing else changes; the call is logged. |
| Driver.Board.GpioInterruptGetStatus | Zynq7000Interruptions/BtnLedCounterInterrupt.c:84 | Returns the pending register unchanged; the call is logged. |
| Driver.Board.GpioInterruptGetEnabled | Zynq7000Interruptions/BtnLedCounterInterrupt.c:135 | Returns the enable register unchanged; the call is logged. |
| Driver.Board.GpioInterruptGlobalEnable | Zynq7000Interruptions/BtnLedCounterInterrupt.c:169 | Turns on the block's global interrupt enable and nothing else; the call is logged. |
| Driver.Board.RaisePending | Zynq7000Interruptions/BtnLedCounterInterrupt.c:84-85 | The hardware latching an interrupt sets the mask's bits in the pending register; it is not a driver call and is not logged. |
| Driver.Board.GicLookupConfig | Zynq7000Interruptions/BtnLedCounterInterrupt.c:152 | The lookup is logged and changes no state. |
| Driver.Board.GicCfgInitialize | Zynq7000Interruptions/BtnLedCounterInterrupt.c:154 | Returns the driver's status; the controller is ready exactly when that status is XST_SUCCESS; the call is logged. |
| Driver.Board.GicConnect | Zynq7000Interruptions/BtnLedCounterInterrupt.c:158-161 | Returns the driver's status; the line is connected on success, and the controller state is unchanged on failure; the call is logged either way. |
| Driver.Board.GicEnable | Zynq7000Interruptions/BtnLedCounterInterrupt.c:165 | The line is added to the enabled lines and nothing else changes; the call is logged. |
| Driver.Board.ExceptionInit | Zynq7000Interruptions/BtnLedCounterInterrupt.c:176 | The exception table is marked initialised and nothing else changes; the call is logged. |
| Driver.Board.ExceptionRegisterHandler | Zynq7000Interruptions/BtnLedCounterInterrupt.c:178-180 | The controller's dispatch routine is registered for the IRQ exception and nothing else changes; the call is logged. |
| Driver.Board.ExceptionEnable | Zynq7000Interruptions/BtnLedCounterInterrupt.c:183 | Exceptions are marked enabled and nothing else changes; the call is logged. |
| Counter.EnableAfterDisable | Zynq7000Interruptions/BtnLedCounterInterrupt.c:81-99 | Disabling and later re-enabling the button interrupt bit leaves the enable register as enabling alone would. |
| Counter.ClearAfterLatch | Zynq7000Interruptions/BtnLedCounterInterrupt.c:84-96 | Acknowledging the button's pending bit after the hardware latched it leaves the pending register as acknowledging alone would. |
| Counter.MainPrologueCalls | Zynq7000Interruptions/BtnLedCounterInterrupt.c:112-120 | The calls main makes before IntcInitFunction: the GPIO initialisation, LED direction 0x00, then button direction 0xFF. It carries no contract of its own. |
| Counter.IntcInitCalls | Zynq7000Interruptions/BtnLedCounterInterrupt.c:152-183 | The calls of a fully successful IntcInitFunction: lookup, controller initialisation, connect, then the enable calls. It carries no contract of its own. |
| Counter.EnableCalls | Zynq7000Interruptions/BtnLedCounterInterrupt.c:165-183 | The six calls after a successful connect, in code order: GIC enable, button interrupt enable, global enable, exception table, dispatch registration, exception enable. It carries no contract of its own. |
| Counter.IdleCalls | Zynq7000Interruptions/BtnLedCounterInterrupt.c:132-136 | The calls of n passes of main's idle loop: a status read and then an enable read per pass. It carries no contract of its own. |
| Counter.Pending | Zynq7000Interruptions/BtnLedCounterInterrupt.c:84-85 | The handler's guard: every bit of BTN_INT is set in the pending mask. A predicate, with no contract of its own. |
| Counter.GuardCalls | Zynq7000Interruptions/BtnLedCounterInterrupt.c:81-84 | The two calls before the guard: disabling BTN_INT, then reading the pending mask. It carries no contract of its own. |
| Counter.CountCalls | Zynq7000Interruptions/BtnLedCounterInterrupt.c:88-99 | The four calls past the guard: the button read, the LED write of the shown value, the acknowledge and the re-enable of BTN_INT. It carries no contract of its own. |
| Counter.OneEventCalls | Zynq7000Interruptions/BtnLedCounterInterrupt.c:81-99 | The six calls of one genuine event, the LED write showing the counter after it. It carries no contract of its own. |
| Counter.EventCalls | Zynq7000Interruptions/BtnLedCounterInterrupt.c:81-99 | The calls of successive genuine events, each showing the running total of the samples. Its properties are EventCallsLength and EventCallsShowCounter. |
| Counter.Sum | Zynq7000Interruptions/BtnLedCounterInterrupt.c:91 | The total the counter grows by over a run of samples, each read as an unsigned value. Its properties are SumStep, SumAppend and SumBounds. |
| Counter.ChannelNumberIsChannelMask | Zynq7000Interruptions/BtnLedCounterInterrupt.c:36-39 | The channel number BTN_CHANNEL, read as the mask enabled at line 168, equals BTN_INT, the mask the handler uses. |
| Counter.SumBounds | Zynq7000Interruptions/BtnLedCounterInterrupt.c:91 | Over samples from the eight input lines, the counter's total growth is at least 0 and at most 255 per event. |
| Counter.SumStep | Zynq7000Interruptions/BtnLedCounterInterrupt.c:91 | One more event adds its sample to the counter's total growth. |
| Counter.EventCallsStep | Zynq7000Interruptions/BtnLedCounterInterrupt.c:81-99 | One more event appends its six calls, showing the counter after it, to the calls of the events before it. |
| Counter.EventTraceStep | Zynq7000Interruptions/BtnLedCounterInterrupt.c:81-99 | The calls of one more event, appended to the trace of the first i events, give the trace of the first i + 1 events. |
| Counter.EventCallsLength | Zynq7000Interruptions/BtnLedCounterInterrupt.c:81-99 | Each genuine event makes six driver calls. |
| Counter.EventCallsShowCounter | Zynq7000Interruptions/BtnLedCounterInterrupt.c:91-93 | The LED write of event k shows the counter after the first k + 1 samples: the LEDs equal the counter at the end of every completed handler run. |
| Counter.SumAppend | Zynq7000Interruptions/BtnLedCounterInterrupt.c:91 | The growth over two runs of events is the sum of the growth over each run. |
| Counter.CounterApp.constructor | Zynq7000Interruptions/BtnLedCounterInterrupt.c:47-48 | `led_data` and `btn_value` start at zero, as C statics do. |
| Counter.CounterApp.BtnIntrHandler | Zynq7000Interruptions/BtnLedCounterInterrupt.c:66-100 | With the pending bit set: `btn_value` is the sample; `led_data` grows by it; exactly the new `led_data` is written to the LEDs; the pending bit ends clear and the enable bit set; the six calls are made in source order. With the pending bit clear: the counters are unchanged; there is no LED write; the only calls are the disable and the status read; the enable bit ends cleared. |
| Counter.CounterApp.CountEvent | Zynq7000Interruptions/BtnLedCounterInterrupt.c:88-99 | Past the guard: `btn_value` is the sample, `led_data` grows by it, exactly the new `led_data` is written to the LEDs, the pending bit ends clear and the enable bit set, and the read, write, clear and enable calls are made in that order. Only the LED data, pending and enable registers change. |
| Counter.CounterApp.IntcInitFunction | Zynq7000Interruptions/BtnLedCounterInterrupt.c:145-187 | Returns XST_SUCCESS exactly when the initialisation and the connection both succeed. If initialisation fails, Connect is never called. If the connection fails, nothing is enabled. On success, all calls are made in source order (the GIC enable before both GPIO enables), mask 2 and the global enable are on, and the line is connected and enabled with exceptions set up. |
| Counter.CounterApp.EnableInterrupts | Zynq7000Interruptions/BtnLedCounterInterrupt.c:164-183 | After a successful connection: the line is enabled in the GIC, then mask 2 and the global enable are turned on in the GPIO block, then the exception table is set up, the dispatch routine registered and exceptions enabled, in that order. |
| Counter.CounterApp.IdleLoop | Zynq7000Interruptions/BtnLedCounterInterrupt.c:132-136 | Each pass only reads the pending and then the enable register; no register, flag or counter changes. |
| Counter.CounterApp.Run | Zynq7000Interruptions/BtnLedCounterInterrupt.c:105-139 | main returns XST_FAILURE at the first failing setup step. If GPIO initialisation fails, no direction is set and no controller call is made. Otherwise LED direction is 0x00 and button direction 0xFF. After a full setup main is still looping, with the whole trace in source order, the button interrupt enabled at both levels, and the line connected and enabled: the interrupt is deliverable. |
| Counter.CounterApp.Deliverable | Zynq7000Interruptions/BtnLedCounterInterrupt.c:158-183 | Not code of the program: the condition under which the environment delivers a button interrupt to the handler, namely the enables that IntcInitFunction turns on at these lines (line connected at 158-161, line enabled, button enable bit, global enable, dispatch routine registered, exceptions enabled). A predicate, with no contract of its own. |
| Counter.Acknowledged | Zynq7000Interruptions/BtnLedCounterInterrupt.c:93-99 | The GPIO record after genuine events: the LEDs show the given value, the button pending bit is clear and the button enable bit set, and all else is as before. It carries no contract of its own. |
| Counter.AcknowledgedTwice | Zynq7000Interruptions/BtnLedCounterInterrupt.c:93-99 | A further event on an acknowledged record only changes what the LEDs show. |
| Counter.CounterApp.DeliverOne | Zynq7000Interruptions/BtnLedCounterInterrupt.c:81-99 | One genuine event while deliverable: `btn_value` is the sample, `led_data` grows by it, the six calls are logged, only the LEDs, the button pending bit and the button enable bit change, and the interrupt stays deliverable. |
| Counter.CounterApp.DeliverGenuineEvents | Zynq7000Interruptions/BtnLedCounterInterrupt.c:81-99 | Events are delivered only while the interrupt is deliverable, and it stays deliverable. After one genuine event per sample, `led_data` is its start value plus the sum of the samples and `btn_value` is the last sample. The trace gains exactly the six calls of each event in order, each event's LED write showing the counter after it. The GPIO record differs from the start only in the LEDs showing the counter, the button pending bit being clear and the button enable bit set. |
| Counter.ScenarioTwoPresses | Zynq7000Interruptions/BtnLedCounterInterrupt.c:88-93 | From power-on, two handler runs with the pending bit latched and samples 3 and then 5 make the counter read 3 and then 8, and the LEDs show 8. |
| Counter.ScenarioZeroSample | Zynq7000Interruptions/BtnLedCounterInterrupt.c:91-93 | A sample of 0 leaves the counter at 3, but the handler still writes 3 to the LEDs a second time. |
| Counter.ScenarioSpuriousCall | Zynq7000Interruptions/BtnLedCounterInterrupt.c:81-87 | After a full setup the interrupt is deliverable. A handler call with the pending bit clear leaves the button interrupt disabled, so the interrupt is no longer deliverable, and the counter stays at 0. |
| Keypad.Nibble | Zynq7000Gpio/kypd_leds.c:123 | `cols & 0x0000000f`: the result fits four bits, and a value that already fits is unchanged. |
| Keypad.RowSwitch | Zynq7000Gpio/kypd_leds.c:125-141 | One inner `switch(rows)` (the same shape at 144-160, 163-179 and 182-198): for rows 0xf, 0xe, 0xd, 0xb or 0x7, one of that column's five values; for any other rows, `led` unchanged, as there is no default. |
| Keypad.Decode | Zynq7000Gpio/kypd_leds.c:123-200 | For a one-cold column nibble and a row value of 0xf, 0xe, 0xd, 0xb or 0x7, the switch's value, which fits four bits; for any other input, `led` unchanged. |
| Keypad.OneCold | Zynq7000Gpio/kypd_leds.c:124-198 | Each of the four case labels 0xe, 0xd, 0xb and 0x7 is 0xf with exactly the bit of its line cleared. |
| Keypad.DecodeNoKey | Zynq7000Gpio/kypd_leds.c:126-127 | With every row line high (0xf), every column decodes to 0. |
| Keypad.DecodeRecognised | Zynq7000Gpio/kypd_leds.c:123-200 | When both the column and the row pattern are recognised, the value shown does not depend on the previous one and fits four bits. Otherwise, having no default case, the previous value is kept. |
| Keypad.DecodeInRange | Zynq7000Gpio/kypd_leds.c:123-200 | Every value shown lies in 0..15 when the previous one did. |
| Keypad.KeyOf | Zynq7000Gpio/kypd_leds.c:123-200 | Every value 0..15 names a key position on the 4x4 keypad. |
| Keypad.DecodeColumn | Zynq7000Gpio/kypd_leds.c:124-198 | Within one column's inner switch, row line r low selects that column's entry for row r. |
| Keypad.DecodeKey | Zynq7000Gpio/kypd_leds.c:124-198 | Decoding the pattern of each key position gives the entry of KEY_VALUES, the switch's own table written out row by row: (0xe,0xe)→0x1, (0xd,0x7)→0x0, (0xb,0x7)→0xf, (0x7,0x7)→0xd, and so on. |
| Keypad.KeyOfDecodes | Zynq7000Gpio/kypd_leds.c:123-200 | Each value 0..15 is shown by the key KeyOf names; that no other key shows it is DecodeKeysDistinct. |
| Keypad.DecodeKeyOf | Zynq7000Gpio/kypd_leds.c:123-200 | Decoding a key and looking up its value gives back the same key. |
| Keypad.DecodeKeysDistinct | Zynq7000Gpio/kypd_leds.c:123-200 | Two different keys never show the same value. |
| Keypad.NoKeyLooksLikeKeyZero | Zynq7000Gpio/kypd_leds.c:126-127 | No key pressed and the key at row 3 and column 1 both show 0, so the display cannot tell them apart. |
| Keypad.NextCols | Zynq7000Gpio/kypd_leds.c:205-212 | The reset-or-rotate step: 0xe after 0x7, otherwise the unmasked left shift with bit 3 brought round into bit 0. It carries no contract of its own; its properties are NextColsRotatesNibble and ReachableStep. |
| Keypad.ColsAfter | Zynq7000Gpio/kypd_leds.c:205-212 | `cols` after k passes. Its properties are ColsNibbleCycles, ColsNeverReset and ColsAfterShift. |
| Keypad.NextColsRotatesNibble | Zynq7000Gpio/kypd_leds.c:205-212 | Whatever `cols` holds, the next low nibble is the 4-bit left rotation of the current low nibble, although the shift is unmasked. |
| Keypad.RotateOneCold | Zynq7000Gpio/kypd_leds.c:209-211 | The rotation moves the single low line to the next column, wrapping from 3 to 0. |
| Keypad.ColsNibbleCycles | Zynq7000Gpio/kypd_leds.c:205-212 | From 0xe, after k passes the low nibble is the pattern for column k mod 4: 0xe, 0xd, 0xb, 0x7 and then repeating. |
| Keypad.ReachableStep | Zynq7000Gpio/kypd_leds.c:205-212 | A reachable `cols` is never 0x7, and the next one is reachable too. |
| Keypad.ColsNeverReset | Zynq7000Gpio/kypd_leds.c:205-207 | `cols` never equals 0x7, so the reset branch is dead. |
| Keypad.ColsAfterShift | Zynq7000Gpio/kypd_leds.c:205-212 | k + 1 passes from `cols` are k passes from its successor. |
| Keypad.PassCalls | Zynq7000Gpio/kypd_leds.c:115-203 | The three calls of one pass: the column write to channel 2 (line 115), the read of channel 2 (line 118) and the LED write to channel 1 (line 203). It carries no contract of its own. |
| Keypad.Shown | Zynq7000Gpio/kypd_leds.c:118-200 | The read shifted right by four and decoded against the column nibble: it fits four bits when the previous value did, and a column nibble that is not one-cold keeps the previous value. |
| Keypad.ScanCalls | Zynq7000Gpio/kypd_leds.c:113-213 | The calls of successive passes, one per read value. Its properties are ScanCallsLength, ScanCallsAppend and ScanCallsSnoc. |
| Keypad.LedAfter | Zynq7000Gpio/kypd_leds.c:113-213 | The value shown after successive passes. Its properties are LedAfterAppend and ScanCallsSnoc. |
| Keypad.ScanCallsLength | Zynq7000Gpio/kypd_leds.c:115-203 | Each pass makes exactly three driver calls. |
| Keypad.ScanCallsAppend | Zynq7000Gpio/kypd_leds.c:113-213 | A sweep over two runs of reads makes the calls of the first run, then those of a sweep over the second run from the column pattern and shown value where the first run ended. |
| Keypad.LedAfterAppend | Zynq7000Gpio/kypd_leds.c:113-213 | The value shown after two runs of reads is the value the second run shows when started where the first run ended: the loop carries no state but `cols` and `led`. |
| Keypad.ScanCallsSnoc | Zynq7000Gpio/kypd_leds.c:114-203 | Pass k writes the k-th column pattern to channel 2, reads channel 2, and writes to channel 1 its read decoded against the value the passes before it left; that value is what the sweep then shows. |
| Keypad.SweepStep | Zynq7000Gpio/kypd_leds.c:113-213 | The calls of one more pass, appended to the trace of the first i passes, give the trace of the first i + 1 passes. |
| Keypad.ScanShowsPressedKey | Zynq7000Gpio/kypd_leds.c:113-213 | From 0xe, pass k drives column k mod 4 low. When that pass reads only row r low, it writes to the LEDs the value of the key at row r and that column, whatever was shown before. |
| Keypad.Delay | Zynq7000Gpio/kypd_leds.c:217-221 | The loop runs once and ends with `counter == 0`. |
| Keypad.ScanPass | Zynq7000Gpio/kypd_leds.c:114-212 | One pass writes `cols` to channel 2, reads channel 2, decodes the read shifted right by four, and writes the decoded value to channel 1. The next `cols` follows the reset-or-rotate rule. Only the two data registers change. |
| Keypad.Sweep | Zynq7000Gpio/kypd_leds.c:113-213 | n passes append exactly the n passes' calls to the trace and end in the column pattern and shown value after n passes. |
| Keypad.KeypadLedOutputExample | Zynq7000Gpio/kypd_leds.c:93-214 | If initialisation fails, returns XST_FAILURE with no direction set and no write. Otherwise LED direction is 0x0 and keypad direction 0xf0, both set before the sweep, whose calls follow in order, and the function is still looping. The GPIO record then differs from the start only in those directions, the ready flag, and, after at least one pass, the last LED value and column pattern; the interrupt registers are untouched. |
| Blink.Complement | Zynq7000Gpio/led_test.c:134 | `led = ~led`: every bit inverted. It carries no contract of its own; its properties are ComplementTwice and FirstWrites. |
| Blink.Pattern | Zynq7000Gpio/led_test.c:134 | The pattern after k complements. Its properties are PatternShift and PatternParity. |
| Blink.BlinkCalls | Zynq7000Gpio/led_test.c:129-138 | The LED writes of n rounds from a start pattern. Its properties are BlinkCallsLength, BlinkCallsAt, BlinkCallsSnoc, BlinkComplements and BlinkPeriodTwo. |
| Blink.ComplementTwice | Zynq7000Gpio/led_test.c:134 | Complementing twice gives the pattern back. |
| Blink.PatternShift | Zynq7000Gpio/led_test.c:134 | Complementing once and then k times is complementing k + 1 times. |
| Blink.PatternParity | Zynq7000Gpio/led_test.c:134 | After an even number of complements the pattern is the original, and after an odd number it is the complement. |
| Blink.BlinkCallsLength | Zynq7000Gpio/led_test.c:129-138 | Each round makes exactly one LED write. |
| Blink.BlinkCallsAt | Zynq7000Gpio/led_test.c:131-134 | Write k is the start pattern complemented k times, on channel 1. |
| Blink.FirstWrites | Zynq7000Gpio/led_test.c:131-134 | The first write is 0x9. The second is its complement 0xFFFFFFF6, whose four LED bits are 0x6. |
| Blink.BlinkComplements | Zynq7000Gpio/led_test.c:131-134 | Every write after the first is the bitwise complement of the one before it. |
| Blink.BlinkPeriodTwo | Zynq7000Gpio/led_test.c:134 | The writes repeat with period two. |
| Blink.BlinkCallsSnoc | Zynq7000Gpio/led_test.c:129-138 | Round n + 1 appends one write, of the start pattern complemented n times, to the writes of the first n rounds. |
| Blink.BlinkStep | Zynq7000Gpio/led_test.c:129-138 | The write of one more round, appended to the trace of the first i rounds from 0x9, gives the trace of the first i + 1 rounds. |
| Blink.DelayLoop | Zynq7000Gpio/led_test.c:137 | The busy-wait runs exactly LED_DELAY iterations and ends with `Delay == LED_DELAY`. |
| Blink.LedOutputExample | Zynq7000Gpio/led_test.c:112-141 | If initialisation fails, returns XST_FAILURE with no direction set and no write. Otherwise LED direction is 0x0 before the first write, and n rounds write the alternating patterns from 0x9 in order. The GPIO record then differs from the start only in the ready flag, the LED direction and, after at least one round, the LEDs showing the last round's pattern; the function is still looping. |

## Left out

- Driver.Board.constructor: the registers' power-on values are not modelled. AXI GPIO resets its direction registers to all inputs by default, while the model starts every register at zero. Every program here writes the directions before using a channel.
- Driver internals (`XGpio_*`, `XScuGic_*`, `Xil_Exception*`): this code is not shown. Each driver call is modelled only by the state named above, and any register behaviour beyond the masks the programs use is left out.
- Device IDs and instance pointers: these only select hardware. The controller's interrupt line is a parameter (`intrId`).
- The `XScuGic_LookupConfig` result, dereferenced without a NULL check (`BtnLedCounterInterrupt.c:154`): pointers are not modelled. A NULL result would be a crash on the board, which the model does not capture.
- Interrupt asynchrony and preemption: each handler run is one atomic method call. The real dispatch path through the controller and the exception table is not modelled. The environment delivers events through `DeliverGenuineEvents`, which requires the interrupt to be deliverable. The scenarios also call the handler directly, as the handler does not itself look at the enables.
- Non-termination: every `while (1)` loop is modelled for a given number of passes. The statement `return 0;` after main's loop and the `return XST_SUCCESS;` after the blinker's loop are unreachable.
- `xil_printf` and the `main` wrappers in `kypd_leds.c` and `led_test.c`: these only print a message and return 0.
- C signed overflow of `led_data`: the counter is an unbounded integer. The LEDs receive it reduced modulo 2^32, which is C's conversion to the driver's `u32`.
- Counter.CounterApp.BtnIntrHandler: `btn_value` is the `u32` sample read as a non-negative integer. The conversion of a sample of 2^31 or more to a negative C `int` is not modelled, because the button channel has only eight input lines.
- Keypad.ScanPass: the read value is shifted as an unsigned 32-bit word. C's shift of a negative `int` (a read with bit 31 set) is not modelled, because the keypad channel has only eight lines.
- Keypad.Sweep: the unmasked `cols << 1` is a 32-bit wrap-around. The C `int` shift that overflows after about 28 passes (undefined behaviour) is modelled as that wrap, which leaves the low nibble's rotation intact.
- The `volatile` qualifier on the blinker's `Delay` and the timing of the busy-waits: time is not modelled, only the iteration counts.
