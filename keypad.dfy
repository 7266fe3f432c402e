/**
 * The keypad-to-LED example (Zynq7000Gpio/kypd_leds.c): GPIO channel 2
 * drives the keypad's four column lines (low nibble, outputs) and senses its
 * four row lines (high nibble, inputs); the loop sweeps a single low column,
 * decodes the key from the column and row patterns and shows it on the LEDs
 * (channel 1).
 *
 * `cols` is a C `int` that the sweep shifts left without masking, so it keeps
 * growing; it is modelled as a 32-bit word, wrapping where the C shift would
 * overflow.
 */
module Keypad {
  import opened Driver

  /** GPIO channel 1 drives the LEDs. */
  const LED_CHANNEL: Channel := 1
  /** GPIO channel 2 is wired to the keypad. */
  const KEYPAD_CHANNEL: Channel := 2
  /** The first column pattern: column line 0 low. */
  const COLS_INIT: Word := 0xe

  /** The pattern of a group of four lines with only line `i` low. */
  function OneCold(i: nat): (p: Word)
    requires i < 4
    ensures p == 0xf ^ (1 << i)
  {
    if i == 0 then 0xe else if i == 1 then 0xd else if i == 2 then 0xb else 0x7
  }

  /** The low nibble: the column lines of the keypad channel. */
  function Nibble(w: Word): (n: Word)
    ensures n <= 0xf
    ensures w <= 0xf ==> n == w
  {
    w & 0xf
  }

  /** A column or row pattern with exactly one line low. */
  predicate IsOneCold(p: Word)
  {
    p == 0xe || p == 0xd || p == 0xb || p == 0x7
  }

  /**
   * The inner `switch (rows)` for one column: five cases, the values for
   * no row low and for rows 0 to 3 low, and no default, so any other row
   * value leaves `led` as it was.
   */
  function RowSwitch(rows: Word, led: Word, none: Word, row0: Word, row1: Word, row2: Word, row3: Word): (v: Word)
    ensures rows == 0xf || IsOneCold(rows) ==> v in {none, row0, row1, row2, row3}
    ensures !(rows == 0xf || IsOneCold(rows)) ==> v == led
  {
    if rows == 0xf then none
    else if rows == 0xe then row0
    else if rows == 0xd then row1
    else if rows == 0xb then row2
    else if rows == 0x7 then row3
    else led
  }

  /**
   * The outer `switch (cols & 0xf)`: the value shown for column pattern
   * `nibble` and row pattern `rows`, with `led` the value shown before.
   */
  function Decode(nibble: Word, rows: Word, led: Word): (v: Word)
    ensures IsOneCold(nibble) && (rows == 0xf || IsOneCold(rows)) ==> v <= 0xf
    ensures !(IsOneCold(nibble) && (rows == 0xf || IsOneCold(rows))) ==> v == led
  {
    if nibble == 0xe then RowSwitch(rows, led, 0x0, 0x1, 0x4, 0x7, 0xe)
    else if nibble == 0xd then RowSwitch(rows, led, 0x0, 0x2, 0x5, 0x8, 0x0)
    else if nibble == 0xb then RowSwitch(rows, led, 0x0, 0x3, 0x6, 0x9, 0xf)
    else if nibble == 0x7 then RowSwitch(rows, led, 0x0, 0xa, 0xb, 0xc, 0xd)
    else led
  }

  /** With no row line low the display shows 0, whichever column is driven. */
  lemma DecodeNoKey(nibble: Word, led: Word)
    requires IsOneCold(nibble)
    ensures Decode(nibble, 0xf, led) == 0
  {
  }

  /**
   * A recognised column and row pattern decide the value on their own, and it
   * fits the four LEDs; any other pattern leaves the previous value.
   */
  lemma DecodeRecognised(nibble: Word, rows: Word, led: Word, led': Word)
    ensures IsOneCold(nibble) && (rows == 0xf || IsOneCold(rows)) ==>
      Decode(nibble, rows, led) == Decode(nibble, rows, led') && Decode(nibble, rows, led) <= 0xf
    ensures !(IsOneCold(nibble) && (rows == 0xf || IsOneCold(rows))) ==> Decode(nibble, rows, led) == led
  {
  }

  /** Every value shown fits the four LEDs when the previous one did. */
  lemma DecodeInRange(nibble: Word, rows: Word, led: Word)
    requires led <= 0xf
    ensures Decode(nibble, rows, led) <= 0xf
  {
    DecodeRecognised(nibble, rows, led, led);
  }

  /** The key at row line `row` and column line `col`, as the position of one key. */
  datatype Key = Key(row: nat, col: nat)

  predicate ValidKey(k: Key)
  {
    k.row < 4 && k.col < 4
  }

  /**
   * The values the nested switch assigns, written out by row line and then
   * column line: the switch's own table, not a separate keypad legend.
   */
  const KEY_VALUES: seq<seq<Word>> :=
    [[0x1, 0x2, 0x3, 0xa],
     [0x4, 0x5, 0x6, 0xb],
     [0x7, 0x8, 0x9, 0xc],
     [0xe, 0x0, 0xf, 0xd]]

  /** The position whose key the table shows as `v`: the inverse of KEY_VALUES. */
  function KeyOf(v: Word): (k: Key)
    requires v <= 0xf
    ensures ValidKey(k)
  {
    if v == 0x0 then Key(3, 1)
    else if v == 0x1 then Key(0, 0) else if v == 0x2 then Key(0, 1) else if v == 0x3 then Key(0, 2)
    else if v == 0x4 then Key(1, 0) else if v == 0x5 then Key(1, 1) else if v == 0x6 then Key(1, 2)
    else if v == 0x7 then Key(2, 0) else if v == 0x8 then Key(2, 1) else if v == 0x9 then Key(2, 2)
    else if v == 0xa then Key(0, 3) else if v == 0xb then Key(1, 3) else if v == 0xc then Key(2, 3)
    else if v == 0xd then Key(3, 3) else if v == 0xe then Key(3, 0) else Key(3, 2)
  }

  /** Pressing the key at `k` while its column is driven low shows KEY_VALUES at `k`. */
  lemma DecodeKey(k: Key, led: Word)
    requires ValidKey(k)
    ensures Decode(OneCold(k.col), OneCold(k.row), led) == KEY_VALUES[k.row][k.col]
  {
    var rows := OneCold(k.row);
    if k.col == 0 {
      DecodeColumn(rows, led, 0xe, k.row, [0x1, 0x4, 0x7, 0xe]);
    } else if k.col == 1 {
      DecodeColumn(rows, led, 0xd, k.row, [0x2, 0x5, 0x8, 0x0]);
    } else if k.col == 2 {
      DecodeColumn(rows, led, 0xb, k.row, [0x3, 0x6, 0x9, 0xf]);
    } else {
      DecodeColumn(rows, led, 0x7, k.row, [0xa, 0xb, 0xc, 0xd]);
    }
  }

  /** One column of the decode table: row line `row` low shows that column's entry for the row. */
  lemma DecodeColumn(rows: Word, led: Word, nibble: Word, row: nat, column: seq<Word>)
    requires row < 4 && rows == OneCold(row)
    requires nibble == 0xe ==> column == [0x1, 0x4, 0x7, 0xe]
    requires nibble == 0xd ==> column == [0x2, 0x5, 0x8, 0x0]
    requires nibble == 0xb ==> column == [0x3, 0x6, 0x9, 0xf]
    requires nibble == 0x7 ==> column == [0xa, 0xb, 0xc, 0xd]
    requires IsOneCold(nibble)
    ensures Decode(nibble, rows, led) == column[row]
  {
    if row == 0 {
      assert rows == 0xe;
    } else if row == 1 {
      assert rows == 0xd;
    } else if row == 2 {
      assert rows == 0xb;
    } else {
      assert rows == 0x7;
    }
  }

  /** Every value 0..15 is shown by the key KeyOf names (and, by DecodeKeysDistinct, by no other). */
  lemma KeyOfDecodes(v: Word, led: Word)
    requires v <= 0xf
    ensures Decode(OneCold(KeyOf(v).col), OneCold(KeyOf(v).row), led) == v
  {
    DecodeKey(KeyOf(v), led);
  }

  /** Decoding a key and looking its value up again gives the key back. */
  lemma DecodeKeyOf(k: Key, led: Word)
    requires ValidKey(k)
    ensures Decode(OneCold(k.col), OneCold(k.row), led) <= 0xf
    ensures KeyOf(Decode(OneCold(k.col), OneCold(k.row), led)) == k
  {
    DecodeKey(k, led);
  }

  /** Two different keys never show the same value. */
  lemma {:induction false} DecodeKeysDistinct(k1: Key, k2: Key, led: Word)
    requires ValidKey(k1) && ValidKey(k2)
    requires Decode(OneCold(k1.col), OneCold(k1.row), led) == Decode(OneCold(k2.col), OneCold(k2.row), led)
    ensures k1 == k2
  {
    DecodeKeyOf(k1, led);
    DecodeKeyOf(k2, led);
  }

  /** No key pressed and the key at row 3, column 1 both show 0. */
  lemma NoKeyLooksLikeKeyZero(nibble: Word, led: Word)
    requires IsOneCold(nibble)
    ensures Decode(nibble, 0xf, led) == Decode(OneCold(1), OneCold(3), led) == 0
  {
  }

  /** A 4-bit left rotation. */
  function RotateLeft4(n: Word): Word
  {
    ((n << 1) | (n >> 3)) & 0xf
  }

  /**
   * The column update at the end of each pass: reset from 0x7, otherwise
   * shift left and bring bit 3 round into bit 0. The shift is not masked.
   */
  function NextCols(cols: Word): Word
  {
    if cols == 0x7 then 0xe else (cols << 1) | ((cols >> 3) & 1)
  }

  /** Whatever `cols` holds, its next low nibble is the 4-bit left rotation of its low nibble. */
  lemma NextColsRotatesNibble(cols: Word)
    ensures Nibble(NextCols(cols)) == RotateLeft4(Nibble(cols))
  {
  }

  /** The rotation moves the single low line to the next column. */
  lemma RotateOneCold(i: nat)
    requires i < 4
    ensures RotateLeft4(OneCold(i)) == OneCold((i + 1) % 4)
  {
  }

  /** `cols` after `k` passes of the sweep. */
  function ColsAfter(cols: Word, k: nat): Word
  {
    if k == 0 then cols else NextCols(ColsAfter(cols, k - 1))
  }

  /** Starting from 0xe, the low nibble cycles 0xe, 0xd, 0xb, 0x7 and then repeats. */
  lemma {:induction false} ColsNibbleCycles(k: nat)
    ensures Nibble(ColsAfter(COLS_INIT, k)) == OneCold(k % 4)
  {
    if k > 0 {
      ColsNibbleCycles(k - 1);
      NextColsRotatesNibble(ColsAfter(COLS_INIT, k - 1));
      RotateOneCold((k - 1) % 4);
      assert ((k - 1) % 4 + 1) % 4 == k % 4;
    }
  }

  /**
   * The low byte of every value the sweep reaches from 0xe: the unmasked
   * shift carries the pattern into bits 4..7, so the low byte follows
   * 0x0e, 0x1d, 0x3b, 0x77 and then 0xee, 0xdd, 0xbb, 0x77, ...
   */
  predicate Reachable(cols: Word)
  {
    var low := cols & 0xff;
    low == 0x0e || low == 0x1d || low == 0x3b || low == 0x77 || low == 0xee || low == 0xdd || low == 0xbb
  }

  /** A reachable value is never 0x7, and the next one is reachable again. */
  lemma ReachableStep(cols: Word)
    requires Reachable(cols)
    ensures cols != 0x7 && Reachable(NextCols(cols))
  {
  }

  /** The sweep never holds 0x7, so the reset branch `cols = 0xe` is never taken. */
  lemma {:induction false} ColsNeverReset(k: nat)
    ensures Reachable(ColsAfter(COLS_INIT, k))
    ensures ColsAfter(COLS_INIT, k) != 0x7
  {
    if k > 0 {
      ColsNeverReset(k - 1);
      ReachableStep(ColsAfter(COLS_INIT, k - 1));
    }
    ReachableStep(ColsAfter(COLS_INIT, k));
  }

  /** One pass further from `cols` is one pass less from NextCols(cols). */
  lemma {:induction false} ColsAfterShift(cols: Word, k: nat)
    ensures ColsAfter(NextCols(cols), k) == ColsAfter(cols, k + 1)
  {
    if k > 0 {
      ColsAfterShift(cols, k - 1);
    }
  }

  /**
   * The calls of one pass: write the column pattern `cols` to the keypad,
   * read the keypad, write the value `shown` to the LEDs.
   */
  function PassCalls(cols: Word, shown: Word): seq<Call>
  {
    [Call.GpioDiscreteWrite(KEYPAD_CHANNEL, cols), Call.GpioDiscreteRead(KEYPAD_CHANNEL),
     Call.GpioDiscreteWrite(LED_CHANNEL, shown)]
  }

  /** The value pass `cols` shows when the keypad presents `sensed`, `led` having been shown before. */
  function Shown(cols: Word, led: Word, sensed: Word): (v: Word)
    ensures led <= 0xf ==> v <= 0xf
    ensures !IsOneCold(Nibble(cols)) ==> v == led
  {
    Decode(Nibble(cols), sensed >> 4, led)
  }

  /** The calls of the sweep's passes from `cols` and `led`, one pass per read value. */
  function ScanCalls(cols: Word, led: Word, sensed: seq<Word>): seq<Call>
    decreases |sensed|
  {
    if sensed == [] then []
    else
      var led' := Shown(cols, led, sensed[0]);
      PassCalls(cols, led') + ScanCalls(NextCols(cols), led', sensed[1..])
  }

  /** The value shown after the sweep's passes from `cols` and `led`. */
  function LedAfter(cols: Word, led: Word, sensed: seq<Word>): Word
    decreases |sensed|
  {
    if sensed == [] then led
    else LedAfter(NextCols(cols), Shown(cols, led, sensed[0]), sensed[1..])
  }

  /** Each pass makes three calls. */
  lemma {:induction false} ScanCallsLength(cols: Word, led: Word, sensed: seq<Word>)
    ensures |ScanCalls(cols, led, sensed)| == 3 * |sensed|
    decreases |sensed|
  {
    if sensed != [] {
      ScanCallsLength(NextCols(cols), Shown(cols, led, sensed[0]), sensed[1..]);
    }
  }

  /**
   * A sweep over `a` and then `b` makes the calls of the sweep over `a`,
   * then those of a sweep over `b` from where the first one ended.
   */
  lemma {:induction false} ScanCallsAppend(cols: Word, led: Word, a: seq<Word>, b: seq<Word>)
    ensures ScanCalls(cols, led, a + b) ==
      ScanCalls(cols, led, a) + ScanCalls(ColsAfter(cols, |a|), LedAfter(cols, led, a), b)
    decreases |a|
  {
    if a == [] {
      assert a + b == b;
    } else {
      var led' := Shown(cols, led, a[0]);
      assert (a + b)[0] == a[0];
      assert (a + b)[1..] == a[1..] + b;
      ScanCallsAppend(NextCols(cols), led', a[1..], b);
      ColsAfterShift(cols, |a| - 1);
    }
  }

  /** The same for the value shown: the sweep keeps no state but `cols` and `led`. */
  lemma {:induction false} LedAfterAppend(cols: Word, led: Word, a: seq<Word>, b: seq<Word>)
    ensures LedAfter(cols, led, a + b) == LedAfter(ColsAfter(cols, |a|), LedAfter(cols, led, a), b)
    decreases |a|
  {
    if a == [] {
      assert a + b == b;
    } else {
      assert (a + b)[0] == a[0];
      assert (a + b)[1..] == a[1..] + b;
      LedAfterAppend(NextCols(cols), Shown(cols, led, a[0]), a[1..], b);
      ColsAfterShift(cols, |a| - 1);
    }
  }

  /**
   * Pass `k` of a sweep writes the `k`-th column pattern, reads, and shows
   * its read decoded against the value the passes before it left.
   */
  lemma ScanCallsSnoc(cols: Word, led: Word, a: seq<Word>, x: Word)
    ensures ScanCalls(cols, led, a + [x]) ==
      ScanCalls(cols, led, a) + PassCalls(ColsAfter(cols, |a|), Shown(ColsAfter(cols, |a|), LedAfter(cols, led, a), x))
    ensures LedAfter(cols, led, a + [x]) == Shown(ColsAfter(cols, |a|), LedAfter(cols, led, a), x)
  {
    ScanCallsAppend(cols, led, a, [x]);
    LedAfterAppend(cols, led, a, [x]);
    var c, l := ColsAfter(cols, |a|), LedAfter(cols, led, a);
    assert ([x])[1..] == [];
    assert ScanCalls(c, l, [x]) == PassCalls(c, Shown(c, l, x));
  }

  /**
   * The sweep from 0xe drives column `k % 4` low in pass `k` and, when the
   * rows read in that pass have only row `r` low, shows the value of the key
   * at row `r` and that column, whatever was shown before.
   */
  lemma ScanShowsPressedKey(led: Word, sensed: seq<Word>, k: nat, r: nat)
    requires k < |sensed| && r < 4
    requires sensed[k] >> 4 == OneCold(r)
    ensures Nibble(ColsAfter(COLS_INIT, k)) == OneCold(k % 4)
    ensures ScanCalls(COLS_INIT, led, sensed[..k + 1]) ==
      ScanCalls(COLS_INIT, led, sensed[..k]) + PassCalls(ColsAfter(COLS_INIT, k), KEY_VALUES[r][k % 4])
  {
    assert sensed[..k + 1] == sensed[..k] + [sensed[k]];
    ScanCallsSnoc(COLS_INIT, led, sensed[..k], sensed[k]);
    ColsNibbleCycles(k);
    DecodeKey(Key(r, k % 4), LedAfter(COLS_INIT, led, sensed[..k]));
  }

  /**
   * Delay: the counter starts at 50000 and `counter -= counter` empties it
   * in a single pass.
   */
  method Delay() returns (counter: int, ghost passes: nat)
    ensures counter == 0 && passes == 1
  {
    counter := 50000;
    passes := 0;
    while counter > 0
      invariant (counter == 50000 && passes == 0) || (counter == 0 && passes == 1)
    {
      counter := counter - counter;
      passes := passes + 1;
    }
  }

  /**
   * One pass of the sweep: drive `cols` onto the keypad, read it (`sensed` is
   * what the lines present), decode the rows against the column pattern,
   * show the result and move to the next column pattern.
   */
  method ScanPass(board: Board, cols: Word, led: Word, sensed: Word) returns (cols': Word, led': Word)
    modifies board`gpio, board`trace
    ensures cols' == NextCols(cols)
    ensures led' == Shown(cols, led, sensed)
    ensures board.gpio == old(board.gpio).(data2 := cols, data1 := led')
    ensures board.trace == old(board.trace) + PassCalls(cols, led')
  {
    board.GpioDiscreteWrite(KEYPAD_CHANNEL, cols);
    var rows := board.GpioDiscreteRead(KEYPAD_CHANNEL, sensed);
    rows := rows >> 4;
    assert cols & 0x0000000f == Nibble(cols);
    led' := Decode(cols & 0x0000000f, rows, led);
    assert led' == Shown(cols, led, sensed);
    board.GpioDiscreteWrite(LED_CHANNEL, led');
    if cols == 0x7 {
      cols' := 0xe;
    } else {
      var colsMsb := (cols >> 3) & 1;
      cols' := (cols << 1) | colsMsb;
    }
    assert cols' == NextCols(cols);
  }

  /**
   * The endless `while (1)` loop of KEYPDLEDOutputExample, up to |sensed|
   * passes, from column pattern `cols0` and shown value `led0`.
   */
  method Sweep(board: Board, cols0: Word, led0: Word, sensed: seq<Word>) returns (cols: Word, led: Word)
    modifies board`gpio, board`trace
    ensures board.trace == old(board.trace) + ScanCalls(cols0, led0, sensed)
    ensures cols == ColsAfter(cols0, |sensed|)
    ensures led == LedAfter(cols0, led0, sensed)
    ensures |sensed| == 0 ==> board.gpio == old(board.gpio)
    ensures |sensed| > 0 ==> board.gpio == old(board.gpio).(data1 := led, data2 := ColsAfter(cols0, |sensed| - 1))
  {
    cols, led := cols0, led0;
    var i := 0;
    while i < |sensed|
      invariant 0 <= i <= |sensed|
      invariant board.trace == old(board.trace) + ScanCalls(cols0, led0, sensed[..i])
      invariant cols == ColsAfter(cols0, i)
      invariant led == LedAfter(cols0, led0, sensed[..i])
      invariant i == 0 ==> board.gpio == old(board.gpio)
      invariant i > 0 ==> board.gpio == old(board.gpio).(data1 := led, data2 := ColsAfter(cols0, i - 1))
    {
      ghost var before := board.trace;
      cols, led := ScanPass(board, cols, led, sensed[i]);
      SweepStep(old(board.trace), before, board.trace, cols0, led0, sensed, i);
      i := i + 1;
    }
    assert sensed[..i] == sensed;
  }

  /** What one pass of Sweep's loop adds to the trace extends the sweep by that pass. */
  lemma SweepStep(start: seq<Call>, before: seq<Call>, after: seq<Call>, cols0: Word, led0: Word,
                  sensed: seq<Word>, i: nat)
    requires i < |sensed|
    requires before == start + ScanCalls(cols0, led0, sensed[..i])
    requires after == before +
      PassCalls(ColsAfter(cols0, i), Shown(ColsAfter(cols0, i), LedAfter(cols0, led0, sensed[..i]), sensed[i]))
    ensures after == start + ScanCalls(cols0, led0, sensed[..i + 1])
    ensures LedAfter(cols0, led0, sensed[..i + 1]) ==
      Shown(ColsAfter(cols0, i), LedAfter(cols0, led0, sensed[..i]), sensed[i])
  {
    assert sensed[..i + 1] == sensed[..i] + [sensed[i]];
    ScanCallsSnoc(cols0, led0, sensed[..i], sensed[i]);
  }

  /**
   * KEYPDLEDOutputExample, up to |sensed| passes of its endless loop.
   * `initStatus` is what XGpio_Initialize reports; `sensed[k]` is what the
   * keypad channel presents when pass `k` reads it; `ledInit` is the value
   * of the uninitialised `led`. Returns the function's exit and the final
   * `cols` and `led`.
   */
  method KeypadLedOutputExample(board: Board, initStatus: int, sensed: seq<Word>, ledInit: Word)
    returns (exit: Exit, cols: Word, led: Word)
    modifies board`gpio, board`trace
    ensures initStatus != XST_SUCCESS ==>
      && exit == Returned(XST_FAILURE)
      && board.trace == old(board.trace) + [Call.GpioInitialize]
      && board.gpio == old(board.gpio).(ready := false)
    ensures initStatus == XST_SUCCESS ==>
      && exit == Looping
      && board.trace == old(board.trace) +
           [Call.GpioInitialize,
            Call.GpioSetDataDirection(LED_CHANNEL, 0x0),
            Call.GpioSetDataDirection(KEYPAD_CHANNEL, 0xf0)] +
           ScanCalls(COLS_INIT, ledInit, sensed)
      && cols == ColsAfter(COLS_INIT, |sensed|)
      && led == LedAfter(COLS_INIT, ledInit, sensed)
      && board.gpio == old(board.gpio).(ready := true, dir1 := 0x0, dir2 := 0xf0,
           data1 := if |sensed| > 0 then led else old(board.gpio.data1),
           data2 := if |sensed| > 0 then ColsAfter(COLS_INIT, |sensed| - 1) else old(board.gpio.data2))
  {
    cols := COLS_INIT;
    led := ledInit;
    var status := board.GpioInitialize(initStatus);
    if status != XST_SUCCESS {
      return Returned(XST_FAILURE), cols, led;
    }
    board.GpioSetDataDirection(LED_CHANNEL, 0x0);
    board.GpioSetDataDirection(KEYPAD_CHANNEL, 0xf0);
    assert board.trace == old(board.trace) + [Call.GpioInitialize, Call.GpioSetDataDirection(LED_CHANNEL, 0x0),
      Call.GpioSetDataDirection(KEYPAD_CHANNEL, 0xf0)];
    cols, led := Sweep(board, cols, led, sensed);
    return Looping, cols, led;
  }
}
