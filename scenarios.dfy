/**
 * Whole runs of the driver over a zeroed register window: a round of the
 * game recorded and read back, bouncing and wrapping ticks, a read that
 * loses the record, LED commands, and the LED line configuration of
 * module load.
 */
module Scenarios {
  import opened Layout
  import opened Registers
  import opened CString
  import opened Protocol
  import opened Driver

  /** A driver over a register window whose words are all 0. */
  method FreshDriver() returns (drv: GpioDriver)
    ensures fresh(drv) && fresh(drv.gpio) && fresh(drv.gpio.regs) && fresh(drv.seqBuf) && fresh(drv.drvBuf)
    ensures drv.Valid() && drv.Pending() == [] && drv.oldJiffie == 0
    ensures drv.gpio.trace == [] && drv.gpio.regs[..] == seq(WORD_COUNT, _ => 0)
  {
    var gpio := new GpioRegisters(seq(WORD_COUNT, _ => 0));
    drv := new GpioDriver(gpio);
  }

  /**
   * The buttons of LEDs 1, 3, 2 and 4 pressed 100 ticks apart: the game
   * reads back "1324", and each press pulsed its LED.
   */
  method RoundReadBack() returns (ret: int, out: seq<char>)
    ensures ret == 4 && out == "1324"
  {
    var drv := FreshDriver();
    drv.HandleFalling(GPIO_06, 100);
    drv.HandleFalling(GPIO_19, 200);
    drv.HandleFalling(GPIO_13, 300);
    drv.HandleFalling(GPIO_26, 400);
    var pos;
    ret, out, pos := drv.Read(0, false);
  }

  /** An edge 10 ticks after an accepted one is a bounce; one 20 ticks after it counts. */
  method BouncingButton() returns (out: seq<char>)
    ensures out == "13"
  {
    var drv := FreshDriver();
    drv.HandleFalling(GPIO_06, 100);
    drv.HandleFalling(GPIO_13, 110);
    drv.HandleFalling(GPIO_19, 120);
    var ret, pos;
    ret, out, pos := drv.Read(0, false);
  }

  /** Debouncing across the wrap of the tick counter. */
  method WrappingTicks() returns (out: seq<char>)
    ensures out == "13"
  {
    var drv := FreshDriver();
    drv.HandleFalling(GPIO_06, 0xFFFF_FFF0);
    drv.HandleFalling(GPIO_13, 3);
    drv.HandleFalling(GPIO_19, 4);
    var ret, pos;
    ret, out, pos := drv.Read(0, false);
  }

  /**
   * A record is read once: a second read at offset 0 returns 0, even over
   * bad user memory, and a read
   * at another offset returns 0 and destroys the record.
   */
  method DrainOnRead() returns (second: int, atOffset: int, afterOffset: int)
    ensures second == 0 && atOffset == 0 && afterOffset == 0
  {
    var drv := FreshDriver();
    drv.HandleFalling(GPIO_06, 100);
    var first, out, pos := drv.Read(0, false);
    second, out, pos := drv.Read(0, true);

    drv.HandleFalling(GPIO_13, 200);
    atOffset, out, pos := drv.Read(1, false);
    afterOffset, out, pos := drv.Read(0, false);
  }

  /**
   * Copies of nothing cannot fail: a read at offset 0 with nothing recorded
   * and a write of 0 bytes both return 0, even over bad user memory.
   */
  method EmptyTransfers() returns (read: int, written: int)
    ensures read == 0 && written == 0
  {
    var drv := FreshDriver();
    var out, pos;
    read, out, pos := drv.Read(0, true);
    WithoutLNoCommand([]);
    written := drv.Write([], true);
  }

  /**
   * `"LED2 1"` drives line 13 high with the single write 0x2000 to GPSET0
   * and reports its 6 bytes; `"hello"` is no command and reports 0; a failed
   * copy reports -EFAULT. Only the first write touches a register.
   */
  method LedCommands() returns (on: int, garbage: int, faulted: int, trace: seq<Access>)
    ensures on == 6 && garbage == 0 && faulted == -14
    ensures trace == [Write(GPSET0_OFFSET, 0x2000)]
  {
    var drv := FreshDriver();
    LedCommand('2', '1');
    on := drv.Write("LED2 1", false);
    WithoutLNoCommand("hello");
    garbage := drv.Write("hello", false);
    faulted := drv.Write("LED2 0", true);
    trace := drv.gpio.trace;
    assert PinMask(GPIO_13) == 0x2000;
  }

  /**
   * The LED lines 6, 13, 19 and 26 made outputs on a zeroed window: the
   * function-select bit of each is set, two of them in GPFSEL1, and the
   * window is accessed by one read and one write per line.
   */
  method LedLinesAsOutputs() returns (fsel0: bv32, fsel1: bv32, fsel2: bv32, accesses: nat)
    ensures fsel0 == 0x0004_0000 && fsel1 == 0x0800_0200 && fsel2 == 0x0004_0000
    ensures accesses == 8
  {
    var gpio := new GpioRegisters(seq(WORD_COUNT, _ => 0));
    gpio.SetGpioPinDirection(GPIO_06, Out);
    gpio.SetGpioPinDirection(GPIO_13, Out);
    gpio.SetGpioPinDirection(GPIO_19, Out);
    gpio.SetGpioPinDirection(GPIO_26, Out);
    fsel0 := gpio.regs[0];
    fsel1 := gpio.regs[1];
    fsel2 := gpio.regs[2];
    accesses := |gpio.trace|;
  }

  /** A button line held low reads 0 while another line of the bank reads 1. */
  method ButtonLevels() returns (pressed: bv8, released: bv8)
    ensures pressed == 0 && released == 1
  {
    var gpio := new GpioRegisters(seq(WORD_COUNT, _ => 0)[WordIndex(GPLEV0_OFFSET) := 0x0001_0000]);
    pressed := gpio.GetGpioPinValue(12);
    released := gpio.GetGpioPinValue(16);
  }
}
