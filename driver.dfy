/**
 * The character device of the driver: the falling-edge interrupt handler
 * that records button presses, `read`, which hands the recorded sequence to
 * the game, and `write`, which switches LEDs on the game's command.
 *
 * The driver's global state becomes the fields of one object: the tick of
 * the last accepted edge (`old_jiffie`), the 80-byte sequence buffer
 * (`gpio_sequnce_buffer`), the 80-byte transfer buffer
 * (`gpio_driver_buffer`) and the mapped register window.
 */
module Driver {
  import opened Layout
  import opened Registers
  import opened CString
  import opened Protocol

  class GpioDriver {
    const gpio: GpioRegisters
    /** `gpio_sequnce_buffer`: the symbols recorded since the last read, as a C string. */
    const seqBuf: array<char>
    /** `gpio_driver_buffer`: staging area of reads and writes. */
    const drvBuf: array<char>
    /** `old_jiffie`: the tick of the last accepted button edge. */
    var oldJiffie: bv32

    predicate Valid()
      reads seqBuf
    {
      seqBuf.Length == BUF_LEN && drvBuf.Length == BUF_LEN && seqBuf != drvBuf
      && gpio.Valid() && NUL in seqBuf[..] && IsRecord(CStr(seqBuf[..]))
    }

    /** The symbols recorded and not yet read. */
    function Pending(): (p: seq<char>)
      reads seqBuf
      requires Valid()
      ensures |p| < BUF_LEN && IsRecord(p)
    {
      CStr(seqBuf[..])
    }

    /**
     * The driver after a successful module load over the window `gpio`:
     * both buffers zeroed, nothing recorded, no edge accepted yet.
     */
    constructor (gpio: GpioRegisters)
      requires gpio.Valid()
      ensures Valid() && this.gpio == gpio && fresh(seqBuf) && fresh(drvBuf)
      ensures oldJiffie == 0 && seqBuf[..] == Zeros(BUF_LEN) && drvBuf[..] == Zeros(BUF_LEN)
      ensures Pending() == []
    {
      var s := new char[BUF_LEN];
      MemsetZero(s);
      var d := new char[BUF_LEN];
      MemsetZero(d);
      this.gpio := gpio;
      seqBuf := s;
      drvBuf := d;
      oldJiffie := 0;
      new;
      assert seqBuf[..][0] == NUL;
    }

    /**
     * `gpio_irq_handler_falling` for the interrupt registered with cookie
     * `id`, at tick `now`. An edge within 20 ticks of the last accepted one
     * changes nothing. Otherwise the tick is remembered, the symbol of `id`
     * is appended to the recorded sequence, and the LED `id` is pulsed: one
     * write to GPSET, then one to GPCLR.
     */
    method HandleFalling(id: Pin, now: bv32)
      requires Valid()
      requires !Bounce(now, oldJiffie) ==> |Pending()| < BUF_LEN - 1
      modifies this, seqBuf, gpio, gpio.regs
      ensures Valid()
      ensures Bounce(now, old(oldJiffie)) ==>
        oldJiffie == old(oldJiffie) && seqBuf[..] == old(seqBuf[..])
        && gpio.trace == old(gpio.trace) && gpio.regs[..] == old(gpio.regs[..])
      ensures !Bounce(now, old(oldJiffie)) ==>
        oldJiffie == now
        && Pending() == old(Pending()) + [Symbol(id)]
        && seqBuf[|old(Pending())|] == Symbol(id) && seqBuf[|old(Pending())| + 1] == NUL
        && (forall j :: 0 <= j < BUF_LEN && j != |old(Pending())| && j != |old(Pending())| + 1 ==> seqBuf[j] == old(seqBuf[j]))
        && gpio.trace == old(gpio.trace) + [DriveWrite(id, true), DriveWrite(id, false)]
        && gpio.regs[..] == old(gpio.regs[..])
             [WordIndex(SetRegister(id)) := PinMask(id)]
             [WordIndex(ClearRegister(id)) := PinMask(id)]
    {
      var diff := now - oldJiffie;
      if diff < DEBOUNCE_TICKS {
        return;
      }
      oldJiffie := now;

      var symbol: char;
      if id == GPIO_06 {
        symbol := '1';
      } else if id == GPIO_13 {
        symbol := '2';
      } else if id == GPIO_19 {
        symbol := '3';
      } else if id == GPIO_26 {
        symbol := '4';
      } else {
        symbol := '0';
      }
      RecordAppend(old(Pending()), id);
      StrCatChar(seqBuf, symbol);

      gpio.SetGpioPin(id);
      gpio.ClearGpioPin(id);
    }

    /**
     * `gpio_driver_read` at file offset `fPos`. The recorded sequence is
     * moved to the transfer buffer and cleared whatever the offset. At
     * offset 0 the sequence is handed out, and its length is returned and
     * added to the offset; a failing copy to user space returns -EFAULT
     * (an empty sequence is copied by moving nothing, which cannot fail).
     * At any other offset the call returns 0 and the sequence is lost.
     */
    method Read(fPos: int, fault: bool) returns (ret: int, out: seq<char>, newPos: int)
      requires Valid()
      modifies seqBuf, drvBuf
      ensures Valid() && seqBuf[..] == Zeros(BUF_LEN) && Pending() == []
      ensures drvBuf[..] == old(Pending()) + Zeros(BUF_LEN - |old(Pending())|)
      ensures fPos == 0 && !CopyFails(fault, |old(Pending())|) ==>
        ret == |old(Pending())| && out == old(Pending()) && newPos == fPos + ret
      ensures fPos == 0 && CopyFails(fault, |old(Pending())|) ==> ret == -EFAULT && out == [] && newPos == fPos
      ensures fPos != 0 ==> ret == 0 && out == [] && newPos == fPos
      ensures IsRecord(out)
    {
      ghost var pending := Pending();
      MemsetZero(drvBuf);
      StrCpy(drvBuf, seqBuf);
      MemsetZero(seqBuf);
      assert seqBuf[..][0] == NUL;
      assert drvBuf[..] == pending + Zeros(BUF_LEN - |pending|);
      assert drvBuf[..] == pending + [NUL] + Zeros(BUF_LEN - |pending|)[1..];
      TerminatedCStr(pending, Zeros(BUF_LEN - |pending|)[1..]);

      if fPos == 0 {
        var dataSize := StrLenOf(drvBuf);
        if CopyFails(fault, dataSize) {
          return -EFAULT, [], fPos;
        }
        return dataSize, drvBuf[..dataSize], fPos + dataSize;
      }
      return 0, [], fPos;
    }

    /**
     * `gpio_driver_write` of the user bytes `data` (`len` is `|data|`).
     * After a failing copy from user space it returns -EFAULT (a copy of 0
     * bytes cannot fail). Otherwise
     * the bytes are staged and parsed: no command returns 0, a command
     * returns `len`, and a command naming an LED drives it with one write
     * to GPSET or GPCLR. No other register access is made.
     */
    method Write(data: seq<char>, fault: bool) returns (ret: int)
      requires Valid()
      requires |data| <= BUF_LEN && (|data| < BUF_LEN || NUL in data)
      modifies drvBuf, gpio, gpio.regs
      ensures Valid()
      ensures CopyFails(fault, |data|) ==>
        ret == -EFAULT && drvBuf[..] == Zeros(BUF_LEN)
        && gpio.trace == old(gpio.trace) && gpio.regs[..] == old(gpio.regs[..])
      ensures !CopyFails(fault, |data|) && ParseCommand(Staged(data)).Unmatched? ==>
        ret == 0 && drvBuf[..] == Staged(data)
        && gpio.trace == old(gpio.trace) && gpio.regs[..] == old(gpio.regs[..])
      ensures !CopyFails(fault, |data|) && ParseCommand(Staged(data)).Matched? ==>
        ret == |data| && drvBuf[..] == Zeros(BUF_LEN)
      ensures !CopyFails(fault, |data|) && ParseCommand(Staged(data)) == Matched(None) ==>
        gpio.trace == old(gpio.trace) && gpio.regs[..] == old(gpio.regs[..])
      ensures !CopyFails(fault, |data|) && ParseCommand(Staged(data)).Matched? && ParseCommand(Staged(data)).drive.Some? ==>
        var d := ParseCommand(Staged(data)).drive.value;
        gpio.trace == old(gpio.trace) + [DriveWrite(d.pin, d.high)]
        && gpio.regs[..] == old(gpio.regs[..])[WordIndex(DriveWrite(d.pin, d.high).offset) := PinMask(d.pin)]
    {
      MemsetZero(drvBuf);
      if CopyFails(fault, |data|) {
        return -EFAULT;
      }
      CopyIn(drvBuf, data);
      assert drvBuf[..] == Staged(data);

      var n := StrLenOf(drvBuf);
      if StrStr(drvBuf[..n], "LED").Some? && n >= 5 {
        DriveLed(drvBuf[3], drvBuf[5]);
        MemsetZero(drvBuf);
        return |data|;
      }
      return 0;
    }

    /**
     * The command dispatch of `gpio_driver_write` on character 3 (`n`) and
     * character 5 (`s`) of the staged bytes: for `n` in '1'..'4' one write
     * drives the LED of `n` high when `s` is '1' and low otherwise; any
     * other `n` makes no register access.
     */
    method DriveLed(n: char, s: char)
      requires Valid()
      modifies gpio, gpio.regs
      ensures IsLedDigit(n) ==>
        gpio.trace == old(gpio.trace) + [DriveWrite(LedPin(n), s == '1')]
        && gpio.regs[..] == old(gpio.regs[..])[WordIndex(DriveWrite(LedPin(n), s == '1').offset) := PinMask(LedPin(n))]
      ensures !IsLedDigit(n) ==> gpio.trace == old(gpio.trace) && gpio.regs[..] == old(gpio.regs[..])
    {
      if n == '1' {
        if s == '1' { gpio.SetGpioPin(GPIO_06); } else { gpio.ClearGpioPin(GPIO_06); }
      } else if n == '2' {
        if s == '1' { gpio.SetGpioPin(GPIO_13); } else { gpio.ClearGpioPin(GPIO_13); }
      } else if n == '3' {
        if s == '1' { gpio.SetGpioPin(GPIO_19); } else { gpio.ClearGpioPin(GPIO_19); }
      } else if n == '4' {
        if s == '1' { gpio.SetGpioPin(GPIO_26); } else { gpio.ClearGpioPin(GPIO_26); }
      }
    }
  }
}
