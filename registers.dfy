/**
 * The mapped GPIO register window as a fake register file, and the
 * driver's register routines that work on it.
 *
 * The window is an array of 45 words. Every `ioread32`/`iowrite32` of the
 * driver is recorded in an access trace, so that the order of accesses and
 * the absence of a read can be stated. The fake file behaves as plain
 * memory: a write to GPSET or GPCLR stores the value written and does not
 * change GPLEV.
 */
module Registers {
  import opened Bits
  import opened Layout

  /** One bus access of the driver, at a byte offset of the window. */
  datatype Access = Read(offset: nat) | Write(offset: nat, value: bv32)

  /** The writes of a trace, in order (the reads dropped). */
  function Writes(t: seq<Access>): (w: seq<Access>)
    ensures |w| <= |t|
    ensures forall i :: 0 <= i < |w| ==> w[i].Write?
    ensures (forall i :: 0 <= i < |t| ==> t[i].Write?) ==> w == t
  {
    if t == [] then []
    else if t[0].Write? then [t[0]] + Writes(t[1..])
    else Writes(t[1..])
  }

  /** The function-select bit of `pin` as a mask: `0x1 << (pin * 3)` after the slot is taken. */
  function FselMask(pin: Pin): bv32 {
    BitMask(FselShift(pin))
  }

  /**
   * The function-select word `SetGpioPinDirection` writes back, for the
   * pin's mask `m`: OUT sets the masked bit, IN clears it.
   */
  function DirectionWord(w: bv32, m: bv32, d: Direction): bv32 {
    Update(w, m, d == Out)
  }

  /**
   * OUT leaves the masked bit set and IN leaves it clear; every other bit
   * of the word, including the other two bits of the pin's field, is kept.
   */
  lemma DirectionWordBits(w: bv32, m: bv32, d: Direction)
    ensures DirectionWord(w, m, d) & !m == w & !m
    ensures DirectionWord(w, m, d) & m == if d == Out then m else 0
  {
    UpdateBits(w, m, d == Out);
  }

  /** Applying the same direction twice gives the word applying it once gives. */
  lemma DirectionIdempotent(w: bv32, m: bv32, d: Direction)
    ensures DirectionWord(DirectionWord(w, m, d), m, d) == DirectionWord(w, m, d)
  {
    UpdateIdempotent(w, m, d == Out);
  }

  /**
   * In the pin's own field, only the low bit is decided by the direction:
   * after OUT it is 1, after IN it is 0, and the field's upper two bits are
   * those of the old word. For every other pin of the same register the
   * 3-bit field is unchanged.
   */
  lemma DirectionFields(w: bv32, pin: Pin, d: Direction, other: Pin)
    requires GetGPFSELReg(other) == GetGPFSELReg(pin) && other != pin
    ensures Field(DirectionWord(w, FselMask(pin), d), Slot(pin)) & 1 == if d == Out then 1 else 0
    ensures Field(DirectionWord(w, FselMask(pin), d), Slot(pin)) & 6 == Field(w, Slot(pin)) & 6
    ensures Field(DirectionWord(w, FselMask(pin), d), Slot(other)) == Field(w, Slot(other))
  {
    FieldLowBitUpdate(w, Slot(pin), d == Out);
    FieldHighBitsUpdate(w, Slot(pin), d == Out);
    SameFselRegister(pin, other);
    OtherFieldUpdate(w, Slot(other), Slot(pin), d == Out);
  }

  /**
   * The quirk of the IN branch: a pin whose field holds an alternate
   * function with its high bit set (ALT0 is 0b100) is not made an input;
   * its field keeps the code 0b100. Likewise OUT on it yields 0b101 (ALT1).
   */
  lemma InDoesNotClearAltFunction()
    ensures Field(DirectionWord(0x4000, FselMask(14), In), 4) == 4
    ensures Field(DirectionWord(0x4000, FselMask(14), Out), 4) == 5
  {
    assert FselMask(14) == 0x1000;
  }

  /** The GPPUDCLK word of the first handshake phase: the pin's clock bit raised. */
  function ClockAsserted(clk: bv32, pin: Pin): bv32 {
    Update(clk, PinMask(pin), true)
  }

  /** The GPPUDCLK word of the second phase: the asserted word with the pin's bit dropped again. */
  function ClockReleased(clk: bv32, pin: Pin): bv32 {
    Update(ClockAsserted(clk, pin), PinMask(pin), false)
  }

  /** The first phase raises the pin's clock bit and keeps every other bit. */
  lemma ClockAssertedBits(clk: bv32, pin: Pin)
    ensures ClockAsserted(clk, pin) & PinMask(pin) == PinMask(pin)
    ensures ClockAsserted(clk, pin) & !PinMask(pin) == clk & !PinMask(pin)
  {
    OrMask(clk, PinMask(pin));
  }

  /**
   * The second phase lowers the bit again, so the handshake leaves the old
   * clock word with the pin's bit clear.
   */
  lemma ClockReleasedBits(clk: bv32, pin: Pin)
    ensures ClockReleased(clk, pin) & PinMask(pin) == 0
    ensures ClockReleased(clk, pin) == clk & !PinMask(pin)
  {
    AndNotMask(clk | PinMask(pin), PinMask(pin));
    ClearAfterSet(clk, PinMask(pin));
  }

  /**
   * The bus accesses of `SetInternalPullUpDown(pin, pull)` when the pin's
   * clock register held `clk`: control code, clock raised by
   * read-modify-write, control reset to PULL_NONE, clock lowered by
   * read-modify-write.
   */
  function PullHandshake(pin: Pin, pull: Pud, clk: bv32): (t: seq<Access>)
    ensures |t| == 6
  {
    var c := PullClockRegister(pin);
    [ Write(GPPUD_OFFSET, pull.Code()),
      Read(c), Write(c, ClockAsserted(clk, pin)),
      Write(GPPUD_OFFSET, PullNone.Code()),
      Read(c), Write(c, ClockReleased(clk, pin)) ]
  }

  /** The handshake writes exactly the four words GPPUD, GPPUDCLK, GPPUD, GPPUDCLK, in that order. */
  lemma PullHandshakeWrites(pin: Pin, pull: Pud, clk: bv32)
    ensures Writes(PullHandshake(pin, pull, clk)) ==
      [ Write(GPPUD_OFFSET, pull.Code()),
        Write(PullClockRegister(pin), ClockAsserted(clk, pin)),
        Write(GPPUD_OFFSET, 0),
        Write(PullClockRegister(pin), ClockReleased(clk, pin)) ]
  {
    var t := PullHandshake(pin, pull, clk);
    assert Writes(t[5..]) == [t[5]] by { assert t[5..][1..] == []; }
    assert Writes(t[4..]) == [t[5]] by { assert t[4..][1..] == t[5..]; }
    assert Writes(t[3..]) == [t[3], t[5]] by { assert t[3..][1..] == t[4..]; }
    assert Writes(t[2..]) == [t[2], t[3], t[5]] by { assert t[2..][1..] == t[3..]; }
    assert Writes(t[1..]) == [t[2], t[3], t[5]] by { assert t[1..][1..] == t[2..]; }
    assert Writes(t) == [t[0], t[2], t[3], t[5]];
  }

  /** The one write of `SetGpioPin` (`high`) or `ClearGpioPin`: the pin's mask to GPSET or GPCLR of its bank. */
  function DriveWrite(pin: Pin, high: bool): (a: Access)
    ensures a.Write? && IsRegOffset(a.offset) && a.value == PinMask(pin)
    ensures a.offset == (if high then 0x1C else 0x28) + (if pin < 32 then 0 else 4)
  {
    Write(if high then SetRegister(pin) else ClearRegister(pin), PinMask(pin))
  }

  /**
   * The value of that write has exactly one bit set, bit `pin mod 32`, so
   * only the pin itself is driven.
   */
  lemma DriveWriteOneBit(pin: Pin, high: bool)
    ensures DriveWrite(pin, high).value != 0
    ensures DriveWrite(pin, high).value & (DriveWrite(pin, high).value - 1) == 0
    ensures Bit(DriveWrite(pin, high).value, BankBit(pin)) == 1 && BankBit(pin) as int == (pin as int) % 32
  {
    PinMaskOneBit(pin);
  }

  /** The clock register of `pin`'s bank and the pin's bit in it, as `SetInternalPullUpDown` computes them. */
  method PullClockBit(pin: Pin) returns (offset: nat, mask: bv32)
    ensures offset == PullClockRegister(pin) && mask == PinMask(pin)
  {
    offset := if pin < 32 then GPPUDCLK0_OFFSET else GPPUDCLK1_OFFSET;
    var bit := if pin < 32 then pin else pin - 32;
    mask := 1 << (bit as bv32);
  }

  /** The read-modify-write step of `SetGpioPinDirection` on the word read. */
  method DirectionUpdate(tmp: bv32, slot: bv8, d: Direction) returns (r: bv32)
    requires slot < 10
    ensures r == DirectionWord(tmp, BitMask(FieldShift(slot as bv32)), d)
  {
    if d == Out {
      var mask := 1 << (3 * (slot as bv32));
      r := tmp | mask;
    } else {
      var mask := !(1 << (3 * (slot as bv32)));
      r := tmp & mask;
    }
  }

  /**
   * The fake register window. `regs` is the 0xB4-byte window as words and
   * `trace` every access made so far.
   */
  class GpioRegisters {
    const regs: array<bv32>
    var trace: seq<Access>

    predicate Valid() {
      regs.Length == WORD_COUNT
    }

    /** The contents of the register at byte offset `off`. */
    function Reg(off: nat): bv32
      reads regs
      requires Valid() && IsRegOffset(off)
    {
      regs[WordIndex(off)]
    }

    /** A window mapped over registers that hold `initial`; nothing accessed yet. */
    constructor (initial: seq<bv32>)
      requires |initial| == WORD_COUNT
      ensures Valid() && fresh(regs)
      ensures regs[..] == initial && trace == []
    {
      regs := new bv32[WORD_COUNT];
      trace := [];
      new;
      forall i | 0 <= i < WORD_COUNT {
        regs[i] := initial[i];
      }
    }

    /** `ioread32(virt_gpio_base + off)`. */
    method Read32(off: nat) returns (v: bv32)
      requires Valid() && IsRegOffset(off)
      modifies this
      ensures Valid() && unchanged(regs)
      ensures v == Reg(off)
      ensures trace == old(trace) + [Read(off)]
    {
      v := regs[WordIndex(off)];
      trace := trace + [Read(off)];
    }

    /** `iowrite32(v, virt_gpio_base + off)`. */
    method Write32(off: nat, v: bv32)
      requires Valid() && IsRegOffset(off)
      modifies this, regs
      ensures Valid()
      ensures regs[..] == old(regs[..])[WordIndex(off) := v]
      ensures trace == old(trace) + [Write(off, v)]
    {
      regs[WordIndex(off)] := v;
      trace := trace + [Write(off, v)];
    }

    /**
     * `SetInternalPullUpDown`: the two-phase pull handshake. Afterwards
     * GPPUD holds PULL_NONE, the pin's clock bit is clear and every other
     * bit of the clock register and every other register is as before.
     */
    method SetInternalPullUpDown(pin: Pin, pull: Pud)
      requires Valid()
      modifies this, regs
      ensures Valid()
      ensures trace == old(trace) + PullHandshake(pin, pull, old(Reg(PullClockRegister(pin))))
      ensures regs[..] == old(regs[..])
        [WordIndex(GPPUD_OFFSET) := PullNone.Code()]
        [WordIndex(PullClockRegister(pin)) := ClockReleased(old(Reg(PullClockRegister(pin))), pin)]
    {
      var gppudclkOffset, mask := PullClockBit(pin);
      RegisterFamiliesDisjoint(pin, pin);
      ghost var trace0, clk := trace, Reg(gppudclkOffset);
      ghost var handshake := PullHandshake(pin, pull, clk);

      // control signal on, then clock it into the pad
      PullPhase(pull.Code(), gppudclkOffset, mask, true);
      assert Reg(gppudclkOffset) == ClockAsserted(clk, pin);
      assert trace == trace0 + handshake[..3];
      ghost var regs1 := regs[..];
      // control signal off, then remove the clock
      PullPhase(PullNone.Code(), gppudclkOffset, mask, false);
      assert trace == trace0 + handshake[..3] + handshake[3..];
      assert handshake[..3] + handshake[3..] == handshake;
      assert regs[..] == regs1[WordIndex(GPPUD_OFFSET) := 0][WordIndex(gppudclkOffset) := ClockReleased(clk, pin)];
    }

    /**
     * One phase of the pull handshake: write `code` to GPPUD, then set
     * (`raise`) or clear the bits of `mask` in the clock register by
     * read-modify-write.
     */
    method PullPhase(code: bv32, clkOffset: nat, mask: bv32, raise: bool)
      requires Valid() && IsRegOffset(clkOffset) && clkOffset != GPPUD_OFFSET
      modifies this, regs
      ensures Valid()
      ensures trace == old(trace) +
        [Write(GPPUD_OFFSET, code), Read(clkOffset), Write(clkOffset, Update(old(Reg(clkOffset)), mask, raise))]
      ensures regs[..] == old(regs[..])
        [WordIndex(GPPUD_OFFSET) := code][WordIndex(clkOffset) := Update(old(Reg(clkOffset)), mask, raise)]
    {
      ghost var regs0 := regs[..];
      ghost var word := Update(Reg(clkOffset), mask, raise);
      Write32(GPPUD_OFFSET, code);
      assert regs[..] == regs0[WordIndex(GPPUD_OFFSET) := code];
      var tmp := Read32(clkOffset);
      assert tmp == regs0[WordIndex(clkOffset)];
      tmp := Update(tmp, mask, raise);
      assert tmp == word;
      Write32(clkOffset, tmp);
    }

    /**
     * `SetGpioPinDirection`: one read and one write of the pin's
     * function-select word, which becomes `DirectionWord` of its old value;
     * no other register changes.
     */
    method SetGpioPinDirection(pin: Pin, d: Direction)
      requires Valid()
      modifies this, regs
      ensures Valid()
      ensures regs[..] == old(regs[..])
        [WordIndex(GetGPFSELReg(pin)) := DirectionWord(old(Reg(GetGPFSELReg(pin))), FselMask(pin), d)]
      ensures trace == old(trace) +
        [Read(GetGPFSELReg(pin)), Write(GetGPFSELReg(pin), DirectionWord(old(Reg(GetGPFSELReg(pin))), FselMask(pin), d))]
    {
      var offset := GetGPFSELReg(pin);
      var slot := GetGPIOPinOffset(pin);
      var tmp := Read32(offset);
      tmp := DirectionUpdate(tmp, slot, d);
      Write32(offset, tmp);
    }

    /** `SetGpioPin`: a single write of the pin's one-bit mask to GPSET0/1, no read. */
    method SetGpioPin(pin: Pin)
      requires Valid()
      modifies this, regs
      ensures Valid()
      ensures regs[..] == old(regs[..])[WordIndex(SetRegister(pin)) := PinMask(pin)]
      ensures trace == old(trace) + [Write(SetRegister(pin), PinMask(pin))]
    {
      var offset := if pin < 32 then GPSET0_OFFSET else GPSET1_OFFSET;
      var bit := if pin < 32 then pin else pin - 32;
      Write32(offset, 1 << (bit as bv32));
    }

    /** `ClearGpioPin`: a single write of the pin's one-bit mask to GPCLR0/1, no read. */
    method ClearGpioPin(pin: Pin)
      requires Valid()
      modifies this, regs
      ensures Valid()
      ensures regs[..] == old(regs[..])[WordIndex(ClearRegister(pin)) := PinMask(pin)]
      ensures trace == old(trace) + [Write(ClearRegister(pin), PinMask(pin))]
    {
      var offset := if pin < 32 then GPCLR0_OFFSET else GPCLR1_OFFSET;
      var bit := if pin < 32 then pin else pin - 32;
      Write32(offset, 1 << (bit as bv32));
    }

    /**
     * `GetGpioPinValue`: one read of GPLEV0/1; the result is the pin's bit
     * of that word, 0 or 1. No register changes.
     */
    method GetGpioPinValue(pin: Pin) returns (v: bv8)
      requires Valid()
      modifies this
      ensures Valid() && unchanged(regs)
      ensures v == 0 || v == 1
      ensures v as bv32 == Bit(Reg(LevelRegister(pin)), BankBit(pin))
      ensures trace == old(trace) + [Read(LevelRegister(pin))]
    {
      var offset := if pin < 32 then GPLEV0_OFFSET else GPLEV1_OFFSET;
      var bit := if pin < 32 then pin else pin - 32;
      var tmp := Read32(offset);
      var mask := 1 << (bit as bv32);
      tmp := tmp & mask;
      MaskThenShift(tmp, BankBit(pin));
      tmp := tmp >> (bit as bv32);
      v := tmp as bv8;
    }
  }
}
