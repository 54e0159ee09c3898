/**
 * Register layout of the BCM2835/2837 GPIO block (section 6.1 of the
 * Broadcom "BCM2835 ARM Peripherals" manual) as the driver uses it, and
 * the pin-to-register arithmetic of `GetGPFSELReg` and `GetGPIOPinOffset`.
 *
 * Offsets are byte offsets from the mapped base; pins are the driver's
 * `char` arguments (unsigned 8-bit on ARM).
 */
module Layout {
  import opened Bits

  /** Length in bytes of the mapped register window. */
  const GPIO_ADDR_SPACE_LEN: nat := 0xB4
  /** The window seen as 32-bit words. */
  const WORD_COUNT: nat := GPIO_ADDR_SPACE_LEN / 4

  const GPFSEL0_OFFSET: nat := 0x00
  const GPFSEL1_OFFSET: nat := 0x04
  const GPFSEL2_OFFSET: nat := 0x08
  const GPFSEL3_OFFSET: nat := 0x0C
  const GPFSEL4_OFFSET: nat := 0x10
  const GPFSEL5_OFFSET: nat := 0x14
  const GPSET0_OFFSET: nat := 0x1C
  const GPSET1_OFFSET: nat := 0x20
  const GPCLR0_OFFSET: nat := 0x28
  const GPCLR1_OFFSET: nat := 0x2C
  const GPLEV0_OFFSET: nat := 0x34
  const GPLEV1_OFFSET: nat := 0x38
  const GPPUD_OFFSET: nat := 0x94
  const GPPUDCLK0_OFFSET: nat := 0x98
  const GPPUDCLK1_OFFSET: nat := 0x9C

  /** A byte offset the driver may pass to `ioread32`/`iowrite32`. */
  predicate IsRegOffset(off: nat) {
    off % 4 == 0 && off < GPIO_ADDR_SPACE_LEN
  }

  /** Index of the word at byte offset `off` in the window. */
  function WordIndex(off: nat): (i: nat)
    requires IsRegOffset(off)
    ensures i < WORD_COUNT && 4 * i == off
  {
    off / 4
  }

  /** A GPIO line of the controller: 54 lines, numbered 0 to 53. */
  type Pin = p: bv8 | p < 54

  /** Output / input selection of `SetGpioPinDirection` (`GPIO_DIRECTION_OUT = 1`, `GPIO_DIRECTION_IN = 0`). */
  datatype Direction = In | Out

  /** Pull resistor selection with the GPPUD control codes of the `PUD` enumeration. */
  datatype Pud = PullNone | PullDown | PullUp {
    function Code(): (c: bv32)
      ensures c <= 2
    {
      match this
      case PullNone => 0
      case PullDown => 1
      case PullUp => 2
    }
  }

  /**
   * `GetGPFSELReg`: the function-select register of `pin`, one register per
   * group of ten lines. Every `char` above 49 falls into the last branch.
   */
  function GetGPFSELReg(pin: bv8): (r: nat)
    ensures IsRegOffset(r) && r <= GPFSEL5_OFFSET
    ensures pin < 54 ==> r == 4 * ((pin as int) / 10)
    ensures pin >= 50 ==> r == GPFSEL5_OFFSET
  {
    if pin < 10 then GPFSEL0_OFFSET
    else if pin < 20 then GPFSEL1_OFFSET
    else if pin < 30 then GPFSEL2_OFFSET
    else if pin < 40 then GPFSEL3_OFFSET
    else if pin < 50 then GPFSEL4_OFFSET
    else GPFSEL5_OFFSET
  }

  /**
   * `GetGPIOPinOffset`: the slot of `pin` within its function-select
   * register. For a `char` above 49 it is `pin - 50`, so only pins below 60
   * get a slot that exists.
   */
  function GetGPIOPinOffset(pin: bv8): (r: bv8)
    ensures pin < 54 ==> r == pin % 10
    ensures pin >= 50 ==> r == pin - 50
  {
    if pin < 10 then pin
    else if pin < 20 then pin - 10
    else if pin < 30 then pin - 20
    else if pin < 40 then pin - 30
    else if pin < 50 then pin - 40
    else pin - 50
  }

  /** The slot of a pin as a bit-vector, ready for shifting. */
  function Slot(pin: Pin): (s: bv32)
    ensures s < 10
  {
    GetGPIOPinOffset(pin) as bv32
  }

  /** The function-select bit `SetGpioPinDirection` touches: `pin * 3` after the slot is taken. */
  function FselShift(pin: Pin): (k: bv32)
    ensures k < 30
  {
    FieldShift(Slot(pin))
  }

  /** Bank 0 holds lines 0..31 and bank 1 lines 32..53 in the one-bit-per-line registers. */
  function BankBit(pin: Pin): (k: bv32)
    ensures k < 32
  {
    (if pin < 32 then pin else pin - 32) as bv32
  }

  /** The one-bit mask of `pin` in its bank: `0x1 << pin` in the driver. */
  function PinMask(pin: Pin): bv32 {
    BitMask(BankBit(pin))
  }

  /**
   * The pin arithmetic in integers: for every line 0..53 the function-select
   * register is `4 * (p / 10)`, the slot `p % 10`, the function-select bit
   * `3 * (p % 10)`, at most 27 and so inside a 32-bit word, and the bit in
   * the one-bit-per-line registers `p % 32`.
   */
  lemma PinArithmetic(p: Pin)
    ensures GetGPFSELReg(p) == 4 * ((p as int) / 10)
    ensures GetGPIOPinOffset(p) as int == (p as int) % 10
    ensures FselShift(p) as int == 3 * ((p as int) % 10) <= 27
    ensures BankBit(p) as int == (p as int) % 32
  {
    SlotInt(p);
    BankBitInt(p);
  }

  lemma SlotInt(p: Pin)
    ensures GetGPIOPinOffset(p) as int == (p as int) % 10
    ensures Slot(p) as int == (p as int) % 10
  {
  }

  lemma BankBitInt(p: Pin)
    ensures BankBit(p) as int == (p as int) % 32
  {
  }

  /**
   * The word `SetGpioPin` and `ClearGpioPin` write has exactly one bit set,
   * bit `p mod 32`.
   */
  lemma PinMaskOneBit(p: Pin)
    ensures PinMask(p) != 0 && PinMask(p) & (PinMask(p) - 1) == 0
    ensures Bit(PinMask(p), BankBit(p)) == 1
    ensures BankBit(p) as int == (p as int) % 32
  {
    MaskIsOneBit(BankBit(p));
    BankBitInt(p);
  }

  /** GPSET0 for bank 0, GPSET1 for bank 1. */
  function SetRegister(pin: Pin): (off: nat)
    ensures IsRegOffset(off)
  {
    if pin < 32 then GPSET0_OFFSET else GPSET1_OFFSET
  }

  /** GPCLR0 for bank 0, GPCLR1 for bank 1. */
  function ClearRegister(pin: Pin): (off: nat)
    ensures IsRegOffset(off)
  {
    if pin < 32 then GPCLR0_OFFSET else GPCLR1_OFFSET
  }

  /** GPLEV0 for bank 0, GPLEV1 for bank 1. */
  function LevelRegister(pin: Pin): (off: nat)
    ensures IsRegOffset(off)
  {
    if pin < 32 then GPLEV0_OFFSET else GPLEV1_OFFSET
  }

  /** GPPUDCLK0 for bank 0, GPPUDCLK1 for bank 1. */
  function PullClockRegister(pin: Pin): (off: nat)
    ensures IsRegOffset(off)
  {
    if pin < 32 then GPPUDCLK0_OFFSET else GPPUDCLK1_OFFSET
  }

  /**
   * Every register the driver addresses is a distinct word of the window:
   * function-select words lie below the output, level and pull registers,
   * and the set, clear, level and pull registers of the two banks differ.
   */
  lemma RegisterFamiliesDisjoint(p: Pin, q: Pin)
    ensures GetGPFSELReg(p) < SetRegister(q) && GetGPFSELReg(p) < ClearRegister(q)
    ensures GetGPFSELReg(p) < LevelRegister(q) && GetGPFSELReg(p) < PullClockRegister(q)
    ensures SetRegister(p) != ClearRegister(q) && SetRegister(p) != LevelRegister(q)
    ensures ClearRegister(p) != LevelRegister(q)
    ensures PullClockRegister(p) != GPPUD_OFFSET && IsRegOffset(GPPUD_OFFSET)
    ensures (SetRegister(p) == SetRegister(q)) == ((p < 32) == (q < 32))
  {
  }

  /**
   * Two lines share a function-select register exactly when they are in the
   * same group of ten, and two distinct lines of one register have distinct
   * slots, so their 3-bit fields do not overlap.
   */
  lemma SameFselRegister(p: Pin, q: Pin)
    ensures (GetGPFSELReg(p) == GetGPFSELReg(q)) == ((p as int) / 10 == (q as int) / 10)
    ensures GetGPFSELReg(p) == GetGPFSELReg(q) && p != q ==> Slot(p) != Slot(q)
  {
  }

  /** Two distinct lines of one bank have distinct one-bit masks. */
  lemma DistinctPinMasks(p: Pin, q: Pin)
    requires (p < 32) == (q < 32) && p != q
    ensures BankBit(p) != BankBit(q)
    ensures PinMask(p) & PinMask(q) == 0
  {
    BankBitInt(p);
    BankBitInt(q);
    assert BankBit(p) as int != BankBit(q) as int;
    MasksDisjoint(BankBit(p), BankBit(q));
  }
}
