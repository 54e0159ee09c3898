# GPIO driver of the Simon game, modelled in Dafny

The Simon game on a Raspberry Pi talks to a small Linux character driver.
The driver does four things:

- It drives four LEDs on GPIO lines 6, 13, 19 and 26.
- It records button presses on lines 12, 16, 20 and 21 through a falling-edge interrupt handler.
- It hands the recorded presses to the game on `read`.
- It switches LEDs on `"LEDn s"` commands that the game `write`s.

This project models the driver's register-level logic over a fake register window. It also models its small record/read/command protocol. It proves what each routine does to that state.

- `bits.dfy` (`Bits`): one-bit masks, the 3-bit function-select fields of a word, and the set/clear update `w | m` / `w & ~m`. The generic mask, field and update lemmas live here; the other modules instantiate them for concrete lines and words.
- `layout.dfy` (`Layout`): the register offsets of the BCM2835/2837 GPIO block, following section 6.1 of the Broadcom "BCM2835 ARM Peripherals" manual. It also holds the pin type (lines 0..53, as the driver's unsigned `char`), `GetGPFSELReg`, `GetGPIOPinOffset` and the bank-selection arithmetic.
- `registers.dfy` (`Registers`): the class `GpioRegisters`.
  - It holds the 0xB4-byte window as an array of 45 `bv32` words and a trace of every `ioread32`/`iowrite32`.
  - Its methods are `SetGpioPinDirection`, `SetGpioPin`, `ClearGpioPin`, `GetGpioPinValue` and `SetInternalPullUpDown`.
  - Each method states the exact new window contents and the exact accesses it makes.
- `cstring.dfy` (`CString`): NUL-terminated buffers. It covers `strlen`, `strstr`, `memset`, `strcpy`, a one-character `strcat` and `copy_from_user` into an array.
- `protocol.dfy` (`Protocol`): the pure part of the protocol.
  - The debounce test on the wrapping 32-bit tick counter.
  - The symbol recorded per interrupt cookie.
  - The parse of a write command.
- `driver.dfy` (`Driver`): the class `GpioDriver`.
  - Its fields are the driver's globals `old_jiffie`, `gpio_sequnce_buffer` and `gpio_driver_buffer`, plus the register window.
  - Its methods are the interrupt handler and the `read` and `write` file operations.
- `scenarios.dfy` (`Scenarios`): whole runs proved against the contracts.
  - A round of presses read back.
  - Bounces and tick wrap-around.
  - The record lost on a read at a nonzero offset.
  - LED commands.
  - The LED line set-up of module load.
  - Button levels.

Two behaviours of the code are worth knowing, and the model keeps both:

- The comment at gpio_driver/gpio_driver.c:114-117 calls `000` the input code of a function-select field. Yet `SetGpioPinDirection` with IN clears only bit 0 of the pin's 3-bit field (line 336). An alternate function such as ALT0 (`0b100`) therefore survives (`Registers.InDoesNotClearAltFunction`).
- A `write` that is no command returns 0 (line 792), not the number of bytes written (`Driver.GpioDriver.Write`).

## Model

| member | source | states |
|---|---|---|
| Layout.WordIndex | gpio_driver/gpio_driver.c:42 | every register offset the driver uses is a multiple of 4 below 0xB4, so it names one of the 45 words of the window |
| Layout.Pud.Code | gpio_driver/gpio_driver.c:111 | the GPPUD control codes: PULL_NONE 0, PULL_DOWN 1, PULL_UP 2 |
| Layout.GetGPFSELReg | gpio_driver/gpio_driver.c:208-227 | the function-select register is a word offset of the window at most GPFSEL5; for lines 0..53 it is `4 * (p / 10)`, and every `char` from 50 up falls into GPFSEL5 |
| Layout.GetGPIOPinOffset | gpio_driver/gpio_driver.c:238-254 | the slot within that register is `p % 10` for lines 0..53, and `p - 50` for any `char` from 50 up |
| Layout.Slot | gpio_driver/gpio_driver.c:238-254 | the slot of a line is below 10 |
| Layout.FselShift | gpio_driver/gpio_driver.c:331 | the function-select bit `slot * 3` is below 30, inside a 32-bit word |
| Layout.BankBit | gpio_driver/gpio_driver.c:356 | the bit of a line in the one-bit-per-line registers (`pin` or `pin - 32`) is below 32 |
| Layout.PinArithmetic | gpio_driver/gpio_driver.c:208-254 | in integers, for every line p in 0..53: register `4 * (p / 10)`, slot `p % 10`, function-select bit `3 * (p % 10) <= 27`, bank bit `p % 32` |
| Layout.SlotInt | gpio_driver/gpio_driver.c:238-254 | the slot equals `p % 10` in integers |
| Layout.BankBitInt | gpio_driver/gpio_driver.c:356 | the bank bit equals `p % 32` in integers |
| Layout.PinMaskOneBit | gpio_driver/gpio_driver.c:359 | the word `0x1 << pin` that SetGpioPin and ClearGpioPin write has exactly one bit set, bit `p mod 32` |
| Layout.SetRegister | gpio_driver/gpio_driver.c:355 | GPSET0 (0x1C) for lines below 32, GPSET1 (0x20) otherwise, both words of the window |
| Layout.ClearRegister | gpio_driver/gpio_driver.c:376 | GPCLR0 (0x28) for lines below 32, GPCLR1 (0x2C) otherwise, both words of the window |
| Layout.LevelRegister | gpio_driver/gpio_driver.c:400 | GPLEV0 (0x34) for lines below 32, GPLEV1 (0x38) otherwise, both words of the window |
| Layout.PullClockRegister | gpio_driver/gpio_driver.c:276 | GPPUDCLK0 (0x98) for lines below 32, GPPUDCLK1 (0x9C) otherwise, both words of the window |
| Layout.RegisterFamiliesDisjoint | gpio_driver/gpio_driver.c:47-108 | function-select words lie below all other registers; the set, clear, level and pull registers never coincide; two lines share a set register exactly when they are in the same bank |
| Layout.SameFselRegister | gpio_driver/gpio_driver.c:208-254 | two lines share a function-select register exactly when `p / 10 == q / 10`, and distinct lines of one register have distinct slots |
| Layout.DistinctPinMasks | gpio_driver/gpio_driver.c:359 | distinct lines of one bank have disjoint one-bit masks |
| Bits.MaskThenShift | gpio_driver/gpio_driver.c:405-408 | `(w & (1 << k)) >> k` is bit k of w |
| Bits.UpdateBits | gpio_driver/gpio_driver.c:329-337 | a set (`tmp \|= mask`) or clear (`tmp &= ~mask`) decides the bits under the mask and keeps every other bit |
| Bits.UpdateIdempotent | gpio_driver/gpio_driver.c:329-337 | repeating a set or clear with the same mask changes nothing more |
| Bits.ClearAfterSet | gpio_driver/gpio_driver.c:290-304 | raising and then lowering a mask equals only lowering it |
| Bits.FieldLowBitUpdate | gpio_driver/gpio_driver.c:329-337 | updating bit `3 * slot` makes the low bit of that slot's field 1 (set) or 0 (clear) |
| Bits.FieldHighBitsUpdate | gpio_driver/gpio_driver.c:329-337 | updating bit `3 * slot` keeps the upper two bits of that slot's field |
| Bits.OtherFieldUpdate | gpio_driver/gpio_driver.c:329-337 | updating bit `3 * slot` keeps the field of every other slot |
| Registers.Writes | gpio_driver/gpio_driver.c:265-305 | the writes of a trace, in order; a trace of writes only is its own write list |
| Registers.DirectionWordBits | gpio_driver/gpio_driver.c:326-339 | OUT sets the pin's function-select bit, IN clears it, and every other bit of the word is kept |
| Registers.DirectionIdempotent | gpio_driver/gpio_driver.c:315-340 | setting the same direction twice gives the word setting it once gives |
| Registers.DirectionFields | gpio_driver/gpio_driver.c:326-339 | in the pin's field only the low bit is decided (1 after OUT, 0 after IN) and the upper two bits are kept; the field of every other line in the register is unchanged |
| Registers.InDoesNotClearAltFunction | gpio_driver/gpio_driver.c:334-338 | line 14 holding ALT0 (`0b100`) keeps `0b100` after IN, so it is not made an input, and becomes `0b101` after OUT |
| Registers.ClockAssertedBits | gpio_driver/gpio_driver.c:290-293 | the first clock write raises the pin's clock bit and keeps every other bit |
| Registers.ClockReleasedBits | gpio_driver/gpio_driver.c:301-304 | the second clock write leaves the old clock word with only the pin's bit cleared |
| Registers.PullHandshake | gpio_driver/gpio_driver.c:265-305 | the six accesses of the handshake: write, read, write, write, read, write |
| Registers.PullHandshakeWrites | gpio_driver/gpio_driver.c:265-305 | the handshake writes exactly: GPPUD := pull, CLK := old \| mask, GPPUD := 0, CLK := (old \| mask) & ~mask, in that order |
| Registers.DriveWrite | gpio_driver/gpio_driver.c:349-382 | the write of SetGpioPin goes to 0x1C (GPSET0) and that of ClearGpioPin to 0x28 (GPCLR0) for lines below 32, each 4 higher (GPSET1, GPCLR1) otherwise, always a word of the window |
| Registers.DriveWriteOneBit | gpio_driver/gpio_driver.c:359-360 | the value written by SetGpioPin / ClearGpioPin is nonzero with exactly one bit set, bit `pin mod 32` |
| Registers.GpioRegisters.constructor | gpio_driver/gpio_driver.c:42 | a window of 45 words holding the given contents, with nothing accessed yet |
| Registers.GpioRegisters.Read32 | gpio_driver/gpio_driver.c:290 | `ioread32` returns the word, changes no register and records one read |
| Registers.GpioRegisters.Write32 | gpio_driver/gpio_driver.c:293 | `iowrite32` replaces exactly one word and records one write |
| Registers.GpioRegisters.SetInternalPullUpDown | gpio_driver/gpio_driver.c:265-305 | the trace grows by exactly the handshake; afterwards GPPUD holds 0 and the clock word is the old one with the pin's bit cleared; no other word changes |
| Registers.GpioRegisters.PullPhase | gpio_driver/gpio_driver.c:282-293 | one phase: write the control code, then read-modify-write the clock register; exactly two words change |
| Registers.GpioRegisters.SetGpioPinDirection | gpio_driver/gpio_driver.c:315-340 | one read and one write of the pin's function-select word, which becomes the direction word of its old value; no other word changes |
| Registers.GpioRegisters.SetGpioPin | gpio_driver/gpio_driver.c:349-361 | exactly one write and no read: the pin's one-bit mask to GPSET0/1; no other word changes |
| Registers.GpioRegisters.ClearGpioPin | gpio_driver/gpio_driver.c:370-382 | exactly one write and no read: the pin's one-bit mask to GPCLR0/1; no other word changes |
| Registers.GpioRegisters.GetGpioPinValue | gpio_driver/gpio_driver.c:393-409 | one read of GPLEV0/1 and no change; the result is 0 or 1 and is the pin's bit of that word |
| CString.StrLen | gpio_driver/gpio_driver.c:712 | `strlen` is the index of the first NUL: a NUL is there and none before |
| CString.StrLenUnique | gpio_driver/gpio_driver.c:712 | any index with a NUL and no NUL before it is `strlen` |
| CString.CStr | gpio_driver/gpio_driver.c:704 | the C string of a buffer is shorter than the buffer, holds no NUL, and is followed by a NUL |
| CString.Zeros | gpio_driver/gpio_driver.c:702 | what `memset(buf, 0, n)` leaves: n NUL characters |
| CString.TerminatedCStr | gpio_driver/gpio_driver.c:704 | a buffer that starts with a NUL-free `t` and a NUL has C string `t` |
| CString.FindFrom | gpio_driver/gpio_driver.c:755 | the search from index k finds the first occurrence of the pattern at or after k, or reports that there is none |
| CString.StrStr | gpio_driver/gpio_driver.c:755 | `strstr` succeeds exactly when the pattern occurs somewhere, and then at its first occurrence |
| CString.MemsetZero | gpio_driver/gpio_driver.c:702 | `memset` zeroes the whole buffer |
| CString.CopyIn | gpio_driver/gpio_driver.c:749 | a successful `copy_from_user` puts the user bytes at the front of the buffer and leaves the rest |
| CString.StrLenOf | gpio_driver/gpio_driver.c:712 | the scan of `strlen` stops at the first NUL |
| CString.StrCpy | gpio_driver/gpio_driver.c:704 | `strcpy` copies the source's C string and its NUL to the front of the destination and leaves the rest |
| CString.StrCatChar | gpio_driver/gpio_driver.c:429 | `strcat` of one character overwrites the first NUL with it and writes a NUL after it; the C string grows by that character |
| Protocol.BounceWindow | gpio_driver/gpio_driver.c:417-422 | an edge d ticks after the last accepted one is ignored exactly when d < 20, also across the wrap of the 32-bit counter |
| Protocol.BounceAcrossWrap | gpio_driver/gpio_driver.c:417-422 | 20 ticks after 0xFFFF_FFF0 the counter reads 4 and the edge counts; at 3 (19 ticks) it is ignored |
| Protocol.Symbol | gpio_driver/gpio_driver.c:427-446 | the recorded symbol is one of '0'..'4', and it is not '0' exactly when the cookie is one of lines 6, 13, 19, 26 |
| Protocol.LedPin | gpio_driver/gpio_driver.c:757-785 | LED digits '1'..'4' name the LED lines 6, 13, 19, 26 |
| Protocol.SymbolOfLedPin | gpio_driver/gpio_driver.c:427-446 | a press on the LED that command digit n drives records n, and distinct digits name distinct LEDs |
| Protocol.Staged | gpio_driver/gpio_driver.c:746-749 | the transfer buffer after `memset` and the copy holds the user bytes and then NULs, and holds a NUL exactly when the bytes are shorter than 80 or contain one |
| Protocol.ParseCommand | gpio_driver/gpio_driver.c:755-792 | a command exactly when the C string contains "LED" and is at least 5 long; it drives an LED exactly when character 3 is '1'..'4', then LED n high exactly when character 5 is '1' |
| Protocol.LedCommand | gpio_driver/gpio_driver.c:755-785 | `"LEDn s"` drives LED n high exactly when s is '1' |
| Protocol.FiveCharacterCommand | gpio_driver/gpio_driver.c:755-785 | `"LEDn "` passes the length test and switches LED n off, since character 5 is the terminating NUL |
| Protocol.WithoutLNoCommand | gpio_driver/gpio_driver.c:755 | a C string with no capital 'L' is no command |
| Protocol.CommandNotAtStart | gpio_driver/gpio_driver.c:755-789 | `"my LED1 1"` passes the test but names no LED, so nothing is driven and `len` is returned |
| Driver.GpioDriver.Pending | gpio_driver/gpio_driver.c:192 | the recorded sequence is the sequence buffer's C string: at most 79 symbols, each one of '0'..'4' (an invariant every method keeps) |
| Protocol.RecordAppend | gpio_driver/gpio_driver.c:427-446 | appending the symbol of any press to a record of '0'..'4' symbols gives such a record again |
| Driver.GpioDriver.constructor | gpio_driver/gpio_driver.c:184-191 | both 80-byte buffers zeroed, nothing recorded, `old_jiffie` 0 |
| Driver.GpioDriver.HandleFalling | gpio_driver/gpio_driver.c:412-459 | within 20 ticks of the last accepted edge nothing changes, no register is touched; otherwise the tick is remembered, exactly the cookie's symbol is appended (only two buffer bytes change), and the pin is set and then cleared by exactly two writes |
| Driver.GpioDriver.Read | gpio_driver/gpio_driver.c:696-730 | the record is copied out and cleared whatever the offset; at offset 0 its length is returned and added to the offset, or -EFAULT when the copy fails, which a copy of an empty record never does; at any other offset 0 is returned and the record is lost; what is handed out consists of '0'..'4' only |
| Driver.GpioDriver.Write | gpio_driver/gpio_driver.c:743-794 | a failed copy returns -EFAULT and touches no register (a write of 0 bytes cannot fail and returns 0); no command returns 0 and touches no register; a command returns `len` and drives the named LED with one write to GPSET/GPCLR, or touches nothing if character 3 names no LED |
| Driver.GpioDriver.DriveLed | gpio_driver/gpio_driver.c:757-785 | for digit '1'..'4' exactly one write, setting the LED when character 5 is '1' and clearing it otherwise; for any other digit no access |
| Scenarios.FreshDriver | gpio_driver/gpio_driver.c:470-507 | a loaded driver over a zeroed window: nothing recorded, no access made |
| Scenarios.RoundReadBack | gpio_driver/gpio_driver.c:412-459 | presses of the buttons of LEDs 1, 3, 2, 4 a hundred ticks apart are read back as "1324" with length 4 |
| Scenarios.BouncingButton | gpio_driver/gpio_driver.c:417-422 | an edge 10 ticks after an accepted one is dropped; one 20 ticks after it is recorded |
| Scenarios.WrappingTicks | gpio_driver/gpio_driver.c:417-422 | debouncing works across the wrap of the tick counter |
| Scenarios.DrainOnRead | gpio_driver/gpio_driver.c:696-730 | a second read at offset 0 returns 0, even over bad user memory; a read at offset 1 returns 0 and the record is gone for the next read |
| Scenarios.EmptyTransfers | gpio_driver/gpio_driver.c:709-723 | with bad user memory, a read at offset 0 with nothing recorded returns 0, and so does a write of 0 bytes (lines 749-792) |
| Scenarios.LedCommands | gpio_driver/gpio_driver.c:743-794 | "LED2 1" returns 6 and writes 0x2000 to GPSET0; "hello" returns 0; a failed copy returns -14; only that one write reaches the window |
| Scenarios.LedLinesAsOutputs | gpio_driver/gpio_driver.c:519-522 | making lines 6, 13, 19, 26 outputs on a zeroed window gives GPFSEL0 = 0x40000, GPFSEL1 = 0x08000200, GPFSEL2 = 0x40000 in eight accesses |
| Scenarios.ButtonLevels | gpio_driver/gpio_driver.c:393-409 | with GPLEV0 = 0x10000, line 12 reads 0 (pressed) and line 16 reads 1 |

## Left out

- `gpio_driver_init` and `gpio_driver_exit` as resource lifecycles are not modelled. They are made of kernel calls: device registration, `kmalloc`, `ioremap`, IRQ requests, `iounmap`, `kfree`. Their error rollback is not modelled either.
  - The model's driver starts as a successful load leaves it, with both buffers zeroed and `old_jiffie` 0.
  - The source never zeroes the sequence buffer: line 507 repeats the `memset` of the transfer buffer. The model starts it zeroed instead.
  - Only the LED line set-up of load is shown, as a scenario (`Scenarios.LedLinesAsOutputs`).
- `gpio_driver_open` and `gpio_driver_release` only return 0 and are not modelled.
- simon_game/src/main.c, the game itself, is not part of this model. The only thing taken from it is that the game reads and writes with a length of 80.
- `printk`, `mdelay(100)` and `local_irq_save`/`local_irq_restore` around the pulse are timing and interrupt masking. The handler is modelled as one atomic step.
- `read` and `write` are modelled as atomic with respect to the interrupt handler; the source takes no lock in them. A press accepted between the `strcpy` at line 704 and the `memset` at line 707 is appended and then wiped before it is copied, so it is lost. The model cannot express that lost-press race.
- The "wait 150 cycles" steps of the pull handshake are comments in the source. No delay is modelled.
- `jiffies` is a parameter of the handler. Its two reads are taken as the same tick. `unsigned long` is 32 bits wide, as on the 32-bit ARM kernel.
- The interrupt number is not modelled. The cookie is passed as a line number; the int/pointer conversion of `dev_id` is left out.
- The register window behaves as plain memory. A write to GPSET or GPCLR stores the value written and does not change GPLEV; the model makes no claim about pin levels after a write.
- Driver.GpioDriver.HandleFalling: a precondition requires fewer than 79 recorded symbols before an accepted edge, because the source's `strcat` has no bounds check.
- Driver.GpioDriver.Write: a precondition of at most 80 bytes, with a NUL among them when there are exactly 80. This is because `copy_from_user` is unbounded and `strstr`/`strlen` would otherwise run past the buffer.
- Driver.GpioDriver.Write: a failing `copy_from_user` is modelled as copying nothing, although the kernel may have copied part of the bytes.
- Driver.GpioDriver.Read: the `len` argument of `read` is ignored, as in the source. The `f_pos` offset is an unbounded integer. The bytes handed to user space are the result `out`.
