/**
 * The game protocol of the driver, as pure functions: which LED line a
 * button interrupt stands for and which symbol it records, the debounce
 * test on the tick counter, and the `"LEDn s"` command a write carries.
 */
module Protocol {
  import opened Layout
  import opened CString

  /** Lines of the four LEDs, and the cookies the button interrupts are registered with. */
  const GPIO_06: Pin := 6
  const GPIO_13: Pin := 13
  const GPIO_19: Pin := 19
  const GPIO_26: Pin := 26

  /** Ticks that must pass between two accepted button edges. */
  const DEBOUNCE_TICKS: bv32 := 20

  /** `EFAULT`; the driver returns its negation when a user copy fails. */
  const EFAULT: int := 14

  /**
   * The debounce test of the falling-edge handler: the edge is ignored when
   * fewer than 20 ticks passed since the last accepted one. `jiffies` and
   * `old_jiffie` are `unsigned long`, 32 bits wide on the target, and the
   * difference is taken modulo 2^32.
   */
  predicate Bounce(now: bv32, last: bv32) {
    now - last < DEBOUNCE_TICKS
  }

  /**
   * An edge `d` ticks after the last accepted one is a bounce exactly when
   * `d` is below 20, also when the tick counter wrapped in between.
   */
  lemma BounceWindow(last: bv32, d: bv32)
    ensures Bounce(last + d, last) <==> d < DEBOUNCE_TICKS
  {
    assert (last + d) - last == d;
  }

  /**
   * Across the wrap of the counter: 20 ticks after 0xFFFF_FFF0 the counter
   * reads 4 and the edge counts; at 19 ticks, when it reads 3, it does not.
   */
  lemma BounceAcrossWrap()
    ensures 0xFFFF_FFF0 + 20 == 4 as bv32
    ensures !Bounce(4, 0xFFFF_FFF0)
    ensures Bounce(3, 0xFFFF_FFF0)
  {
    BounceWindow(0xFFFF_FFF0, 20);
    BounceWindow(0xFFFF_FFF0, 19);
  }

  /** The symbol the handler appends for the interrupt cookie `id`. */
  function Symbol(id: Pin): (c: char)
    ensures c in {'0', '1', '2', '3', '4'}
    ensures c != '0' <==> id in {GPIO_06, GPIO_13, GPIO_19, GPIO_26}
  {
    if id == GPIO_06 then '1'
    else if id == GPIO_13 then '2'
    else if id == GPIO_19 then '3'
    else if id == GPIO_26 then '4'
    else '0'
  }

  /** A record of button presses: every symbol in it is one of '0'..'4'. */
  predicate IsRecord(s: seq<char>) {
    forall i :: 0 <= i < |s| ==> '0' <= s[i] <= '4'
  }

  /** Appending the symbol of a press keeps a record a record. */
  lemma RecordAppend(s: seq<char>, id: Pin)
    requires IsRecord(s)
    ensures IsRecord(s + [Symbol(id)])
  {
    assert forall i :: 0 <= i < |s| ==> (s + [Symbol(id)])[i] == s[i];
  }

  /** An LED digit of a write command. */
  predicate IsLedDigit(c: char) {
    '1' <= c <= '4'
  }

  /** The LED line named by digit `n` of a write command. */
  function LedPin(n: char): (p: Pin)
    requires IsLedDigit(n)
    ensures p in {GPIO_06, GPIO_13, GPIO_19, GPIO_26}
  {
    if n == '1' then GPIO_06
    else if n == '2' then GPIO_13
    else if n == '3' then GPIO_19
    else GPIO_26
  }

  /**
   * Commands and records agree: the LED a command `"LEDn s"` drives is the
   * one whose button press records `n`, and distinct digits name distinct
   * LEDs.
   */
  lemma SymbolOfLedPin(n: char, m: char)
    requires IsLedDigit(n) && IsLedDigit(m)
    ensures Symbol(LedPin(n)) == n
    ensures LedPin(n) == LedPin(m) ==> n == m
  {
  }

  /** The bytes of a write as they lie in the 80-byte transfer buffer after `memset` and the copy. */
  function Staged(data: seq<char>): (b: seq<char>)
    requires |data| <= BUF_LEN
    ensures |b| == BUF_LEN && b[..|data|] == data
    ensures forall i :: |data| <= i < BUF_LEN ==> b[i] == NUL
    ensures NUL in b <==> |data| < BUF_LEN || NUL in data
  {
    var b := data + Zeros(BUF_LEN - |data|);
    assert |data| < BUF_LEN ==> b[|data|] == NUL;
    assert b[..|data|] == data;
    b
  }

  /** Level change a command asks for: drive `pin` high (GPSET) or low (GPCLR). */
  datatype Drive = Drive(pin: Pin, high: bool)

  /**
   * What a write makes of the transfer buffer: `Unmatched` when it is no
   * command at all (the call returns 0); `Matched(None)` when it passes the
   * `"LED"` test but names no LED; `Matched(Some(d))` when it drives an LED.
   */
  datatype Command = Unmatched | Matched(drive: Option<Drive>)

  /**
   * The test of `gpio_driver_write`: the C string contains `"LED"`
   * somewhere and is at least five characters long. Then character 3 picks
   * the LED and character 5 the level, `'1'` meaning high and anything
   * else low, whatever lies in between and wherever `"LED"` was found.
   */
  function ParseCommand(b: seq<char>): (c: Command)
    requires |b| == BUF_LEN && NUL in b
    ensures c.Matched? <==> Contains(CStr(b), "LED") && |CStr(b)| >= 5
    ensures c.Matched? ==> (c.drive.Some? <==> IsLedDigit(b[3]))
    ensures c.Matched? && c.drive.Some? ==> c.drive.value == Drive(LedPin(b[3]), b[5] == '1')
  {
    var s := CStr(b);
    if StrStr(s, "LED").Some? && |s| >= 5 then
      if IsLedDigit(b[3]) then Matched(Some(Drive(LedPin(b[3]), b[5] == '1')))
      else Matched(None)
    else Unmatched
  }

  /** The game's own commands `"LEDn s"`, NUL-padded, drive LED `n` high exactly when `s` is `'1'`. */
  lemma LedCommand(n: char, s: char)
    requires IsLedDigit(n) && s != NUL
    ensures ParseCommand(Staged(['L', 'E', 'D', n, ' ', s])) == Matched(Some(Drive(LedPin(n), s == '1')))
  {
    var data := ['L', 'E', 'D', n, ' ', s];
    var b := Staged(data);
    TerminatedCStr(data, b[|data| + 1..]);
    assert b == data + [NUL] + b[|data| + 1..];
    assert OccursAt(CStr(b), "LED", 0);
  }

  /**
   * A command of exactly five characters such as `"LED1 "` also drives its
   * LED: character 5 is then the terminating NUL, which is not `'1'`, so
   * the LED is switched off.
   */
  lemma FiveCharacterCommand(n: char)
    requires IsLedDigit(n)
    ensures ParseCommand(Staged(['L', 'E', 'D', n, ' '])) == Matched(Some(Drive(LedPin(n), false)))
  {
    var data := ['L', 'E', 'D', n, ' '];
    var b := Staged(data);
    TerminatedCStr(data, b[|data| + 1..]);
    assert b == data + [NUL] + b[|data| + 1..];
    assert OccursAt(CStr(b), "LED", 0);
  }

  /** A write of a C string without a capital `'L'` is no command. */
  lemma WithoutLNoCommand(data: seq<char>)
    requires |data| < BUF_LEN && NUL !in data && 'L' !in data
    ensures ParseCommand(Staged(data)) == Unmatched
  {
    var b := Staged(data);
    assert b == data + [NUL] + b[|data| + 1..];
    TerminatedCStr(data, b[|data| + 1..]);
    forall i: nat | i <= |data|
      ensures !OccursAt(data, "LED", i)
    {
      if i + 3 <= |data| {
        assert data[i..i + 3][0] == data[i];
      }
    }
  }

  /**
   * `"LED"` is looked for anywhere, but the LED digit is read at a fixed
   * position: `"my LED1 1"` passes the test, yet character 3 is `'L'`, so
   * nothing is driven and the write still reports success.
   */
  lemma CommandNotAtStart()
    ensures ParseCommand(Staged("my LED1 1")) == Matched(None)
  {
    var data := "my LED1 1";
    var b := Staged(data);
    TerminatedCStr(data, b[|data| + 1..]);
    assert b == data + [NUL] + b[|data| + 1..];
    assert OccursAt(CStr(b), "LED", 3);
  }
}
