/** The three status bits the arithmetic instructions update, and how each is
    derived from a 16-bit result (`set_zero_flag`, `set_signed_flag`,
    `set_parity_flag`). Each setter changes its own bit of the flag word and
    no other. */
module Flags {

  const PARITY_FLAG: bv16 := 0x0004
  const ZERO_FLAG: bv16 := 0x0040
  const SIGN_FLAG: bv16 := 0x0080

  /** The bits of the flag word that none of the three setters touches. */
  const UNTOUCHED: bv16 := !(PARITY_FLAG | ZERO_FLAG | SIGN_FLAG)

  /** The lowest bit of v, as a number. */
  function LowBit(v: bv16): (b: nat)
    ensures b <= 1
    ensures b == 1 <==> v & 1 == 1
  {
    if v & 1 == 0 then 0 else 1
  }

  /** The number of one bits among the lowest n bits of v. */
  function Ones(v: bv16, n: nat): nat {
    if n == 0 then 0 else LowBit(v) + Ones(v >> 1, n - 1)
  }

  /** The parity test of the simulator: the low byte of the result holds an
      even number of one bits. */
  predicate EvenParity(result: bv16) {
    Ones(result, 8) % 2 == 0
  }

  /** The flag word after `set_zero_flag(result)`. */
  function WithZero(flags: bv16, result: bv16): bv16 {
    if result == 0 then flags | 0x0040 else flags & 0xFFBF
  }

  /** The flag word after `set_signed_flag(result)`. */
  function WithSign(flags: bv16, result: bv16): bv16 {
    if (result & 0x4000) >> 14 == 1 then flags | 0x0080 else flags & 0xFF7F
  }

  /** The flag word after `set_parity_flag`, given whether the count of one
      bits it made was even. */
  function WithParity(flags: bv16, even: bool): bv16 {
    if even then flags | 0x0004 else flags & 0xFFFB
  }

  /** `set_zero_flag`, `set_signed_flag` and then a parity update that sets
      the parity bit exactly when `even` holds. */
  function WithFlags(flags: bv16, result: bv16, even: bool): bv16 {
    WithParity(WithSign(WithZero(flags, result), result), even)
  }

  /** `set_zero_flag`, `set_signed_flag` and `set_parity_flag`, in that order. */
  function WithResultFlags(flags: bv16, result: bv16): bv16 {
    WithFlags(flags, result, EvenParity(result))
  }

  /** The zero bit is set exactly when the result is zero; no other bit of
      the flag word changes. */
  lemma ZeroFlagSetter(flags: bv16, result: bv16)
    ensures (WithZero(flags, result) & ZERO_FLAG != 0) <==> result == 0
    ensures WithZero(flags, result) & !ZERO_FLAG == flags & !ZERO_FLAG
  {
  }

  /** The sign bit copies bit 14 of the result (mask 0x4000), not bit 15;
      no other bit of the flag word changes. */
  lemma SignFlagSetter(flags: bv16, result: bv16)
    ensures (WithSign(flags, result) & SIGN_FLAG != 0) <==> (result & 0x4000 != 0)
    ensures WithSign(flags, result) & !SIGN_FLAG == flags & !SIGN_FLAG
  {
  }

  /** The parity bit is set exactly when the count was even; no other bit of
      the flag word changes. */
  lemma ParityFlagSetter(flags: bv16, even: bool)
    ensures (WithParity(flags, even) & PARITY_FLAG != 0) <==> even
    ensures WithParity(flags, even) & !PARITY_FLAG == flags & !PARITY_FLAG
  {
  }

  /** What the three setters, run after an arithmetic operation, leave in the
      flag word: zero, sign and parity describe the result and every other bit
      is as before. */
  ghost predicate FlagsFrom(before: bv16, after: bv16, result: bv16) {
    FlagsFor(before, after, result, EvenParity(result))
  }

  /** `FlagsFrom` with the parity outcome given as `even`. */
  ghost predicate FlagsFor(before: bv16, after: bv16, result: bv16, even: bool) {
    && ((after & ZERO_FLAG != 0) <==> result == 0)
    && ((after & SIGN_FLAG != 0) <==> (result & 0x4000 != 0))
    && ((after & PARITY_FLAG != 0) <==> even)
    && after & UNTOUCHED == before & UNTOUCHED
  }

  lemma FlagsForAny(flags: bv16, result: bv16, even: bool)
    ensures FlagsFor(flags, WithFlags(flags, result, even), result, even)
  {
  }

  lemma ResultFlags(flags: bv16, result: bv16)
    ensures FlagsFrom(flags, WithResultFlags(flags, result), result)
  {
    FlagsForAny(flags, result, EvenParity(result));
  }

  /** At most n of the lowest n bits are ones. */
  lemma {:induction false} OnesAtMost(v: bv16, n: nat)
    ensures Ones(v, n) <= n
  {
    if n > 0 {
      OnesAtMost(v >> 1, n - 1);
    }
  }

  /** The bit-counting check: 57 = 0b0011_1001 has four one bits in its low
      byte, so its parity is even. */
  lemma OnesOf57()
    ensures Ones(57, 8) == 4 && EvenParity(57)
  {
    assert Ones(0, 2) == 0;
    assert Ones(1, 3) == 1;
    assert Ones(3, 4) == 2;
    assert Ones(7, 5) == 3;
    assert Ones(14, 6) == 3;
    assert Ones(28, 7) == 3;
  }
}
