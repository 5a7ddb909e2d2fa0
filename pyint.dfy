/** Python integer operations with Python's semantics on unbounded ints:
    bitwise XOR (`^`, two's complement for negatives) and `str(int)`. */
module PyInt {

  /** XOR of two naturals, bit by bit from the least significant bit. */
  function NatXor(a: nat, b: nat): nat
    decreases a + b
  {
    if a == 0 && b == 0 then 0
    else 2 * NatXor(a / 2, b / 2) + (a % 2 + b % 2) % 2
  }

  /** Python's `a ^ b` on ints: negative numbers behave as infinite two's
      complement, so `~x == -x - 1` and `~x ^ y == ~(x ^ y)`. */
  function Xor(a: int, b: int): int {
    if a >= 0 && b >= 0 then NatXor(a, b)
    else if a < 0 && b < 0 then NatXor(-a - 1, -b - 1)
    else if a < 0 then -(NatXor(-a - 1, b) as int) - 1
    else -(NatXor(a, -b - 1) as int) - 1
  }

  lemma {:induction false} NatXorZero(b: nat)
    ensures NatXor(0, b) == b
    decreases b
  {
    if b != 0 {
      NatXorZero(b / 2);
    }
  }

  /** XOR with a fixed left operand undoes itself. */
  lemma {:induction false} NatXorInvolution(a: nat, b: nat)
    ensures NatXor(a, NatXor(a, b)) == b
    decreases a + b
  {
    if a == 0 {
      NatXorZero(b);
      NatXorZero(NatXor(a, b));
    } else {
      var x := NatXor(a / 2, b / 2);
      var bit := (a % 2 + b % 2) % 2;
      var c := 2 * x + bit;
      assert NatXor(a, b) == c;
      HalveOddEven(x, bit);
      NatXorInvolution(a / 2, b / 2);
      var y := NatXor(a / 2, x);
      assert y == b / 2;
      assert NatXor(a, c) == 2 * y + (a % 2 + bit) % 2;
      BitFacts(a, b);
    }
  }

  /** Adding a's low bit twice cancels, and b splits into halves and bit. */
  lemma BitFacts(a: nat, b: nat)
    ensures (a % 2 + (a % 2 + b % 2) % 2) % 2 == b % 2
    ensures 2 * (b / 2) + b % 2 == b
  {
    var p, q := a % 2, b % 2;
    assert p == 0 || p == 1;
    assert q == 0 || q == 1;
  }

  lemma HalveOddEven(x: nat, bit: nat)
    requires bit < 2
    ensures (2 * x + bit) / 2 == x && (2 * x + bit) % 2 == bit
  {
  }

  /** For a fixed seed, `seed ^ i` is injective in `i`: distinct slots
      get distinct seeds. */
  lemma NatXorInjective(a: nat, b: nat, c: nat)
    requires NatXor(a, b) == NatXor(a, c)
    ensures b == c
  {
    NatXorInvolution(a, b);
    NatXorInvolution(a, c);
  }

  /** Python's int XOR is an involution in its right operand too. */
  lemma XorInvolution(a: int, b: int)
    ensures Xor(a, Xor(a, b)) == b
  {
    if a >= 0 && b >= 0 {
      NatXorInvolution(a, b);
    } else if a < 0 && b < 0 {
      NatXorInvolution(-a - 1, -b - 1);
    } else if a < 0 {
      NatXorInvolution(-a - 1, b);
    } else {
      NatXorInvolution(a, -b - 1);
    }
  }

  /** The decimal digit character for 0 <= d < 10. */
  function DigitChar(d: nat): (c: char)
    requires d < 10
    ensures '0' <= c <= '9' && c as int - '0' as int == d
  {
    ('0' as int + d) as char
  }

  /** The decimal digits of a natural, without leading zeros. */
  function NatToDecimal(n: nat): (s: string)
    ensures |s| >= 1
    ensures forall k :: 0 <= k < |s| ==> '0' <= s[k] <= '9'
  {
    if n < 10 then [DigitChar(n)] else NatToDecimal(n / 10) + [DigitChar(n % 10)]
  }

  /** Python's `str(i)` for an int. */
  function IntToDecimal(i: int): (s: string)
    ensures |s| >= 1
  {
    if i < 0 then "-" + NatToDecimal(-i) else NatToDecimal(i)
  }
}
