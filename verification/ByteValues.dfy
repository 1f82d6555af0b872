/** Bytes as numbers, bit by bit. */
module ByteValues {

  predicate Odd(n: nat) {
    n % 2 == 1
  }

  /** The number `n` with one more binary digit. */
  function Then(n: nat, bit: bool): nat {
    2 * n + if bit then 1 else 0
  }

  lemma ThenHalved(n: nat, bit: bool)
    ensures Then(n, bit) / 2 == n && (Odd(Then(n, bit)) <==> bit)
  {
  }

  lemma HalvedThen(n: nat)
    ensures Then(n / 2, Odd(n)) == n
  {
  }

  function Packed(b7: bool, b6: bool, b5: bool, b4: bool, b3: bool, b2: bool, b1: bool, b0: bool): bv8 {
    (if b7 then 128 else 0) | (if b6 then 64 else 0) | (if b5 then 32 else 0) | (if b4 then 16 else 0)
    | (if b3 then 8 else 0) | (if b2 then 4 else 0) | (if b1 then 2 else 0) | (if b0 then 1 else 0)
  }

  function ToByte(n: nat): bv8
    requires n < 0x100
  {
    var n1 := n / 2;
    var n2 := n1 / 2;
    var n3 := n2 / 2;
    var n4 := n3 / 2;
    var n5 := n4 / 2;
    var n6 := n5 / 2;
    Packed(Odd(n6 / 2), Odd(n6), Odd(n5), Odd(n4), Odd(n3), Odd(n2), Odd(n1), Odd(n))
  }

  function FromByte(b: bv8): (n: nat)
    ensures n < 0x100
  {
    Then(Then(Then(Then(Then(Then(Then(Then(0,
      b & 128 != 0), b & 64 != 0), b & 32 != 0), b & 16 != 0), b & 8 != 0), b & 4 != 0), b & 2 != 0), b & 1 != 0)
  }

  /** It is the byte's own number. */
  lemma ByteIsNumber(b: bv8)
    ensures FromByte(b) == b as int
  {
  }

  /** The binary digit of weight 2^k. */
  predicate Digit(n: nat, k: nat) {
    if k == 0 then Odd(n) else Digit(n / 2, k - 1)
  }

  lemma DigitHalves(n: nat)
    ensures Digit(n, 0) <==> n % 2 == 1
    ensures forall k: nat :: Digit(n, k + 1) <==> Digit(n / 2, k)
  {
  }

  /** 2 to the `k`. */
  function Power(k: nat): int {
    if k == 0 then 1 else 2 * Power(k - 1)
  }

  lemma Powers()
    ensures Power(0) == 1 && Power(1) == 2 && Power(2) == 4 && Power(3) == 8
    ensures Power(4) == 16 && Power(5) == 32 && Power(6) == 64 && Power(7) == 128
  {
    assert Power(3) == 8 && Power(5) == 32;
  }

  /** The same for the digits of a byte, as quotients. */
  lemma DigitIsQuotient(n: nat)
    ensures (Digit(n, 0) <==> n % 2 == 1) && (Digit(n, 1) <==> n / 2 % 2 == 1)
    ensures (Digit(n, 2) <==> n / 4 % 2 == 1) && (Digit(n, 3) <==> n / 8 % 2 == 1)
    ensures (Digit(n, 4) <==> n / 16 % 2 == 1) && (Digit(n, 5) <==> n / 32 % 2 == 1)
    ensures (Digit(n, 6) <==> n / 64 % 2 == 1) && (Digit(n, 7) <==> n / 128 % 2 == 1)
  {
    hide Digit;
    var n1, n2, n3, n4, n5, n6, n7 := n / 2, n / 4, n / 8, n / 16, n / 32, n / 64, n / 128;
    assert n1 / 2 == n2 && n2 / 2 == n3 && n3 / 2 == n4 && n4 / 2 == n5 && n5 / 2 == n6 && n6 / 2 == n7;
    DigitHalves(n);
    DigitHalves(n1);
    DigitHalves(n2);
    DigitHalves(n3);
    DigitHalves(n4);
    DigitHalves(n5);
    DigitHalves(n6);
    DigitHalves(n7);
  }

  lemma DigitThen(n: nat, bit: bool)
    ensures Digit(Then(n, bit), 0) <==> bit
    ensures forall k: nat :: Digit(Then(n, bit), k + 1) <==> Digit(n, k)
  {
    ThenHalved(n, bit);
  }

  /** The digit `7 - k` is the one that the mask `128 >> k` picks. */
  lemma DigitsOfByte(b: bv8)
    ensures var n := FromByte(b);
      && (Digit(n, 7) <==> b & 128 != 0) && (Digit(n, 6) <==> b & 64 != 0) && (Digit(n, 5) <==> b & 32 != 0)
      && (Digit(n, 4) <==> b & 16 != 0) && (Digit(n, 3) <==> b & 8 != 0) && (Digit(n, 2) <==> b & 4 != 0)
      && (Digit(n, 1) <==> b & 2 != 0) && (Digit(n, 0) <==> b & 1 != 0)
  {
    hide Then, Odd, Digit;
    var n7 := Then(0, b & 128 != 0);
    var n6 := Then(n7, b & 64 != 0);
    var n5 := Then(n6, b & 32 != 0);
    var n4 := Then(n5, b & 16 != 0);
    var n3 := Then(n4, b & 8 != 0);
    var n2 := Then(n3, b & 4 != 0);
    var n1 := Then(n2, b & 2 != 0);
    var n := Then(n1, b & 1 != 0);
    DigitThen(0, b & 128 != 0);
    DigitThen(n7, b & 64 != 0);
    DigitThen(n6, b & 32 != 0);
    DigitThen(n5, b & 16 != 0);
    DigitThen(n4, b & 8 != 0);
    DigitThen(n3, b & 4 != 0);
    DigitThen(n2, b & 2 != 0);
    DigitThen(n1, b & 1 != 0);
    assert n == FromByte(b);
  }

  lemma PackedBits(b7: bool, b6: bool, b5: bool, b4: bool, b3: bool, b2: bool, b1: bool, b0: bool)
    ensures var b := Packed(b7, b6, b5, b4, b3, b2, b1, b0);
      && (b & 128 != 0 <==> b7) && (b & 64 != 0 <==> b6) && (b & 32 != 0 <==> b5) && (b & 16 != 0 <==> b4)
      && (b & 8 != 0 <==> b3) && (b & 4 != 0 <==> b2) && (b & 2 != 0 <==> b1) && (b & 1 != 0 <==> b0)
  {
  }

  lemma Repacked(b: bv8)
    ensures Packed(b & 128 != 0, b & 64 != 0, b & 32 != 0, b & 16 != 0,
                   b & 8 != 0, b & 4 != 0, b & 2 != 0, b & 1 != 0) == b
  {
  }

  lemma TopHalf(n: nat)
    requires n < 2
    ensures Then(0, Odd(n)) == n
  {
  }

  lemma ByteRoundTrip(n: nat)
    requires n < 0x100
    ensures FromByte(ToByte(n)) == n
  {
    hide Packed, Then, Odd;
    var n1 := n / 2;
    var n2 := n1 / 2;
    var n3 := n2 / 2;
    var n4 := n3 / 2;
    var n5 := n4 / 2;
    var n6 := n5 / 2;
    PackedBits(Odd(n6 / 2), Odd(n6), Odd(n5), Odd(n4), Odd(n3), Odd(n2), Odd(n1), Odd(n));
    TopHalf(n6 / 2);
    HalvedThen(n6);
    HalvedThen(n5);
    HalvedThen(n4);
    HalvedThen(n3);
    HalvedThen(n2);
    HalvedThen(n1);
    HalvedThen(n);
  }

  lemma ByteRewritten(b: bv8)
    ensures ToByte(FromByte(b)) == b
  {
    hide Packed, Then, Odd;
    var n7 := Then(0, b & 128 != 0);
    var n6 := Then(n7, b & 64 != 0);
    var n5 := Then(n6, b & 32 != 0);
    var n4 := Then(n5, b & 16 != 0);
    var n3 := Then(n4, b & 8 != 0);
    var n2 := Then(n3, b & 4 != 0);
    var n1 := Then(n2, b & 2 != 0);
    ThenHalved(0, b & 128 != 0);
    ThenHalved(n7, b & 64 != 0);
    ThenHalved(n6, b & 32 != 0);
    ThenHalved(n5, b & 16 != 0);
    ThenHalved(n4, b & 8 != 0);
    ThenHalved(n3, b & 4 != 0);
    ThenHalved(n2, b & 2 != 0);
    ThenHalved(n1, b & 1 != 0);
    Repacked(b);
  }
}
