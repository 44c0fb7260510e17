/** Identity and metric: 256-bit identifiers, the XOR distance between two
    of them, and the routing-table bucket that one identifier occupies in
    the table of another (dht-simulation.js:7, 12-21). */
module Metric {

  /** Width of an identifier in bits. */
  const ID_LENGTH_BITS: nat := 256

  /** Number of binary digits of n; zero has none. */
  function BitLength(n: nat): nat
  {
    if n == 0 then 0 else 1 + BitLength(n / 2)
  }

  function Pow2(k: nat): (r: nat)
    ensures r >= 1
  {
    if k == 0 then 1 else 2 * Pow2(k - 1)
  }

  /** An identifier: a natural number written with at most ID_LENGTH_BITS bits. */
  type Id = x: nat | BitLength(x) <= ID_LENGTH_BITS

  /** Having at most k binary digits is the same as lying below 2^k, so Id is
      exactly the naturals below 2^256. */
  lemma {:induction false} BitLengthBound(n: nat, k: nat)
    ensures BitLength(n) <= k <==> n < Pow2(k)
  {
    if k > 0 && n > 0 {
      BitLengthBound(n / 2, k - 1);
    }
  }

  /** Bitwise exclusive or of two naturals, taken from the least significant
      bit; it is zero exactly when the operands are equal. */
  function Xor(a: nat, b: nat): (r: nat)
    ensures r == 0 <==> a == b
    decreases a + b
  {
    if a == 0 && b == 0 then 0
    else
      var x := Xor(a / 2, b / 2);
      XorZeroStep(a, b, x);
      2 * x + (a + b) % 2
  }

  /** One step of Xor is zero exactly when the operands are equal, given that
      the Xor of their halves is. */
  lemma XorZeroStep(a: nat, b: nat, x: nat)
    requires x == 0 <==> a / 2 == b / 2
    ensures 2 * x + (a + b) % 2 == 0 <==> a == b
  {
    assert a == 2 * (a / 2) + a % 2 && b == 2 * (b / 2) + b % 2;
  }

  /** The defining equation of Xor holds at zero too. */
  lemma XorUnfold(a: nat, b: nat)
    ensures Xor(a, b) == 2 * Xor(a / 2, b / 2) + (a + b) % 2
  {
  }

  lemma {:induction false} XorComm(a: nat, b: nat)
    ensures Xor(a, b) == Xor(b, a)
    decreases a + b
  {
    if a != 0 || b != 0 {
      XorComm(a / 2, b / 2);
    }
  }

  lemma HalfAndParity(x: nat, p: nat, y: nat, q: nat)
    requires p < 2 && q < 2 && 2 * x + p == 2 * y + q
    ensures x == y && p == q
  {
  }

  lemma ParityCancel(a: nat, b: nat, t: nat)
    requires (a + t) % 2 == (b + t) % 2 && a / 2 == b / 2
    ensures a == b
  {
  }

  /** Xor with a fixed value is injective. */
  lemma {:induction false} XorInjective(a: nat, b: nat, t: nat)
    ensures Xor(a, t) == Xor(b, t) ==> a == b
    decreases a + b + t
  {
    if (a != 0 || b != 0 || t != 0) && Xor(a, t) == Xor(b, t) {
      XorUnfold(a, t);
      XorUnfold(b, t);
      var x, y := Xor(a / 2, t / 2), Xor(b / 2, t / 2);
      var p, q := (a + t) % 2, (b + t) % 2;
      assert 2 * x + p == 2 * y + q;
      HalfAndParity(x, p, y, q);
      XorInjective(a / 2, b / 2, t / 2);
      ParityCancel(a, b, t);
    }
  }

  /** Xor never needs more bits than the wider operand. */
  lemma {:induction false} XorBitLength(a: nat, b: nat)
    ensures BitLength(Xor(a, b)) <= BitLength(a) || BitLength(Xor(a, b)) <= BitLength(b)
    ensures BitLength(Xor(a, b)) <= ID_LENGTH_BITS
            <== BitLength(a) <= ID_LENGTH_BITS && BitLength(b) <= ID_LENGTH_BITS
    decreases a + b
  {
    if a != 0 || b != 0 {
      XorBitLength(a / 2, b / 2);
      var x := Xor(a / 2, b / 2);
      assert Xor(a, b) == 2 * x + (a + b) % 2;
      assert Xor(a, b) / 2 == x;
    }
  }

  /** n shifted right by m bit positions. */
  function Shift(n: nat, m: nat): nat
  {
    if m == 0 then n else Shift(n / 2, m - 1)
  }

  /** The p most significant bits of x, read as a word of ID_LENGTH_BITS bits. */
  function Prefix(x: nat, p: nat): nat
    requires p <= ID_LENGTH_BITS
  {
    Shift(x, ID_LENGTH_BITS - p)
  }

  lemma {:induction false} ShiftXor(a: nat, b: nat, m: nat)
    ensures Shift(Xor(a, b), m) == Xor(Shift(a, m), Shift(b, m))
  {
    if m > 0 {
      XorUnfold(a, b);
      assert Xor(a, b) / 2 == Xor(a / 2, b / 2);
      ShiftXor(a / 2, b / 2, m - 1);
    }
  }

  lemma {:induction false} ShiftZeroIff(n: nat, m: nat)
    ensures Shift(n, m) == 0 <==> BitLength(n) <= m
  {
    if m > 0 {
      ShiftZeroIff(n / 2, m - 1);
    }
  }

  /** Two numbers agree above bit m exactly when their Xor has at most m bits. */
  lemma ShiftAgree(a: nat, b: nat, m: nat)
    ensures Shift(a, m) == Shift(b, m) <==> BitLength(Xor(a, b)) <= m
  {
    ShiftXor(a, b, m);
    ShiftZeroIff(Xor(a, b), m);
  }

  /** XOR distance between two identifiers (dht-simulation.js:13). */
  function Distance(a: Id, b: Id): (d: nat)
    ensures BitLength(d) <= ID_LENGTH_BITS
    ensures d == 0 <==> a == b
  {
    XorBitLength(a, b);
    Xor(a, b)
  }

  lemma DistanceSymmetric(a: Id, b: Id)
    ensures Distance(a, b) == Distance(b, a)
  {
    XorComm(a, b);
  }

  /** Distances to a fixed target separate identifiers. */
  lemma DistanceInjective(a: Id, b: Id, target: Id)
    ensures Distance(a, target) == Distance(b, target) ==> a == b
  {
    XorInjective(a, b, target);
  }

  /** Bucket of otherId in the table owned by ownId: -1 for the owner itself,
      otherwise ID_LENGTH_BITS minus the bit length of the distance, which is
      the length of the common prefix of the two identifiers
      (dht-simulation.js:15-21). */
  function BucketIndex(ownId: Id, otherId: Id): (r: int)
    ensures r == -1 <==> ownId == otherId
    ensures r != -1 ==> 0 <= r < ID_LENGTH_BITS
  {
    var d := Distance(ownId, otherId);
    if d == 0 then -1 else ID_LENGTH_BITS - BitLength(d)
  }

  /** The bucket index is the length of the common prefix of the two
      identifiers: they agree on the first r bits and differ at bit r. */
  lemma BucketIndexIsCommonPrefix(ownId: Id, otherId: Id)
    requires ownId != otherId
    ensures var r := BucketIndex(ownId, otherId);
            Prefix(ownId, r) == Prefix(otherId, r) && Prefix(ownId, r + 1) != Prefix(otherId, r + 1)
  {
    var len := BitLength(Distance(ownId, otherId));
    ShiftAgree(ownId, otherId, len);
    ShiftAgree(ownId, otherId, len - 1);
  }

  lemma BucketIndexSymmetric(a: Id, b: Id)
    ensures BucketIndex(a, b) == BucketIndex(b, a)
  {
    DistanceSymmetric(a, b);
  }
}
