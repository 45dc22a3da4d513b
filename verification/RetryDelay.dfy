/** The relay's retry delay, in the 64-bit two's-complement arithmetic it runs in. */
module RetryDelay {

  const SECOND: int := 1_000_000_000
  const MIN_DELAY: int := 2 * SECOND
  const MAX_DELAY: int := 300 * SECOND

  const TWO_63: int := 0x8000_0000_0000_0000
  const TWO_64: int := 0x1_0000_0000_0000_0000

  /** The int64 that arithmetic on mathematical value x leaves behind. */
  function Wrap64(x: int): int {
    (x + TWO_63) % TWO_64 - TWO_63
  }

  function Pow2(n: nat): nat {
    if n == 0 then 1 else 2 * Pow2(n - 1)
  }

  function Backoff(attempt: nat): int {
    var d := Wrap64(Wrap64(Pow2(attempt)) * SECOND);
    if d < MIN_DELAY then MIN_DELAY
    else if d > MAX_DELAY then MAX_DELAY
    else d
  }

  /** The delay the code is after: 2^attempt seconds, kept within two seconds and five minutes. */
  function Clamped(attempt: nat): int {
    var d := Pow2(attempt) * SECOND;
    if d < MIN_DELAY then MIN_DELAY
    else if d > MAX_DELAY then MAX_DELAY
    else d
  }

  lemma BackoffWithinBounds(attempt: nat)
    ensures MIN_DELAY <= Backoff(attempt) <= MAX_DELAY
    ensures 2_000_000_000 <= Backoff(attempt) <= 300_000_000_000
  {
  }

  lemma {:induction false} Pow2Monotone(a: nat, b: nat)
    requires a <= b
    ensures Pow2(a) <= Pow2(b)
    decreases b
  {
    if a < b { Pow2Monotone(a, b - 1); }
  }

  lemma ClampedMonotone(a: nat, b: nat)
    requires a <= b
    ensures Clamped(a) <= Clamped(b)
  {
    Pow2Monotone(a, b);
    assert Pow2(a) * SECOND <= Pow2(b) * SECOND;
  }

  lemma Pow2At9() ensures Pow2(9) == 512 {
    assert Pow2(3) == 8; assert Pow2(6) == 64; assert Pow2(9) == 512;
  }

  lemma Pow2At33() ensures Pow2(33) == 8589934592 {
    Pow2At9();
    assert Pow2(12) == 4096; assert Pow2(15) == 32768; assert Pow2(18) == 262144;
    assert Pow2(21) == 2097152; assert Pow2(24) == 16777216; assert Pow2(27) == 134217728;
    assert Pow2(30) == 1073741824; assert Pow2(33) == 8589934592;
  }

  /** Up to attempt 33 neither the shift nor the product leaves the 64-bit range. */
  lemma ExactUpTo33(attempt: nat)
    requires attempt <= 33
    ensures Backoff(attempt) == Clamped(attempt)
  {
    Pow2Monotone(attempt, 33);
    Pow2At33();
  }

  /** The delays of the attempts a relay makes, in nanoseconds. */
  lemma BackoffTable(attempt: nat)
    requires 1 <= attempt <= 9
    ensures Backoff(attempt) == [0, 2, 4, 8, 16, 32, 64, 128, 256, 300][attempt] * 1_000_000_000
  {
    ExactUpTo33(attempt);
    assert Pow2(1) == 2 && Pow2(2) == 4 && Pow2(3) == 8 && Pow2(4) == 16;
    assert Pow2(5) == 32 && Pow2(6) == 64 && Pow2(7) == 128 && Pow2(8) == 256;
    Pow2At9();
  }

  /** Eight attempts above 33 whose wrapped product happens to exceed five minutes. */
  predicate LuckyOverflow(attempt: nat) {
    attempt in {37, 41, 42, 45, 47, 50, 51, 53}
  }

  /** 2^a seconds modulo 2^64, for the attempts whose product overflows but is not yet zero. */
  function Residue(a: nat): int
    requires 33 <= a <= 55
    decreases a
  {
    if a == 33 then 8589934592 * SECOND else (2 * Residue(a - 1)) % TWO_64
  }

  lemma {:induction false} ResidueIsProduct(a: nat)
    requires 33 <= a <= 55
    ensures (Pow2(a) * SECOND) % TWO_64 == Residue(a)
    decreases a
  {
    if a == 33 {
      Pow2At33();
    } else {
      ResidueIsProduct(a - 1);
      DoubleMod(Pow2(a - 1) * SECOND, TWO_64);
      assert Pow2(a) * SECOND == 2 * (Pow2(a - 1) * SECOND);
    }
  }

  lemma MultipleWithinModulus(d: int, m: int)
    requires m > 0 && -m < d * m < m
    ensures d == 0
  {
  }

  /** Adding a multiple of m does not change the remainder. */
  lemma ModShift(x: int, k: int, m: int)
    requires m > 0
    ensures (x + k * m) % m == x % m
  {
    var y := x + k * m;
    var d := y / m - x / m - k;
    assert d * m == (y / m) * m - (x / m) * m - k * m;
    MultipleWithinModulus(d, m);
  }

  lemma DoubleMod(x: int, m: int)
    requires m > 0
    ensures (2 * x) % m == (2 * (x % m)) % m
  {
    var q := x / m;
    assert 2 * x == 2 * (x % m) + (2 * q) * m;
    ModShift(2 * (x % m), 2 * q, m);
  }

  /** Wrapping after the shift and again after the product is wrapping once. */
  lemma WrapOnce(x: int)
    ensures Wrap64(Wrap64(x) * SECOND) == Wrap64(x * SECOND)
  {
    var k := (x + TWO_63) / TWO_64;
    assert Wrap64(x) == x - k * TWO_64;
    assert Wrap64(x) * SECOND + TWO_63 == (x * SECOND + TWO_63) + (0 - k * SECOND) * TWO_64;
    ModShift(x * SECOND + TWO_63, 0 - k * SECOND, TWO_64);
  }

  lemma WrapByResidue(x: int)
    ensures Wrap64(x) == if x % TWO_64 < TWO_63 then x % TWO_64 else x % TWO_64 - TWO_64
  {
    var q, r := x / TWO_64, x % TWO_64;
    assert x + TWO_63 == (r + TWO_63) + q * TWO_64;
    ModShift(r + TWO_63, q, TWO_64);
  }

  lemma ResidueTable()
    ensures Residue(34) == 17179869184000000000
    ensures Residue(35) == 15912994294290448384
    ensures Residue(36) == 13379244514871345152
    ensures Residue(37) == 8311744956033138688
    ensures Residue(38) == 16623489912066277376
    ensures Residue(39) == 14800235750423003136
    ensures Residue(40) == 11153727427136454656
    ensures Residue(41) == 3860710780563357696
    ensures Residue(42) == 7721421561126715392
    ensures Residue(43) == 15442843122253430784
    ensures Residue(44) == 12438942170797309952
    ensures Residue(45) == 6431140267885068288
    ensures Residue(46) == 12862280535770136576
    ensures Residue(47) == 7277816997830721536
    ensures Residue(48) == 14555633995661443072
    ensures Residue(49) == 10664523917613334528
    ensures Residue(50) == 2882303761517117440
    ensures Residue(51) == 5764607523034234880
    ensures Residue(52) == 11529215046068469760
    ensures Residue(53) == 4611686018427387904
    ensures Residue(54) == 9223372036854775808
    ensures Residue(55) == 0
  {
    assert Residue(34) == 17179869184000000000;
    assert Residue(35) == 15912994294290448384;
    assert Residue(36) == 13379244514871345152;
    assert Residue(37) == 8311744956033138688;
    assert Residue(38) == 16623489912066277376;
    assert Residue(39) == 14800235750423003136;
    assert Residue(40) == 11153727427136454656;
    assert Residue(41) == 3860710780563357696;
    assert Residue(42) == 7721421561126715392;
    assert Residue(43) == 15442843122253430784;
    assert Residue(44) == 12438942170797309952;
    assert Residue(45) == 6431140267885068288;
    assert Residue(46) == 12862280535770136576;
    assert Residue(47) == 7277816997830721536;
    assert Residue(48) == 14555633995661443072;
    assert Residue(49) == 10664523917613334528;
    assert Residue(50) == 2882303761517117440;
    assert Residue(51) == 5764607523034234880;
    assert Residue(52) == 11529215046068469760;
    assert Residue(53) == 4611686018427387904;
    assert Residue(54) == 9223372036854775808;
    assert Residue(55) == 0;
  }

  lemma {:induction false} ZeroFrom55(a: nat)
    requires a >= 55
    ensures (Pow2(a) * SECOND) % TWO_64 == 0
    decreases a
  {
    if a == 55 {
      ResidueIsProduct(55);
      ResidueTable();
    } else {
      ZeroFrom55(a - 1);
      DoubleMod(Pow2(a - 1) * SECOND, TWO_64);
      assert Pow2(a) * SECOND == 2 * (Pow2(a - 1) * SECOND);
    }
  }

  /** Past attempt 33 the product has overflowed, and the delay is one of the two bounds:
      five minutes for the lucky overflows, two seconds for every other attempt. */
  lemma AfterOverflow(attempt: nat)
    requires attempt > 33
    ensures Backoff(attempt) == if LuckyOverflow(attempt) then MAX_DELAY else MIN_DELAY
  {
    WrapOnce(Pow2(attempt));
    WrapByResidue(Pow2(attempt) * SECOND);
    if attempt >= 55 {
      ZeroFrom55(attempt);
    } else {
      ResidueIsProduct(attempt);
      ResidueTable();
    }
  }

  /** The code returns the clamped exponential exactly on these attempts. */
  lemma BackoffIsClampedIff(attempt: nat)
    ensures Backoff(attempt) == Clamped(attempt) <==> attempt <= 33 || LuckyOverflow(attempt)
  {
    if attempt <= 33 {
      ExactUpTo33(attempt);
    } else {
      AfterOverflow(attempt);
      Pow2At33();
      Pow2Monotone(33, attempt);
    }
  }

  /** Longer waits for later attempts hold up to 33 and break at 34. */
  lemma BackoffMonotoneUpTo33(a: nat, b: nat)
    requires a <= b
    ensures b <= 33 ==> Backoff(a) <= Backoff(b)
    ensures Backoff(33) == MAX_DELAY && Backoff(34) == MIN_DELAY
  {
    if b <= 33 {
      ExactUpTo33(a);
      ExactUpTo33(b);
      ClampedMonotone(a, b);
    }
    ExactUpTo33(33);
    Pow2At33();
    AfterOverflow(34);
  }
}
