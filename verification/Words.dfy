/** Machine words: wrap-around and signed reading of 64-bit unsigned values, and
    the bit mask the ring uses instead of a modulus. */
module Words {
  const TWO63 := 0x8000_0000_0000_0000
  const TWO64 := 0x1_0000_0000_0000_0000

  /** The same code is read over ideal integers and over Go's uint64. */
  datatype Word = Unbounded | Bits64

  function Norm(w: Word, x: int): (r: int)
    ensures x >= 0 ==> r >= 0
  {
    match w
    case Unbounded => x
    case Bits64 => x % TWO64
  }

  /** Go's int64(x) for a uint64 x; the identity over ideal integers. */
  function Signed(w: Word, x: int): int {
    match w
    case Unbounded => x
    case Bits64 =>
      var r := x % TWO64;
      if r < TWO63 then r else r - TWO64
  }

  function Pow2(k: nat): (r: nat)
    ensures r >= 1
  {
    if k == 0 then 1 else 2 * Pow2(k - 1)
  }

  /** Bitwise conjunction of two naturals. */
  function And(a: nat, b: nat): nat
    decreases a
  {
    if a == 0 || b == 0 then 0
    else (if a % 2 == 1 && b % 2 == 1 then 1 else 0) + 2 * And(a / 2, b / 2)
  }

  /** Division with remainder has one answer. */
  lemma ModUnique(x: int, m: int, q: int, r: int)
    requires m >= 1 && 0 <= r < m && x == q * m + r
    ensures x % m == r && x / m == q
  {
    var q1, r1 := x / m, x % m;
    NoSmallMultiple(q - q1, m, r1 - r) by {
      assert x == q1 * m + r1;
      assert (q - q1) * m == q * m - q1 * m;
    }
  }

  lemma MultipleAtLeast(d: int, m: int)
    requires d >= 1 && m >= 1
    ensures d * m >= m
  {
    assert d * m == (d - 1) * m + m;
  }

  /** The only multiple of `m` strictly between `-m` and `m` is zero. */
  lemma NoSmallMultiple(d: int, m: int, v: int)
    requires m >= 1 && d * m == v && -m < v < m
    ensures d == 0 && v == 0
  {
    if d >= 1 {
      MultipleAtLeast(d, m);
    } else if d <= -1 {
      MultipleAtLeast(-d, m);
    }
  }

  lemma AndOdd(x: nat, y: nat, h: nat)
    requires x > 0 && y == 2 * h + 1
    ensures And(x, y) == x % 2 + 2 * And(x / 2, h)
  {
    assert y / 2 == h && y % 2 == 1;
  }

  /** For a power of two, masking with its predecessor is taking the remainder. */
  lemma {:induction false} MaskIsMod(x: nat, k: nat)
    ensures And(x, Pow2(k) - 1) == x % Pow2(k)
  {
    var q, r := MaskQuotient(x, k);
    ModUnique(x, Pow2(k), q, r);
  }

  lemma {:induction false} MaskQuotient(x: nat, k: nat) returns (q: nat, r: nat)
    ensures x == q * Pow2(k) + r && r < Pow2(k) && And(x, Pow2(k) - 1) == r
  {
    if k == 0 || x == 0 {
      q, r := x, 0;
    } else {
      var q1, r1 := MaskQuotient(x / 2, k - 1);
      AndOdd(x, Pow2(k) - 1, Pow2(k - 1) - 1);
      q, r := q1, x % 2 + 2 * r1;
      Doubled(x, q1, Pow2(k - 1), r1);
    }
  }

  lemma Doubled(x: nat, q: nat, m: nat, r: nat)
    requires x / 2 == q * m + r
    ensures x == q * (2 * m) + (x % 2 + 2 * r)
  {
    assert q * (2 * m) == 2 * (q * m);
  }

  ghost predicate IsPow2(c: int) { exists k: nat :: c == Pow2(k) }

  lemma Pow2Halves(c: nat)
    requires c >= 2
    ensures IsPow2(c) <==> c % 2 == 0 && IsPow2(c / 2)
  {
    if k: nat :| c == Pow2(k) {
      assert k > 0;
      assert c == 2 * Pow2(k - 1);
    }
    if k: nat :| c % 2 == 0 && c / 2 == Pow2(k) {
      assert c == Pow2(k + 1);
    }
  }

  lemma AndHalves(c: nat)
    requires c >= 2
    ensures And(c, c - 1) == if c % 2 == 0 then 2 * And(c / 2, c / 2 - 1) else 2 * And(c / 2, c / 2)
  {
    if c % 2 == 0 {
      assert (c - 1) / 2 == c / 2 - 1;
    } else {
      assert (c - 1) / 2 == c / 2;
    }
  }

  /** The test of ring.New, `capacity & (capacity - 1) == 0`, accepts exactly the powers of two. */
  lemma {:induction false} PowerOfTwoTest(c: nat)
    requires c >= 1
    ensures And(c, c - 1) == 0 <==> IsPow2(c)
  {
    if c == 1 {
      assert c == Pow2(0);
    } else {
      AndHalves(c);
      Pow2Halves(c);
      if c % 2 == 0 {
        PowerOfTwoTest(c / 2);
      } else {
        AndSelf(c / 2);
      }
    }
  }

  lemma {:induction false} AndSelf(a: nat)
    ensures And(a, a) == a
  {
    if a > 0 {
      AndSelf(a / 2);
    }
  }

  lemma {:induction false} Pow2Adds(a: nat, b: nat)
    ensures Pow2(a + b) == Pow2(a) * Pow2(b)
  {
    if a > 0 {
      Pow2Adds(a - 1, b);
      assert Pow2(a) * Pow2(b) == 2 * (Pow2(a - 1) * Pow2(b));
    }
  }

  lemma {:induction false} Pow2Monotone(a: nat, b: nat)
    requires a <= b
    ensures Pow2(a) <= Pow2(b)
  {
    if a < b {
      Pow2Monotone(a, b - 1);
    }
  }

  lemma Pow2At64()
    ensures Pow2(64) == TWO64 && Pow2(30) == 0x4000_0000
  {
    assert Pow2(10) == 1024;
    Pow2Adds(10, 10);
    Pow2Adds(20, 10);
    Pow2Adds(30, 30);
    assert Pow2(4) == 16;
    Pow2Adds(60, 4);
  }

  /** Reducing modulo a multiple first does not change the remainder. */
  lemma ModOfMultiple(x: int, m: int, n: int)
    requires m >= 1 && n >= 1
    ensures (x % (m * n)) % m == x % m
  {
    var q, r := x / (m * n), x % (m * n);
    assert m * n >= 1;
    assert x == q * (m * n) + r;
    var q1, r1 := r / m, r % m;
    assert r == q1 * m + r1;
    assert x == (q * n + q1) * m + r1 by {
      assert q * (m * n) == (q * n) * m;
    }
    ModUnique(x, m, q * n + q1, r1);
  }

  /** Two numbers less than `m` apart with the same remainder are equal. */
  lemma ModInjective(a: int, b: int, m: int)
    requires m >= 1 && a % m == b % m && -m < a - b < m
    ensures a == b
  {
    assert a == (a / m) * m + a % m;
    assert b == (b / m) * m + b % m;
    var d := a / m - b / m;
    assert a - b == d * m;
    NoSmallMultiple(d, m, a - b);
  }

  /** The slot a position falls on: the position modulo the capacity. */
  function SlotIndex(p: nat, cap: nat): (i: nat)
    requires cap >= 1
    ensures i < cap
    decreases p
  {
    if p < cap then p else SlotIndex(p - cap, cap)
  }

  lemma {:induction false} SlotIndexIsMod(p: nat, cap: nat)
    requires cap >= 1
    ensures SlotIndex(p, cap) == p % cap
    decreases p
  {
    if p < cap {
      ModUnique(p, cap, 0, p);
    } else {
      SlotIndexIsMod(p - cap, cap);
      assert p - cap == ((p - cap) / cap) * cap + (p - cap) % cap;
      ModUnique(p, cap, (p - cap) / cap + 1, (p - cap) % cap);
    }
  }

  /** `position & mask` selects that slot for every capacity that New accepts. */
  lemma MaskSelectsSlot(p: nat, cap: nat)
    requires cap >= 1 && IsPow2(cap)
    ensures And(p, cap - 1) == SlotIndex(p, cap)
  {
    var k: nat :| cap == Pow2(k);
    MaskIsMod(p, k);
    SlotIndexIsMod(p, cap);
  }

  /** Two positions less than one turn apart that share a slot are equal. */
  lemma SlotIndexInjective(a: nat, b: nat, cap: nat)
    requires cap >= 1 && SlotIndex(a, cap) == SlotIndex(b, cap) && a < b + cap && b < a + cap
    ensures a == b
  {
    SlotIndexIsMod(a, cap);
    SlotIndexIsMod(b, cap);
    ModInjective(a, b, cap);
  }

  lemma RemainderSurvivesWrap(x: int, cap: nat)
    requires 1 <= cap <= TWO63 && IsPow2(cap)
    ensures (x % TWO64) % cap == x % cap
  {
    var k: nat :| cap == Pow2(k);
    Pow2At64();
    if k > 64 {
      Pow2Monotone(64, k);
    }
    Pow2Adds(k, 64 - k);
    ModOfMultiple(x, cap, Pow2(64 - k));
  }

  /** Slot selection does not see the 64-bit wrap of a position. */
  lemma SlotIndexSurvivesWrap(p: nat, cap: nat)
    requires 1 <= cap <= TWO63 && IsPow2(cap)
    ensures SlotIndex(p % TWO64, cap) == SlotIndex(p, cap)
  {
    RemainderSurvivesWrap(p, cap);
    SlotIndexIsMod(p, cap);
    SlotIndexIsMod(p % TWO64, cap);
  }

  /** A 64-bit difference read as signed is the true difference whenever that
      difference fits in 63 bits. */
  lemma SignedDifference(a: int, b: int)
    requires -TWO63 <= a - b < TWO63
    ensures Signed(Bits64, (a % TWO64) - (b % TWO64)) == a - b
  {
    var d := (a % TWO64) - (b % TWO64);
    assert a == (a / TWO64) * TWO64 + a % TWO64;
    assert b == (b / TWO64) * TWO64 + b % TWO64;
    var q := a / TWO64 - b / TWO64;
    assert d == (a - b) - q * TWO64;
    if a - b >= 0 {
      ModUnique(d, TWO64, -q, a - b);
    } else {
      ModUnique(d, TWO64, -q - 1, a - b + TWO64);
    }
  }
}
