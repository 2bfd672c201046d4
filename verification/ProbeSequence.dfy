/**
 The probe sequence of the hash table in heap-table.c: an odd stride over a table whose
 length is a power of two.
 */
module ProbeSequence {
  import opened Arithmetic

  type Key = nat

  predicate PowerOfTwo(n: nat) { n == 1 || (n > 0 && n % 2 == 0 && PowerOfTwo(n / 2)) }

  /** `hash | 1` */
  function Stride(hash: nat): nat { if hash % 2 == 0 then hash + 1 else hash }

  /** The slot looked at after `k` steps; `key & (length - 1)` is the remainder, the length
      being a power of two. */
  function Probe(length: nat, key: Key, k: nat): nat
    requires length > 0
  {
    (key % length + k * Stride(key % length)) % length
  }

  /** In a table of eight slots the search for 5 steps by 5, and so does the search for 4. */
  lemma ProbesOfEight(k: nat)
    requires k < 8
    ensures Probe(8, 5, k) == [5, 2, 7, 4, 1, 6, 3, 0][k]
    ensures Probe(8, 4, k) == [4, 1, 6, 3, 0, 5, 2, 7][k]
  {
    assert Stride(4) == 5 == Stride(5);
    assert k == 0 || k == 1 || k == 2 || k == 3 || k == 4 || k == 5 || k == 6 || k == 7;
  }

  lemma ModMultiple(x: nat, n: nat, q: nat)
    requires n > 0
    ensures (x + n * q) % n == x % n
  {
    assert x + n * q == n * (x / n + q) + x % n by { assert x == n * (x / n) + x % n; }
    Divides(x + n * q, n, x / n + q, x % n);
  }

  lemma EqualRemainders(x: nat, y: nat, n: nat)
    requires n > 0 && x <= y && x % n == y % n
    ensures (y - x) % n == 0
  {
    assert y - x == n * (y / n - x / n) by {
      assert x == n * (x / n) + x % n;
      assert y == n * (y / n) + y % n;
    }
    Divides(y - x, n, y / n - x / n, 0);
  }

  lemma EvenFactor(k: nat, odd: nat)
    requires odd % 2 == 1 && (k * odd) % 2 == 0
    ensures k % 2 == 0
  {
    assert k * odd == 2 * (k * (odd / 2)) + k by {
      assert odd == 2 * (odd / 2) + 1;
      assert k * (2 * (odd / 2)) == 2 * (k * (odd / 2));
    }
  }

  lemma DoubledQuotient(x: nat, half: nat, q: nat)
    requires half > 0 && x % (2 * half) == 0 && q == x / (2 * half)
    ensures x == 2 * (half * q) && x % 2 == 0
  {
    assert x == (2 * half) * q;
    assert (2 * half) * q == 2 * (half * q);
  }

  lemma {:induction false} OddCancels(length: nat, odd: nat, k: nat)
    requires PowerOfTwo(length) && odd % 2 == 1 && (k * odd) % length == 0
    ensures k % length == 0
    decreases length
  {
    if length > 1 {
      var half, q, j := length / 2, (k * odd) / length, k / 2;
      DoubledQuotient(k * odd, half, q);
      EvenFactor(k, odd);
      HalvedMultiple(half, odd, j, q);
      OddCancels(half, odd, j);
      DoubledMultiple(half, j);
    }
  }

  lemma HalvedMultiple(half: nat, odd: nat, j: nat, q: nat)
    requires half > 0 && (2 * j) * odd == 2 * (half * q)
    ensures (j * odd) % half == 0
  {
    assert (2 * j) * odd == 2 * (j * odd);
    Divides(j * odd, half, q, 0);
  }

  lemma DoubledMultiple(half: nat, j: nat)
    requires half > 0 && j % half == 0
    ensures (2 * j) % (2 * half) == 0
  {
    var p := j / half;
    assert j == half * p;
    assert 2 * j == (2 * half) * p;
    Divides(2 * j, 2 * half, p, 0);
  }

  lemma StrideApart(h: nat, c: nat, a: nat, d: nat)
    ensures h + (a + d) * c == (h + a * c) + d * c
  {}

  lemma SameRemainder(x: nat, z: nat, n: nat)
    requires n > 0 && (x + z) % n == x % n
    ensures z % n == 0
  {
    EqualRemainders(x, x + z, n);
  }

  lemma OddApart(length: nat, odd: nat, k: nat, x: nat, y: nat)
    requires PowerOfTwo(length) && odd % 2 == 1 && y == x + k * odd && x % length == y % length
    ensures k % length == 0
  {
    SameRemainder(x, k * odd, length);
    OddCancels(length, odd, k);
  }

  lemma SameProbe(length: nat, key: Key, a: nat, d: nat)
    requires PowerOfTwo(length) && Probe(length, key, a) == Probe(length, key, a + d)
    ensures d % length == 0
  {
    var h, c := key % length, Stride(key % length);
    StrideApart(h, c, a, d);
    OddApart(length, c, d, h + a * c, h + (a + d) * c);
  }

  lemma SmallRemainder(d: nat, n: nat)
    requires d < n
    ensures d % n == d
  {}

  /** No slot is looked at twice in `length` steps. */
  lemma ProbesDiffer(length: nat, key: Key, a: nat, b: nat)
    requires PowerOfTwo(length) && a < b < a + length
    ensures Probe(length, key, a) != Probe(length, key, b)
  {
    SmallRemainder(b - a, length);
    if Probe(length, key, a) == Probe(length, key, b) { SameProbe(length, key, a, b - a); }
  }

  /** The slots looked at in the first `n` steps. */
  ghost function Visited(length: nat, key: Key, n: nat): set<nat>
    requires length > 0
  {
    if n == 0 then {} else Visited(length, key, n - 1) + {Probe(length, key, n - 1)}
  }

  ghost function Slots(n: nat): set<nat> { if n == 0 then {} else Slots(n - 1) + {n - 1} }

  lemma SlotsSize(n: nat)
    ensures |Slots(n)| == n && forall i :: i in Slots(n) <==> 0 <= i < n
  {}

  lemma VisitedHow(length: nat, key: Key, n: nat)
    requires length > 0
    ensures forall i | i in Visited(length, key, n) :: exists k :: 0 <= k < n && Probe(length, key, k) == i
    ensures forall i | i in Visited(length, key, n) :: 0 <= i < length
  {}

  lemma {:induction false} ProbesFill(length: nat, key: Key, n: nat)
    requires PowerOfTwo(length) && n <= length
    ensures |Visited(length, key, n)| == n
  {
    if n > 0 {
      ProbesFill(length, key, n - 1);
      VisitedHow(length, key, n - 1);
      forall k | 0 <= k < n - 1 ensures Probe(length, key, k) != Probe(length, key, n - 1) {
        ProbesDiffer(length, key, k, n - 1);
      }
    }
  }

  /** For a power-of-two length the probes visit every slot exactly once before the first is
      met again. */
  lemma ProbesCover(length: nat, key: Key, slot: nat) returns (k: nat)
    requires PowerOfTwo(length) && slot < length
    ensures k < length && Probe(length, key, k) == slot
    ensures forall j | 0 <= j < length && Probe(length, key, j) == slot :: j == k
    ensures Probe(length, key, length) == Probe(length, key, 0)
  {
    var seen := Visited(length, key, length);
    ProbesFill(length, key, length);
    VisitedHow(length, key, length);
    SlotsSize(length);
    SameSizeSubset(seen, Slots(length));
    assert slot in seen;
    k :| 0 <= k < length && Probe(length, key, k) == slot;
    forall j | 0 <= j < length && Probe(length, key, j) == slot ensures j == k {
      if j < k { ProbesDiffer(length, key, j, k); } else if k < j { ProbesDiffer(length, key, k, j); }
    }
    var h, c := key % length, Stride(key % length);
    ModMultiple(h, length, c);
    assert length * c == c * length;
  }

  lemma {:induction false} SameSizeSubset<T>(a: set<T>, b: set<T>)
    requires a <= b && |a| == |b|
    ensures a == b
  {
    assert b == a + (b - a);
  }

  lemma Reduced(x: nat, c: nat, n: nat)
    requires n > 0
    ensures (x % n + c) % n == (x + c) % n
  {
    var q, r := x / n, x % n;
    assert x == r + n * q;
    ModMultiple(r + c, n, q);
  }

  lemma NextStride(h: nat, c: nat, k: nat)
    ensures h + (k + 1) * c == h + k * c + c
  {}

  /** One more step along the probe sequence. */
  lemma ProbeStep(length: nat, key: Key, k: nat)
    requires length > 0
    ensures Probe(length, key, k + 1) == (Probe(length, key, k) + Stride(key % length)) % length
  {
    var h, c := key % length, Stride(key % length);
    NextStride(h, c, k);
    Reduced(h + k * c, c, length);
  }

  lemma ProbeStart(length: nat, key: Key)
    requires length > 0
    ensures Probe(length, key, 0) == key % length
  {
    SmallRemainder(key % length, length);
  }
}
