/**
 Machine-word arithmetic of c-primitives-math.c: division that rounds down, up or to nearest,
 made out of C's truncating division, and the two-word product made out of half-word
 products.
 */
module MachineArithmetic {
  import opened Arithmetic

  // ---------------------------------------------------------------- division

  const MOST: int := 0x7fff_ffff_ffff_ffff
  const LEAST: int := -0x8000_0000_0000_0000

  predicate InWord(x: int) { LEAST <= x <= MOST }

  function Abs(x: int): int { if x < 0 then -x else x }

  /** C's `ldiv`: the quotient is truncated towards zero. */
  function TruncateQuotient(x: int, y: int): int
    requires y != 0
  {
    if (x >= 0) == (y > 0) then Abs(x) / Abs(y) else -(Abs(x) / Abs(y))
  }

  function TruncateRemainder(x: int, y: int): int
    requires y != 0
  {
    x - TruncateQuotient(x, y) * y
  }

  lemma DivMod(n: int, m: int)
    requires m > 0
    ensures n == n / m * m + n % m && 0 <= n % m < m
  {}

  lemma NegativeProduct(q: int, y: int)
    ensures -q * y == -(q * y) && q * -y == -(q * y) && -q * -y == q * y
  {}

  lemma TruncateSigns(x: int, y: int, n: int, m: int, q: int, s: int, t: int)
    requires (x == n || x == -n) && (y == m || y == -m) && n == q * m + s
    requires t == if (x == n) == (y == m) then q else -q
    ensures x - t * y == if x == n then s else -s
  {
    NegativeProduct(q, m);
  }

  lemma TruncateIs(x: int, y: int)
    requires y != 0
    ensures var r := TruncateRemainder(x, y);
            Abs(r) < Abs(y) && (r > 0 ==> x > 0) && (r < 0 ==> x < 0)
  {
    var q, s := QuotientOfSizes(x, y);
    TruncateSigns(x, y, Abs(x), Abs(y), q, s, TruncateQuotient(x, y));
  }

  lemma QuotientOfSizes(x: int, y: int) returns (q: int, s: int)
    requires y != 0
    ensures Abs(x) == q * Abs(y) + s && 0 <= s < Abs(y) && s <= Abs(x)
    ensures TruncateQuotient(x, y) == if (x >= 0) == (y > 0) then q else -q
  {
    q, s := Abs(x) / Abs(y), Abs(x) % Abs(y);
    DivMod(Abs(x), Abs(y));
    SameSign(q, Abs(y));
  }

  predicate FloorDivision(x: int, y: int, q: int, r: int) {
    x == q * y + r && if y > 0 then 0 <= r < y else y < r <= 0
  }

  predicate CeilingDivision(x: int, y: int, q: int, r: int) {
    x == q * y + r && if y > 0 then -y < r <= 0 else 0 <= r < -y
  }

  /** To nearest, ties to an even quotient. */
  predicate NearestDivision(x: int, y: int, q: int, r: int) {
    x == q * y + r && 2 * Abs(r) <= Abs(y) && (2 * Abs(r) == Abs(y) ==> q % 2 == 0)
  }

  lemma ShiftProduct(q: int, y: int)
    ensures (q - 1) * y == q * y - y && (q + 1) * y == q * y + y
  {}

  method Floor(x: int, y: int) returns (q: int, r: int)
    requires InWord(x) && InWord(y) && y != 0 && !(x == LEAST && y == -1)
    ensures FloorDivision(x, y, q, r) && InWord(q) && InWord(r)
  {
    TruncateIs(x, y);
    q, r := TruncateQuotient(x, y), TruncateRemainder(x, y);
    ShiftProduct(q, y);
    if r != 0 && (if y < 0 then r > 0 else r < 0) {
      q := q - 1;
      r := r + y;
    }
    DivisionFits(x, y, q, r);
  }

  method Ceiling(x: int, y: int) returns (q: int, r: int)
    requires InWord(x) && InWord(y) && y != 0 && !(x == LEAST && y == -1)
    ensures CeilingDivision(x, y, q, r) && InWord(q) && InWord(r)
  {
    TruncateIs(x, y);
    q, r := TruncateQuotient(x, y), TruncateRemainder(x, y);
    ShiftProduct(q, y);
    if r != 0 && (if y < 0 then r < 0 else r > 0) {
      q := q + 1;
      r := r - y;
    }
    DivisionFits(x, y, q, r);
  }

  /** Truncation sits halfway below the code's threshold, which for an odd divisor is less than
      half of it, at an odd quotient: the code then rounds away although the other way is nearer. */
  predicate Misrounds(x: int, y: int)
    requires y != 0
  {
    y % 2 != 0 && Abs(TruncateRemainder(x, y)) == Abs(y) / 2 && TruncateQuotient(x, y) % 2 != 0
  }

  /** The equation always holds, with a remainder of at most half the divisor, rounded up; the
      quotient is the nearest, with ties to even, for every even divisor, and in general exactly
      when the call does not misround.  Only the greatest word divided by 1 gives no word. */
  method Round(x: int, y: int) returns (q: int, r: int)
    requires InWord(x) && InWord(y) && y != 0 && y != LEAST && !(x == LEAST && y == -1)
    ensures x == q * y + r && 2 * Abs(r) <= Abs(y) + Abs(y) % 2 && InWord(r)
    ensures InWord(q) <==> !(x == MOST && y == 1)
    ensures y % 2 == 0 ==> NearestDivision(x, y, q, r)
    ensures NearestDivision(x, y, q, r) <==> !Misrounds(x, y)
  {
    TruncateIs(x, y);
    q, r := TruncateQuotient(x, y), TruncateRemainder(x, y);
    ShiftProduct(q, y);
    var threshold := Abs(y) / 2;
    if r > threshold || (r == threshold && q % 2 != 0) {
      if y < 0 { q, r := q - 1, r + y; } else { q, r := q + 1, r - y; }
    } else if r < -threshold || (r == -threshold && q % 2 != 0) {
      if y < 0 { q, r := q + 1, r - y; } else { q, r := q - 1, r + y; }
    }
    RoundCases(y, TruncateQuotient(x, y), TruncateRemainder(x, y), q, r);
    RoundFits(x, y, q, r);
  }

  /** How `Round` goes on from the truncated quotient `t` and remainder `s`. */
  predicate Rounds(y: int, t: int, s: int, q: int, r: int)
    requires y != 0
  {
    var away := Abs(s) > Abs(y) / 2 || (Abs(s) == Abs(y) / 2 && t % 2 != 0);
    var up := if s >= Abs(y) / 2 then y > 0 else y < 0;
    if !away then q == t && r == s else if up then q == t + 1 && r == s - y else q == t - 1 && r == s + y
  }

  lemma RoundCases(y: int, t: int, s: int, q: int, r: int)
    requires y != 0 && Abs(s) < Abs(y) && Rounds(y, t, s, q, r)
    ensures 2 * Abs(r) <= Abs(y) + Abs(y) % 2
    ensures 2 * Abs(r) <= Abs(y) && (2 * Abs(r) == Abs(y) ==> q % 2 == 0) <==>
            !(y % 2 != 0 && Abs(s) == Abs(y) / 2 && t % 2 != 0)
  {}

  /** A quotient and remainder with these properties are the only ones. */
  lemma DivisionsUnique(x: int, y: int, q: int, r: int, q': int, r': int)
    requires y != 0
    requires (FloorDivision(x, y, q, r) && FloorDivision(x, y, q', r')) ||
             (CeilingDivision(x, y, q, r) && CeilingDivision(x, y, q', r')) ||
             (NearestDivision(x, y, q, r) && NearestDivision(x, y, q', r'))
    ensures q == q' && r == r'
  {
    QuotientGap(x, y, q, r, q', r');
  }

  /** Quotients that are apart have remainders that are apart. */
  lemma QuotientGap(x: int, y: int, q: int, r: int, q': int, r': int)
    requires y != 0 && x == q * y + r == q' * y + r'
    ensures q > q' ==> Abs(r' - r) >= Abs(y) * 1 && (r' > r <==> y > 0)
    ensures q < q' ==> Abs(r' - r) >= Abs(y) && (r' < r <==> y > 0)
    ensures Abs(q - q') >= 2 ==> Abs(r' - r) >= 2 * Abs(y)
    ensures Abs(q - q') == 1 ==> Abs(r' - r) == Abs(y)
    ensures q == q' ==> r == r'
  {
    var d := q - q';
    GapProduct(q, q', y, d);
    Multiples(d, y);
  }

  lemma GapProduct(q: int, q': int, y: int, d: int)
    requires d == q - q'
    ensures d * y == q * y - q' * y
  {}

  lemma Multiples(d: int, y: int)
    ensures d == 1 ==> d * y == y
    ensures d == -1 ==> d * y == -y
    ensures d >= 2 ==> (if y >= 0 then d * y >= 2 * y else d * y <= 2 * y)
    ensures d <= -2 ==> (if y >= 0 then d * y <= -2 * y else d * y >= -2 * y)
  {
    if d >= 2 { SameSign(d - 2, y); GapProduct(d, 2, y, d - 2); }
    if d <= -2 { SameSign(-2 - d, y); GapProduct(-2, d, y, -2 - d); }
  }

  lemma SameSign(n: int, y: int)
    requires n >= 0
    ensures y >= 0 ==> n * y >= 0
    ensures y <= 0 ==> n * y <= 0
  {}

  /** Floor and ceiling are those of the real quotient, and the nearest quotient is within a half
      of it. */
  lemma RealQuotients(x: int, y: int, q: int, r: int)
    requires y != 0
    ensures FloorDivision(x, y, q, r) ==> q == (x as real / y as real).Floor
    ensures CeilingDivision(x, y, q, r) ==> q == -(-(x as real / y as real)).Floor
    ensures NearestDivision(x, y, q, r) ==> -0.5 <= x as real / y as real - q as real <= 0.5
  {
    if x == q * y + r {
      RealProduct(q, y);
      assert x as real == q as real * y as real + r as real;
      RealSum(x as real, q as real, y as real, r as real);
      var f := r as real / y as real;
      FractionBounds(r, y, f);
      Whole(q, f);
    }
  }

  lemma Whole(q: int, f: real)
    ensures 0.0 <= f < 1.0 ==> (q as real + f).Floor == q
    ensures -1.0 < f <= 0.0 ==> (-(q as real + f)).Floor == -q
  {}

  lemma RealProduct(q: int, y: int)
    ensures (q * y) as real == q as real * y as real
  {}

  lemma RealSum(x: real, q: real, y: real, r: real)
    requires y != 0.0 && x == q * y + r
    ensures x / y == q + r / y
  {}

  lemma FractionBounds(r: int, y: int, f: real)
    requires y != 0 && f == r as real / y as real
    ensures (if y > 0 then 0 <= r < y else y < r <= 0) ==> 0.0 <= f < 1.0
    ensures (if y > 0 then -y < r <= 0 else 0 <= r < -y) ==> -1.0 < f <= 0.0
    ensures 2 * Abs(r) <= Abs(y) ==> -0.5 <= f <= 0.5
  {
    RealQuotient(r as real, y as real);
    if y > 0 {
      Scale(f, y as real, r as real);
    } else {
      RealNegative(f, y as real);
      Scale(f, -(y as real), -(r as real));
    }
  }

  lemma RealQuotient(r: real, y: real)
    requires y != 0.0
    ensures r / y * y == r
  {}

  lemma RealNegative(f: real, y: real)
    ensures f * -y == -(f * y)
  {}

  lemma Scale(f: real, m: real, p: real)
    requires m > 0.0 && p == f * m
    ensures (p >= 0.0 ==> f >= 0.0) && (p <= 0.0 ==> f <= 0.0)
    ensures (p < m ==> f < 1.0) && (p > -m ==> f > -1.0)
    ensures (2.0 * p <= m ==> f <= 0.5) && (2.0 * p >= -m ==> f >= -0.5)
  {
    Grows(0.0 - f, m);
    Grows(f, m);
    Grows(f - 1.0, m);
    Grows(-1.0 - f, m);
    Half(f, m, p);
  }

  lemma Half(f: real, m: real, p: real)
    requires m > 0.0 && p == f * m
    ensures (2.0 * p <= m ==> f <= 0.5) && (2.0 * p >= -m ==> f >= -0.5)
  {
    Grows(2.0 * f - 1.0, m);
    Grows(-1.0 - 2.0 * f, m);
  }

  lemma Grows(d: real, m: real)
    requires m > 0.0
    ensures (d >= 0.0 ==> d * m >= 0.0) && (d > 0.0 ==> d * m > 0.0)
  {}

  /** Odd divisors that misround: 3 divided by 1 and 4 divided by 3; 5 divided by 3 does not. */
  lemma RoundOfThreeByOne()
    ensures Misrounds(3, 1) && Misrounds(4, 3) && !Misrounds(5, 3)
  {}

  // ---------------------------------------------------------------- when results fit in a word

  /** Dividing by a divisor of at least 2 halves. */
  lemma QuotientSmall(n: int, m: int)
    requires n >= 0 && m >= 1
    ensures 0 <= n / m <= n && (m >= 2 ==> 2 * (n / m) <= n) && (m == 1 ==> n / m == n)
  {
    var q := n / m;
    DivMod(n, m);
    SameSign(m - 1, q);
    GapProduct(m, 1, q, m - 1);
    if m >= 2 { SameSign(m - 2, q); GapProduct(m, 2, q, m - 2); }
  }

  lemma DivisionFits(x: int, y: int, q: int, r: int)
    requires InWord(x) && InWord(y) && y != 0
    requires FloorDivision(x, y, q, r) || CeilingDivision(x, y, q, r)
    ensures InWord(q) <==> !(x == LEAST && y == -1)
    ensures InWord(r)
  {
    TruncateIs(x, y);
    QuotientSmall(Abs(x), Abs(y));
    QuotientGap(x, y, q, r, TruncateQuotient(x, y), TruncateRemainder(x, y));
  }

  lemma RoundFits(x: int, y: int, q: int, r: int)
    requires InWord(x) && InWord(y) && y != 0 && !(x == LEAST && y == -1)
    requires Rounds(y, TruncateQuotient(x, y), TruncateRemainder(x, y), q, r)
    ensures InWord(q) <==> !(x == MOST && y == 1)
  {
    TruncateIs(x, y);
    QuotientSmall(Abs(x), Abs(y));
  }

  // ---------------------------------------------------------------- the two-word product

  const HALF: int := 0x1_0000_0000
  const WORD: int := 0x1_0000_0000_0000_0000

  function LoHalf(x: int): int { x % HALF }

  function HiHalf(x: int): int
    requires 0 <= x < WORD
  {
    x / HALF
  }

  predicate IsWord(x: int) { 0 <= x < WORD }

  lemma HalfProduct(a: int, b: int)
    requires 0 <= a < HALF && 0 <= b < HALF
    ensures 0 <= a * b <= (HALF - 1) * (HALF - 1)
  {
    SameSign(a, b);
    SameSign(HALF - 1 - a, b);
    GapProduct(HALF - 1, a, b, HALF - 1 - a);
  }

  /** What the sum of the middle column carries into the high word. */
  function MiddleCarry(x: int, y: int): (c: int)
    requires IsWord(x) && IsWord(y)
    ensures 0 <= c <= 2
  {
    var (xl, xh, yl, yh) := (LoHalf(x), HiHalf(x), LoHalf(y), HiHalf(y));
    (HiHalf(WordProduct(xl, yl)) + LoHalf(WordProduct(xl, yh)) + LoHalf(WordProduct(xh, yl))) / HALF
  }

  lemma Columns(x: int, y: int, xl: int, xh: int, yl: int, yh: int)
    requires x == xl + HALF * xh && y == yl + HALF * yh
    ensures x * y == xl * yl + HALF * (xl * yh + xh * yl) + HALF * HALF * (xh * yh)
  {
    assert x * y == xl * y + HALF * (xh * y);
    assert xl * y == xl * yl + HALF * (xl * yh);
    assert xh * y == xh * yl + HALF * (xh * yh);
  }

  lemma ProductColumns(x: int, y: int)
    requires IsWord(x) && IsWord(y)
    ensures var (xl, xh, yl, yh) := (LoHalf(x), HiHalf(x), LoHalf(y), HiHalf(y));
            x * y == WordProduct(xl, yl) + HALF * (WordProduct(xl, yh) + WordProduct(xh, yl)) +
                     WORD * WordProduct(xh, yh)
  {
    Columns(x, y, LoHalf(x), HiHalf(x), LoHalf(y), HiHalf(y));
  }

  /** Adding up the columns, each split into its halves. */
  lemma Carry(ll: int, lh: int, hl: int, hh: int, low: int, c: int)
    requires 0 <= ll < WORD && 0 <= lh < WORD && 0 <= hl < WORD
    requires low == (ll + (LoHalf(lh) + LoHalf(hl)) * HALF) % WORD
    requires c == (HiHalf(ll) + LoHalf(lh) + LoHalf(hl)) / HALF
    ensures ll + HALF * (lh + hl) + WORD * hh == low + WORD * (hh + HiHalf(lh) + HiHalf(hl) + c)
  {
    var middle := HiHalf(ll) + LoHalf(lh) + LoHalf(hl);
    assert ll + (LoHalf(lh) + LoHalf(hl)) * HALF == LoHalf(ll) + HALF * middle;
    assert middle == HALF * c + middle % HALF;
    Divides(LoHalf(ll) + HALF * middle, WORD, c, LoHalf(ll) + HALF * (middle % HALF));
  }

  lemma InnerMod(a: int, b: int)
    ensures (a + b % WORD) % WORD == (a + b) % WORD
  {}

  /** The code's steps after the four half-word products. */
  method Combine(zll: int, zlh: int, zhl: int, zhh: int) returns (zl: int, zh: int)
    requires 0 <= zll <= (HALF - 1) * (HALF - 1) && 0 <= zlh <= (HALF - 1) * (HALF - 1)
    requires 0 <= zhl <= (HALF - 1) * (HALF - 1) && 0 <= zhh <= (HALF - 1) * (HALF - 1)
    ensures IsWord(zl) && IsWord(zh)
    ensures zll + HALF * (zlh + zhl) + WORD * zhh == zl + WORD * (zh + (HiHalf(zll) + LoHalf(zlh) + LoHalf(zhl)) / HALF)
  {
    zl := (zll + (LoHalf(zlh) + LoHalf(zhl)) * HALF % WORD) % WORD;
    zh := (zhh + HiHalf(zlh) + HiHalf(zhl)) % WORD;
    InnerMod(zll, (LoHalf(zlh) + LoHalf(zhl)) * HALF);
    Carry(zll, zlh, zhl, zhh, zl, (HiHalf(zll) + LoHalf(zlh) + LoHalf(zhl)) / HALF);
  }

  /** `multiply_double` where there is no integer type of two words. */
  method MultiplyDouble(x: int, y: int) returns (zl: int, zh: int)
    requires IsWord(x) && IsWord(y)
    ensures IsWord(zl) && IsWord(zh)
    ensures x * y == zl + WORD * (zh + MiddleCarry(x, y))
  {
    var xl, xh := LoHalf(x), HiHalf(x);
    var yl, yh := LoHalf(y), HiHalf(y);
    var zll, zlh, zhl, zhh := WordProduct(xl, yl), WordProduct(xl, yh), WordProduct(xh, yl), WordProduct(xh, yh);
    ProductColumns(x, y);
    zl, zh := Combine(zll, zlh, zhl, zhh);
  }

  /** Multiplication of words; it does not wrap around for halves. */
  function WordProduct(a: int, b: int): (p: int)
    requires 0 <= a < HALF && 0 <= b < HALF
    ensures p == a * b && 0 <= p <= (HALF - 1) * (HALF - 1)
  {
    HalfProduct(a, b);
    a * b % WORD
  }

  /** `multiply_double` through an integer type of two words, for words of 32 bits. */
  method MultiplyLong(x: int, y: int) returns (zl: int, zh: int)
    requires 0 <= x < HALF && 0 <= y < HALF
    ensures 0 <= zl < HALF && 0 <= zh < HALF && x * y == zl + HALF * zh
  {
    HalfProduct(x, y);
    var z := x * y % WORD;
    zl := z % HALF;
    zh := z / HALF % HALF;
  }

  /** The low word is always that of the product; the high word is too exactly when the middle
      column carries nothing, and otherwise it is one or two less. */
  lemma WordsOfProduct(x: int, y: int, zl: int, zh: int)
    requires IsWord(x) && IsWord(y) && IsWord(zl) && IsWord(zh)
    requires x * y == zl + WORD * (zh + MiddleCarry(x, y))
    ensures zl == x * y % WORD
    ensures x * y / WORD == zh + MiddleCarry(x, y)
    ensures zh == x * y / WORD <==> MiddleCarry(x, y) == 0
  {
    Divides(x * y, WORD, zh + MiddleCarry(x, y), zl);
  }

  /** By how much the high word misses that of the signed product: besides the carry, each
      negative operand leaves the other one behind. */
  function Miss(x: int, y: int): int
    requires InWord(x) && InWord(y)
  {
    MiddleCarry(x % WORD, y % WORD) - (if x < 0 then y else 0) - (if y < 0 then x else 0)
  }

  /** The product of signed words, whose bits are multiplied as unsigned ones: the low word is
      that of the signed product, and the high word is too exactly when it misses by nothing
      or by a whole word. */
  lemma SignedProduct(x: int, y: int, zl: int, zh: int)
    requires InWord(x) && InWord(y) && IsWord(zl) && IsWord(zh)
    requires (x % WORD) * (y % WORD) == zl + WORD * (zh + MiddleCarry(x % WORD, y % WORD))
    ensures zl == x * y % WORD
    ensures x * y / WORD % WORD == (zh + Miss(x, y)) % WORD
    ensures x * y / WORD % WORD == zh <==> Miss(x, y) == 0 || (x == y == LEAST)
  {
    SignedEquation(x, y, zl, zh);
    MissRange(x, y);
    HighWord(x * y, zl, zh, Miss(x, y), if x < 0 && y < 0 then 1 else 0);
    WholeWordMissed(x, y);
  }

  lemma SignedEquation(x: int, y: int, zl: int, zh: int)
    requires InWord(x) && InWord(y)
    requires (x % WORD) * (y % WORD) == zl + WORD * (zh + MiddleCarry(x % WORD, y % WORD))
    ensures x * y == zl + WORD * (zh + Miss(x, y) - WORD * (if x < 0 && y < 0 then 1 else 0))
  {
    UnsignedProduct(x, y, x % WORD, y % WORD);
  }

  lemma HighWord(p: int, zl: int, zh: int, d: int, k: int)
    requires IsWord(zl) && IsWord(zh) && -WORD < d < 2 * WORD && 0 <= k <= 1
    requires p == zl + WORD * (zh + d - WORD * k)
    ensures zl == p % WORD
    ensures p / WORD % WORD == (zh + d) % WORD
    ensures p / WORD % WORD == zh <==> d == 0 || d == WORD
  {
    Divides(p, WORD, zh + d - WORD * k, zl);
    SameWord(zh, d);
  }

  lemma MissRange(x: int, y: int)
    requires InWord(x) && InWord(y)
    ensures -WORD < Miss(x, y) < 2 * WORD
  {}

  lemma SameWord(z: int, d: int)
    requires IsWord(z) && -WORD < d < 2 * WORD
    ensures (z + d) % WORD == z <==> d == 0 || d == WORD
    ensures (z + d - WORD) % WORD == (z + d) % WORD
  {
    if z + d < 0 { Divides(z + d, WORD, -1, z + d + WORD); }
    else if z + d < WORD { Divides(z + d, WORD, 0, z + d); }
    else if z + d < 2 * WORD { Divides(z + d, WORD, 1, z + d - WORD); }
    else { Divides(z + d, WORD, 2, z + d - 2 * WORD); }
    Divides(z + d - WORD, WORD, (z + d) / WORD - 1, (z + d) % WORD);
  }

  /** Only the square of the least word misses by a whole word. */
  lemma WholeWordMissed(x: int, y: int)
    requires InWord(x) && InWord(y)
    ensures Miss(x, y) == WORD <==> x == y == LEAST
  {
    if x < 0 && y < 0 {
      if x + y <= 2 * LEAST + 2 { NearLeast(x, y); }
    }
  }

  /** Close to the square of the least word the middle column carries once at most. */
  lemma NearLeast(x: int, y: int)
    requires LEAST <= x <= LEAST + 2 && LEAST <= y <= LEAST + 2 && x + y <= 2 * LEAST + 2
    ensures MiddleCarry(x % WORD, y % WORD) == if x == y == LEAST + 1 then 1 else 0
  {
    var half := HALF / 2;
    var a, b := x - LEAST, y - LEAST;
    Divides(x, WORD, -1, -LEAST + a);
    Divides(y, WORD, -1, -LEAST + b);
    Divides(-LEAST + a, HALF, half, a);
    Divides(-LEAST + b, HALF, half, b);
    SmallColumn(a, b, half);
  }

  lemma SmallColumn(a: int, b: int, half: int)
    requires 0 <= a && 0 <= b && a + b <= 2 && half == HALF / 2
    ensures (HiHalf(WordProduct(a, b)) + LoHalf(WordProduct(a, half)) + LoHalf(WordProduct(half, b))) / HALF
            == if a == b == 1 then 1 else 0
  {
    if a == 0 { } else if a == 1 { } else { assert a == 2; }
  }

  /** The high word of -1 times 1 should have all its bits set and is 0. */
  lemma SignedHighWordWrong()
    ensures (-1 % WORD) * (1 % WORD) == (WORD - 1) + WORD * (0 + MiddleCarry(-1 % WORD, 1 % WORD))
    ensures -1 * 1 / WORD % WORD == WORD - 1 && Miss(-1, 1) == -1
  {}

  /** Those of -1 times 0 and of the least word times itself are right. */
  lemma SignedHighWordRight()
    ensures Miss(-1, 0) == 0 && Miss(LEAST, LEAST) == WORD
  {
    WholeWordMissed(LEAST, LEAST);
  }

  lemma UnsignedProduct(x: int, y: int, ux: int, uy: int)
    requires ux == (if x < 0 then x + WORD else x) && uy == (if y < 0 then y + WORD else y)
    ensures ux * uy == x * y + WORD * (if x < 0 then y else 0) + WORD * (if y < 0 then x else 0)
                       + (if x < 0 && y < 0 then WORD * WORD else 0)
  {
    Offset(x, y, ux - x, uy - y);
  }

  lemma Offset(x: int, y: int, a: int, b: int)
    ensures (x + a) * (y + b) == x * y + a * y + b * x + a * b
  {}

  /** All three carries occur, and with a carry the high word is wrong. */
  lemma CarriesOccur()
    ensures MiddleCarry(HALF, HALF) == 0 && MiddleCarry(2 * HALF - 1, HALF - 1) == 1
    ensures MiddleCarry(2 * HALF - 1, 2 * HALF - 1) == 2
  {}
}
