/**
 Heap objects as heap-utils.c reads them: a wrapper describes which words of an object are
 references.  `trace_object` hands those words to a callback that may stop it; here the
 words are listed in the order in which they are handed over, and the callers stop.
 */
module HeapObjects {
  import opened Options
  import opened Arithmetic

  type Addr = nat
  const NULL: Addr := 0

  /** The words of a wrapper that describe its instances. */
  datatype Wrapper = Wrapper(fixedPart: nat, vectorPart: nat, patterns: seq<nat>)

  /** `wrapper` is absent when the word is NULL or tagged; `words[0]` is the wrapper word. */
  datatype Object = Object(wrapper: Option<Wrapper>, words: seq<Addr>)

  const PATTERN_BITS: nat := 32

  function Word(o: Object, i: nat): Addr { if i < |o.words| then o.words[i] else NULL }

  function FixedFormat(w: Wrapper): nat { w.fixedPart % 4 }
  function FixedLength(w: Wrapper): (n: nat)
    ensures n >= 1
  {
    w.fixedPart / 4 + 1
  }
  function VectorFormat(w: Wrapper): nat { w.vectorPart % 8 }

  function VectorScale(w: Wrapper): nat {
    match VectorFormat(w)
    case 7 => 0
    case 4 => 1
    case 5 => 1
    case _ => 4
  }

  function RepeatedSize(o: Object, fixedLength: nat): nat { Word(o, fixedLength) / 4 }

  /** size_of_object, in bytes. */
  function Size(o: Object, w: Wrapper): nat {
    var fixed := FixedLength(w);
    if VectorScale(w) != 0 then 4 * fixed + 4 + VectorScale(w) * RepeatedSize(o, fixed) else 4 * fixed
  }

  function Pow2(k: nat): (p: nat)
    ensures p > 0
  {
    if k == 0 then 1 else 2 * Pow2(k - 1)
  }

  function PatternWord(w: Wrapper, k: nat): nat { if k < |w.patterns| then w.patterns[k] else 0 }

  /** Bit `i - 1` of the pattern, counted through its words, says whether word `i` is a reference. */
  predicate InPattern(w: Wrapper, i: nat)
    requires i >= 1
  {
    (PatternWord(w, (i - 1) / PATTERN_BITS) / Pow2((i - 1) % PATTERN_BITS)) % 2 == 1
  }

  predicate IsReference(o: Object, w: Wrapper, i: nat) {
    if 1 <= i < FixedLength(w) then FixedFormat(w) == 1 || (FixedFormat(w) == 2 && InPattern(w, i))
    else VectorFormat(w) == 2 && FixedLength(w) < i < FixedLength(w) + RepeatedSize(o, FixedLength(w)) + 1
  }

  /** The words at the reference positions below `n`, in order. */
  function ReferencesBelow(o: Object, w: Wrapper, n: nat): seq<Addr> {
    if n == 0 then []
    else ReferencesBelow(o, w, n - 1) + (if IsReference(o, w, n - 1) then [Word(o, n - 1)] else [])
  }

  function Extent(o: Object, w: Wrapper): nat {
    if VectorFormat(w) == 2 then FixedLength(w) + RepeatedSize(o, FixedLength(w)) + 1 else FixedLength(w)
  }

  /** What an object refers to. */
  function References(o: Object): seq<Addr> {
    match o.wrapper
    case None => []
    case Some(w) => ReferencesBelow(o, w, Extent(o, w))
  }

  lemma HalvedPattern(word: nat, k: nat)
    ensures (word / Pow2(k)) / 2 == word / Pow2(k + 1)
  {
    var p, q := Pow2(k), word / Pow2(k);
    var h := q / 2;
    assert word == p * q + word % p;
    assert q == 2 * h + q % 2;
    assert word == (2 * p) * h + (p * (q % 2) + word % p) by {
      assert p * q == p * (2 * h) + p * (q % 2);
      assert p * (2 * h) == (2 * p) * h;
    }
    assert 0 <= p * (q % 2) + word % p < 2 * p by { assert p * (q % 2) <= p; assert p * (q % 2) >= 0; }
    Divides(word, 2 * p, h, p * (q % 2) + word % p);
  }

  /** trace_object, with a callback that never stops it. */
  method TraceObject(o: Object) returns (refs: seq<Addr>)
    ensures refs == References(o)
  {
    refs := [];
    if o.wrapper.None? { return; }
    var w := o.wrapper.value;
    var fixedLength, fixedFormat, vectorFormat := FixedLength(w), FixedFormat(w), VectorFormat(w);
    assert ReferencesBelow(o, w, 1) == [] by { assert ReferencesBelow(o, w, 0) == []; }

    if fixedFormat == 1 {
      for i := 1 to fixedLength
        invariant refs == ReferencesBelow(o, w, i)
      {
        refs := refs + [Word(o, i)];
      }
    } else if fixedFormat == 2 {
      refs := TracePatterned(o, w, fixedLength);
    } else {
      NothingFixed(o, w, fixedLength);
    }

    if vectorFormat == 2 {
      var total := fixedLength + RepeatedSize(o, fixedLength) + 1;
      for i := fixedLength + 1 to total
        invariant refs == ReferencesBelow(o, w, i)
      {
        refs := refs + [Word(o, i)];
      }
    }
  }

  lemma {:induction false} NothingFixed(o: Object, w: Wrapper, n: nat)
    requires FixedFormat(w) != 1 && FixedFormat(w) != 2 && n <= FixedLength(w)
    ensures ReferencesBelow(o, w, n) == []
  {
    if n > 0 { NothingFixed(o, w, n - 1); }
  }

  lemma NextBit(k: nat)
    ensures if k % PATTERN_BITS == PATTERN_BITS - 1
            then (k + 1) % PATTERN_BITS == 0 && (k + 1) / PATTERN_BITS == k / PATTERN_BITS + 1
            else (k + 1) % PATTERN_BITS == k % PATTERN_BITS + 1 && (k + 1) / PATTERN_BITS == k / PATTERN_BITS
  {
    assert k == PATTERN_BITS * (k / PATTERN_BITS) + k % PATTERN_BITS;
    if k % PATTERN_BITS == PATTERN_BITS - 1 {
      Divides(k + 1, PATTERN_BITS, k / PATTERN_BITS + 1, 0);
    } else {
      Divides(k + 1, PATTERN_BITS, k / PATTERN_BITS, k % PATTERN_BITS + 1);
    }
  }

  /** Before field `k + 1`: `seen` bits of a pattern word are used up, and the others are left. */
  predicate AtField(w: Wrapper, k: nat, seen: nat, patternIndex: nat, pattern: nat) {
    seen == k % PATTERN_BITS && patternIndex == k / PATTERN_BITS + (if seen == 0 then 0 else 1) &&
    (seen != 0 ==> pattern == PatternWord(w, k / PATTERN_BITS) / Pow2(seen))
  }

  lemma Loaded(w: Wrapper, k: nat, seen: nat, patternIndex: nat, pattern: nat)
    requires AtField(w, k, seen, patternIndex, pattern)
    ensures (if seen == 0 then PatternWord(w, patternIndex) else pattern) ==
            PatternWord(w, k / PATTERN_BITS) / Pow2(k % PATTERN_BITS)
  {}

  lemma NextField(w: Wrapper, k: nat, seen: nat, pattern: nat)
    requires seen == k % PATTERN_BITS && pattern == PatternWord(w, k / PATTERN_BITS) / Pow2(seen)
    ensures AtField(w, k + 1, if seen + 1 == PATTERN_BITS then 0 else seen + 1, k / PATTERN_BITS + 1, pattern / 2)
  {
    NextBit(k);
    HalvedPattern(PatternWord(w, k / PATTERN_BITS), seen);
  }

  /** The patterned case: one bit of the current pattern word is used up at each field. */
  method TracePatterned(o: Object, w: Wrapper, fixedLength: nat) returns (refs: seq<Addr>)
    requires FixedFormat(w) == 2 && fixedLength == FixedLength(w)
    ensures refs == ReferencesBelow(o, w, fixedLength)
  {
    refs := [];
    var patternIndex, seen, pattern := 0, 0, 0;
    assert ReferencesBelow(o, w, 1) == [] by { assert ReferencesBelow(o, w, 0) == []; }
    for i := 1 to fixedLength
      invariant refs == ReferencesBelow(o, w, i)
      invariant AtField(w, i - 1, seen, patternIndex, pattern)
    {
      Loaded(w, i - 1, seen, patternIndex, pattern);
      if seen == 0 {
        pattern := PatternWord(w, patternIndex);
        patternIndex := patternIndex + 1;
      }
      NextField(w, i - 1, seen, pattern);
      if pattern % 2 == 1 {
        refs := refs + [Word(o, i)];
      }
      pattern := pattern / 2;
      seen := seen + 1;
      if seen == PATTERN_BITS { seen := 0; }
    }
  }

  // ---------------------------------------------------------------- what the wrapper words mean

  /** Bit `k` of a word, by shifting. */
  predicate BitSet(word: nat, k: nat) { if k == 0 then word % 2 == 1 else BitSet(word / 2, k - 1) }

  /** `n` words of an object, from `first` on. */
  function Words(o: Object, first: nat, n: nat): seq<Addr> {
    seq<Addr>(n, k requires 0 <= k < n => Word(o, first + k))
  }

  function WordsAt(o: Object, ps: seq<nat>): seq<Addr> {
    seq<Addr>(|ps|, k requires 0 <= k < |ps| => Word(o, ps[k]))
  }

  predicate Increasing(ps: seq<nat>) { forall j, k | 0 <= j < k < |ps| :: ps[j] < ps[k] }

  lemma {:induction false} Shifted(word: nat, k: nat)
    ensures (word / 2) / Pow2(k) == word / Pow2(k + 1)
  {
    if k > 0 {
      HalvedPattern(word / 2, k - 1);
      Shifted(word, k - 1);
      HalvedPattern(word, k);
    }
  }

  lemma {:induction false} BitIsQuotient(word: nat, k: nat)
    ensures BitSet(word, k) <==> (word / Pow2(k)) % 2 == 1
  {
    if k > 0 {
      BitIsQuotient(word / 2, k - 1);
      Shifted(word, k - 1);
    }
  }

  /** The fixed part of `References`. */
  lemma {:induction false} FixedPositions(o: Object, w: Wrapper, n: nat) returns (ps: seq<nat>)
    requires n <= FixedLength(w)
    ensures ReferencesBelow(o, w, n) == WordsAt(o, ps) && Increasing(ps)
    ensures forall i :: i in ps <==> 1 <= i < n && IsReference(o, w, i)
  {
    if n == 0 {
      ps := [];
    } else {
      ps := FixedPositions(o, w, n - 1);
      if IsReference(o, w, n - 1) {
        OneMore(o, ps, n - 1);
        ps := ps + [n - 1];
      }
    }
  }

  lemma OneMore(o: Object, ps: seq<nat>, p: nat)
    requires Increasing(ps) && forall i <- ps :: i < p
    ensures WordsAt(o, ps + [p]) == WordsAt(o, ps) + [Word(o, p)] && Increasing(ps + [p])
    ensures forall i :: i in ps + [p] <==> i in ps || i == p
  {
    forall k | 0 <= k < |ps| ensures ps[k] < p { assert ps[k] in ps; }
  }

  /** The repeated part. */
  lemma {:induction false} RepeatedPositions(o: Object, w: Wrapper, n: nat)
    requires VectorFormat(w) == 2 && n <= RepeatedSize(o, FixedLength(w))
    ensures ReferencesBelow(o, w, FixedLength(w) + 1 + n) ==
            ReferencesBelow(o, w, FixedLength(w)) + Words(o, FixedLength(w) + 1, n)
  {
    if n > 0 { RepeatedPositions(o, w, n - 1); }
  }

  /** What an object refers to, by the words of its wrapper: among the words after the header those
      that the fixed format says, in order, and then all elements of a traceable vector.
      `ps` are the positions of the former. */
  lemma ReferencesAre(o: Object, w: Wrapper) returns (ps: seq<nat>)
    requires o.wrapper == Some(w)
    ensures var f := w.fixedPart / 4 + 1;
            References(o) ==
            WordsAt(o, ps) + (if w.vectorPart % 8 == 2 then Words(o, f + 1, Word(o, f) / 4) else [])
    ensures Increasing(ps)
    ensures forall i :: i in ps <==>
              1 <= i < w.fixedPart / 4 + 1 &&
              (w.fixedPart % 4 == 1 ||
               (w.fixedPart % 4 == 2 && (i - 1) / 32 < |w.patterns| && BitSet(w.patterns[(i - 1) / 32], (i - 1) % 32)))
  {
    ps := FixedPositions(o, w, FixedLength(w));
    if VectorFormat(w) == 2 { RepeatedPositions(o, w, RepeatedSize(o, FixedLength(w))); }
    forall i | 1 <= i < FixedLength(w)
      ensures InPattern(w, i) <==> (i - 1) / 32 < |w.patterns| && BitSet(w.patterns[(i - 1) / 32], (i - 1) % 32)
    {
      if (i - 1) / 32 < |w.patterns| {
        BitIsQuotient(w.patterns[(i - 1) / 32], (i - 1) % 32);
      } else {
        NoPattern((i - 1) % 32);
      }
    }
  }

  lemma NoPattern(k: nat)
    ensures (0 / Pow2(k)) % 2 == 0
  {
    Divides(0, Pow2(k), 0, 0);
  }

  /** An object whose word is not a wrapper is not looked into. */
  lemma NoWrapperNoReferences(o: Object)
    requires o.wrapper.None?
    ensures References(o) == []
  {}

  /** Three fixed words and two repeated ones, in every format: nothing, all, a pattern (of words
      1 and 3, bits 0 and 2), and with and without the vector. */
  lemma UntracedExample(vectorPart: nat)
    ensures Listed(12, vectorPart, 0, if vectorPart % 8 == 2 then [16, 20] else [])
  {
    Listing(12, vectorPart, 0);
  }

  lemma TracedExample(vectorPart: nat)
    ensures Listed(13, vectorPart, 0, [4, 8, 12] + if vectorPart % 8 == 2 then [16, 20] else [])
  {
    Listing(13, vectorPart, 0);
    assert [4] + [8] + [12] == [4, 8, 12];
  }

  lemma PatternedExample(vectorPart: nat)
    ensures Listed(14, vectorPart, 5, [4, 12] + if vectorPart % 8 == 2 then [16, 20] else [])
  {
    BitsOfFive(Wrapper(14, vectorPart, [5]));
    Listing(14, vectorPart, 5);
    assert [4] + [] + [12] == [4, 12];
  }

  lemma BitsOfFive(w: Wrapper)
    requires w.patterns == [5]
    ensures InPattern(w, 1) && !InPattern(w, 2) && InPattern(w, 3)
  {
    assert Pow2(0) == 1 && Pow2(1) == 2 && Pow2(2) == 4;
  }

  lemma VectorExample()
    ensures References(Object(Some(Wrapper(0, 2, [])), [100, 8, 4, 12])) == [4, 12]
  {
    var o, w := Object(Some(Wrapper(0, 2, [])), [100, 8, 4, 12]), Wrapper(0, 2, []);
    RepeatedPositions(o, w, 2);
    assert ReferencesBelow(o, w, 1) == [] by { assert ReferencesBelow(o, w, 0) == []; }
  }

  predicate Listed(fixedPart: nat, vectorPart: nat, pattern: nat, refs: seq<Addr>) {
    References(Sample(Wrapper(fixedPart, vectorPart, [pattern]))) == refs
  }

  lemma Listing(fixedPart: nat, vectorPart: nat, pattern: nat)
    requires fixedPart / 4 == 3
    ensures var w := Wrapper(fixedPart, vectorPart, [pattern]);
            var (a, b, c) := (IsReference(Sample(w), w, 1), IsReference(Sample(w), w, 2), IsReference(Sample(w), w, 3));
            Listed(fixedPart, vectorPart, pattern,
                   (if a then [4] else []) + (if b then [8] else []) + (if c then [12] else []) +
                   (if vectorPart % 8 == 2 then [16, 20] else []))
  {
    var w := Wrapper(fixedPart, vectorPart, [pattern]);
    var o := Sample(w);
    assert ReferencesBelow(o, w, 1) == [] by { assert ReferencesBelow(o, w, 0) == []; }
    assert ReferencesBelow(o, w, 2) == if IsReference(o, w, 1) then [4] else [];
    assert ReferencesBelow(o, w, 3) == ReferencesBelow(o, w, 2) + if IsReference(o, w, 2) then [8] else [];
    assert ReferencesBelow(o, w, 4) == ReferencesBelow(o, w, 3) + if IsReference(o, w, 3) then [12] else [];
    if vectorPart % 8 == 2 { RepeatedPositions(o, w, 2); }
  }

  function Sample(w: Wrapper): Object { Object(Some(w), [100, 4, 8, 12, 8, 16, 20]) }

  /** The first word behind a full pattern word is governed by the first bit of the next one. */
  lemma SecondPatternWord(words: seq<Addr>)
    requires |words| == 34
    ensures References(Object(Some(Wrapper(4 * 33 + 2, 0, [0, 1])), words)) == [words[33]]
  {
    var o, w := Object(Some(Wrapper(4 * 33 + 2, 0, [0, 1])), words), Wrapper(4 * 33 + 2, 0, [0, 1]);
    var ps := ReferencesAre(o, w);
    forall i | i in ps ensures i == 33 { if i < 33 { NoBit(i - 1); } }
    assert BitSet(1, 0) && 33 in ps;
    OnePosition(ps, 33);
  }

  lemma OnePosition(ps: seq<nat>, p: nat)
    requires Increasing(ps) && forall i :: i in ps <==> i == p
    ensures ps == [p]
  {
    var first, second := if |ps| > 0 then ps[0] else 0, if |ps| > 1 then ps[1] else 0;
    assert |ps| > 1 ==> first < second;
    forall k | 0 <= k < |ps| ensures ps[k] == p { assert ps[k] in ps; }
    assert p in ps;
  }

  lemma {:induction false} NoBit(k: nat)
    ensures !BitSet(0, k)
  {
    if k > 0 { NoBit(k - 1); }
  }

  /** The size in bytes, by the words of the wrapper: the fixed part with the header alone, or with
      a size word and as many elements, of a byte each or of a word each, as that says. */
  lemma SizeInBytes(o: Object, w: Wrapper)
    ensures var fixed := 4 * (w.fixedPart / 4 + 1);
            var elements := Word(o, w.fixedPart / 4 + 1) / 4;
            (w.vectorPart % 8 == 7 ==> Size(o, w) == fixed) &&
            (w.vectorPart % 8 == 4 || w.vectorPart % 8 == 5 ==> Size(o, w) == fixed + 4 + elements) &&
            (w.vectorPart % 8 <= 3 || w.vectorPart % 8 == 6 ==> Size(o, w) == fixed + 4 + 4 * elements)
  {}

  /** Two fixed words beside the header; and behind them nothing, five bytes or five words. */
  lemma EachSize()
    ensures var words := [100, 4, 8, 20];
            var fixed, bytes, refs := Wrapper(9, 7, []), Wrapper(9, 4, []), Wrapper(9, 2, []);
            Size(Object(Some(fixed), words), fixed) == 12 && Size(Object(Some(bytes), words), bytes) == 21 &&
            Size(Object(Some(refs), words), refs) == 36
  {}
}
