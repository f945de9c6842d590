/** What becomes of a 64-bit integer that passes through a JSON document: it is stored as a float64 and read back from
    the shortest decimal that stands for it. */
module JsonNumbers {
  import opened Wrappers
  import opened Text

  const TWO53 := 0x20_0000_0000_0000

  // The largest float64 at most n, and the smallest at least n: 53 significant bits.
  function Down(n: nat): (d: nat)
    ensures d <= n
  {
    if n <= TWO53 then n else 2 * Down(n / 2)
  }

  function Up(n: nat): (u: nat)
    ensures n <= u
  {
    if n <= TWO53 then n else 2 * Up((n + 1) / 2)
  }

  // The 53 leading bits of n.
  function Mantissa(n: nat): nat {
    if n <= TWO53 then n else Mantissa(n / 2)
  }

  predicate IsDouble(n: nat) {
    n <= TWO53 || (n % 2 == 0 && IsDouble(n / 2))
  }

  // The nearest float64, ties to the even mantissa.
  function Double(n: nat): nat {
    var d, u := Down(n), Up(n);
    if n - d < u - n then d
    else if u - n < n - d then u
    else if d == u || Mantissa(n) % 2 == 0 then d
    else u
  }

  // n with its last k decimal digits cleared.
  function Cleared(n: nat, k: nat): (c: nat)
    ensures c <= n
  {
    if k == 0 then n else 10 * Cleared(n / 10, k - 1)
  }

  // The decimal with the fewest digits that rounds to f, and of those the nearest, dropping at most k digits.
  function ShortestAt(f: nat, k: nat): nat {
    if k == 0 then f
    else
      var lo := Cleared(f, k);
      var hi := lo + Pow10(k);
      if Double(lo) == f && (Double(hi) != f || f - lo <= hi - f) then lo
      else if Double(hi) == f then hi
      else ShortestAt(f, k - 1)
  }

  // Twenty digits hold every 64-bit integer.
  function Shortest(f: nat): nat {
    ShortestAt(f, 19)
  }

  function Abs(n: int): nat {
    if n < 0 then -n else n
  }

  // m with the sign of n.
  function SignedAs(n: int, m: nat): int {
    if n < 0 then 0 - m else m
  }

  function Stored(n: int): int {
    SignedAs(n, Double(Abs(n)))
  }

  // Reading an integral number of a document into a 64-bit int; None when it does not fit.
  function ReadBack(f: int): Option<int> {
    var n := SignedAs(f, Shortest(Abs(f)));
    if MIN_INT <= n <= MAX_INT then Some(n) else None
  }

  // An integer survives when it is read back as it was stored.
  predicate Survives(n: int) {
    ReadBack(Stored(n)) == Some(n)
  }

  // ---------- Laws ----------

  lemma {:induction false} NeighboursAreDoubles(n: nat)
    ensures IsDouble(Down(n)) && IsDouble(Up(n))
  {
    if n > TWO53 {
      var d, u := Down(n / 2), Up((n + 1) / 2);
      NeighboursAreDoubles(n / 2);
      NeighboursAreDoubles((n + 1) / 2);
      assert IsDouble(2 * d) by { assert 2 * d / 2 == d; }
      assert IsDouble(2 * u) by { assert 2 * u / 2 == u; }
    }
  }

  // m times 2^k.
  function Scaled(m: nat, k: nat): nat {
    if k == 0 then m else 2 * Scaled(m, k - 1)
  }

  // A float64 is a mantissa of at most 2^53 times a power of two.
  lemma {:induction false} DoubleIsScaled(n: nat)
    ensures IsDouble(n) <==> exists m: nat, k: nat :: m <= 9_007_199_254_740_992 && n == Scaled(m, k)
  {
    if n <= TWO53 {
      assert n == Scaled(n, 0);
    } else if IsDouble(n) {
      DoubleIsScaled(n / 2);
      var m: nat, k: nat :| m <= 9_007_199_254_740_992 && n / 2 == Scaled(m, k);
      assert n == Scaled(m, k + 1);
    } else {
      forall m: nat, k: nat | m <= 9_007_199_254_740_992 ensures n != Scaled(m, k) { ScaledIsDouble(m, k); }
    }
  }

  lemma {:induction false} ScaledIsDouble(m: nat, k: nat)
    requires m <= TWO53
    ensures IsDouble(Scaled(m, k))
  {
    if k > 0 {
      ScaledIsDouble(m, k - 1);
      assert 2 * Scaled(m, k - 1) / 2 == Scaled(m, k - 1);
    }
  }

  lemma {:induction false} DoublesAreKept(f: nat)
    requires IsDouble(f)
    ensures Down(f) == f == Up(f) && Double(f) == f
  {
    if f > TWO53 { DoublesAreKept(f / 2); }
  }

  // No float64 lies strictly between the two neighbours: rounding is to a nearest float64.
  lemma {:induction false} NeighboursAreNearest(n: nat, f: nat)
    requires IsDouble(f)
    ensures f <= n ==> f <= Down(n)
    ensures n <= f ==> Up(n) <= f
  {
    if n > TWO53 {
      if f > TWO53 {
        NeighboursAreNearest(n / 2, f / 2);
        NeighboursAreNearest((n + 1) / 2, f / 2);
      } else {
        NeighboursAreNearest(n / 2, f / 2);
        BigStaysBig(n / 2);
      }
    } else if f > TWO53 {
    }
  }

  lemma {:induction false} BigStaysBig(n: nat)
    requires n >= TWO53 / 2
    ensures Down(n) >= TWO53 / 2
  {
    if n > TWO53 { BigStaysBig(n / 2); }
  }

  // Double gives a float64, and none is nearer.
  lemma DoubleIsNearest(n: nat, f: nat)
    requires IsDouble(f)
    ensures IsDouble(Double(n))
    ensures (if Double(n) <= n then n - Double(n) else Double(n) - n) <= (if f <= n then n - f else f - n)
  {
    NeighboursAreDoubles(n);
    NeighboursAreNearest(n, f);
  }

  lemma DoublingKeepsParity(x: nat)
    requires x >= TWO53 / 2
    ensures Mantissa(2 * x) % 2 == Mantissa(x) % 2
  {
    assert 2 * x / 2 == x;
  }

  // The mantissas of two adjacent float64 differ in parity, and n shares that of the lower one.
  lemma {:induction false} NeighboursAlternate(n: nat)
    requires Down(n) < Up(n)
    ensures Mantissa(Down(n)) % 2 == Mantissa(n) % 2 != Mantissa(Up(n)) % 2
    decreases n, 1
  {
    var m, l := n / 2, (n + 1) / 2;
    BigStaysBig(m);
    DoublingKeepsParity(Down(m));
    DoublingKeepsParity(Up(l));
    if l > TWO53 { AdjacentAlternate(m, l); }
  }

  lemma OddRoundsUpAlike(m: nat)
    requires m % 2 == 1 && m > TWO53
    ensures Up(m) == Up(m + 1)
  {
    assert (m + 1) / 2 == (m + 2) / 2;
  }

  lemma EvenRoundsDownAlike(m: nat)
    requires m % 2 == 0 && m >= TWO53
    ensures Down(m) == Down(m + 1) && Mantissa(m) % 2 == Mantissa(m + 1) % 2
  {
    assert (m + 1) / 2 == m / 2;
    assert m > TWO53 ==> Mantissa(m + 1) == Mantissa(m);
  }

  lemma {:induction false} AdjacentAlternate(m: nat, l: nat)
    requires m <= l <= m + 1 && l > TWO53 && Down(m) < Up(l)
    ensures Mantissa(Down(m)) % 2 == Mantissa(m) % 2 != Mantissa(Up(l)) % 2
    decreases l, 2
  {
    if m == l {
      NeighboursAlternate(m);
    } else if m % 2 == 1 {
      OddRoundsUpAlike(m);
      NeighboursAlternate(m);
    } else {
      EvenRoundsDownAlike(m);
      NeighboursAlternate(l);
    }
  }

  // A value midway between two float64 is stored as the one with the even mantissa.
  lemma TieIsEven(n: nat)
    requires Down(n) < Up(n) && n - Down(n) == Up(n) - n
    ensures Mantissa(Double(n)) % 2 == 0
  {
    NeighboursAlternate(n);
  }

  lemma {:induction false} ShortestRounds(f: nat, k: nat)
    requires IsDouble(f)
    ensures Double(ShortestAt(f, k)) == f
  {
    if k == 0 { DoublesAreKept(f); } else { ShortestRounds(f, k - 1); }
  }

  lemma PositiveStaysPositive(n: nat)
    ensures Double(n) == 0 <==> n == 0
    ensures Shortest(n) == 0 && IsDouble(n) ==> n == 0
  {
    if n > 0 { NeighboursAreNearest(n, 1); }
    if IsDouble(n) { ShortestRounds(n, 19); }
  }

  lemma SignsAgree(n: int, m: nat, k: nat)
    requires m == 0 ==> k == 0
    ensures Abs(SignedAs(n, m)) == m && SignedAs(SignedAs(n, m), k) == SignedAs(n, k)
  {
  }

  // Storing and reading back work on the magnitude and keep the sign.
  lemma ReadBackByMagnitude(n: int)
    ensures var r := SignedAs(n, Shortest(Double(Abs(n))));
      ReadBack(Stored(n)) == if MIN_INT <= r <= MAX_INT then Some(r) else None
  {
    PositiveStaysPositive(Abs(n));
    SignsAgree(n, Double(Abs(n)), Shortest(Double(Abs(n))));
  }

  lemma SettledRounds(n: nat)
    ensures Double(Shortest(Double(n))) == Double(n)
    ensures Shortest(Double(n)) == 0 ==> Double(n) == 0
  {
    NeighboursAreDoubles(n);
    ShortestRounds(Double(n), 19);
    PositiveStaysPositive(Shortest(Double(n)));
  }

  // ---------- The shortest decimal ----------

  function Distance(a: nat, b: nat): nat {
    if a <= b then b - a else a - b
  }

  // c ends in at least k zeros.
  predicate Multiple(c: nat, k: nat) {
    Cleared(c, k) == c
  }

  lemma MultipleIsZeros(c: nat, k: nat)
    ensures Multiple(c, 0) && (Multiple(c, k + 1) <==> c % 10 == 0 && Multiple(c / 10, k))
  {
    assert Cleared(c, k + 1) == 10 * Cleared(c / 10, k);
  }

  lemma DoubleIsMonotone(a: nat, b: nat)
    requires a <= b
    ensures Double(a) <= Double(b)
  {
    NeighboursAreDoubles(a);
    NeighboursAreDoubles(b);
    DoubleIsNearest(a, Double(b));
    DoubleIsNearest(b, Double(a));
  }

  lemma {:induction false} MultiplesApart(c: nat, f: nat, k: nat)
    requires Multiple(c, k)
    ensures if c <= f then c <= Cleared(f, k) else Cleared(f, k) + Pow10(k) <= c
  {
    if k > 0 {
      assert c == 10 * Cleared(c / 10, k - 1);
      MultiplesApart(c / 10, f / 10, k - 1);
    }
  }

  lemma {:induction false} ClearedAreMultiples(f: nat, k: nat)
    ensures Multiple(Cleared(f, k), k) && Multiple(Cleared(f, k) + Pow10(k), k) && f < Cleared(f, k) + Pow10(k)
  {
    if k > 0 {
      ClearedAreMultiples(f / 10, k - 1);
      assert 10 * Cleared(f / 10, k - 1) / 10 == Cleared(f / 10, k - 1);
      assert (10 * Cleared(f / 10, k - 1) + Pow10(k)) / 10 == Cleared(f / 10, k - 1) + Pow10(k - 1);
    }
  }

  // If any multiple of 10^k rounds to f, so does the nearest one on its side of f.
  lemma NearestMultipleRounds(f: nat, c: nat, k: nat)
    requires IsDouble(f) && Multiple(c, k) && Double(c) == f
    ensures var lo, hi := Cleared(f, k), Cleared(f, k) + Pow10(k);
      if c <= f then Double(lo) == f && Distance(lo, f) <= Distance(c, f)
      else Double(hi) == f && Distance(hi, f) <= Distance(c, f)
  {
    var lo, hi := Cleared(f, k), Cleared(f, k) + Pow10(k);
    MultiplesApart(c, f, k);
    ClearedAreMultiples(f, k);
    DoublesAreKept(f);
    if c <= f {
      DoubleIsMonotone(c, lo);
      DoubleIsMonotone(lo, f);
    } else {
      DoubleIsMonotone(f, hi);
      DoubleIsMonotone(hi, c);
    }
  }

  ghost predicate NoneRounds(f: nat, k: nat) {
    forall c: nat | Multiple(c, k) :: Double(c) != f
  }

  // s is a multiple of 10^k that rounds to f, and no other such multiple is nearer.
  ghost predicate NearestAt(f: nat, s: nat, k: nat) {
    && Multiple(s, k) && Double(s) == f
    && forall c: nat | Multiple(c, k) && Double(c) == f :: Distance(s, f) <= Distance(c, f)
  }

  // Multiples of 10^k that round to f are no nearer to it than lo from below and hi from above.
  ghost predicate Between(f: nat, k: nat, lo: nat, hi: nat) {
    && lo <= f < hi && Multiple(lo, k) && Multiple(hi, k)
    && (forall c: nat | Multiple(c, k) && Double(c) == f && c <= f :: Double(lo) == f && f - lo <= f - c)
    && (forall c: nat | Multiple(c, k) && Double(c) == f && c > f :: Double(hi) == f && hi - f <= c - f)
  }

  lemma LevelIsBetween(f: nat, k: nat)
    requires IsDouble(f)
    ensures Between(f, k, Cleared(f, k), Cleared(f, k) + Pow10(k))
  {
    ClearedAreMultiples(f, k);
    forall c: nat | Multiple(c, k) && Double(c) == f
      ensures var lo, hi := Cleared(f, k), Cleared(f, k) + Pow10(k);
        if c <= f then Double(lo) == f && Distance(lo, f) <= Distance(c, f)
        else Double(hi) == f && Distance(hi, f) <= Distance(c, f)
    {
      NearestMultipleRounds(f, c, k);
    }
  }

  lemma NearerBelow(f: nat, k: nat, lo: nat, hi: nat)
    requires Between(f, k, lo, hi) && Double(lo) == f && (Double(hi) != f || f - lo <= hi - f)
    ensures NearestAt(f, lo, k)
  {
    forall c: nat | Multiple(c, k) && Double(c) == f ensures Distance(lo, f) <= Distance(c, f) {}
  }

  lemma NearerAbove(f: nat, k: nat, lo: nat, hi: nat)
    requires Between(f, k, lo, hi) && Double(hi) == f && (Double(lo) != f || hi - f < f - lo)
    ensures NearestAt(f, hi, k)
  {
    forall c: nat | Multiple(c, k) && Double(c) == f ensures Distance(hi, f) <= Distance(c, f) {}
  }

  lemma NeitherRounds(f: nat, k: nat, lo: nat, hi: nat)
    requires Between(f, k, lo, hi) && Double(lo) != f && Double(hi) != f
    ensures NoneRounds(f, k)
  {
  }

  // The decimal that is read back rounds to the float64, ends in as many zeros as any decimal that does, and of
  // those is nearest to it.
  lemma {:induction false} ShortestIsFewest(f: nat, k: nat) returns (zeros: nat)
    requires IsDouble(f)
    ensures zeros <= k && NearestAt(f, ShortestAt(f, k), zeros)
    ensures forall z: nat | zeros < z <= k :: NoneRounds(f, z)
  {
    var lo, hi := Cleared(f, k), Cleared(f, k) + Pow10(k);
    if k == 0 {
      zeros := 0;
      DoublesAreKept(f);
      assert NearestAt(f, f, 0);
      return;
    }
    LevelIsBetween(f, k);
    if Double(lo) == f && (Double(hi) != f || f - lo <= hi - f) {
      zeros := k;
      assert ShortestAt(f, k) == lo;
      NearerBelow(f, k, lo, hi);
    } else if Double(hi) == f {
      zeros := k;
      assert ShortestAt(f, k) == hi;
      NearerAbove(f, k, lo, hi);
    } else {
      assert ShortestAt(f, k) == ShortestAt(f, k - 1);
      NeitherRounds(f, k, lo, hi);
      zeros := ShortestIsFewest(f, k - 1);
    }
  }

  // An id survives exactly when it is itself the decimal that its float64 is read back as.
  lemma SurvivalIsBeingShortest(n: int)
    ensures Survives(n)
      <==> -0x8000_0000_0000_0000 <= n <= 0x7fff_ffff_ffff_ffff && Shortest(Double(Abs(n))) == Abs(n)
  {
    ReadBackByMagnitude(n);
  }

  // What was read back once is read back for ever: it is stored as the same float64.
  lemma ReadBackIsStable(n: int)
    ensures var r := ReadBack(Stored(n)); r.Some? ==> Stored(r.value) == Stored(n) && Survives(r.value)
  {
    SettledRounds(Abs(n));
    ReadBackByMagnitude(n);
    SignsAgree(n, Shortest(Double(Abs(n))), Double(Abs(n)));
  }

  // A float64 up to 2^54 is its own shortest decimal.
  lemma {:induction false} SmallIsShortest(f: nat, k: nat)
    requires f <= 2 * TWO53 && IsDouble(f)
    ensures ShortestAt(f, k) == f
  {
    if k > 0 {
      var lo := Cleared(f, k);
      var hi := lo + Pow10(k);
      assert lo == 10 * Cleared(f / 10, k - 1) && hi == 10 * (Cleared(f / 10, k - 1) + Pow10(k - 1));
      TenfoldRoundsOnlyToItself(Cleared(f / 10, k - 1), f);
      TenfoldRoundsOnlyToItself(Cleared(f / 10, k - 1) + Pow10(k - 1), f);
      SmallIsShortest(f, k - 1);
    }
  }

  lemma TenfoldRoundsOnlyToItself(x: nat, f: nat)
    requires f <= 2 * TWO53
    ensures Double(10 * x) == f ==> 10 * x == f
  {
    var c := 10 * x;
    if c <= 2 * TWO53 {
      DoublesAreKept(c);
    } else {
      var top: nat := 2 * TWO53 + 4;
      assert IsDouble(top);
      if c >= top {
        NeighboursAreNearest(c, top);
      } else {
        assert false;
      }
    }
  }

  lemma SurvivesByMagnitude(n: int, m: nat)
    requires m == Shortest(Double(Abs(n))) && m <= MAX_INT
    ensures Survives(n) <==> m == Abs(n)
  {
    ReadBackByMagnitude(n);
  }

  lemma SafeIntegersSurvive(n: int)
    requires -9_007_199_254_740_992 <= n <= 9_007_199_254_740_992
    ensures Survives(n)
  {
    DoublesAreKept(Abs(n));
    SmallIsShortest(Abs(n), 19);
    SurvivesByMagnitude(n, Abs(n));
  }

  lemma NextDoubles(n: nat)
    requires TWO53 <= n <= 2 * TWO53
    ensures Down(n) == n / 2 * 2 && Up(n) == (n + 1) / 2 * 2
    ensures IsDouble(Double(n)) && Double(n) <= 2 * TWO53 && (Double(n) == n <==> n % 2 == 0)
  {
    NeighboursAreDoubles(n);
  }

  lemma ParityOfMagnitude(n: int)
    ensures Abs(n) % 2 == n % 2
  {
  }

  // Between 2^53 and 2^54 exactly the even integers survive.
  lemma NextIntegersSurviveIfEven(n: int)
    requires 9_007_199_254_740_992 <= Abs(n) <= 18_014_398_509_481_984
    ensures Survives(n) <==> n % 2 == 0
  {
    var f := Double(Abs(n));
    NextDoubles(Abs(n));
    SmallIsShortest(f, 19);
    SurvivesByMagnitude(n, f);
    ParityOfMagnitude(n);
  }

  ghost predicate AllSurvive(bound: nat) {
    forall n :: Abs(n) <= bound ==> Survives(n)
  }

  lemma FirstLost(n: int)
    requires n == TWO53 + 1
    ensures !Survives(n)
  {
    NextIntegersSurviveIfEven(n);
  }

  // 2^53 is the exact bound up to which every integer survives.
  lemma SafeBoundIsExact(bound: nat)
    ensures AllSurvive(bound) <==> bound <= 9_007_199_254_740_992
  {
    if bound <= TWO53 {
      forall n | Abs(n) <= bound ensures Survives(n) { SafeIntegersSurvive(n); }
    } else {
      var n: int :| n == TWO53 + 1;
      FirstLost(n);
    }
  }
}
