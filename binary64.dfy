/** The zone bounds as the source computes them: a whole number times one of
    the literals 0.50, 0.60, ..., 1.00, in IEEE 754 binary64 arithmetic (round
    to nearest, ties to even), then truncated by int(). Only non-negative
    values far from overflow and from the subnormal range occur, so a value is
    a significand and a power of two and nothing else is modelled.

    The rest of the model uses the exact truncated percentage Zones.Scaled.
    The two agree on the worked examples, but not everywhere: 0.70 is stored
    slightly below 7/10, and 170 * 0.70 rounds to the binary64 value just below
    119, which int() truncates to 118. */
module Binary64 {
  import opened Zones

  /** The non-negative binary64 value mant * 2^exp. */
  datatype Float = Float(mant: nat, exp: int)

  /** 2^53: a binary64 significand has 53 bits. */
  const SignificandLimit: nat := 9007199254740992

  function Pow2(n: nat): (r: nat)
    ensures r >= 1
  {
    if n == 0 then 1 else 2 * Pow2(n - 1)
  }

  /** The number of low bits that must be dropped from n to leave at most 53. */
  function DroppedBits(n: nat): (s: nat)
    ensures n < SignificandLimit * Pow2(s)
    ensures s > 0 ==> SignificandLimit * Pow2(s - 1) <= n
  {
    if n < SignificandLimit then 0 else 1 + DroppedBits(n / 2)
  }

  /** n / p rounded to the nearest whole number, a tie going to the even one:
      q * p is at most half of p away from n, and exactly half only when q is
      even. */
  function RoundDiv(n: nat, p: nat): (q: nat)
    requires p >= 1
    ensures 2 * (q * p - n) <= p
    ensures 2 * (n - q * p) <= p
    ensures 2 * (q * p - n) == p || 2 * (n - q * p) == p ==> q % 2 == 0
  {
    var d, r := n / p, n % p;
    var q := if 2 * r > p || (2 * r == p && d % 2 == 1) then d + 1 else d;
    RoundDivCases(n, p, d, r, q);
    q
  }

  /** The rounding step of RoundDiv, with d and r the quotient and remainder
      of n by p: rounding up leaves p - r to spare, rounding down r. */
  lemma RoundDivCases(n: nat, p: nat, d: nat, r: nat, q: nat)
    requires p >= 1 && d == n / p && r == n % p
    requires q == if 2 * r > p || (2 * r == p && d % 2 == 1) then d + 1 else d
    ensures 2 * (q * p - n) <= p
    ensures 2 * (n - q * p) <= p
    ensures 2 * (q * p - n) == p || 2 * (n - q * p) == p ==> q % 2 == 0
  {
    DivModSplit(n, p);
    var dp := d * p;
    if q == d + 1 {
      assert q * p == dp + p;
    } else {
      assert q * p == dp;
    }
  }

  /** The binary64 value nearest to n * 2^e: n keeps its 53 leading bits,
      rounded, and the exponent grows by the number of bits dropped. The unit
      of the last place is 2^e when n already fits in 53 bits, and otherwise
      the one that leaves n with exactly 53 bits before rounding. The result
      differs from n * 2^e by at most half of that unit, and by exactly half
      only when its significand is even. Rounding up may reach 2^53 * 2^f.exp,
      which is the binary64 value 2^52 * 2^(f.exp + 1). */
  function Round(n: nat, e: int): (f: Float)
    ensures f.mant <= SignificandLimit
    ensures f.exp >= e
    ensures f.exp == e || SignificandLimit * Pow2(f.exp - e - 1) <= n
    ensures n < SignificandLimit ==> f == Float(n, e)
    ensures var p := Pow2(f.exp - e);
      && 2 * (f.mant * p - n) <= p
      && 2 * (n - f.mant * p) <= p
      && (2 * (f.mant * p - n) == p || 2 * (n - f.mant * p) == p ==> f.mant % 2 == 0)
  {
    var s := DroppedBits(n);
    var q := RoundDiv(n, Pow2(s));
    RoundedFits(n, Pow2(s), q, SignificandLimit);
    Float(q, e + s)
  }

  /** k * f for a whole number k, which binary64 holds exactly below 2^53. */
  function MulNat(k: nat, f: Float): Float
  {
    Round(k * f.mant, f.exp)
  }

  /** k + f for a whole number k. */
  function AddNat(k: nat, f: Float): Float
  {
    if f.exp >= 0 then Round(k + f.mant * Pow2(f.exp), 0)
    else Round(k * Pow2(-f.exp) + f.mant, f.exp)
  }

  /** int() of a non-negative float: the whole part, dropping the fraction. */
  function Trunc(f: Float): (r: nat)
    ensures f.exp < 0 ==> r * Pow2(-f.exp) <= f.mant < (r + 1) * Pow2(-f.exp)
  {
    if f.exp >= 0 then f.mant * Pow2(f.exp)
    else
      DivModSplit(f.mant, Pow2(-f.exp));
      f.mant / Pow2(-f.exp)
  }

  lemma DivModSplit(n: nat, p: nat)
    requires p >= 1
    ensures n == (n / p) * p + n % p && 0 <= n % p < p
    ensures (n / p + 1) * p == (n / p) * p + p
  {
  }

  lemma MulMonotone(a: nat, b: nat, p: nat)
    requires a <= b
    ensures a * p <= b * p
  {
    assert b * p == a * p + (b - a) * p;
  }

  /** A quotient rounded to the nearest stays at most the bound the exact
      quotient is below. */
  lemma RoundedFits(n: nat, p: nat, q: nat, limit: nat)
    requires p >= 1 && n < limit * p && 2 * (q * p - n) <= p
    ensures q <= limit
  {
    if q > limit {
      MulMonotone(limit + 1, q, p);
    }
  }

  /** The band table's literals as binary64 values, each as a multiple of 2^-53. */
  const BandFractions: seq<(Float, Float)> := [
    (Float(4503599627370496, -53), Float(5404319552844595, -53)),  // 0.50, 0.60
    (Float(5404319552844595, -53), Float(6305039478318694, -53)),  // 0.60, 0.70
    (Float(6305039478318694, -53), Float(7205759403792794, -53)),  // 0.70, 0.80
    (Float(7205759403792794, -53), Float(8106479329266893, -53)),  // 0.80, 0.90
    (Float(8106479329266893, -53), Float(9007199254740992, -53))]  // 0.90, 1.00

  /** Each literal is the binary64 value nearest to the band's percentage:
      it lies within half a unit of 2^-53 of pct / 100. */
  lemma LiteralsAreNearest(i: nat)
    requires i < ZoneCount
    ensures BandFractions[i].0.exp == BandFractions[i].1.exp == -53
    ensures -50 <= BandFractions[i].0.mant * 100 - Bands[i].lo * SignificandLimit <= 50
    ensures -50 <= BandFractions[i].1.mant * 100 - Bands[i].hi * SignificandLimit <= 50
  {
  }

  /** int(x * f): the %MHR bound as the source computes it. */
  function TruncatedProduct(x: nat, f: Float): nat
  {
    Trunc(MulNat(x, f))
  }

  /** The %MHR range of row i as the source computes it. */
  function AsWrittenPercentRange(mhr: nat, i: nat): Range
    requires i < ZoneCount
  {
    Range(TruncatedProduct(mhr, BandFractions[i].0), TruncatedProduct(mhr, BandFractions[i].1))
  }

  /** The Karvonen range of row i as the source computes it: int(rhr + hrr * f). */
  function AsWrittenKarvonenRange(rhr: nat, hrr: nat, i: nat): Range
    requires i < ZoneCount
  {
    Range(Trunc(AddNat(rhr, MulNat(hrr, BandFractions[i].0))),
          Trunc(AddNat(rhr, MulNat(hrr, BandFractions[i].1))))
  }

  /** 2^(a+b) = 2^a * 2^b. */
  lemma {:induction false} Pow2Add(a: nat, b: nat)
    ensures Pow2(a + b) == Pow2(a) * Pow2(b)
  {
    if a > 0 {
      Pow2Add(a - 1, b);
    }
  }

  /** The powers of two the examples below need. */
  lemma Pow2Values()
    ensures Pow2(1) == 2 && Pow2(7) == 128 && Pow2(8) == 256
    ensures Pow2(45) == 35184372088832 && Pow2(46) == 70368744177664
  {
    Pow2Add(20, 20);
    Pow2Add(40, 5);
    Pow2Add(40, 6);
  }

  /** On the worked examples (MHR 196, RHR 55, so HRR 141, Zone 1) the
      binary64 computation and the exact one give the same ranges. */
  lemma AsWrittenMatchesExamples()
    ensures AsWrittenPercentRange(196, 0) == PercentRange(196, Bands[0]) == Range(98, 117)
    ensures AsWrittenKarvonenRange(55, 141, 0) == KarvonenRange(55, 141, Bands[0]) == Range(125, 139)
  {
    Pow2Values();
    // 196 * 0.50 and 196 * 0.60
    assert DroppedBits(882705526964617216) == 7;
    assert MulNat(196, BandFractions[0].0) == Float(6896136929411072, -46);
    assert DroppedBits(1059246632357540620) == 7;
    assert MulNat(196, BandFractions[0].1) == Float(8275364315293286, -46);
    // 55 + 141 * 0.50
    assert DroppedBits(635007547459239936) == 7;
    assert MulNat(141, BandFractions[0].0) == Float(4960996464525312, -46);
    assert DroppedBits(8831277394296832) == 0;
    assert AddNat(55, Float(4960996464525312, -46)) == Float(8831277394296832, -46);
    // 55 + 141 * 0.60
    assert DroppedBits(762009056951087895) == 7;
    assert MulNat(141, BandFractions[0].1) == Float(5953195757430374, -46);
    assert DroppedBits(9823476687201894) == 1;
    assert AddNat(55, Float(5953195757430374, -46)) == Float(4911738343600947, -45);
  }

  /** For MHR 170 the source shows Zone 2 as 102–118 and Zone 3 as 118–136,
      although 70 percent of 170 is exactly 119; for MHR 180 it shows 125 where
      70 percent is exactly 126. */
  lemma SeventyPercentTruncatesLow()
    ensures AsWrittenPercentRange(170, 1) == Range(102, 118)
    ensures AsWrittenPercentRange(170, 2) == Range(118, 136)
    ensures PercentRange(170, Bands[1]) == Range(102, 119)
    ensures PercentRange(170, Bands[2]) == Range(119, 136)
    ensures AsWrittenPercentRange(180, 1).high == 125 && PercentRange(180, Bands[1]).high == 126
  {
    Pow2Values();
    // 170 * 0.60, 170 * 0.70, 170 * 0.80
    assert DroppedBits(918734323983581150) == 7;
    assert MulNat(170, BandFractions[1].0) == Float(7177611906121728, -46);
    assert DroppedBits(1071856711314177980) == 7;
    assert MulNat(170, BandFractions[1].1) == Float(8373880557142015, -46);
    assert DroppedBits(1224979098644774980) == 8;
    assert MulNat(170, BandFractions[2].1) == Float(4785074604081152, -45);
    // 180 * 0.70
    assert DroppedBits(1134907106097364920) == 7;
    assert MulNat(180, BandFractions[1].1) == Float(8866461766385663, -46);
  }

  /** At MHR 160, 160 * 0.70 lies exactly halfway between 112 and the binary64
      value below it; the tie goes to the even significand, which is 112, so
      there the source agrees with the exact percentage. */
  lemma SeventyPercentTieAt160()
    ensures AsWrittenPercentRange(160, 1).high == Scaled(160, 70) == 112
  {
    Pow2Values();
    assert DroppedBits(1008806316530991040) == 7;
    assert MulNat(160, BandFractions[1].1) == Float(7881299347898368, -46);
  }

  /** The Karvonen column does not show the error: with RHR 50 and HRR 170
      (MHR 220), 170 * 0.70 is again the binary64 value just below 119, but
      50 plus it lies halfway between two binary64 values and the tie goes to
      169 exactly, which is what the exact computation gives. */
  lemma KarvonenAbsorbsSeventyPercentError()
    ensures AsWrittenKarvonenRange(50, 170, 1) == KarvonenRange(50, 170, Bands[1]) == Range(152, 169)
  {
    assert KarvonenRange(50, 170, Bands[1]) == Range(152, 169);
    FiftyPlusSixtyPercentOf170();
    FiftyPlusSeventyPercentOf170();
  }

  /** 50 + 170 * 0.60 in binary64: the product needs 54 bits after the sum and
      drops its last, a zero. */
  lemma FiftyPlusSixtyPercentOf170()
    ensures AddNat(50, MulNat(170, BandFractions[1].0)) == Float(5348024557502464, -45)
    ensures AsWrittenKarvonenRange(50, 170, 1).low == 152
  {
    Pow2Values();
    assert DroppedBits(918734323983581150) == 7;
    assert MulNat(170, BandFractions[1].0) == Float(7177611906121728, -46);
    assert DroppedBits(10696049115004928) == 1;
    assert RoundDiv(10696049115004928, 2) == 5348024557502464;
  }

  /** 50 + 170 * 0.70 in binary64: the sum falls halfway between two values
      and the tie goes to the even significand, which is 169 * 2^45. */
  lemma FiftyPlusSeventyPercentOf170()
    ensures AddNat(50, MulNat(170, BandFractions[1].1)) == Float(5946158883012608, -45)
    ensures AsWrittenKarvonenRange(50, 170, 1).high == 169
  {
    Pow2Values();
    assert DroppedBits(1071856711314177980) == 7;
    assert MulNat(170, BandFractions[1].1) == Float(8373880557142015, -46);
    assert DroppedBits(11892317766025215) == 1;
    assert RoundDiv(11892317766025215, 2) == 5946158883012608;
  }
}
