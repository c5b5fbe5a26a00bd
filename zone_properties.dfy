/** What the zone table promises: the ranges each accepted input implies, the
    order and count of the rows, how the three columns are bounded and fit
    together, and the worked examples of the method descriptions. */
module ZoneProperties {
  import opened Zones

  // ---------------------------------------------------------------------------
  // Truncated percentages

  /** A higher percentage of the same number never truncates lower. */
  lemma ScaledMonotone(x: nat, p: nat, q: nat)
    requires p <= q
    ensures Scaled(x, p) <= Scaled(x, q)
  {
    assert x * p <= x * q by {
      assert x * q - x * p == x * (q - p);
    }
  }

  /** At most 100 percent of a number is at most that number, and exactly
      100 percent is the number itself. */
  lemma ScaledAtMostWhole(x: nat, p: nat)
    requires p <= 100
    ensures Scaled(x, p) <= x
    ensures p == 100 ==> Scaled(x, p) == x
  {
    ScaledMonotone(x, p, 100);
  }

  /** The Karvonen bound of a band is never below the %MHR bound of the same
      band: rhr + (mhr - rhr) * f >= mhr * f for a fraction f <= 1, and
      truncation keeps the order because rhr is a whole number. */
  lemma KarvonenAtLeastPercent(mhr: nat, rhr: nat, p: nat)
    requires rhr <= mhr && p <= 100
    ensures Scaled(mhr, p) <= rhr + Scaled(mhr - rhr, p)
  {
    var a, b := Scaled(mhr, p), Scaled(mhr - rhr, p);
    assert mhr * p == rhr * p + (mhr - rhr) * p;
    assert rhr * p <= rhr * 100 by {
      assert rhr * 100 - rhr * p == rhr * (100 - p);
    }
    assert a * 100 < (rhr + b) * 100 + 100;
  }

  // ---------------------------------------------------------------------------
  // Validation

  /** An accepted input lies in the ranges the checks enforce, so the age is
      never negative, the heart-rate reserve is at least 1 and the MAF base
      is at most 180. */
  lemma AcceptedInputRanges(birthYear: int, mhr: int, rhr: int, currentYear: int)
    requires ComputeZones(birthYear, mhr, rhr, currentYear).Ok?
    ensures 1900 <= birthYear <= currentYear
    ensures 100 <= mhr <= 220 && 30 <= rhr <= 100 && rhr < mhr
    ensures currentYear - birthYear >= 0
    ensures mhr - rhr >= 1
    ensures MafBase(currentYear - birthYear) <= 180
  {
  }

  /** The error reported is that of the first failing check, and the message
      shown is the one belonging to that check. */
  lemma ErrorIsFirstFailedCheck(birthYear: int, mhr: int, rhr: int, currentYear: int, e: ValidationError)
    requires ComputeZones(birthYear, mhr, rhr, currentYear) == Err(e)
    ensures !BirthYearOk(birthYear, currentYear) ==> e == InvalidBirthYear
    ensures BirthYearOk(birthYear, currentYear) && !MaxHrOk(mhr) ==> e == InvalidMaxHr
    ensures BirthYearOk(birthYear, currentYear) && MaxHrOk(mhr) && !RestingHrOk(rhr) ==> e == InvalidRestingHr
    ensures BirthYearOk(birthYear, currentYear) && MaxHrOk(mhr) && RestingHrOk(rhr) ==> e == RestingNotBelowMax && rhr >= mhr
    ensures e == InvalidBirthYear ==> Message(e) == "Invalid birth year."
    ensures e == InvalidMaxHr ==> Message(e) == "Invalid Max HR. Should be between 100\U{2013}220."
    ensures e == InvalidRestingHr ==> Message(e) == "Invalid Resting HR. Should be between 30\U{2013}100."
    ensures e == RestingNotBelowMax ==> Message(e) == "Resting HR must be less than Max HR."
  {
  }

  /** Different checks show different messages, so the message alone tells
      which check failed. */
  lemma MessagesDistinct(e1: ValidationError, e2: ValidationError)
    requires e1 != e2
    ensures Message(e1) != Message(e2)
  {
    // The four messages have four different lengths.
    assert |Message(InvalidBirthYear)| == 19;
    assert |Message(InvalidMaxHr)| == 42;
    assert |Message(InvalidRestingHr)| == 45;
    assert |Message(RestingNotBelowMax)| == 36;
  }

  /** The boundaries of the maximum-heart-rate and resting-heart-rate checks:
      100 and 220 are accepted, 99 and 221 are not; a resting rate equal to
      the maximum is rejected, one below it accepted. */
  lemma CheckBoundaries(birthYear: int, currentYear: int)
    requires 1900 <= birthYear <= currentYear
    ensures ComputeZones(birthYear, 100, 60, currentYear).Ok?
    ensures ComputeZones(birthYear, 220, 60, currentYear).Ok?
    ensures ComputeZones(birthYear, 99, 60, currentYear) == Err(InvalidMaxHr)
    ensures ComputeZones(birthYear, 221, 60, currentYear) == Err(InvalidMaxHr)
    ensures ComputeZones(birthYear, 100, 100, currentYear) == Err(RestingNotBelowMax)
    ensures ComputeZones(birthYear, 101, 100, currentYear).Ok?
  {
  }

  /** The last check can only fire at one input: the two checks before it
      already force rhr <= 100 <= mhr, so rhr >= mhr means both are 100. */
  lemma RestingCheckOnlyAtHundred(birthYear: int, mhr: int, rhr: int, currentYear: int)
    requires ComputeZones(birthYear, mhr, rhr, currentYear) == Err(RestingNotBelowMax)
    ensures mhr == 100 && rhr == 100
  {
  }

  // ---------------------------------------------------------------------------
  // The three columns of an accepted table

  /** %MHR column: each range is ordered, each row's upper bound is the next
      row's lower bound, Zone 1 starts at half the maximum and Zone 5 ends at
      the maximum itself; nothing exceeds the maximum. */
  lemma PercentColumn(birthYear: int, mhr: int, rhr: int, currentYear: int, rows: seq<ZoneRow>)
    requires ComputeZones(birthYear, mhr, rhr, currentYear) == Ok(rows)
    ensures |rows| == 5
    ensures forall i :: 0 <= i < 5 ==> rows[i].percentMhr.low <= rows[i].percentMhr.high <= mhr
    ensures forall i :: 0 <= i < 4 ==> rows[i].percentMhr.high == rows[i + 1].percentMhr.low
    ensures rows[0].percentMhr.low == mhr / 2
    ensures rows[4].percentMhr.high == mhr
  {
    forall i | 0 <= i < 5
      ensures rows[i].percentMhr.low <= rows[i].percentMhr.high <= mhr
    {
      assert rows[i] == Row(i, mhr, rhr, currentYear - birthYear);
      ScaledMonotone(mhr, Bands[i].lo, Bands[i].hi);
      ScaledAtMostWhole(mhr, Bands[i].hi);
    }
    assert rows[4] == Row(4, mhr, rhr, currentYear - birthYear);
    ScaledAtMostWhole(mhr, 100);
  }

  /** Karvonen column: every bound lies between the resting and the maximum
      rate, each range is ordered, adjacent rows share a bound, Zone 5 ends at
      the maximum (rhr + hrr * 1.00 = mhr), and each bound is at least the
      matching %MHR bound. */
  lemma KarvonenColumn(birthYear: int, mhr: int, rhr: int, currentYear: int, rows: seq<ZoneRow>)
    requires ComputeZones(birthYear, mhr, rhr, currentYear) == Ok(rows)
    ensures |rows| == 5
    ensures forall i :: 0 <= i < 5 ==> rhr <= rows[i].karvonen.low <= rows[i].karvonen.high <= mhr
    ensures forall i :: 0 <= i < 4 ==> rows[i].karvonen.high == rows[i + 1].karvonen.low
    ensures rows[4].karvonen.high == mhr
    ensures forall i :: 0 <= i < 5 ==>
      rows[i].percentMhr.low <= rows[i].karvonen.low && rows[i].percentMhr.high <= rows[i].karvonen.high
  {
    var age := currentYear - birthYear;
    forall i | 0 <= i < 5
      ensures rhr <= rows[i].karvonen.low <= rows[i].karvonen.high <= mhr
      ensures rows[i].percentMhr.low <= rows[i].karvonen.low
      ensures rows[i].percentMhr.high <= rows[i].karvonen.high
    {
      assert rows[i] == Row(i, mhr, rhr, age);
      ScaledMonotone(mhr - rhr, Bands[i].lo, Bands[i].hi);
      ScaledAtMostWhole(mhr - rhr, Bands[i].hi);
      KarvonenAtLeastPercent(mhr, rhr, Bands[i].lo);
      KarvonenAtLeastPercent(mhr, rhr, Bands[i].hi);
    }
    assert rows[4] == Row(4, mhr, rhr, age);
    ScaledAtMostWhole(mhr - rhr, 100);
  }

  /** MAF column: one base, 180 minus the age, shared by every row; Zone 1 is
      below it, Zone 2 runs from it to five above it, Zone 3 is above that, and
      Zones 4 and 5 have no MAF value. */
  lemma MafColumn(birthYear: int, mhr: int, rhr: int, currentYear: int, rows: seq<ZoneRow>)
    requires ComputeZones(birthYear, mhr, rhr, currentYear) == Ok(rows)
    ensures |rows| == 5
    ensures rows[0].maf == Below(180 - (currentYear - birthYear))
    ensures rows[1].maf == Between(180 - (currentYear - birthYear), 185 - (currentYear - birthYear))
    ensures rows[2].maf == Above(185 - (currentYear - birthYear))
    ensures rows[3].maf == NotApplicable && rows[4].maf == NotApplicable
    ensures rows[0].maf.bound <= 180
  {
    var age := currentYear - birthYear;
    assert rows[0] == Row(0, mhr, rhr, age);
    assert rows[1] == Row(1, mhr, rhr, age);
    assert rows[2] == Row(2, mhr, rhr, age);
    assert rows[3] == Row(3, mhr, rhr, age);
    assert rows[4] == Row(4, mhr, rhr, age);
  }

  // ---------------------------------------------------------------------------
  // Worked examples

  /** The %MHR example: MHR 196 gives a Zone 1 range of 98–117. */
  lemma PercentExample()
    ensures PercentRange(196, Bands[0]) == Range(98, 117)
  {
  }

  /** The Karvonen example: MHR 196 and RHR 55 give HRR 141 and a Zone 1
      range of 125–139. */
  lemma KarvonenExample()
    ensures 196 - 55 == 141 && KarvonenRange(55, 196 - 55, Bands[0]) == Range(125, 139)
  {
  }

  /** The MAF example: age 45, no adjustment, gives 135. */
  lemma MafExample()
    ensures MafBase(45) == 135
  {
  }

  /** A whole table: born 1979, MHR 196, RHR 55, in 2025 (age 46). */
  lemma FullTableExample()
    ensures ComputeZones(1979, 196, 55, 2025) == Ok([
      ZoneRow(1, Range(98, 117), Range(125, 139), Below(134)),
      ZoneRow(2, Range(117, 137), Range(139, 153), Between(134, 139)),
      ZoneRow(3, Range(137, 156), Range(153, 167), Above(139)),
      ZoneRow(4, Range(156, 176), Range(167, 181), NotApplicable),
      ZoneRow(5, Range(176, 196), Range(181, 196), NotApplicable)])
  {
    var rows := Table(196, 55, 46);
    assert rows[0] == Row(0, 196, 55, 46) == ZoneRow(1, Range(98, 117), Range(125, 139), Below(134));
    assert rows[1] == Row(1, 196, 55, 46) == ZoneRow(2, Range(117, 137), Range(139, 153), Between(134, 139));
    assert rows[2] == Row(2, 196, 55, 46) == ZoneRow(3, Range(137, 156), Range(153, 167), Above(139));
    assert rows[3] == Row(3, 196, 55, 46) == ZoneRow(4, Range(156, 176), Range(167, 181), NotApplicable);
    assert rows[4] == Row(4, 196, 55, 46) == ZoneRow(5, Range(176, 196), Range(181, 196), NotApplicable);
    assert rows == [rows[0], rows[1], rows[2], rows[3], rows[4]];
    assert ComputeZones(1979, 196, 55, 2025) == Ok(rows);
  }

  /** Rejected inputs: a birth year in the future, and a maximum rate of 50. */
  lemma RejectionExamples()
    ensures ComputeZones(2030, 196, 55, 2025) == Err(InvalidBirthYear)
    ensures ComputeZones(1979, 50, 55, 2025) == Err(InvalidMaxHr)
    ensures Message(InvalidMaxHr) == "Invalid Max HR. Should be between 100\U{2013}220."
  {
  }
}
