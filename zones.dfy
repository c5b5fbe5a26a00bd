/** The computation behind the "Calculate Zones" button: the four input checks,
    run in a fixed order, and the five-row zone table built from the %MHR,
    Karvonen and MAF formulas. Everything here is a pure function of the three
    parsed inputs and the current year, which is passed in instead of being read
    from the wall clock. */
module Zones {

  datatype Option<T> = None | Some(value: T)

  datatype Result<T, E> = Ok(value: T) | Err(error: E)

  /** The four ways the inputs can be rejected, one per check. */
  datatype ValidationError =
    | InvalidBirthYear
    | InvalidMaxHr
    | InvalidRestingHr
    | RestingNotBelowMax

  /** The text the error dialog shows for each rejection. */
  function Message(e: ValidationError): string
  {
    match e
    case InvalidBirthYear => "Invalid birth year."
    case InvalidMaxHr => "Invalid Max HR. Should be between 100\U{2013}220."
    case InvalidRestingHr => "Invalid Resting HR. Should be between 30\U{2013}100."
    case RestingNotBelowMax => "Resting HR must be less than Max HR."
  }

  const EarliestBirthYear: int := 1900
  const LowestMaxHr: int := 100
  const HighestMaxHr: int := 220
  const LowestRestingHr: int := 30
  const HighestRestingHr: int := 100

  predicate BirthYearOk(birthYear: int, currentYear: int)
  {
    EarliestBirthYear <= birthYear <= currentYear
  }

  predicate MaxHrOk(mhr: int)
  {
    LowestMaxHr <= mhr <= HighestMaxHr
  }

  predicate RestingHrOk(rhr: int)
  {
    LowestRestingHr <= rhr <= HighestRestingHr
  }

  /** All four checks pass. */
  predicate ValidInputs(birthYear: int, mhr: int, rhr: int, currentYear: int)
  {
    BirthYearOk(birthYear, currentYear) && MaxHrOk(mhr) && RestingHrOk(rhr) && rhr < mhr
  }

  /** The checks in the order the handler runs them; the first one that fails
      is the only one reported. Each error is reported exactly when its own
      check fails and every earlier check passes. */
  function FirstViolation(birthYear: int, mhr: int, rhr: int, currentYear: int): (r: Option<ValidationError>)
    ensures r.None? <==> ValidInputs(birthYear, mhr, rhr, currentYear)
    ensures r == Some(InvalidBirthYear) <==> !BirthYearOk(birthYear, currentYear)
    ensures r == Some(InvalidMaxHr) <==> BirthYearOk(birthYear, currentYear) && !MaxHrOk(mhr)
    ensures r == Some(InvalidRestingHr) <==>
      BirthYearOk(birthYear, currentYear) && MaxHrOk(mhr) && !RestingHrOk(rhr)
    ensures r == Some(RestingNotBelowMax) <==>
      BirthYearOk(birthYear, currentYear) && MaxHrOk(mhr) && RestingHrOk(rhr) && rhr >= mhr
  {
    if !(EarliestBirthYear <= birthYear <= currentYear) then Some(InvalidBirthYear)
    else if !(LowestMaxHr <= mhr <= HighestMaxHr) then Some(InvalidMaxHr)
    else if !(LowestRestingHr <= rhr <= HighestRestingHr) then Some(InvalidRestingHr)
    else if rhr >= mhr then Some(RestingNotBelowMax)
    else None
  }

  /** An intensity band as whole percentages (lo, hi). The same five bands are
      used by the %MHR and the Karvonen column. */
  datatype Band = Band(lo: nat, hi: nat)

  const ZoneCount: nat := 5

  const Bands: seq<Band> := [Band(50, 60), Band(60, 70), Band(70, 80), Band(80, 90), Band(90, 100)]

  /** A bpm range shown as "low–high". */
  datatype Range = Range(low: int, high: int)

  /** The MAF column: "< base", "base–base+5", "> base+5" or "N/A". */
  datatype MafDescriptor =
    | Below(bound: int)
    | Between(low: int, high: int)
    | Above(bound: int)
    | NotApplicable

  /** One row of the table; zone is the number in the "Zone n" label. */
  datatype ZoneRow = ZoneRow(zone: nat, percentMhr: Range, karvonen: Range, maf: MafDescriptor)

  /** x times pct percent, truncated to an integer. The source multiplies by a
      binary64 fraction and truncates with int(); this is the exact product,
      truncated, which is what the fraction stands for. The two differ only at
      70 percent of MHR 170 and of MHR 180, where the floating-point product
      truncates one lower (see module Binary64).
      The product is never negative, so truncation and floor agree. */
  function Scaled(x: nat, pct: nat): (r: nat)
    ensures r * 100 <= x * pct < r * 100 + 100
  {
    x * pct / 100
  }

  /** The %MHR range of a band: MHR times each bound. */
  function PercentRange(mhr: nat, b: Band): Range
  {
    Range(Scaled(mhr, b.lo), Scaled(mhr, b.hi))
  }

  /** The Karvonen range of a band: RHR plus HRR times each bound. Adding the
      whole number rhr before truncating changes nothing, since the rest of the
      sum is non-negative. */
  function KarvonenRange(rhr: nat, hrr: nat, b: Band): Range
  {
    Range(rhr + Scaled(hrr, b.lo), rhr + Scaled(hrr, b.hi))
  }

  /** The MAF heart rate, 180 minus age, with the adjustment fixed at 0. */
  function MafBase(age: int): int
  {
    180 - age
  }

  /** The MAF cell of the row with 0-based position i. */
  function Maf(i: nat, base: int): MafDescriptor
  {
    if i == 0 then Below(base)
    else if i == 1 then Between(base, base + 5)
    else if i == 2 then Above(base + 5)
    else NotApplicable
  }

  /** The row with 0-based position i. */
  function Row(i: nat, mhr: nat, rhr: nat, age: int): ZoneRow
    requires i < ZoneCount && rhr <= mhr
  {
    ZoneRow(i + 1, PercentRange(mhr, Bands[i]), KarvonenRange(rhr, mhr - rhr, Bands[i]), Maf(i, MafBase(age)))
  }

  /** The whole table, Zone 1 first. */
  function Table(mhr: nat, rhr: nat, age: int): seq<ZoneRow>
    requires rhr <= mhr
  {
    seq(ZoneCount, i requires 0 <= i < ZoneCount => Row(i, mhr, rhr, age))
  }

  /** The whole button handler without its widgets: either the first failed
      check, or the table for age = currentYear - birthYear. */
  function ComputeZones(birthYear: int, mhr: int, rhr: int, currentYear: int): (r: Result<seq<ZoneRow>, ValidationError>)
    ensures r.Ok? <==> ValidInputs(birthYear, mhr, rhr, currentYear)
    ensures r.Err? ==> FirstViolation(birthYear, mhr, rhr, currentYear) == Some(r.error)
    ensures r.Ok? ==> |r.value| == ZoneCount
    ensures r.Ok? ==> forall i :: 0 <= i < ZoneCount ==> r.value[i].zone == i + 1
  {
    match FirstViolation(birthYear, mhr, rhr, currentYear)
    case Some(e) => Err(e)
    case None => Ok(Table(mhr, rhr, currentYear - birthYear))
  }
}
