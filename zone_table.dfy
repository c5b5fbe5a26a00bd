/** The results table of the calculator window and the handler of its
    "Calculate Zones" button. The table is the one piece of state the handler
    changes: it deletes every displayed row, then inserts the five new rows one
    at a time. A rejected input only produces an error dialog (the returned
    error; the dialog shows Message(error)) and leaves the table as it was. */
module ZoneTable {
  import opened Zones

  class ResultsTable {
    /** The rows on display, top to bottom. */
    var rows: seq<ZoneRow>

    constructor ()
      ensures rows == []
    {
      rows := [];
    }

    /** Appends one row at the end of the table. */
    method Insert(row: ZoneRow)
      modifies this
      ensures rows == old(rows) + [row]
    {
      rows := rows + [row];
    }

    /** Deletes each row of the table, going through the rows that were on
        display when it started. */
    method Clear()
      modifies this
      ensures rows == []
    {
      var children := |rows|;
      for k := 0 to children
        invariant rows == old(rows)[k..]
      {
        rows := rows[1..];
      }
    }

    /** The button handler, given the three parsed entries and the current
        year. It reports the first failed check and leaves the table alone, or
        replaces the table by the five zone rows. */
    method CalculateZones(birthYear: int, mhr: int, rhr: int, currentYear: int)
      returns (error: Option<ValidationError>)
      modifies this
      ensures error == FirstViolation(birthYear, mhr, rhr, currentYear)
      ensures error.Some? ==> rows == old(rows)
      ensures error.None? ==> ComputeZones(birthYear, mhr, rhr, currentYear) == Ok(rows)
    {
      error := FirstViolation(birthYear, mhr, rhr, currentYear);
      if error.Some? {
        return;
      }
      var age := currentYear - birthYear;
      var hrr := mhr - rhr;
      Clear();
      for i := 0 to ZoneCount
        invariant rows == Table(mhr, rhr, age)[..i]
      {
        var band := Bands[i];
        var percentRange := Range(Scaled(mhr, band.lo), Scaled(mhr, band.hi));
        var karvonenRange := Range(rhr + Scaled(hrr, band.lo), rhr + Scaled(hrr, band.hi));
        var mafBase := 180 - age;
        var maf :=
          if i == 0 then Below(mafBase)
          else if i == 1 then Between(mafBase, mafBase + 5)
          else if i == 2 then Above(mafBase + 5)
          else NotApplicable;
        Insert(ZoneRow(i + 1, percentRange, karvonenRange, maf));
      }
      assert Table(mhr, rhr, age)[..ZoneCount] == Table(mhr, rhr, age);
    }
  }
}
