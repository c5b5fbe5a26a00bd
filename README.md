# Heart rate zone calculator

A model of the "Calculate Zones" handler of a small heart-rate zone calculator.
The user enters a birth year, a maximum heart rate (MHR) and a resting heart
rate (RHR). The handler checks them in a fixed order and shows only the first
failure in an error dialog. If all checks pass, it replaces the results table by
five rows, Zone 1 to Zone 5. Each row has three columns:

- a %MHR range: MHR times the band's bounds;
- a Karvonen range: RHR plus the heart-rate reserve (HRR = MHR − RHR) times
  the band's bounds;
- an MAF cell, built from the base 180 − age.

The bands are 50–60, 60–70, 70–80, 80–90 and 90–100 percent.

Modules:

- `Zones` (zones.dfy): the pure computation. It holds the validation chain
  `FirstViolation`, the row formulas and the whole handler as a function
  `ComputeZones(birthYear, mhr, rhr, currentYear)`. That function returns
  either the error of the first failed check or the five rows. Ranges are a
  `Range(low, high)` value. The MAF cell is a `MafDescriptor`: `Below(b)`,
  `Between(b, b+5)`, `Above(b+5)` or `NotApplicable`.
- `ZoneProperties` (zone_properties.dfy): what the table promises. It covers:
  - the input ranges an accepted input lies in;
  - the error order;
  - the bounds and adjacency of the %MHR and Karvonen columns;
  - the MAF column;
  - the worked examples of the formula descriptions.
- `ZoneTable` (zone_table.dfy): the results table as a class whose `rows`
  the handler changes. `CalculateZones` validates first. It then clears the
  table row by row and inserts the five rows in a loop. A rejected input leaves
  the table as it was.
- `Binary64` (binary64.dfy): the source's floating-point products. It models
  IEEE 754 binary64 multiplication and addition with round-to-nearest-even,
  then Python's `int()`. `AsWrittenPercentRange` and `AsWrittenKarvonenRange`
  compute a row's %MHR and Karvonen ranges as the source writes them, with
  these floating-point operations. They are used only to exhibit the finding
  below. The rest of the model uses exact percentages.

The current year is a parameter of the handler; the source reads it from the
wall clock. The three inputs are whole numbers that have already been parsed.

## Model

| member | source | states |
|---|---|---|
| Zones.FirstViolation | Heart_Rate_Zone_Calculation.py:55-62 | No error is reported exactly when all four checks pass. Each error is reported exactly when its own check fails and every earlier check passes, in the order birth year, MHR, RHR, RHR < MHR. |
| Zones.Scaled | Heart_Rate_Zone_Calculation.py:75-76 | The truncated percentage is the floor of the exact product x·pct/100: `r*100 <= x*pct < r*100 + 100`. |
| Zones.ComputeZones | Heart_Rate_Zone_Calculation.py:48-87 | The result is a table exactly when the inputs are valid. An error is the first failed check. A table has five rows numbered 1 to 5 in order. |
| ZoneProperties.ScaledMonotone | Heart_Rate_Zone_Calculation.py:67 | A higher percentage never gives a lower truncated bound. |
| ZoneProperties.ScaledAtMostWhole | Heart_Rate_Zone_Calculation.py:67 | At most 100 percent of x truncates to at most x. Exactly 100 percent gives x. |
| ZoneProperties.KarvonenAtLeastPercent | Heart_Rate_Zone_Calculation.py:19-20 | `int(mhr*f) <= rhr + int((mhr-rhr)*f)` for f ≤ 1. |
| ZoneProperties.AcceptedInputRanges | Heart_Rate_Zone_Calculation.py:55-65 | An accepted input has `1900 <= birthYear <= currentYear`, `100 <= mhr <= 220`, `30 <= rhr <= 100` and `rhr < mhr`. Hence age ≥ 0, HRR ≥ 1 and MAF base ≤ 180. |
| ZoneProperties.ErrorIsFirstFailedCheck | Heart_Rate_Zone_Calculation.py:55-62 | A rejection names the first failed check, and its dialog text is that check's message, for each of the four checks. |
| ZoneProperties.MessagesDistinct | Heart_Rate_Zone_Calculation.py:56-62 | The four error messages are pairwise different. |
| ZoneProperties.CheckBoundaries | Heart_Rate_Zone_Calculation.py:57-62 | MHR 100 and 220 are accepted, and MHR 99 and 221 are rejected as an invalid Max HR. RHR equal to MHR is rejected, and RHR one below MHR is accepted. |
| ZoneProperties.RestingCheckOnlyAtHundred | Heart_Rate_Zone_Calculation.py:57-62 | The "Resting HR must be less than Max HR" error occurs only at MHR = RHR = 100, because the two checks before it force RHR ≤ 100 ≤ MHR. |
| ZoneProperties.PercentColumn | Heart_Rate_Zone_Calculation.py:67-75 | In the %MHR column each range has low ≤ high ≤ MHR. Row i's high equals row i+1's low. Zone 1 starts at MHR/2 and Zone 5 ends at MHR. |
| ZoneProperties.KarvonenColumn | Heart_Rate_Zone_Calculation.py:65-76 | In the Karvonen column every bound lies between RHR and MHR, and each range has low ≤ high. Adjacent rows share a bound and Zone 5 ends at MHR. Each bound is at least the matching %MHR bound. |
| ZoneProperties.MafColumn | Heart_Rate_Zone_Calculation.py:77-82 | All rows use the one base 180 − age. Zone 1 is `< base` and Zone 2 is `base–base+5`. Zone 3 is `> base+5`, Zones 4 and 5 are N/A, and the base is ≤ 180. |
| ZoneProperties.PercentExample | Heart_Rate_Zone_Calculation.py:11-12 | MHR 196 gives a Zone 1 %MHR range of 98–117. |
| ZoneProperties.KarvonenExample | Heart_Rate_Zone_Calculation.py:24-25 | MHR 196 and RHR 55 give HRR 141 and a Zone 1 Karvonen range of 125–139. |
| ZoneProperties.MafExample | Heart_Rate_Zone_Calculation.py:38-39 | Age 45 gives an MAF rate of 135. |
| ZoneProperties.FullTableExample | Heart_Rate_Zone_Calculation.py:64-84 | Born 1979, MHR 196, RHR 55, in 2025: the full five-row table. |
| ZoneProperties.RejectionExamples | Heart_Rate_Zone_Calculation.py:55-58 | A future birth year is rejected as an invalid birth year. MHR 50 is rejected with the Max HR message. |
| ZoneTable.ResultsTable.constructor | Heart_Rate_Zone_Calculation.py:136 | A new results table is empty. |
| ZoneTable.ResultsTable.Insert | Heart_Rate_Zone_Calculation.py:84 | Inserting appends the row at the end. |
| ZoneTable.ResultsTable.Clear | Heart_Rate_Zone_Calculation.py:70-71 | Deleting each displayed row, one at a time, leaves the table empty. |
| ZoneTable.ResultsTable.CalculateZones | Heart_Rate_Zone_Calculation.py:48-87 | The handler reports exactly the first failed check. On an error the table is unchanged. Otherwise the table holds exactly `ComputeZones`' five rows. |
| Binary64.DroppedBits | Heart_Rate_Zone_Calculation.py:75 | The number of low bits to drop so that at most 53 significant bits remain, and no fewer. |
| Binary64.RoundDiv | Heart_Rate_Zone_Calculation.py:75 | Round to nearest: within half a unit, and a tie goes to the even quotient. |
| Binary64.Round | Heart_Rate_Zone_Calculation.py:75 | The result is the binary64 value nearest n·2^e. Its unit in the last place is 2^e when n fits in 53 bits, where the result is n·2^e itself. Otherwise the unit is the one that leaves n exactly 53 bits before rounding. The result differs from n·2^e by at most half that unit, and by exactly half only when its significand is even. The significand is at most 2^53; a rounded-up 2^53·2^x is the binary64 value 2^52·2^(x+1). |
| Binary64.Trunc | Heart_Rate_Zone_Calculation.py:75-76 | `int()` of a non-negative float is its floor. |
| Binary64.LiteralsAreNearest | Heart_Rate_Zone_Calculation.py:67-68 | Each band literal is the binary64 value within half a unit of pct/100. |
| Binary64.AsWrittenMatchesExamples | Heart_Rate_Zone_Calculation.py:75-76 | On the worked examples, the float computation and the exact one give the same ranges. |
| Binary64.SeventyPercentTruncatesLow | Heart_Rate_Zone_Calculation.py:75 | For MHR 170, int(170 * 0.70) is 118 where 70 percent is 119. For MHR 180, int(180 * 0.70) is 125 where 70 percent is 126. |
| Binary64.SeventyPercentTieAt160 | Heart_Rate_Zone_Calculation.py:75 | At MHR 160, 160 * 0.70 is a rounding tie that goes to 112, so there the source gives the exact 112. |
| Binary64.KarvonenAbsorbsSeventyPercentError | Heart_Rate_Zone_Calculation.py:76 | With RHR 50 and HRR 170, int(50 + 170 * 0.70) is 169, the exact value: adding RHR rounds the low product back up. |

## Findings

| source | as written | input that shows it | evidently intended | confidence | as-written member | corrected member |
|---|---|---|---|---|---|---|
| Heart_Rate_Zone_Calculation.py:75 | `int(mhr * 0.70)`: binary64 holds 0.70 slightly below 7/10, and 170 × 0.70 rounds to the double just below 119, which `int()` truncates | MHR 170: Zone 2 shows 102–118 and Zone 3 shows 118–136 (MHR 180: 125 instead of 126) | 70 percent of 170 is 119 (Target HR = MHR × Intensity), so the rows read 102–119 and 119–136 | high; derived from the binary64 value of 0.70, not executed | Binary64.SeventyPercentTruncatesLow | Zones.Scaled |

## Left out

- The tkinter window, widgets, styles and `messagebox.showerror`. The handler returns the error instead, and the dialog text is `Zones.Message` of that error.
- Parsing the entry text with `int()`. The three inputs are taken as whole numbers. A non-numeric entry, which the source reports through the same dialog, is not modelled.
- Reading the year from the wall clock. `currentYear` is a parameter.
- Formatting the cells as text: the "Zone n" label, the en-dash ranges and the MAF strings. Rows hold the zone number, `Range` values and a `MafDescriptor`.
- The MAF ±5 adjustment, which appears only in comments. The code always uses 0.
- Zones.Scaled: computes the exact truncated percentage instead of the binary64 product of the source. Over the accepted inputs the two differ exactly at 70 percent of MHR 170 and MHR 180, in the %MHR column (see Findings). That "exactly" rests on the following argument, which is not mechanised:
  - 0.50 and 1.00 are stored exactly, and 0.80 and 0.90 are stored above their values, so truncation cannot fall below the exact result.
  - 0.60 and 0.70 are stored below their values, so the product can round to just below a whole number only when the exact product is that whole number. For 0.60 the error is 0.2·MHR·2^-53, which stays under half a unit of the product's last place for every MHR from 100 to 220. For 0.70 the error is 0.4·MHR·2^-53 and the half unit for products in [64, 128) is 64·2^-53, so the error passes half a unit for every MHR from 161 to 182. Of those, only 170 and 180 make 70 percent a whole number, so only there does the truncation change. At MHR 160 the error is exactly half a unit, and the tie goes to 112 (`Binary64.SeventyPercentTieAt160`).
  - In the Karvonen column, adding RHR absorbs the error (`Binary64.KarvonenAbsorbsSeventyPercentError` shows the worst case).

  The lemmas check the source's arithmetic only at their concrete inputs.
- Binary64: has no overflow, infinities, subnormals or negative values, none of which occur here.
