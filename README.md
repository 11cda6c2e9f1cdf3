# parse_vs_to_sgt, modelled in Dafny

This project models the converter `parse_vs_to_sgt` from Refrapy. The converter turns
seismic-refraction first-arrival picks from a `.vs` pick file into the `.sgt` layout that
pyGIMLi reads. The model covers the four stages of that one routine:

- **Header read** (`Converter.ReadHeader`). The first line is ignored. The second line must
  hold an integer literal as its second field (the declared shot count, which nothing else
  uses) and a number as its third field (the geophone spacing).
- **Pick loop** (`Picks`). This is a state machine over the body lines, with a shot counter
  and a growing observation list.
  - A three-field line whose marker truncates to 0 is a shot marker. It must sit at
    `first_shot + counter * shot_spacing`, and it then raises the counter.
  - A marker that is the integer literal 1 is a geophone pick. It must lie in
    `[first_geophone, last_geophone]`. It appends `(counter, Trunc((loc - first_geophone) / spacing), ms / 1000)`.
  - Any other integer marker is ignored. A non-integer marker that does not truncate to 0
    is an error, because `int()` is applied to the text.
  - A line without three fields ends the scan when its first two fields truncate to 0.
    Otherwise it is an error.
- **Station loop** (`Stations`). A counted loop over `num_stations + 1` indices emits:
  - the lead shot positions;
  - the geophone positions;
  - the trailing shot positions, from the down-counter `trl`.

  It emits nothing at index `lead_shots + num_geophones`.
- **Output assembly** (`SgtFormat`, `Converter.ParseVsToSgt`). The output is the station
  count line, `x y`, the station rows, the measurement count line, `# s g t` and the
  observation rows. It is built only after every stage has succeeded, so an error
  (`Result.Err`) comes with no output.

Input is modelled as the file's lines of tokens. Each token is classified by which of
Python's conversions accept it:

- `IntLit`: both `int()` and `float()` accept it;
- `DecLit`: only `float()` accepts it;
- `Word`: neither accepts it.

Positions and times are exact `real`s. `Trunc` (toward zero, as `int()` on a float) and
`Ceil` (as `math.ceil`) are written out from `.Floor`.

Errors are distinguished by their cause in the code:

- `MissingToken`: an `IndexError` on a short line;
- `BadNumber`: a `ValueError` from `int()` or `float()`;
- `InvalidLineFormat`: the explicit raise at line 48;
- `ShotMismatch`: line 52;
- `GeophoneOutOfRange`: line 61;
- `DivisionByZero`: a zero shot spacing or phone spacing.

Zero spacings are not excluded by preconditions. They lead to `DivisionByZero`, as in the code.

Four behaviours of the code deserve a note:

- **Shot numbers of picks.** The counter is raised as soon as a shot marker is accepted,
  so the picks after the first marker carry shot number 1, those after the second carry
  2, and so on (`Converter.SampleConversion`).
- **The skipped index.** The station loop emits no row at index
  `lead_shots + num_geophones` (`Stations.Row`).
- **Station rows against the declared count.** When `trail_shots < 0`, the loop writes
  `num_stations + 1` rows under a count line that says `num_stations`
  (`Stations.UnbracketedCount`). In the sample survey it also leaves out the last
  geophone. When the shots bracket the geophones, the count and the rows agree
  (`Stations.BracketedCount`, `Converter.ConvertStationCount`).
- **A first shot past the first geophone.** When `lead_shots < 0`, the geophone band
  starts at index 0 with geophone number `-lead_shots`, so the first geophones get no
  station row while pick indices still count from the first geophone
  (`Stations.LeadPastGeophones`).

## Model

| member | source | states |
|---|---|---|
| Rounding.Trunc | parse_vs_to_sgt.py:57 | the result is the integer part toward zero: `r <= x < r + 1` for `x >= 0`, `r - 1 < x <= r` below 0 |
| Rounding.Ceil | parse_vs_to_sgt.py:70-71 | the result is the least integer not below `x` |
| VsFormat.AsInt | parse_vs_to_sgt.py:55 | `int()` on a token accepts exactly integer literals, and then agrees with `float()` |
| VsFormat.AsFloat | parse_vs_to_sgt.py:56-58 | `float()` on a token (also at lines 38, 44 and 50) fails exactly on non-numeric text and gives an integer literal its own value |
| Picks.Classify | parse_vs_to_sgt.py:43-63 | a line stops the scan exactly when it is the end-of-observations line; it is skipped exactly when its marker is an integer other than 0 and 1; a three-field line that passes is a shot exactly when its marker truncates to 0, and a pick exactly when its marker is `1` |
| Picks.Scan | parse_vs_to_sgt.py:40-63 | a successful scan never lowers the counter; it extends the observation list without changing the earlier rows; every new row's shot number lies between the starting and the final counter |
| Picks.ScanPicks | parse_vs_to_sgt.py:40-63 | the pick loop's result is the scan of all body lines from counter 0 and an empty list |
| Picks.ShortLine | parse_vs_to_sgt.py:43-48 | a line without three fields ends the scan if it is the end-of-observations line, and aborts it otherwise (also with fewer than two fields) |
| Picks.ShotMarker | parse_vs_to_sgt.py:49-54 | a shot marker is accepted exactly when its location is a number equal to `first_shot + counter * shot_spacing` with a non-zero spacing; a misplaced one aborts with ShotMismatch |
| Picks.PickRecord | parse_vs_to_sgt.py:55-63 | a pick is accepted exactly when location and time are numbers, the spacing is non-zero and `first_geophone <= loc <= last_geophone` (both ends included); it yields `(Trunc((loc - first_geophone)/spacing), ms/1000)`; out of range it aborts with GeophoneOutOfRange |
| Picks.PickIndexInRange | parse_vs_to_sgt.py:55-65 | with a positive phone spacing an accepted pick's index lies in `[0, num_geophones - 1]` |
| Picks.LiveLength | parse_vs_to_sgt.py:40-48 | the prefix before the first line without three fields holds only three-field records |
| Picks.ScanSucceeds | parse_vs_to_sgt.py:40-63 | over records, the scan succeeds exactly when no line fails at the counter value it meets, which is the markers before it; running out of lines is not an error |
| Picks.ScanCounts | parse_vs_to_sgt.py:49-63 | after a successful scan, the counter equals the number of shot-marker lines and the list has grown by the number of pick lines |
| Picks.ScanObservation | parse_vs_to_sgt.py:55-63 | observations keep input order: the pick on line j is row number (picks before j), and its shot number is the number of markers before j |
| Picks.ScanShotPosition | parse_vs_to_sgt.py:49-54 | in a successful scan, the k-th shot marker (from 0) lies at `first_shot + k * shot_spacing` |
| Picks.ScanIndicesInRange | parse_vs_to_sgt.py:55-65 | with a positive phone spacing every observation added has an index in `[0, num_geophones - 1]` |
| Picks.ScanTerminatorCuts | parse_vs_to_sgt.py:43-46 | no line after the end-of-observations line affects the result |
| Picks.ScanSplit | parse_vs_to_sgt.py:40-48 | a prefix of records is scanned first and the scan continues from its state |
| Stations.PlanOf | parse_vs_to_sgt.py:65-72 | with a positive shot spacing, lead_shots is non-negative exactly when the first shot lies less than one shot spacing past the first geophone, and trail_shots exactly when the last shot lies less than one spacing before the last geophone; with a positive phone spacing, num_geophones is at least 1 exactly when the last geophone lies less than one phone spacing before the first |
| Stations.PlanBands | parse_vs_to_sgt.py:65-72 | with positive spacings, lead_shots counts the shot positions before the first geophone; trail_shots counts those after the last geophone; num_geophones counts the geophone positions up to the last geophone |
| Stations.Row | parse_vs_to_sgt.py:78-92 | the loop emits nothing exactly at index `lead_shots + num_geophones` when `num_geophones >= 0` |
| Stations.Rows | parse_vs_to_sgt.py:75-92 | at most one row per index, and every row has y = 0 |
| Stations.BuildStations | parse_vs_to_sgt.py:75-92 | the station loop with the down-counter `trl` emits exactly the rows of `Rows` over `max(num_stations + 1, 0)` indices |
| Stations.RowsLength | parse_vs_to_sgt.py:78-92 | the loop emits one row per index, less one when it reaches the gap |
| Stations.RowsAt | parse_vs_to_sgt.py:78-92 | each emitting index puts its row at its index, or one lower past the gap |
| Stations.BracketedCount | parse_vs_to_sgt.py:72-92 | with no negative band, exactly `num_stations` rows are written |
| Stations.LeadBand | parse_vs_to_sgt.py:79-82 | row i below lead_shots is `first_shot + i * shot_spacing` |
| Stations.GeophoneBand | parse_vs_to_sgt.py:83-86 | the rows at indices lead_shots to lead_shots + num_geophones - 1 (from 0 up) are `first_geophone + (i - lead_shots) * phone_spacing` |
| Stations.LeadPastGeophones | parse_vs_to_sgt.py:79-86 | with lead_shots < 0 and a geophone band reaching index 0, the first station row is geophone number `-lead_shots`, and there is such a row whenever num_stations >= 0 |
| Stations.TrailBand | parse_vs_to_sgt.py:77-92 | the trailing rows ascend by one shot spacing and the last one is `last_shot` |
| Stations.UnbracketedCount | parse_vs_to_sgt.py:71-92 | with `trail_shots < 0`, `num_stations + 1` rows are written (none if that is negative) |
| SgtFormat.StationLines | parse_vs_to_sgt.py:78-91 | one station line per station, in order |
| SgtFormat.ObsLines | parse_vs_to_sgt.py:62-63 | one observation line per observation, in order |
| SgtFormat.Layout | parse_vs_to_sgt.py:73-97 | output positions: count line, `x y`, station rows, measurement count equal to the number of observations, `# s g t`, observation rows |
| SgtFormat.AssembleOutput | parse_vs_to_sgt.py:93-97 | the appended output is exactly that layout |
| Converter.ReadHeader | parse_vs_to_sgt.py:33-38 | the header is accepted exactly when line 2 has an integer-literal second field and a numeric third field; the phone spacing is that third field |
| Converter.Convert | parse_vs_to_sgt.py:33-92 | a header error is the conversion's error; a successful conversion has a well-formed header and non-zero spacings, at most one station row per loop index, and y = 0 in every row (its partner Converter.ConvertSucceeds gives the exact success condition) |
| Converter.ParseVsToSgt | parse_vs_to_sgt.py:9-100 | the converter fails exactly when the conversion does, with the same error; otherwise it returns that conversion laid out |
| Converter.BodySplit | parse_vs_to_sgt.py:40-48 | the body's scan is the scan of its records, ended normally by the end-of-observations line or by running out of lines, and aborted by any other short line |
| Converter.ConvertSucceeds | parse_vs_to_sgt.py:33-72 | a conversion succeeds exactly when the header is well formed, every record before the first short line passes, that line is the end marker (or there is none), and neither spacing is zero |
| Converter.ConvertScansLive | parse_vs_to_sgt.py:40-63 | a successful conversion's observations are those of the records before the end of observations |
| Converter.ConvertObservationCount | parse_vs_to_sgt.py:63-97 | the measurement count line equals the number of observation rows, which equals the number of pick lines before the end of observations |
| Converter.ConvertObservationAt | parse_vs_to_sgt.py:55-63 | the pick on body line j is in range and becomes row (picks before j) with shot number (markers before j), index `Trunc((loc - first_geophone)/spacing)` and time `ms/1000` |
| Converter.ConvertShotAt | parse_vs_to_sgt.py:49-54 | in a successful conversion the k-th shot marker lies at `first_shot + k * shot_spacing` |
| Converter.ConvertIndicesInRange | parse_vs_to_sgt.py:55-65 | with a positive phone spacing, every observation's index lies in `[0, num_geophones - 1]` |
| Converter.ConvertIgnoresAfterEnd | parse_vs_to_sgt.py:43-46 | cutting the file at the end-of-observations line changes nothing |
| Converter.ConvertStationCount | parse_vs_to_sgt.py:65-92 | when the shots bracket the geophones and both spacings are positive, the declared station count equals the number of rows |
| Converter.SampleConversion | parse_vs_to_sgt.py:40-97 | the worked survey yields picks with shot numbers 1, 1, 2 and three station rows under a count of 2 |
| Converter.SampleScan | parse_vs_to_sgt.py:40-63 | the worked survey's pick loop ends with counter 2 and the observations (1, 0, 0.0125), (1, 1, 0.014), (2, 0, 0.013) |
| Converter.SampleStations | parse_vs_to_sgt.py:65-92 | the worked survey has lead_shots 2, num_geophones 2 and trail_shots -2, and its loop writes the rows 0, 5 and 10 |

## Left out

- File handling (`open`, `readline`, iteration over the file, `writelines`) is not modelled. The input is the file's lines, already split into tokens. The output is a sequence of typed lines.
- The command-line block (`__main__`), the `print` progress messages and the `linenum` counter that only feeds them are not modelled, because they do not affect the result.
- Text-to-number parsing is not modelled. Tokens arrive already classified as `IntLit`, `DecLit` or `Word`. The tokens `inf` and `nan`, and the OverflowError that `int()` raises on an infinite float, are not modelled.
- The `.2f` and `.6f` decimal formatting of station coordinates and travel times is not modelled. Rows hold exact numbers.
- IEEE-754 rounding is not modelled. All arithmetic is on exact reals, so the shot-position equality at line 51 is exact in the model. With binary floats it can fail for spacings such as 0.1.
- The first header line and the declared shot count are read but never used. They appear only as the requirement that line 2 holds an integer literal as its second field.
- Picks.ScanPicks returns at the end-of-observations line instead of breaking out of the loop. The station stage and the output stage then run in `Converter.ParseVsToSgt`, which gives the same result.
