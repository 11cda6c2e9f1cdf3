/**
 * The `.sgt` output as a sequence of typed lines: the station section (count line,
 * `x y` header, one row per station) followed by the observation section (count line,
 * `# s g t` header, one row per observation).
 */
module SgtFormat {
  import opened Picks
  import opened Stations

  /** One output line; decimal formatting of the numbers is not modelled. */
  datatype OutLine =
    | StationCount(stations: int)                     // "<n> # shot/geophone points"
    | StationHeader                                   // "x y"
    | StationRow(x: real, y: real)                    // "<x> <y>"
    | MeasurementCount(measurements: nat)                // "<n> # measurements"
    | ObsHeader                                       // "# s g t"
    | ObsRow(shot: nat, geophone: int, seconds: real) // "<s> <g> <t>"

  /** One station line per station, in order. */
  function StationLines(rows: seq<Station>): (r: seq<OutLine>)
    ensures |r| == |rows|
    ensures forall i :: 0 <= i < |rows| ==> r[i] == StationRow(rows[i].x, rows[i].y)
  {
    if rows == [] then [] else [StationRow(rows[0].x, rows[0].y)] + StationLines(rows[1..])
  }

  /** One observation line per observation, in order. */
  function ObsLines(obs: seq<Obs>): (r: seq<OutLine>)
    ensures |r| == |obs|
    ensures forall i :: 0 <= i < |obs| ==> r[i] == ObsRow(obs[i].shot, obs[i].geophone, obs[i].seconds)
  {
    if obs == [] then [] else [ObsRow(obs[0].shot, obs[0].geophone, obs[0].seconds)] + ObsLines(obs[1..])
  }

  /**
   * The whole output, positionally: the declared station count, the `x y` header, the
   * station rows, the measurement count (always the number of observations), the
   * `# s g t` header and the observation rows.
   */
  function Layout(stationCount: int, rows: seq<Station>, obs: seq<Obs>): (r: seq<OutLine>)
    ensures |r| == |rows| + |obs| + 4
    ensures r[0] == StationCount(stationCount) && r[1] == StationHeader
    ensures forall i :: 0 <= i < |rows| ==> r[2 + i] == StationRow(rows[i].x, rows[i].y)
    ensures r[2 + |rows|] == MeasurementCount(|obs|) && r[3 + |rows|] == ObsHeader
    ensures forall i :: 0 <= i < |obs| ==> r[4 + |rows| + i] == ObsRow(obs[i].shot, obs[i].geophone, obs[i].seconds)
  {
    [StationCount(stationCount), StationHeader] + StationLines(rows) +
    [MeasurementCount(|obs|), ObsHeader] + ObsLines(obs)
  }

  /**
   * Output assembly: the station section, then the measurement count line and the
   * observation header appended, then the observation lines appended.
   */
  method AssembleOutput(stationCount: int, rows: seq<Station>, obs: seq<Obs>) returns (out: seq<OutLine>)
    ensures out == Layout(stationCount, rows, obs)
  {
    out := [StationCount(stationCount), StationHeader] + StationLines(rows);
    out := out + [MeasurementCount(|obs|)];
    out := out + [ObsHeader];
    out := out + ObsLines(obs);
  }
}
