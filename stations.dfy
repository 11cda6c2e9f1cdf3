/**
 * The station list of the `.sgt` output: a counted loop over `num_stations + 1` indices
 * that emits lead shot positions, then geophone positions, then trailing shot positions,
 * and emits nothing at the index just after the geophone band.
 */
module Stations {
  import opened Wrappers
  import opened Rounding
  import opened VsFormat

  /** One station row: a position along the line and a height, always 0. */
  datatype Station = Station(x: real, y: real)

  /** The band sizes the station loop works from. */
  datatype Plan = Plan(lead: int, geophones: int, trail: int) {
    /** num_stations, the count written on the station header line. */
    function Count(): int { geophones + lead + trail }
    /** The loop index at which no row is emitted. */
    function Boundary(): int { lead + geophones }
  }

  function Max(a: int, b: int): int { if a < b then b else a }

  /**
   * The band sizes computed from the geometry and the phone spacing:
   * num_geophones by truncation, lead_shots and trail_shots by ceiling.
   */
  function PlanOf(geo: Geometry, ps: real): (r: Plan)
    requires ps != 0.0 && geo.shotSpacing != 0.0
    ensures geo.shotSpacing > 0.0 ==> (r.lead >= 0 <==> geo.firstShot < geo.firstGeophone + geo.shotSpacing)
    ensures geo.shotSpacing > 0.0 ==> (r.trail >= 0 <==> geo.lastGeophone < geo.lastShot + geo.shotSpacing)
    ensures ps > 0.0 ==> (r.geophones >= 1 <==> geo.firstGeophone < geo.lastGeophone + ps)
  {
    AboveMinusOne(geo.firstGeophone - geo.firstShot, geo.shotSpacing);
    AboveMinusOne(geo.lastShot - geo.lastGeophone, geo.shotSpacing);
    AboveMinusOne(geo.lastGeophone - geo.firstGeophone, ps);
    Plan(Ceil((geo.firstGeophone - geo.firstShot) / geo.shotSpacing),
         Trunc((geo.lastGeophone - geo.firstGeophone) / ps) + 1,
         Ceil((geo.lastShot - geo.lastGeophone) / geo.shotSpacing))
  }

  /**
   * With positive spacings, the bands cover the survey line as intended: lead_shots
   * counts the shot positions `first_shot + i * shot_spacing` before the first geophone,
   * trail_shots the shot positions `last_shot - k * shot_spacing` after the last geophone,
   * and, when the geophone line is not reversed, num_geophones the geophone positions
   * `first_geophone + j * phone_spacing` up to the last geophone.
   */
  lemma PlanBands(geo: Geometry, ps: real)
    requires ps > 0.0 && geo.shotSpacing > 0.0
    ensures
      var p, ss := PlanOf(geo, ps), geo.shotSpacing;
      && geo.firstShot + (p.lead - 1) as real * ss < geo.firstGeophone <= geo.firstShot + p.lead as real * ss
      && geo.lastShot - p.trail as real * ss <= geo.lastGeophone < geo.lastShot - (p.trail - 1) as real * ss
      && (geo.firstGeophone <= geo.lastGeophone ==>
            1 <= p.geophones &&
            geo.firstGeophone + (p.geophones - 1) as real * ps <= geo.lastGeophone < geo.firstGeophone + p.geophones as real * ps)
  {
    var p, ss := PlanOf(geo, ps), geo.shotSpacing;
    CeilBand(geo.firstGeophone - geo.firstShot, ss);
    CeilBand(geo.lastShot - geo.lastGeophone, ss);
    if geo.firstGeophone <= geo.lastGeophone {
      TruncBand(geo.lastGeophone - geo.firstGeophone, ps);
    }
  }

  /** The ceiling of `d / s` shot spacings reaches `d` and one spacing fewer falls short. */
  lemma CeilBand(d: real, s: real)
    requires s > 0.0
    ensures (Ceil(d / s) - 1) as real * s < d <= Ceil(d / s) as real * s
  {
    var q := d / s;
    assert q * s == d;
    ScaleLe(q, Ceil(q) as real, s);
    ScaleLt((Ceil(q) - 1) as real, q, s);
  }

  /** For a non-negative `d`, Trunc(d / s) whole spacings fit in `d` and one more does not. */
  lemma TruncBand(d: real, s: real)
    requires d >= 0.0 && s > 0.0
    ensures Trunc(d / s) >= 0
    ensures Trunc(d / s) as real * s <= d < (Trunc(d / s) + 1) as real * s
  {
    var q := d / s;
    assert q * s == d;
    if q < 0.0 {
      ScaleLt(q, 0.0, s);
    }
    var t := Trunc(q);
    assert t as real <= q < t as real + 1.0;
    ScaleLe(t as real, q, s);
    ScaleLt(q, (t + 1) as real, s);
    assert q * s < (t + 1) as real * s;
    assert d < (t + 1) as real * s;
  }

  /** A quotient by a positive `s` exceeds -1 exactly when `d` exceeds `-s`. */
  lemma AboveMinusOne(d: real, s: real)
    ensures s > 0.0 ==> (d / s > -1.0 <==> d > -s)
  {
    if s > 0.0 {
      var q := d / s;
      assert q * s == d;
      if q > -1.0 {
        ScaleLt(-1.0, q, s);
      } else {
        ScaleLe(q, -1.0, s);
      }
    }
  }

  /** One more step of size `s`. */
  lemma StepBy(k: int, s: real)
    ensures (k + 1) as real * s == k as real * s + s
  {
  }

  lemma ScaleLe(a: real, b: real, s: real)
    requires a <= b && s > 0.0
    ensures a * s <= b * s
  {
  }

  lemma ScaleLt(a: real, b: real, s: real)
    requires a < b && s > 0.0
    ensures a * s < b * s
  {
  }

  /**
   * The first loop index of the trailing band: past the lead band, past the geophone
   * band and past the boundary index.
   */
  function TrailStart(p: Plan): int { Max(Max(p.lead, p.Boundary() + 1), 0) }

  /** How many trailing rows the loop has emitted before index `sta`. */
  function TrailDone(p: Plan, sta: int): int { Max(sta - TrailStart(p), 0) }

  /** The number of loop iterations: `range(num_stations + 1)`, empty when that is negative. */
  function Iterations(p: Plan): nat { Max(p.Count() + 1, 0) }

  /**
   * The x-coordinate the loop emits at index `sta`, or None when it emits nothing.
   * The k-th trailing row counts back `trail_shots - 1 - k` shot spacings from the last shot.
   */
  function Row(geo: Geometry, ps: real, p: Plan, sta: nat): (r: Option<real>)
    ensures r.None? <==> p.geophones >= 0 && sta == p.Boundary()
  {
    if sta < p.lead then Some(geo.ShotPosition(sta))
    else if sta < p.lead + p.geophones then Some(GeophoneX(geo, ps, sta - p.lead))
    else if sta > p.lead + p.geophones then Some(TrailX(geo, p.trail - 1 - (sta - TrailStart(p))))
    else None
  }

  /** The k-th geophone (counting from 0). */
  function GeophoneX(geo: Geometry, ps: real, k: int): real { k as real * ps + geo.firstGeophone }

  /** The trailing shot `k` shot spacings before the last shot. */
  function TrailX(geo: Geometry, k: int): real { geo.lastShot - k as real * geo.shotSpacing }

  /** The rows emitted by the first `n` loop iterations, in order. */
  function Rows(geo: Geometry, ps: real, p: Plan, n: nat): (r: seq<Station>)
    ensures |r| <= n
    ensures forall i :: 0 <= i < |r| ==> r[i].y == 0.0
  {
    if n == 0 then []
    else
      match Row(geo, ps, p, n - 1)
      case Some(x) => Rows(geo, ps, p, n - 1) + [Station(x, 0.0)]
      case None => Rows(geo, ps, p, n - 1)
  }

  /**
   * The station loop: one pass over `num_stations + 1` indices with the down-counter
   * `trl` for the trailing band.
   */
  method BuildStations(geo: Geometry, ps: real, p: Plan) returns (rows: seq<Station>)
    ensures rows == Rows(geo, ps, p, Iterations(p))
  {
    rows := [];
    var x := 0.0;
    var y := 0.0;
    var trl := p.trail - 1;
    var sta := 0;
    while sta < p.Count() + 1
      invariant 0 <= sta <= Iterations(p)
      invariant y == 0.0
      invariant rows == Rows(geo, ps, p, sta)
      invariant trl == p.trail - 1 - TrailDone(p, sta)
    {
      if sta < p.lead {
        x := sta as real * geo.shotSpacing + geo.firstShot;
        assert Row(geo, ps, p, sta).value == x;
        rows := rows + [Station(x, y)];
      } else if sta < p.lead + p.geophones {
        x := (sta - p.lead) as real * ps + geo.firstGeophone;
        assert Row(geo, ps, p, sta).value == x;
        rows := rows + [Station(x, y)];
      } else if sta > p.lead + p.geophones {
        x := geo.lastShot - trl as real * geo.shotSpacing;
        assert sta >= TrailStart(p) && Row(geo, ps, p, sta).value == x;
        trl := trl - 1;
        rows := rows + [Station(x, y)];
      } else {
        assert Row(geo, ps, p, sta) == None;
      }
      sta := sta + 1;
    }
  }

  /** Whether the loop meets an index at which it emits nothing. */
  predicate HasGap(p: Plan) { p.geophones >= 0 && p.Boundary() >= 0 }

  /** Where the row of loop index `sta` lands in the output: one lower past the gap. */
  function Position(p: Plan, sta: nat): nat
  {
    if HasGap(p) && p.Boundary() < sta then sta - 1 else sta
  }

  /** The loop emits one row per index except at the gap, when the loop reaches it. */
  lemma {:induction false} RowsLength(geo: Geometry, ps: real, p: Plan, n: nat)
    ensures |Rows(geo, ps, p, n)| == if HasGap(p) && p.Boundary() < n then n - 1 else n
  {
    if n > 0 {
      RowsLength(geo, ps, p, n - 1);
    }
  }

  /** Every index that emits a row puts it at its output position. */
  lemma {:induction false} RowsAt(geo: Geometry, ps: real, p: Plan, n: nat, sta: nat)
    requires sta < n && Row(geo, ps, p, sta).Some?
    ensures Position(p, sta) < |Rows(geo, ps, p, n)|
    ensures Rows(geo, ps, p, n)[Position(p, sta)] == Station(Row(geo, ps, p, sta).value, 0.0)
  {
    RowsLength(geo, ps, p, n - 1);
    if sta < n - 1 {
      RowsAt(geo, ps, p, n - 1, sta);
    }
  }

  /**
   * When the shots bracket the geophones (no band has a negative size), the loop emits
   * exactly `num_stations` rows.
   */
  lemma BracketedCount(geo: Geometry, ps: real, p: Plan)
    requires p.lead >= 0 && p.geophones >= 0 && p.trail >= 0
    ensures |Rows(geo, ps, p, Iterations(p))| == p.Count()
  {
    RowsLength(geo, ps, p, Iterations(p));
  }

  /** The first `lead_shots` rows step from the first shot by the shot spacing. */
  lemma LeadBand(geo: Geometry, ps: real, p: Plan)
    ensures forall i :: 0 <= i < p.lead && i < |Rows(geo, ps, p, Iterations(p))| ==>
      Rows(geo, ps, p, Iterations(p))[i] == Station(geo.ShotPosition(i), 0.0)
  {
    var n := Iterations(p);
    forall i | 0 <= i < p.lead && i < |Rows(geo, ps, p, n)|
      ensures Rows(geo, ps, p, n)[i] == Station(geo.ShotPosition(i), 0.0)
    {
      RowsAt(geo, ps, p, n, i);
    }
  }

  /**
   * The rows at indices `lead_shots` to `lead_shots + num_geophones - 1` step from the
   * first geophone by the phone spacing. When lead_shots is negative this band starts at
   * index 0 with geophone number `-lead_shots`.
   */
  lemma GeophoneBand(geo: Geometry, ps: real, p: Plan)
    ensures forall i :: 0 <= i && p.lead <= i < p.Boundary() && i < |Rows(geo, ps, p, Iterations(p))| ==>
      Rows(geo, ps, p, Iterations(p))[i] == Station(geo.firstGeophone + (i - p.lead) as real * ps, 0.0)
  {
    var n := Iterations(p);
    forall i | 0 <= i && p.lead <= i < p.Boundary() && i < |Rows(geo, ps, p, n)|
      ensures Rows(geo, ps, p, n)[i] == Station(geo.firstGeophone + (i - p.lead) as real * ps, 0.0)
    {
      RowsLength(geo, ps, p, n);
      RowsAt(geo, ps, p, n, i);
    }
  }

  /**
   * A first shot a whole shot spacing or more past the first geophone makes lead_shots
   * negative. The station list then starts at geophone number `-lead_shots`, so the
   * geophones before it get no row, while pick indices still count from the first geophone.
   */
  lemma LeadPastGeophones(geo: Geometry, ps: real, p: Plan)
    requires p.lead < 0 && 0 < p.Boundary()
    ensures p.Count() >= 0 ==> |Rows(geo, ps, p, Iterations(p))| > 0
    ensures |Rows(geo, ps, p, Iterations(p))| > 0 ==>
      Rows(geo, ps, p, Iterations(p))[0] == Station(geo.firstGeophone + (-p.lead) as real * ps, 0.0)
  {
    var n := Iterations(p);
    RowsLength(geo, ps, p, n);
    GeophoneBand(geo, ps, p);
  }

  /**
   * With the shots bracketing the geophones, the remaining `trail_shots` rows ascend by
   * one shot spacing and the last of them is the last shot.
   */
  lemma TrailBand(geo: Geometry, ps: real, p: Plan)
    requires p.lead >= 0 && p.geophones >= 0 && p.trail >= 0
    ensures |Rows(geo, ps, p, Iterations(p))| == p.Count()
    ensures forall i :: p.Boundary() <= i < p.Count() ==>
      Rows(geo, ps, p, Iterations(p))[i] ==
        Station(geo.lastShot - (p.Count() - 1 - i) as real * geo.shotSpacing, 0.0)
    ensures forall i :: p.Boundary() < i < p.Count() ==>
      Rows(geo, ps, p, Iterations(p))[i].x == Rows(geo, ps, p, Iterations(p))[i - 1].x + geo.shotSpacing
    ensures p.trail > 0 ==> Rows(geo, ps, p, Iterations(p))[p.Count() - 1] == Station(geo.lastShot, 0.0)
  {
    var n := Iterations(p);
    BracketedCount(geo, ps, p);
    forall i | p.Boundary() <= i < p.Count()
      ensures Rows(geo, ps, p, n)[i] == Station(geo.lastShot - (p.Count() - 1 - i) as real * geo.shotSpacing, 0.0)
    {
      RowsAt(geo, ps, p, n, i + 1);
    }
    forall i | p.Boundary() < i < p.Count()
      ensures Rows(geo, ps, p, n)[i].x == Rows(geo, ps, p, n)[i - 1].x + geo.shotSpacing
    {
      StepBy(p.Count() - 1 - i, geo.shotSpacing);
    }
  }

  /**
   * When the last shot lies before the last geophone by a shot spacing or more, trail_shots
   * is negative: the loop never reaches its gap, so it emits one row MORE than the
   * declared `num_stations` (or none at all when that is below -1).
   */
  lemma UnbracketedCount(geo: Geometry, ps: real, p: Plan)
    requires p.trail < 0
    ensures |Rows(geo, ps, p, Iterations(p))| == Iterations(p)
    ensures p.Count() >= -1 ==> |Rows(geo, ps, p, Iterations(p))| == p.Count() + 1
  {
    RowsLength(geo, ps, p, Iterations(p));
  }
}
