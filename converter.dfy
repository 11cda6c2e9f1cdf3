/**
 * The whole `.vs` to `.sgt` conversion: read the header, scan the pick records, build the
 * station list, and lay out the output. Any error aborts before anything is produced.
 */
module Converter {
  import opened Wrappers
  import opened Rounding
  import opened VsFormat
  import opened Picks
  import opened Stations
  import opened SgtFormat

  /** The second line of the file; a missing line reads as an empty one. */
  function HeaderLine(lines: seq<seq<Tok>>): seq<Tok>
  {
    if |lines| >= 2 then lines[1] else []
  }

  /** The pick records: every line after the two header lines. */
  function Body(lines: seq<seq<Tok>>): seq<seq<Tok>>
  {
    if |lines| >= 2 then lines[2..] else []
  }

  /**
   * The header read: the first line is ignored; the second needs an integer literal as
   * its second field (the declared shot count, otherwise unused) and a number as its
   * third (the phone spacing).
   */
  function ReadHeader(lines: seq<seq<Tok>>): (r: Result<real, Error>)
    ensures r.Ok? <==> |lines| >= 2 && |lines[1]| >= 3 && lines[1][1].IntLit? && !lines[1][2].Word?
    ensures r.Ok? ==> AsFloat(lines[1][2]) == Some(r.value)
    ensures |HeaderLine(lines)| < 2 ==> r == Err(MissingToken)
  {
    var h := HeaderLine(lines);
    if |h| < 2 then Err(MissingToken)
    else if AsInt(h[1]).None? then Err(BadNumber)
    else if |h| < 3 then Err(MissingToken)
    else match AsFloat(h[2])
      case None => Err(BadNumber)
      case Some(ps) => Ok(ps)
  }

  /** The converted content: the declared station count, the station rows, the observations. */
  datatype Sgt = Sgt(stationCount: int, stations: seq<Station>, obs: seq<Obs>)

  /**
   * The conversion as a value: header, pick scan, then the station bands, which divide by
   * the phone spacing and the shot spacing.
   */
  function Convert(lines: seq<seq<Tok>>, geo: Geometry): (r: Result<Sgt, Error>)
    ensures ReadHeader(lines).Err? ==> r == Err(ReadHeader(lines).error)
    ensures r.Ok? ==>
      && ReadHeader(lines).Ok? && ReadHeader(lines).value != 0.0 && geo.shotSpacing != 0.0
      && |r.value.stations| <= Iterations(PlanOf(geo, ReadHeader(lines).value))
      && forall i :: 0 <= i < |r.value.stations| ==> r.value.stations[i].y == 0.0
  {
    match ReadHeader(lines)
    case Err(e) => Err(e)
    case Ok(ps) =>
      match Scan(Body(lines), geo, ps, 0, [])
      case Err(e) => Err(e)
      case Ok(st) =>
        if ps == 0.0 || geo.shotSpacing == 0.0 then Err(DivisionByZero)
        else
          var p := PlanOf(geo, ps);
          Ok(Sgt(p.Count(), Rows(geo, ps, p, Iterations(p)), st.obs))
  }

  /**
   * The converter: output is assembled only after the header, the pick loop and the
   * station loop have all succeeded, so an error leaves no output at all.
   */
  method ParseVsToSgt(lines: seq<seq<Tok>>, geo: Geometry) returns (r: Result<seq<OutLine>, Error>)
    ensures r.Err? <==> Convert(lines, geo).Err?
    ensures r.Err? ==> r.error == Convert(lines, geo).error
    ensures r.Ok? ==>
      var sgt := Convert(lines, geo).value;
      r.value == Layout(sgt.stationCount, sgt.stations, sgt.obs)
  {
    var header := ReadHeader(lines);
    if header.Err? {
      return Err(header.error);
    }
    var ps := header.value;
    var scan := ScanPicks(Body(lines), geo, ps);
    if scan.Err? {
      return Err(scan.error);
    }
    if ps == 0.0 || geo.shotSpacing == 0.0 {
      return Err(DivisionByZero);
    }
    var p := PlanOf(geo, ps);
    var rows := BuildStations(geo, ps, p);
    var out := AssembleOutput(p.Count(), rows, scan.value.obs);
    return Ok(out);
  }

  // ----- properties of whole conversions -----

  /**
   * The body splits at its first line without three fields: the records before it are
   * scanned, and that line either ends the scan or aborts it.
   */
  lemma BodySplit(body: seq<seq<Tok>>, geo: Geometry, ps: real)
    ensures
      var k := LiveLength(body);
      var live := Scan(body[..k], geo, ps, 0, []);
      Scan(body, geo, ps, 0, []) ==
        if live.Err? || k == |body| || IsTerminator(body[k]) then live
        else Err(Classify(body[k], geo, ps, live.value.shot).error)
  {
    var k := LiveLength(body);
    assert body == body[..k] + body[k..];
    ScanSplit(body[..k], body[k..], geo, ps, 0, []);
    if k < |body| {
      var rest := body[k..];
      assert rest[0] == body[k];
      match Scan(body[..k], geo, ps, 0, [])
      case Err(_) =>
      case Ok(st) => ShortLine(body[k], geo, ps, st.shot);
    }
  }

  /**
   * A conversion succeeds exactly when the header is well formed, every pick record
   * before the first line without three fields passes its checks, that line (if any) is
   * the end-of-observations line, and neither spacing is zero.
   */
  lemma ConvertSucceeds(lines: seq<seq<Tok>>, geo: Geometry)
    ensures Convert(lines, geo).Ok? <==>
      && ReadHeader(lines).Ok?
      && var ps, body := ReadHeader(lines).value, Body(lines);
         var k := LiveLength(body);
         && NoFailure(body[..k], geo, ps, 0)
         && (k == |body| || IsTerminator(body[k]))
         && ps != 0.0 && geo.shotSpacing != 0.0
  {
    if ReadHeader(lines).Ok? {
      var ps, body := ReadHeader(lines).value, Body(lines);
      var k := LiveLength(body);
      BodySplit(body, geo, ps);
      ScanSucceeds(body[..k], geo, ps, 0, []);
    }
  }

  /**
   * The observations of a successful conversion are exactly those of the scan over the
   * pick records before the end-of-observations line.
   */
  lemma ConvertScansLive(lines: seq<seq<Tok>>, geo: Geometry)
    requires Convert(lines, geo).Ok?
    ensures ReadHeader(lines).Ok?
    ensures
      var ps, body := ReadHeader(lines).value, Body(lines);
      var live := body[..LiveLength(body)];
      && ps != 0.0 && geo.shotSpacing != 0.0
      && Scan(live, geo, ps, 0, []).Ok?
      && Scan(live, geo, ps, 0, []).value.obs == Convert(lines, geo).value.obs
  {
    var ps, body := ReadHeader(lines).value, Body(lines);
    BodySplit(body, geo, ps);
  }

  /**
   * The measurement count line of a successful conversion equals the number of
   * observation rows, which equals the number of pick lines before the end of observations.
   */
  lemma ConvertObservationCount(lines: seq<seq<Tok>>, geo: Geometry)
    requires Convert(lines, geo).Ok?
    ensures
      var sgt, body := Convert(lines, geo).value, Body(lines);
      var out := Layout(sgt.stationCount, sgt.stations, sgt.obs);
      && |sgt.obs| == CountPicks(body[..LiveLength(body)])
      && out[2 + |sgt.stations|] == MeasurementCount(CountPicks(body[..LiveLength(body)]))
      && |out| == |sgt.stations| + 4 + CountPicks(body[..LiveLength(body)])
  {
    ConvertScansLive(lines, geo);
    var ps, body := ReadHeader(lines).value, Body(lines);
    ScanCounts(body[..LiveLength(body)], geo, ps, 0, []);
  }

  /**
   * In a successful conversion the pick on body line j (before the end of observations)
   * is in range, and it is the observation numbered by the picks before it, carrying the
   * number of shot markers before it, its truncated geophone index and its time in seconds.
   */
  lemma ConvertObservationAt(lines: seq<seq<Tok>>, geo: Geometry, j: nat)
    requires Convert(lines, geo).Ok?
    requires j < LiveLength(Body(lines)) && IsPickLine(Body(lines)[j])
    ensures ReadHeader(lines).Ok?
    ensures
      var ps, l := ReadHeader(lines).value, Body(lines)[j];
      && AsFloat(l[0]).Some? && AsFloat(l[1]).Some? && ps != 0.0
      && geo.firstGeophone <= AsFloat(l[0]).value <= geo.lastGeophone
    ensures
      var sgt, ps, body := Convert(lines, geo).value, ReadHeader(lines).value, Body(lines);
      var l := body[j];
      && CountPicks(body[..j]) < |sgt.obs|
      && sgt.obs[CountPicks(body[..j])] ==
           Obs(CountShots(body[..j]),
               Trunc((AsFloat(l[0]).value - geo.firstGeophone) / ps),
               AsFloat(l[1]).value / 1000.0)
  {
    ConvertScansLive(lines, geo);
    var ps, body := ReadHeader(lines).value, Body(lines);
    var k := LiveLength(body);
    var live := body[..k];
    assert live[j] == body[j] && live[..j] == body[..j];
    ScanObservation(live, geo, ps, 0, [], j);
    PickRecord(body[j], geo, ps, CountShots(body[..j]));
  }

  /**
   * In a successful conversion the shot marker on body line j (before the end of
   * observations) lies at `first_shot + k * shot_spacing`, k being the number of shot
   * markers before it.
   */
  lemma ConvertShotAt(lines: seq<seq<Tok>>, geo: Geometry, j: nat)
    requires Convert(lines, geo).Ok?
    requires j < LiveLength(Body(lines)) && IsShotLine(Body(lines)[j])
    ensures
      var l := Body(lines)[j];
      && AsFloat(l[0]).Some?
      && AsFloat(l[0]).value == geo.ShotPosition(CountShots(Body(lines)[..j]))
  {
    ConvertScansLive(lines, geo);
    LiveShotAt(Body(lines), geo, ReadHeader(lines).value, j);
  }

  /** ScanShotPosition, read on the body lines before the end of observations. */
  lemma LiveShotAt(body: seq<seq<Tok>>, geo: Geometry, ps: real, j: nat)
    requires Scan(body[..LiveLength(body)], geo, ps, 0, []).Ok?
    requires j < LiveLength(body) && IsShotLine(body[j])
    ensures AsFloat(body[j][0]).Some?
    ensures AsFloat(body[j][0]).value == geo.ShotPosition(CountShots(body[..j]))
  {
    var live := body[..LiveLength(body)];
    assert live[j] == body[j] && live[..j] == body[..j];
    ScanShotPosition(live, geo, ps, 0, [], j);
  }

  /**
   * With a positive phone spacing, every observation of a successful conversion has a
   * geophone index in [0, num_geophones - 1].
   */
  lemma ConvertIndicesInRange(lines: seq<seq<Tok>>, geo: Geometry)
    requires Convert(lines, geo).Ok?
    requires ReadHeader(lines).Ok? && ReadHeader(lines).value > 0.0
    ensures
      var sgt, ps := Convert(lines, geo).value, ReadHeader(lines).value;
      forall i :: 0 <= i < |sgt.obs| ==>
        0 <= sgt.obs[i].geophone <= PlanOf(geo, ps).geophones - 1
  {
    var ps := ReadHeader(lines).value;
    ScanIndicesInRange(Body(lines), geo, ps, 0, []);
  }

  /**
   * Lines after the end-of-observations line never matter: cutting the file just before
   * it gives the same result, so running out of lines acts like the end marker.
   */
  lemma ConvertIgnoresAfterEnd(lines: seq<seq<Tok>>, geo: Geometry, j: nat)
    requires 2 <= j < |lines| && IsTerminator(lines[j])
    ensures Convert(lines, geo) == Convert(lines[..j], geo)
  {
    var body := Body(lines);
    assert body == lines[2..j] + [lines[j]] + lines[j + 1..];
    assert Body(lines[..j]) == lines[2..j];
    assert HeaderLine(lines[..j]) == HeaderLine(lines);
    if ReadHeader(lines).Ok? {
      ScanTerminatorCuts(lines[2..j], lines[j], lines[j + 1..], geo, ReadHeader(lines).value, 0, []);
    }
  }

  /**
   * When the shots bracket the geophones (first shot <= first geophone <= last geophone
   * <= last shot) and both spacings are positive, the declared station count equals the
   * number of station rows written.
   */
  lemma ConvertStationCount(lines: seq<seq<Tok>>, geo: Geometry)
    requires Convert(lines, geo).Ok?
    requires ReadHeader(lines).Ok? && ReadHeader(lines).value > 0.0 && geo.shotSpacing > 0.0
    requires geo.firstShot <= geo.firstGeophone <= geo.lastGeophone <= geo.lastShot
    ensures |Convert(lines, geo).value.stations| == Convert(lines, geo).value.stationCount
  {
    var ps := ReadHeader(lines).value;
    var p := PlanOf(geo, ps);
    PlanBands(geo, ps);
    if p.lead < 0 {
      ScaleLe(p.lead as real, -1.0, geo.shotSpacing);
    }
    if p.trail < 0 {
      ScaleLe(p.trail as real, -1.0, geo.shotSpacing);
    }
    BracketedCount(geo, ps, p);
  }

  /** A small survey: one reserved line, a header, two shots with picks, the end marker. */
  function SampleLines(): seq<seq<Tok>>
  {
    [ [Word],
      [Word, IntLit(3), DecLit(5.0)],
      [IntLit(0), IntLit(0), IntLit(0)],
      [IntLit(10), DecLit(12.5), IntLit(1)],
      [IntLit(15), DecLit(14.0), IntLit(1)],
      [IntLit(5), IntLit(0), IntLit(0)],
      [IntLit(10), DecLit(13.0), IntLit(1)],
      [IntLit(0), IntLit(0)] ]
  }

  /**
   * On that survey (shots at 0 and 5, geophones at 10 and 15, spacing 5) the picks after
   * the first shot marker carry shot number 1 and those after the second carry 2, because
   * the counter is raised when a marker is accepted. The last shot lies before the last
   * geophone, so trail_shots is -2: the station count line says 2 while three rows are
   * written, and the geophone at 15 is not among them.
   */
  lemma SampleConversion()
    ensures Convert(SampleLines(), Geometry(0.0, 5.0, 10.0, 15.0, 5.0)) ==
      Ok(Sgt(2,
             [Station(0.0, 0.0), Station(5.0, 0.0), Station(10.0, 0.0)],
             [Obs(1, 0, 0.0125), Obs(1, 1, 0.014), Obs(2, 0, 0.013)]))
  {
    var geo, lines := Geometry(0.0, 5.0, 10.0, 15.0, 5.0), SampleLines();
    assert ReadHeader(lines) == Ok(5.0);
    SampleScan();
    var st := Scan(Body(lines), geo, 5.0, 0, []).value;
    SampleStations();
    var p := PlanOf(geo, 5.0);
    assert p.Count() == 2 && Iterations(p) == 3;
    assert Convert(lines, geo) == Ok(Sgt(p.Count(), Rows(geo, 5.0, p, 3), st.obs));
  }

  /** The pick scan of the sample survey, line by line. */
  lemma SampleScan()
    ensures Scan(Body(SampleLines()), Geometry(0.0, 5.0, 10.0, 15.0, 5.0), 5.0, 0, []) ==
      Ok(PickState(2, [Obs(1, 0, 0.0125), Obs(1, 1, 0.014), Obs(2, 0, 0.013)]))
  {
    var geo := Geometry(0.0, 5.0, 10.0, 15.0, 5.0);
    var body := Body(SampleLines());
    TruncOfInteger(0);
    TruncOfInteger(1);
    assert Trunc(0.0) == 0 && Trunc(1.0) == 1;
    var o1, o2, o3 := Obs(1, 0, 0.0125), Obs(1, 1, 0.014), Obs(2, 0, 0.013);
    assert Classify(body[0], geo, 5.0, 0) == Shot;
    assert Classify(body[1], geo, 5.0, 1) == Pick(0, 0.0125);
    assert Classify(body[2], geo, 5.0, 1) == Pick(1, 0.014);
    assert Classify(body[3], geo, 5.0, 1) == Shot;
    assert Classify(body[4], geo, 5.0, 2) == Pick(0, 0.013);
    assert Classify(body[5], geo, 5.0, 2) == Stop;
    forall i | 0 <= i < 5 ensures body[i..][0] == body[i] && body[i..][1..] == body[i + 1..] {
    }
    assert [o1, o2] + [o3] == [o1, o2, o3] && [o1] + [o2] == [o1, o2] && [] + [o1] == [o1];
    assert Scan(body[5..], geo, 5.0, 2, [o1, o2, o3]) == Ok(PickState(2, [o1, o2, o3]));
    assert Scan(body[4..], geo, 5.0, 2, [o1, o2]) == Ok(PickState(2, [o1, o2, o3]));
    assert Scan(body[3..], geo, 5.0, 1, [o1, o2]) == Ok(PickState(2, [o1, o2, o3]));
    assert Scan(body[2..], geo, 5.0, 1, [o1]) == Ok(PickState(2, [o1, o2, o3]));
    assert Scan(body[1..], geo, 5.0, 1, []) == Ok(PickState(2, [o1, o2, o3]));
  }

  /** The station plan and rows of the sample survey: trail_shots is -2. */
  lemma SampleStations()
    ensures PlanOf(Geometry(0.0, 5.0, 10.0, 15.0, 5.0), 5.0) == Plan(2, 2, -2)
    ensures Rows(Geometry(0.0, 5.0, 10.0, 15.0, 5.0), 5.0, Plan(2, 2, -2), 3) ==
      [Station(0.0, 0.0), Station(5.0, 0.0), Station(10.0, 0.0)]
  {
    assert Ceil(2.0) == 2 && Ceil(-2.0) == -2;
  }
}
