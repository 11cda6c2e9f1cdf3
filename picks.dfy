/**
 * The pick-record state machine of the `.vs` body: each line after the header is a
 * shot marker, a geophone pick, an ignored record, the end-of-observations line, or an
 * error. A running shot counter and a growing observation list are the only state.
 */
module Picks {
  import opened Wrappers
  import opened Rounding
  import opened VsFormat

  /** One observation row of the output: shot counter, geophone index, travel time in seconds. */
  datatype Obs = Obs(shot: nat, geophone: int, seconds: real)

  /** The scanner's state: the number of shot markers accepted and the observations so far. */
  datatype PickState = PickState(shot: nat, obs: seq<Obs>)

  /** What one body line does to the scanner. */
  datatype Action =
    | Stop                               // end of observations
    | Fail(error: Error)                 // the conversion aborts
    | Shot                               // an accepted shot marker
    | Pick(geophone: int, seconds: real) // an accepted geophone pick
    | Skip                               // a record with an unrecognised marker

  /** The end-of-observations line: not three fields, and the first two truncate to zero. */
  predicate IsTerminator(l: seq<Tok>)
  {
    && |l| != 3 && |l| >= 2
    && AsFloat(l[0]).Some? && Trunc(AsFloat(l[0]).value) == 0
    && AsFloat(l[1]).Some? && Trunc(AsFloat(l[1]).value) == 0
  }

  /** A three-field line whose marker field truncates to 0: a shot marker. */
  predicate IsShotLine(l: seq<Tok>)
  {
    |l| == 3 && AsFloat(l[2]).Some? && Trunc(AsFloat(l[2]).value) == 0
  }

  /** A three-field line whose marker field is the integer literal 1: a geophone pick. */
  predicate IsPickLine(l: seq<Tok>)
  {
    |l| == 3 && l[2] == IntLit(1)
  }

  /** A three-field line whose marker is an integer literal other than 0 and 1. */
  predicate IsOtherMarker(l: seq<Tok>)
  {
    |l| == 3 && l[2].IntLit? && l[2].i != 0 && l[2].i != 1
  }

  /**
   * The effect of one body line, given the phone spacing from the header and the number
   * of shot markers accepted so far. The tests are made in the order the converter makes
   * them, so that the first failing test decides the error.
   */
  function Classify(l: seq<Tok>, geo: Geometry, ps: real, shot: nat): (r: Action)
    ensures r == Stop <==> IsTerminator(l)
    ensures r == Skip <==> IsOtherMarker(l)
    ensures |l| == 3 && !r.Fail? ==> (r == Shot <==> IsShotLine(l)) && (r.Pick? <==> IsPickLine(l))
  {
    if |l| != 3 then
      if |l| == 0 then Fail(MissingToken)
      else match AsFloat(l[0])
        case None => Fail(BadNumber)
        case Some(a) =>
          if Trunc(a) != 0 then Fail(InvalidLineFormat)
          else if |l| < 2 then Fail(MissingToken)
          else match AsFloat(l[1])
            case None => Fail(BadNumber)
            case Some(b) => if Trunc(b) != 0 then Fail(InvalidLineFormat) else Stop
    else match AsFloat(l[2])
      case None => Fail(BadNumber)
      case Some(m) =>
        if Trunc(m) == 0 then
          match AsFloat(l[0])
          case None => Fail(BadNumber)
          case Some(loc) =>
            if geo.shotSpacing == 0.0 then Fail(DivisionByZero)
            else if (loc - geo.firstShot) / geo.shotSpacing != shot as real then Fail(ShotMismatch)
            else Shot
        else match AsInt(l[2])
          case None => Fail(BadNumber)
          case Some(k) =>
            if k != 1 then Skip
            else match AsFloat(l[0])
              case None => Fail(BadNumber)
              case Some(loc) =>
                if ps == 0.0 then Fail(DivisionByZero)
                else
                  var g := Trunc((loc - geo.firstGeophone) / ps);
                  match AsFloat(l[1])
                  case None => Fail(BadNumber)
                  case Some(ms) =>
                    if loc < geo.firstGeophone || loc > geo.lastGeophone then Fail(GeophoneOutOfRange)
                    else Pick(g, ms / 1000.0)
  }

  /**
   * The scan of the body lines from a given counter and observation list: shot markers
   * raise the counter, picks append one observation, unknown markers change nothing, the
   * end-of-observations line stops the scan and running out of lines ends it normally.
   */
  function Scan(body: seq<seq<Tok>>, geo: Geometry, ps: real, shot: nat, obs: seq<Obs>)
    : (r: Result<PickState, Error>)
    ensures r.Ok? ==> shot <= r.value.shot && obs <= r.value.obs
    ensures r.Ok? ==> forall i :: |obs| <= i < |r.value.obs| ==> shot <= r.value.obs[i].shot <= r.value.shot
    decreases |body|
  {
    if body == [] then Ok(PickState(shot, obs))
    else match Classify(body[0], geo, ps, shot)
      case Stop => Ok(PickState(shot, obs))
      case Fail(e) => Err(e)
      case Shot => Scan(body[1..], geo, ps, shot + 1, obs)
      case Pick(g, t) => Scan(body[1..], geo, ps, shot, obs + [Obs(shot, g, t)])
      case Skip => Scan(body[1..], geo, ps, shot, obs)
  }

  /**
   * The pick loop: walks the body lines, keeping the shot counter and the observation
   * list, and stops at the end-of-observations line or at the first error.
   */
  method ScanPicks(body: seq<seq<Tok>>, geo: Geometry, ps: real) returns (r: Result<PickState, Error>)
    ensures r == Scan(body, geo, ps, 0, [])
  {
    var shot: nat := 0;
    var obs: seq<Obs> := [];
    var i := 0;
    while i < |body|
      invariant 0 <= i <= |body|
      invariant Scan(body, geo, ps, 0, []) == Scan(body[i..], geo, ps, shot, obs)
    {
      var line := body[i];
      assert body[i..][0] == line && body[i..][1..] == body[i + 1..];
      if |line| != 3 {
        if |line| == 0 {
          return Err(MissingToken);
        }
        var a := AsFloat(line[0]);
        if a.None? {
          return Err(BadNumber);
        }
        if Trunc(a.value) != 0 {
          return Err(InvalidLineFormat);
        }
        if |line| < 2 {
          return Err(MissingToken);
        }
        var b := AsFloat(line[1]);
        if b.None? {
          return Err(BadNumber);
        }
        if Trunc(b.value) != 0 {
          return Err(InvalidLineFormat);
        }
        // end of observations: nothing after this line is read
        return Ok(PickState(shot, obs));
      }
      var m := AsFloat(line[2]);
      if m.None? {
        return Err(BadNumber);
      }
      if Trunc(m.value) == 0 {
        var loc := AsFloat(line[0]);
        if loc.None? {
          return Err(BadNumber);
        }
        if geo.shotSpacing == 0.0 {
          return Err(DivisionByZero);
        }
        if (loc.value - geo.firstShot) / geo.shotSpacing != shot as real {
          return Err(ShotMismatch);
        }
        shot := shot + 1;
      } else {
        var k := AsInt(line[2]);
        if k.None? {
          return Err(BadNumber);
        }
        if k.value == 1 {
          var loc := AsFloat(line[0]);
          if loc.None? {
            return Err(BadNumber);
          }
          if ps == 0.0 {
            return Err(DivisionByZero);
          }
          var g := Trunc((loc.value - geo.firstGeophone) / ps);
          var ms := AsFloat(line[1]);
          if ms.None? {
            return Err(BadNumber);
          }
          if loc.value < geo.firstGeophone || loc.value > geo.lastGeophone {
            return Err(GeophoneOutOfRange);
          }
          obs := obs + [Obs(shot, g, ms.value / 1000.0)];
        }
      }
      i := i + 1;
    }
    return Ok(PickState(shot, obs));
  }

  // ----- single lines -----

  /** A line without three fields either ends the observations or aborts the conversion. */
  lemma ShortLine(l: seq<Tok>, geo: Geometry, ps: real, shot: nat)
    requires |l| != 3
    ensures IsTerminator(l) ==> Classify(l, geo, ps, shot) == Stop
    ensures !IsTerminator(l) ==> Classify(l, geo, ps, shot).Fail?
  {
  }

  /**
   * A shot marker is accepted exactly when it lies at `first_shot + shot * shot_spacing`
   * for the current counter; any other shot marker aborts, a misplaced one with ShotMismatch.
   */
  lemma ShotMarker(l: seq<Tok>, geo: Geometry, ps: real, shot: nat)
    requires IsShotLine(l)
    ensures Classify(l, geo, ps, shot) == Shot <==>
      && AsFloat(l[0]).Some? && geo.shotSpacing != 0.0
      && AsFloat(l[0]).value == geo.ShotPosition(shot)
    ensures Classify(l, geo, ps, shot) != Shot ==> Classify(l, geo, ps, shot).Fail?
    ensures AsFloat(l[0]).Some? && geo.shotSpacing != 0.0 &&
      AsFloat(l[0]).value != geo.ShotPosition(shot)
      ==> Classify(l, geo, ps, shot) == Fail(ShotMismatch)
  {
    if AsFloat(l[0]).Some? && geo.shotSpacing != 0.0 {
      var loc, ss := AsFloat(l[0]).value, geo.shotSpacing;
      var q := (loc - geo.firstShot) / ss;
      assert q * ss == loc - geo.firstShot;
    }
  }

  /**
   * A geophone pick is accepted exactly when its location and time are numbers, the
   * phone spacing is not zero and the location lies in [first geophone, last geophone],
   * both ends included; it then yields the truncated geophone index and the time in seconds.
   */
  lemma PickRecord(l: seq<Tok>, geo: Geometry, ps: real, shot: nat)
    requires IsPickLine(l)
    ensures Classify(l, geo, ps, shot).Pick? <==>
      && AsFloat(l[0]).Some? && AsFloat(l[1]).Some? && ps != 0.0
      && geo.firstGeophone <= AsFloat(l[0]).value <= geo.lastGeophone
    ensures Classify(l, geo, ps, shot).Pick? ==>
      Classify(l, geo, ps, shot) ==
        Pick(Trunc((AsFloat(l[0]).value - geo.firstGeophone) / ps), AsFloat(l[1]).value / 1000.0)
    ensures !Classify(l, geo, ps, shot).Pick? ==> Classify(l, geo, ps, shot).Fail?
    ensures AsFloat(l[0]).Some? && AsFloat(l[1]).Some? && ps != 0.0 &&
      (AsFloat(l[0]).value < geo.firstGeophone || AsFloat(l[0]).value > geo.lastGeophone)
      ==> Classify(l, geo, ps, shot) == Fail(GeophoneOutOfRange)
  {
  }

  /**
   * With a positive phone spacing, an accepted pick's geophone index lies in
   * [0, num_geophones - 1], where num_geophones = Trunc((last - first) / spacing) + 1.
   */
  lemma PickIndexInRange(l: seq<Tok>, geo: Geometry, ps: real, shot: nat)
    requires ps > 0.0
    requires Classify(l, geo, ps, shot).Pick?
    ensures 0 <= Classify(l, geo, ps, shot).geophone <= Trunc((geo.lastGeophone - geo.firstGeophone) / ps)
  {
    PickRecord(l, geo, ps, shot);
    var loc := AsFloat(l[0]).value;
    var x, y := (loc - geo.firstGeophone) / ps, (geo.lastGeophone - geo.firstGeophone) / ps;
    assert x * ps == loc - geo.firstGeophone && y * ps == geo.lastGeophone - geo.firstGeophone;
    assert 0.0 <= x <= y;
    TruncMonotone(0.0, x);
    TruncMonotone(x, y);
  }

  // ----- whole bodies -----

  /** Every line has exactly three fields, so none of them can end the scan. */
  predicate AllRecords(ls: seq<seq<Tok>>)
  {
    forall j :: 0 <= j < |ls| ==> |ls[j]| == 3
  }

  /** The number of shot-marker lines. */
  function CountShots(ls: seq<seq<Tok>>): nat
  {
    if ls == [] then 0 else (if IsShotLine(ls[0]) then 1 else 0) + CountShots(ls[1..])
  }

  /** The number of geophone-pick lines. */
  function CountPicks(ls: seq<seq<Tok>>): nat
  {
    if ls == [] then 0 else (if IsPickLine(ls[0]) then 1 else 0) + CountPicks(ls[1..])
  }

  /** The length of the longest prefix of three-field lines: where the scan can first stop. */
  function LiveLength(body: seq<seq<Tok>>): (k: nat)
    ensures k <= |body|
    ensures AllRecords(body[..k])
    ensures k < |body| ==> |body[k]| != 3
  {
    if body == [] || |body[0]| != 3 then 0
    else
      var k := 1 + LiveLength(body[1..]);
      assert forall j :: 1 <= j < k ==> body[..k][j] == body[1..][..k - 1][j - 1];
      k
  }

  /** Dropping the first line of a prefix: the counts split off the first line's share. */
  lemma CountsOfPrefix(ls: seq<seq<Tok>>, j: int)
    requires 1 <= j <= |ls|
    ensures CountShots(ls[..j]) == (if IsShotLine(ls[0]) then 1 else 0) + CountShots(ls[1..][..j - 1])
    ensures CountPicks(ls[..j]) == (if IsPickLine(ls[0]) then 1 else 0) + CountPicks(ls[1..][..j - 1])
  {
    assert ls[..j][0] == ls[0] && ls[..j][1..] == ls[1..][..j - 1];
  }

  /** No line fails at the counter value it meets, starting from counter `s0`. */
  predicate NoFailure(ls: seq<seq<Tok>>, geo: Geometry, ps: real, s0: nat)
  {
    forall j :: 0 <= j < |ls| ==> !Classify(ls[j], geo, ps, s0 + CountShots(ls[..j])).Fail?
  }

  /** The first line and the rest each meeting NoFailure give NoFailure of the whole. */
  lemma NoFailureCons(ls: seq<seq<Tok>>, geo: Geometry, ps: real, s0: nat)
    requires ls != [] && !Classify(ls[0], geo, ps, s0).Fail?
    requires NoFailure(ls[1..], geo, ps, s0 + if IsShotLine(ls[0]) then 1 else 0)
    ensures NoFailure(ls, geo, ps, s0)
  {
    var s1 := s0 + if IsShotLine(ls[0]) then 1 else 0;
    assert ls[..0] == [];
    forall j | 1 <= j < |ls| ensures !Classify(ls[j], geo, ps, s0 + CountShots(ls[..j])).Fail? {
      CountsOfPrefix(ls, j);
      assert ls[j] == ls[1..][j - 1];
      assert !Classify(ls[1..][j - 1], geo, ps, s1 + CountShots(ls[1..][..j - 1])).Fail?;
    }
  }

  /** NoFailure of the whole gives it for the first line and for the rest. */
  lemma NoFailureTail(ls: seq<seq<Tok>>, geo: Geometry, ps: real, s0: nat)
    requires ls != [] && NoFailure(ls, geo, ps, s0)
    ensures !Classify(ls[0], geo, ps, s0).Fail?
    ensures NoFailure(ls[1..], geo, ps, s0 + if IsShotLine(ls[0]) then 1 else 0)
  {
    var s1 := s0 + if IsShotLine(ls[0]) then 1 else 0;
    assert ls[..0] == [];
    assert !Classify(ls[0], geo, ps, s0 + CountShots(ls[..0])).Fail?;
    forall j | 0 <= j < |ls[1..]| ensures !Classify(ls[1..][j], geo, ps, s1 + CountShots(ls[1..][..j])).Fail? {
      CountsOfPrefix(ls, j + 1);
      assert ls[1..][j] == ls[j + 1];
      assert !Classify(ls[j + 1], geo, ps, s0 + CountShots(ls[..j + 1])).Fail?;
    }
  }

  /**
   * Over three-field lines, the scan succeeds exactly when no line fails at the counter
   * value it meets, which is the starting counter plus the shot markers before it.
   * Running out of lines is not an error.
   */
  lemma {:induction false} ScanSucceeds(ls: seq<seq<Tok>>, geo: Geometry, ps: real, s0: nat, o0: seq<Obs>)
    requires AllRecords(ls)
    ensures Scan(ls, geo, ps, s0, o0).Ok? <==> NoFailure(ls, geo, ps, s0)
  {
    if ls != [] {
      var a := Classify(ls[0], geo, ps, s0);
      if NoFailure(ls, geo, ps, s0) {
        NoFailureTail(ls, geo, ps, s0);
      }
      if !a.Fail? {
        var s1 := if a == Shot then s0 + 1 else s0;
        var o1 := if a.Pick? then o0 + [Obs(s0, a.geophone, a.seconds)] else o0;
        assert Scan(ls, geo, ps, s0, o0) == Scan(ls[1..], geo, ps, s1, o1);
        ScanSucceeds(ls[1..], geo, ps, s1, o1);
        if Scan(ls[1..], geo, ps, s1, o1).Ok? {
          NoFailureCons(ls, geo, ps, s0);
        }
      }
    }
  }

  /**
   * Over three-field lines, a successful scan ends with the counter raised by the number
   * of shot markers and the observation list grown by one row per geophone pick.
   */
  lemma {:induction false} ScanCounts(ls: seq<seq<Tok>>, geo: Geometry, ps: real, s0: nat, o0: seq<Obs>)
    requires AllRecords(ls)
    requires Scan(ls, geo, ps, s0, o0).Ok?
    ensures Scan(ls, geo, ps, s0, o0).value.shot == s0 + CountShots(ls)
    ensures |Scan(ls, geo, ps, s0, o0).value.obs| == |o0| + CountPicks(ls)
  {
    if ls != [] {
      var a := Classify(ls[0], geo, ps, s0);
      var s1 := if a == Shot then s0 + 1 else s0;
      var o1 := if a.Pick? then o0 + [Obs(s0, a.geophone, a.seconds)] else o0;
      assert Scan(ls, geo, ps, s0, o0) == Scan(ls[1..], geo, ps, s1, o1);
      ScanCounts(ls[1..], geo, ps, s1, o1);
    }
  }

  /**
   * Observations keep input order: in a successful scan over three-field lines, the
   * pick on line j becomes the observation right after those of the earlier picks, and it
   * carries the number of shot markers before it as its shot number.
   */
  lemma {:induction false} ScanObservation(ls: seq<seq<Tok>>, geo: Geometry, ps: real, s0: nat, o0: seq<Obs>, j: nat)
    requires AllRecords(ls)
    requires Scan(ls, geo, ps, s0, o0).Ok?
    requires j < |ls| && IsPickLine(ls[j])
    ensures Classify(ls[j], geo, ps, s0 + CountShots(ls[..j])).Pick?
    ensures |o0| + CountPicks(ls[..j]) < |Scan(ls, geo, ps, s0, o0).value.obs|
    ensures
      var a := Classify(ls[j], geo, ps, s0 + CountShots(ls[..j]));
      Scan(ls, geo, ps, s0, o0).value.obs[|o0| + CountPicks(ls[..j])] ==
        Obs(s0 + CountShots(ls[..j]), a.geophone, a.seconds)
  {
    var a := Classify(ls[0], geo, ps, s0);
    var s1 := if a == Shot then s0 + 1 else s0;
    var o1 := if a.Pick? then o0 + [Obs(s0, a.geophone, a.seconds)] else o0;
    assert Scan(ls, geo, ps, s0, o0) == Scan(ls[1..], geo, ps, s1, o1);
    if j == 0 {
      assert ls[..0] == [];
    } else {
      CountsOfPrefix(ls, j);
      ScanObservation(ls[1..], geo, ps, s1, o1, j - 1);
    }
  }

  /**
   * In a successful scan over three-field lines, the shot marker on line j lies at
   * `first_shot + k * shot_spacing`, where k counts the shot markers before it.
   */
  lemma ScanShotPosition(ls: seq<seq<Tok>>, geo: Geometry, ps: real, s0: nat, o0: seq<Obs>, j: nat)
    requires AllRecords(ls)
    requires Scan(ls, geo, ps, s0, o0).Ok?
    requires j < |ls| && IsShotLine(ls[j])
    ensures AsFloat(ls[j][0]).Some? && geo.shotSpacing != 0.0
    ensures AsFloat(ls[j][0]).value == geo.ShotPosition(s0 + CountShots(ls[..j]))
  {
    ScanSucceeds(ls, geo, ps, s0, o0);
    ShotMarker(ls[j], geo, ps, s0 + CountShots(ls[..j]));
  }

  /** With a positive phone spacing, every observation a scan adds has an index in range. */
  lemma {:induction false} ScanIndicesInRange(ls: seq<seq<Tok>>, geo: Geometry, ps: real, s0: nat, o0: seq<Obs>)
    requires ps > 0.0
    requires Scan(ls, geo, ps, s0, o0).Ok?
    ensures forall i :: |o0| <= i < |Scan(ls, geo, ps, s0, o0).value.obs| ==>
      0 <= Scan(ls, geo, ps, s0, o0).value.obs[i].geophone <= Trunc((geo.lastGeophone - geo.firstGeophone) / ps)
  {
    if ls != [] {
      var a := Classify(ls[0], geo, ps, s0);
      if a.Shot? || a.Skip? {
        ScanIndicesInRange(ls[1..], geo, ps, if a == Shot then s0 + 1 else s0, o0);
      } else if a.Pick? {
        PickIndexInRange(ls[0], geo, ps, s0);
        var o1 := o0 + [Obs(s0, a.geophone, a.seconds)];
        ScanIndicesInRange(ls[1..], geo, ps, s0, o1);
        assert o1 <= Scan(ls, geo, ps, s0, o0).value.obs;
      }
    }
  }

  /** The end-of-observations line hides everything after it: those lines never matter. */
  lemma {:induction false} ScanTerminatorCuts(pre: seq<seq<Tok>>, t: seq<Tok>, rest: seq<seq<Tok>>,
                                              geo: Geometry, ps: real, s0: nat, o0: seq<Obs>)
    requires IsTerminator(t)
    ensures Scan(pre + [t] + rest, geo, ps, s0, o0) == Scan(pre, geo, ps, s0, o0)
  {
    var whole := pre + [t] + rest;
    if pre == [] {
      assert whole[0] == t;
    } else {
      assert whole[0] == pre[0] && whole[1..] == pre[1..] + [t] + rest;
      match Classify(pre[0], geo, ps, s0)
      case Shot => ScanTerminatorCuts(pre[1..], t, rest, geo, ps, s0 + 1, o0);
      case Pick(g, sec) => ScanTerminatorCuts(pre[1..], t, rest, geo, ps, s0, o0 + [Obs(s0, g, sec)]);
      case Skip => ScanTerminatorCuts(pre[1..], t, rest, geo, ps, s0, o0);
      case Stop =>
      case Fail(_) =>
    }
  }

  /** A prefix of three-field lines is scanned first; the scan then continues from its state. */
  lemma {:induction false} ScanSplit(pre: seq<seq<Tok>>, post: seq<seq<Tok>>,
                                     geo: Geometry, ps: real, s0: nat, o0: seq<Obs>)
    requires AllRecords(pre)
    ensures Scan(pre + post, geo, ps, s0, o0) ==
      match Scan(pre, geo, ps, s0, o0)
      case Err(e) => Err(e)
      case Ok(st) => Scan(post, geo, ps, st.shot, st.obs)
  {
    if pre == [] {
      assert pre + post == post;
    } else {
      assert (pre + post)[0] == pre[0] && (pre + post)[1..] == pre[1..] + post;
      assert AllRecords(pre[1..]);
      match Classify(pre[0], geo, ps, s0)
      case Shot => ScanSplit(pre[1..], post, geo, ps, s0 + 1, o0);
      case Pick(g, sec) => ScanSplit(pre[1..], post, geo, ps, s0, o0 + [Obs(s0, g, sec)]);
      case Skip => ScanSplit(pre[1..], post, geo, ps, s0, o0);
      case Stop =>
      case Fail(_) =>
    }
  }
}
