/** The station registry: fixed-width parsing of a registry line (`Station.__init__`) and the
    running-best scan for the nearest station (`get_station_id`). */
module StationLocator {
  import opened Wrappers
  import opened Strings

  /** A station. A coordinate is None when `float()` failed on it or on an earlier field:
      the constructor then stops assigning, and the remaining attributes do not exist. */
  datatype Station = Station(id: string, isao: string, name: string,
                             lat: Option<real>, long: Option<real>, elev: Option<real>)

  datatype LocateError = NoStationFound | MissingCoordinates

  /** The text of the exception the scan raises. */
  function Message(e: LocateError): string
  {
    match e
    case NoStationFound => "no station found"
    case MissingCoordinates => "'Station' object has no attribute"
  }

  /** `Station(line)`: slices [0:5], [6:10], [11:31], [32:37], [39:46], [47:54]; `parseFloat`
      is Python's `float()`, None where it raises. */
  function ParseStation(line: string, parseFloat: string -> Option<real>): (st: Station)
    ensures st.id == Slice(line, 0, 5) && st.isao == Slice(line, 6, 10) && st.name == Slice(line, 11, 31)
    ensures st.lat == parseFloat(Slice(line, 32, 37))
    ensures st.long == (if st.lat.None? then None else parseFloat(Slice(line, 39, 46)))
    ensures st.elev == (if st.long.None? then None else parseFloat(Slice(line, 47, 54)))
  {
    var lat := parseFloat(Slice(line, 32, 37));
    var long := if lat.None? then None else parseFloat(Slice(line, 39, 46));
    var elev := if long.None? then None else parseFloat(Slice(line, 47, 54));
    Station(Slice(line, 0, 5), Slice(line, 6, 10), Slice(line, 11, 31), lat, long, elev)
  }

  /** The stations of the registry, in order: one per line that starts with a digit. */
  function Stations(lines: seq<string>, parseFloat: string -> Option<real>): (sts: seq<Station>)
    ensures |sts| <= |lines|
  {
    if lines == [] then []
    else
      var last := lines[|lines| - 1];
      Stations(lines[..|lines| - 1], parseFloat)
        + (if StartsWithDigit(last) then [ParseStation(last, parseFloat)] else [])
  }

  predicate HasCoordinates(st: Station)
  {
    st.lat.Some? && st.long.Some?
  }

  function Abs(x: real): real { if x < 0.0 then -x else x }

  /** `abs(haversine_distance(station, lat, long))`: `dist` is the great-circle distance from
      a latitude and longitude to the query point. */
  function Distance(st: Station, dist: (real, real) -> real): real
    requires HasCoordinates(st)
  {
    Abs(dist(st.lat.value, st.long.value))
  }

  /** The distance the scan starts from. */
  const Unmeasured: real := 999999.0

  /** What the scan promises about its answer `(best, d)` for stations `sts`: the first
      station is the default and is never measured; among the later stations the earliest
      whose distance is the smallest wins, provided that distance is below 999999. */
  ghost predicate IsNearest(sts: seq<Station>, dist: (real, real) -> real, best: Station, d: real)
    requires |sts| > 0 && forall j :: 1 <= j < |sts| ==> HasCoordinates(sts[j])
  {
    && (forall j :: 1 <= j < |sts| ==> d <= Distance(sts[j], dist))
    && ((best == sts[0] && d == Unmeasured) ||
        (exists k :: 1 <= k < |sts| && best == sts[k] && d == Distance(sts[k], dist) && d < Unmeasured &&
                     forall j :: 1 <= j < k ==> Distance(sts[j], dist) > d))
  }

  /** The scan's running state after the stations `sts`: the best station so far is
      `sts[k]`, at distance `d`. */
  ghost predicate Scanned(sts: seq<Station>, dist: (real, real) -> real, best: Station, k: nat, d: real)
  {
    && (forall j :: 1 <= j < |sts| ==> HasCoordinates(sts[j]))
    && k < |sts| && best == sts[k]
    && (k == 0 ==> d == Unmeasured)
    && (k > 0 ==> d == Distance(sts[k], dist) < Unmeasured)
    && (forall j :: 1 <= j < |sts| ==> d <= Distance(sts[j], dist))
    && (forall j :: 1 <= j < k ==> Distance(sts[j], dist) > d)
  }

  lemma ScanFirst(st: Station, dist: (real, real) -> real)
    ensures Scanned([st], dist, st, 0, Unmeasured)
  {
  }

  /** A later station no nearer than the best keeps the best. */
  lemma ScanKeep(sts: seq<Station>, dist: (real, real) -> real, best: Station, k: nat, d: real, st: Station)
    requires Scanned(sts, dist, best, k, d) && HasCoordinates(st) && !(Distance(st, dist) < d)
    ensures Scanned(sts + [st], dist, best, k, d)
  {
    var t := sts + [st];
    assert forall j :: 0 <= j < |sts| ==> t[j] == sts[j];
  }

  /** A later station strictly nearer than the best becomes the best. */
  lemma ScanImprove(sts: seq<Station>, dist: (real, real) -> real, best: Station, k: nat, d: real, st: Station)
    requires Scanned(sts, dist, best, k, d) && HasCoordinates(st) && Distance(st, dist) < d
    ensures Scanned(sts + [st], dist, st, |sts|, Distance(st, dist))
  {
    var t := sts + [st];
    assert forall j :: 0 <= j < |sts| ==> t[j] == sts[j];
  }

  /** At the end of the scan its state is the promised answer. */
  lemma ScanAnswer(sts: seq<Station>, dist: (real, real) -> real, best: Station, k: nat, d: real)
    requires Scanned(sts, dist, best, k, d)
    ensures |sts| > 0 && forall j :: 1 <= j < |sts| ==> HasCoordinates(sts[j])
    ensures IsNearest(sts, dist, best, d)
  {
  }

  /** `get_station_id`, over the lines the registry yields before its end. */
  method FindNearest(lines: seq<string>, parseFloat: string -> Option<real>, dist: (real, real) -> real)
    returns (r: Result<(Station, real), LocateError>)
    ensures r == Err(NoStationFound) <==> Stations(lines, parseFloat) == []
    ensures r == Err(MissingCoordinates) <==>
              Stations(lines, parseFloat) != [] &&
              exists j :: 1 <= j < |Stations(lines, parseFloat)| && !HasCoordinates(Stations(lines, parseFloat)[j])
    ensures r.Ok? ==> var sts := Stations(lines, parseFloat);
              |sts| > 0 && (forall j :: 1 <= j < |sts| ==> HasCoordinates(sts[j])) &&
              IsNearest(sts, dist, r.value.0, r.value.1)
  {
    var found: Option<Station> := None;
    var bestDistance := Unmeasured;
    ghost var bestIndex: nat := 0;
    var i := 0;
    while i < |lines|
      invariant 0 <= i <= |lines|
      invariant found.None? <==> Stations(lines[..i], parseFloat) == []
      invariant found.None? ==> bestIndex == 0 && bestDistance == Unmeasured
      invariant found.Some? ==> Scanned(Stations(lines[..i], parseFloat), dist, found.value, bestIndex, bestDistance)
    {
      var line := lines[i];
      ghost var sts := Stations(lines[..i], parseFloat);
      StationsStep(lines, i, parseFloat);
      if StartsWithDigit(line) {
        var station := ParseStation(line, parseFloat);
        if found.None? {
          found := Some(station);
          ScanFirst(station, dist);
          assert sts + [station] == [station];
          i := i + 1;
          continue;
        }
        if station.lat.None? || station.long.None? {
          r := Err(MissingCoordinates);
          MissingWitness(lines, i, parseFloat);
          return;
        }
        var d := Abs(dist(station.lat.value, station.long.value));
        if d < bestDistance {
          ScanImprove(sts, dist, found.value, bestIndex, bestDistance, station);
          bestDistance := d;
          found := Some(station);
          bestIndex := |sts|;
        } else {
          ScanKeep(sts, dist, found.value, bestIndex, bestDistance, station);
        }
      }
      i := i + 1;
    }
    assert lines[..i] == lines;
    if found.None? {
      return Err(NoStationFound);
    }
    ScanAnswer(Stations(lines, parseFloat), dist, found.value, bestIndex, bestDistance);
    r := Ok((found.value, bestDistance));
  }

  lemma StationsStep(lines: seq<string>, i: nat, parseFloat: string -> Option<real>)
    requires i < |lines|
    ensures Stations(lines[..i + 1], parseFloat) ==
            Stations(lines[..i], parseFloat) + (if StartsWithDigit(lines[i]) then [ParseStation(lines[i], parseFloat)] else [])
  {
    assert lines[..i + 1][..i] == lines[..i];
  }

  /** A station without coordinates after the first is a witness for the whole registry. */
  lemma MissingWitness(lines: seq<string>, i: nat, parseFloat: string -> Option<real>)
    requires i < |lines| && StartsWithDigit(lines[i]) && !HasCoordinates(ParseStation(lines[i], parseFloat))
    requires Stations(lines[..i], parseFloat) != []
    ensures Stations(lines, parseFloat) != []
    ensures exists j :: 1 <= j < |Stations(lines, parseFloat)| && !HasCoordinates(Stations(lines, parseFloat)[j])
  {
    StationsStep(lines, i, parseFloat);
    StationsGrow(lines, i + 1, parseFloat);
    var j := |Stations(lines[..i], parseFloat)|;
    assert Stations(lines[..i + 1], parseFloat)[j] == ParseStation(lines[i], parseFloat);
    assert Stations(lines, parseFloat)[j] == ParseStation(lines[i], parseFloat);
  }

  /** The stations of a prefix of the registry are a prefix of its stations. */
  lemma {:induction false} StationsGrow(lines: seq<string>, n: nat, parseFloat: string -> Option<real>)
    requires n <= |lines|
    ensures var sts := Stations(lines, parseFloat); var pre := Stations(lines[..n], parseFloat);
            |pre| <= |sts| && sts[..|pre|] == pre
    decreases |lines| - n
  {
    if n < |lines| {
      StationsGrow(lines, n + 1, parseFloat);
      assert lines[..n + 1][..n] == lines[..n];
      var pre := Stations(lines[..n], parseFloat);
      var next := Stations(lines[..n + 1], parseFloat);
      assert next[..|pre|] == pre;
    } else {
      assert lines[..n] == lines;
    }
  }

  /** Two answers that both meet the promise are the same answer: the promise determines
      the result. */
  lemma NearestIsUnique(sts: seq<Station>, dist: (real, real) -> real, b1: Station, d1: real, b2: Station, d2: real)
    requires |sts| > 0 && forall j :: 1 <= j < |sts| ==> HasCoordinates(sts[j])
    requires IsNearest(sts, dist, b1, d1) && IsNearest(sts, dist, b2, d2)
    ensures b1 == b2 && d1 == d2
  {
  }

  /** With a single station in the registry, that station is the answer, unmeasured. */
  lemma SingleStationIsUnmeasured(sts: seq<Station>, dist: (real, real) -> real, best: Station, d: real)
    requires |sts| == 1 && IsNearest(sts, dist, best, d)
    ensures best == sts[0] && d == Unmeasured
  {
  }

  /** Only lines that start with a digit become stations, and the station's identifier is
      exactly the first five characters of its line. */
  lemma {:induction false} StationsFromDigitLines(lines: seq<string>, parseFloat: string -> Option<real>, k: nat)
    requires k < |Stations(lines, parseFloat)|
    ensures exists i :: 0 <= i < |lines| && StartsWithDigit(lines[i]) &&
                        Stations(lines, parseFloat)[k] == ParseStation(lines[i], parseFloat) &&
                        Stations(lines, parseFloat)[k].id == lines[i][..Min(5, |lines[i]|)]
  {
    var front := lines[..|lines| - 1];
    var last := lines[|lines| - 1];
    if k < |Stations(front, parseFloat)| {
      StationsFromDigitLines(front, parseFloat, k);
      var i :| 0 <= i < |front| && StartsWithDigit(front[i]) &&
               Stations(front, parseFloat)[k] == ParseStation(front[i], parseFloat) &&
               Stations(front, parseFloat)[k].id == front[i][..Min(5, |front[i]|)];
      assert front[i] == lines[i];
    } else {
      assert StartsWithDigit(last);
    }
  }
}
