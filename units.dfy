/** Optional unit conversion at the end of the extraction: pressure from Pa to hPa and
    temperature from K to °C, driven by the descriptor list (`get_mosmix_data`, the
    `pa_to_hpa` / `k_to_c` loop). The descriptors are updated in place. */
module Units {
  import opened Wrappers
  import opened Strings
  import opened Table
  import ParameterCatalog

  type Descriptor = ParameterCatalog.Descriptor

  const Unit := "UnitOfMeasurement"
  const Code := "ShortName"

  /** The table and the descriptors converted so far. */
  datatype Converted = Converted(frame: Frame, params: seq<Descriptor>)

  /** Convert the numbers of the descriptor's column and relabel its unit. */
  function Rescale(f: Frame, d: Descriptor, conv: real -> real, unit: string): Result<(Frame, Descriptor), TableError>
  {
    if Code !in d then Err(MissingKey(Code))
    else
      var col :- Get(f, d[Code]);
      Ok((Put(f, d[Code], MapNumbers(col, conv)), d[Unit := unit]))
  }

  /** One iteration of the loop: the pressure test, then the temperature test on the
      descriptor as the first test left it. */
  function ConvertOne(f: Frame, d: Descriptor, paToHpa: bool, kToC: bool): Result<(Frame, Descriptor), TableError>
  {
    var p :- if !paToHpa then Ok((f, d))
             else if Unit !in d then Err(MissingKey(Unit))
             else if d[Unit] == "Pa" then Rescale(f, d, PaToHpa, "hPa")
             else Ok((f, d));
    if !kToC then Ok(p)
    else if Unit !in p.1 then Err(MissingKey(Unit))
    else if p.1[Unit] != "K" then Ok(p)
    else if Code !in p.1 then Err(MissingKey(Code))
    else if StartsWith(p.1[Code], "E_") then Ok(p)
    else Rescale(p.0, p.1, KelvinToCelsius, "°C")
  }

  function ConvertStep(c: Converted, d: Descriptor, paToHpa: bool, kToC: bool): Result<Converted, TableError>
  {
    var p :- ConvertOne(c.frame, d, paToHpa, kToC);
    Ok(Converted(p.0, c.params + [p.1]))
  }

  function ConvertStepFn(paToHpa: bool, kToC: bool): (Converted, Descriptor) -> Result<Converted, TableError>
  {
    (c, d) => ConvertStep(c, d, paToHpa, kToC)
  }

  function ConvertAll(f: Frame, ds: seq<Descriptor>, paToHpa: bool, kToC: bool): Result<Converted, TableError>
  {
    FoldResult(Converted(f, []), ds, ConvertStepFn(paToHpa, kToC))
  }

  /** The conversion loop, updating each descriptor where it stands in the list. */
  method ConvertUnits(frame: Frame, descs: seq<Descriptor>, paToHpa: bool, kToC: bool)
    returns (r: Result<Converted, TableError>)
    ensures r == ConvertAll(frame, descs, paToHpa, kToC)
  {
    var f := frame;
    var params := descs;
    var i := 0;
    while i < |params|
      invariant 0 <= i <= |params| && |params| == |descs|
      invariant forall k :: i <= k < |params| ==> params[k] == descs[k]
      invariant ConvertAll(frame, descs[..i], paToHpa, kToC) == Ok(Converted(f, params[..i]))
    {
      var p := ConvertOne(f, params[i], paToHpa, kToC);
      ConvertLoopStep(frame, descs, i, paToHpa, kToC, Converted(f, params[..i]), p);
      if p.Err? {
        return Err(p.error);
      }
      f := p.value.0;
      assert params[i := p.value.1][..i + 1] == params[..i] + [p.value.1];
      params := params[i := p.value.1];
      i := i + 1;
    }
    assert descs[..i] == descs && params[..i] == params;
    r := Ok(Converted(f, params));
  }

  /** One iteration of the loop, and the end of it when the iteration fails. */
  lemma ConvertLoopStep(frame: Frame, descs: seq<Descriptor>, i: nat, paToHpa: bool, kToC: bool, c: Converted,
                        p: Result<(Frame, Descriptor), TableError>)
    requires i < |descs| && ConvertAll(frame, descs[..i], paToHpa, kToC) == Ok(c)
    requires p == ConvertOne(c.frame, descs[i], paToHpa, kToC)
    ensures p.Err? ==> ConvertAll(frame, descs, paToHpa, kToC) == Err(p.error)
    ensures p.Ok? ==> ConvertAll(frame, descs[..i + 1], paToHpa, kToC) == Ok(Converted(p.value.0, c.params + [p.value.1]))
  {
    FoldResultStep(Converted(frame, []), descs, i, ConvertStepFn(paToHpa, kToC));
    if p.Err? {
      FoldResultAbsorbs(Converted(frame, []), descs, i + 1, ConvertStepFn(paToHpa, kToC));
    }
  }

  lemma RescaleKeepsShape(f: Frame, d: Descriptor, conv: real -> real, unit: string)
    requires Valid(f) && Rescale(f, d, conv, unit).Ok?
    ensures var g := Rescale(f, d, conv, unit).value.0;
            Valid(g) && g.rows == f.rows && Keys(g.columns) == Keys(f.columns)
  {
    var col := Get(f, d[Code]).value;
    var i :| 0 <= i < |f.columns| && f.columns[i] == (d[Code], col);
    assert d[Code] == Keys(f.columns)[i];
    PutExisting(f, d[Code], MapNumbers(col, conv));
  }

  /** Whatever the flags, the conversion keeps the table valid, its length and its column
      names. */
  lemma {:induction false} ConvertKeepsShape(f: Frame, ds: seq<Descriptor>, paToHpa: bool, kToC: bool)
    requires Valid(f) && ConvertAll(f, ds, paToHpa, kToC).Ok?
    ensures var g := ConvertAll(f, ds, paToHpa, kToC).value.frame;
            Valid(g) && g.rows == f.rows && Keys(g.columns) == Keys(f.columns)
  {
    if ds != [] {
      var init := ds[..|ds| - 1];
      var d := ds[|ds| - 1];
      var prev := FoldResult(Converted(f, []), init, ConvertStepFn(paToHpa, kToC));
      assert prev.Ok?;
      ConvertKeepsShape(f, init, paToHpa, kToC);
      assert ConvertAll(f, ds, paToHpa, kToC) == ConvertStep(prev.value, d, paToHpa, kToC);
      var h := prev.value.frame;
      var p := if !paToHpa then Ok((h, d))
               else if Unit !in d then Err(MissingKey(Unit))
               else if d[Unit] == "Pa" then Rescale(h, d, PaToHpa, "hPa")
               else Ok((h, d));
      assert p.Ok?;
      if paToHpa && d[Unit] == "Pa" {
        RescaleKeepsShape(h, d, PaToHpa, "hPa");
      }
      var q := p.value;
      if kToC && q.1[Unit] == "K" && !StartsWith(q.1[Code], "E_") {
        RescaleKeepsShape(q.0, q.1, KelvinToCelsius, "°C");
      }
    }
  }

  /** The descriptor a conversion by one flag acts on, for the column `key`. */
  predicate Listed(d: Descriptor, key: string, pressure: bool)
  {
    && Code in d && d[Code] == key && Unit in d
    && (if pressure then d[Unit] == "Pa" else d[Unit] == "K" && !StartsWith(key, "E_"))
  }

  /** How many descriptors of the list act on the column `key`. */
  function Listings(ds: seq<Descriptor>, key: string, pressure: bool): nat
  {
    if ds == [] then 0
    else Listings(ds[..|ds| - 1], key, pressure) + (if Listed(ds[|ds| - 1], key, pressure) then 1 else 0)
  }

  function Iterate(conv: real -> real, n: nat, x: real): real
  {
    if n == 0 then x else conv(Iterate(conv, n - 1, x))
  }

  /** `now` is `orig` with `conv` applied `n` times to every number; other cells unchanged. */
  ghost predicate ConvertedTimes(orig: Column, now: Column, conv: real -> real, n: nat)
  {
    |now| == |orig| &&
    forall i :: 0 <= i < |orig| ==> now[i] == (if orig[i].Num? then Num(Iterate(conv, n, orig[i].x)) else orig[i])
  }

  function Conversion(pressure: bool): real -> real
  {
    if pressure then PaToHpa else KelvinToCelsius
  }

  /** Replacing a column keeps the names, the validity and every other column. */
  lemma PutExisting(f: Frame, key: string, col: Column)
    requires Valid(f) && HasColumn(f, key) && |col| == f.rows
    ensures var g := Put(f, key, col);
            && Valid(g) && g.rows == f.rows && |g.columns| == |f.columns| && Keys(g.columns) == Keys(f.columns)
            && forall j :: 0 <= j < |f.columns| ==>
                 g.columns[j] == if f.columns[j].0 == key then (key, col) else f.columns[j]
  {
    PutFacts(f, key, col);
    var g := Put(f, key, col);
    var k := IndexOf(f.columns, key);
    assert Keys(g.columns) == Keys(f.columns);
  }

  /** With one flag set, one iteration converts the descriptor's column when the
      descriptor lists it, and leaves the table alone otherwise. */
  lemma ConvertOneSingle(h: Frame, d: Descriptor, pressure: bool)
    requires ConvertOne(h, d, pressure, !pressure).Ok?
    ensures var g := ConvertOne(h, d, pressure, !pressure).value.0;
            if Code in d && Listed(d, d[Code], pressure)
            then HasColumn(h, d[Code]) && g == Put(h, d[Code], MapNumbers(Get(h, d[Code]).value, Conversion(pressure)))
            else g == h
  {
  }

  /** The running state of the single-flag loop: `h` is `orig` with every column converted
      once per descriptor of `n` that lists it. */
  ghost predicate ConvertedSoFar(orig: Frame, h: Frame, pressure: bool, n: seq<Descriptor>)
  {
    && Valid(h) && Valid(orig) && h.rows == orig.rows && |h.columns| == |orig.columns|
    && Keys(h.columns) == Keys(orig.columns)
    && forall j :: 0 <= j < |orig.columns| ==>
         ConvertedTimes(orig.columns[j].1, h.columns[j].1, Conversion(pressure), Listings(n, orig.columns[j].0, pressure))
  }

  lemma ConvertStepSingle(h: Frame, d: Descriptor, pressure: bool, orig: Frame, n: seq<Descriptor>)
    requires ConvertedSoFar(orig, h, pressure, n)
    requires ConvertOne(h, d, pressure, !pressure).Ok?
    ensures ConvertedSoFar(orig, ConvertOne(h, d, pressure, !pressure).value.0, pressure, n + [d])
  {
    ConvertOneSingle(h, d, pressure);
    assert (n + [d])[..|n + [d]| - 1] == n;
    if Code in d && Listed(d, d[Code], pressure) {
      ConvertListed(h, d, pressure, orig, n);
    } else {
      ConvertUnlisted(h, d, pressure, orig, n);
    }
  }

  lemma ConvertListed(h: Frame, d: Descriptor, pressure: bool, orig: Frame, n: seq<Descriptor>)
    requires ConvertedSoFar(orig, h, pressure, n)
    requires Code in d && Listed(d, d[Code], pressure) && HasColumn(h, d[Code])
    ensures ConvertedSoFar(orig, Put(h, d[Code], MapNumbers(Get(h, d[Code]).value, Conversion(pressure))), pressure, n + [d])
  {
    assert (n + [d])[..|n + [d]| - 1] == n;
    var key := d[Code];
    var col := Get(h, key).value;
    var g := Put(h, key, MapNumbers(col, Conversion(pressure)));
    PutExisting(h, key, MapNumbers(col, Conversion(pressure)));
    forall j | 0 <= j < |orig.columns|
      ensures ConvertedTimes(orig.columns[j].1, g.columns[j].1, Conversion(pressure), Listings(n + [d], orig.columns[j].0, pressure))
    {
      assert h.columns[j].0 == orig.columns[j].0 by {
        assert Keys(h.columns)[j] == Keys(orig.columns)[j];
      }
      if orig.columns[j].0 == key {
        assert h.columns[j] == (key, col);
        StepConverted(orig.columns[j].1, h.columns[j].1, Conversion(pressure), Listings(n, key, pressure));
      } else {
        assert !Listed(d, orig.columns[j].0, pressure);
      }
    }
  }

  lemma ConvertUnlisted(h: Frame, d: Descriptor, pressure: bool, orig: Frame, n: seq<Descriptor>)
    requires ConvertedSoFar(orig, h, pressure, n)
    requires !(Code in d && Listed(d, d[Code], pressure))
    ensures ConvertedSoFar(orig, h, pressure, n + [d])
  {
    assert (n + [d])[..|n + [d]| - 1] == n;
    forall j | 0 <= j < |orig.columns|
      ensures Listings(n + [d], orig.columns[j].0, pressure) == Listings(n, orig.columns[j].0, pressure)
    {
      assert !Listed(d, orig.columns[j].0, pressure);
    }
  }

  /** With one flag set, the table keeps its shape and every column is converted once per
      descriptor that lists it: a code listed twice is converted twice. */
  lemma {:induction false} ConvertedPerListing(f: Frame, ds: seq<Descriptor>, pressure: bool)
    requires Valid(f) && ConvertAll(f, ds, pressure, !pressure).Ok?
    ensures var g := ConvertAll(f, ds, pressure, !pressure).value.frame;
            && Valid(g) && g.rows == f.rows && |g.columns| == |f.columns| && Keys(g.columns) == Keys(f.columns)
            && forall j :: 0 <= j < |f.columns| ==>
                 ConvertedTimes(f.columns[j].1, g.columns[j].1, Conversion(pressure), Listings(ds, f.columns[j].0, pressure))
  {
    ConvertedPerListingState(f, ds, pressure);
  }

  lemma {:induction false} ConvertedPerListingState(f: Frame, ds: seq<Descriptor>, pressure: bool)
    requires Valid(f) && ConvertAll(f, ds, pressure, !pressure).Ok?
    ensures ConvertedSoFar(f, ConvertAll(f, ds, pressure, !pressure).value.frame, pressure, ds)
  {
    if ds == [] {
      forall j | 0 <= j < |f.columns|
        ensures ConvertedTimes(f.columns[j].1, f.columns[j].1, Conversion(pressure), 0)
      {
      }
    } else {
      var init := ds[..|ds| - 1];
      var d := ds[|ds| - 1];
      var prev := FoldResult(Converted(f, []), init, ConvertStepFn(pressure, !pressure));
      FoldResultLast(Converted(f, []), ds, ConvertStepFn(pressure, !pressure));
      ConvertedPerListingState(f, init, pressure);
      assert init + [d] == ds;
      ConvertStepSingle(prev.value.frame, d, pressure, f, init);
    }
  }

  lemma StepConverted(orig: Column, now: Column, conv: real -> real, n: nat)
    requires ConvertedTimes(orig, now, conv, n)
    ensures ConvertedTimes(orig, MapNumbers(now, conv), conv, n + 1)
  {
  }

  /** The worked values: 101325 Pa is 1013.25 hPa and 273.15 K is 0 °C; listed twice,
      101325 Pa comes out as 10.1325. */
  lemma ConversionExamples()
    ensures Iterate(Conversion(true), 1, 101325.0) == 1013.25
    ensures Iterate(Conversion(false), 1, 273.15) == 0.0
    ensures Iterate(Conversion(true), 2, 101325.0) == 10.1325
  {
  }

  /** What a conversion does to the descriptor list: units relabelled, nothing else. */
  function Relabel(d: Descriptor, paToHpa: bool, kToC: bool): Descriptor
  {
    var d1 := if paToHpa && Unit in d && d[Unit] == "Pa" then d[Unit := "hPa"] else d;
    if kToC && Unit in d1 && d1[Unit] == "K" && Code in d1 && !StartsWith(d1[Code], "E_") then d1[Unit := "°C"] else d1
  }

  function RelabelFn(paToHpa: bool, kToC: bool): Descriptor -> seq<Descriptor>
  {
    d => [Relabel(d, paToHpa, kToC)]
  }

  function ParamsOf(c: Converted): seq<Descriptor>
  {
    c.params
  }

  lemma DescriptorsRelabelled(f: Frame, ds: seq<Descriptor>, paToHpa: bool, kToC: bool)
    requires ConvertAll(f, ds, paToHpa, kToC).Ok?
    ensures var ps := ConvertAll(f, ds, paToHpa, kToC).value.params;
            |ps| == |ds| && forall i :: 0 <= i < |ds| ==> ps[i] == Relabel(ds[i], paToHpa, kToC)
  {
    var step := ConvertStepFn(paToHpa, kToC);
    forall c, d | step(c, d).Ok?
      ensures ParamsOf(step(c, d).value) == ParamsOf(c) + RelabelFn(paToHpa, kToC)(d)
    {
      ConvertStepRelabels(c, d, paToHpa, kToC);
    }
    FoldResultTrace(Converted(f, []), ds, step, ParamsOf, RelabelFn(paToHpa, kToC));
    RelabelledList(ds, paToHpa, kToC);
  }

  lemma ConvertStepRelabels(c: Converted, d: Descriptor, paToHpa: bool, kToC: bool)
    requires ConvertStep(c, d, paToHpa, kToC).Ok?
    ensures ConvertStep(c, d, paToHpa, kToC).value.params == c.params + [Relabel(d, paToHpa, kToC)]
  {
  }

  lemma {:induction false} RelabelledList(ds: seq<Descriptor>, paToHpa: bool, kToC: bool)
    ensures var ps := Flatten(ds, RelabelFn(paToHpa, kToC));
            |ps| == |ds| && forall i :: 0 <= i < |ds| ==> ps[i] == Relabel(ds[i], paToHpa, kToC)
  {
    if ds != [] {
      RelabelledList(ds[..|ds| - 1], paToHpa, kToC);
    }
  }
}
