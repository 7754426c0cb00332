/** Extraction of a MOSMIX forecast (`get_mosmix_data`): dataset selection, the issuer
    metadata, the time axis, the station's placemark, its forecast columns and their
    descriptors, the wind-direction column, the optional unit conversion and the summary. */
module Mosmix {
  import opened Wrappers
  import opened Strings
  import opened Xml
  import opened Table
  import Text
  import Cardinal
  import ParameterCatalog
  import Units

  type Descriptor = ParameterCatalog.Descriptor

  datatype MosmixError =
    | LoadFailed(reason: string)       // download, archive or XML parse raised
    | NoProductDefinition              // iterating the None that `find` returned
    | NoTimeSteps
    | MissingText(local: string)       // `.text` of None used as a string
    | MissingEntry(key: string)        // KeyError on the result dict
    | BadIssueTime(text: string)       // `strptime` raised
    | StationNotFound(id: string)
    | TableFailure(e: TableError)

  /** The text of the exception raised for a missing station. */
  function StationNotFoundMessage(id: string): string
  {
    "station " + id + " not found"
  }

  function Lift<T>(r: Result<T, TableError>): Result<T, MosmixError>
  {
    match r
    case Ok(v) => Ok(v)
    case Err(e) => Err(TableFailure(e))
  }

  // ---------------------------------------------------------------------------------------
  // Dataset selection

  const UrlShort := "https://opendata.dwd.de/weather/local_forecasts/mos/MOSMIX_S/all_stations/kml/MOSMIX_S_LATEST_240.kmz"
  const UrlLongHead := "https://opendata.dwd.de/weather/local_forecasts/mos/MOSMIX_L/single_stations/"
  const UrlLongMiddle := "/kml/MOSMIX_L_LATEST_"
  const UrlLongTail := ".kmz"

  datatype Dataset = Dataset(name: string, interval: string, url: string)

  /** `"S"` selects the short-range bundle for all stations; anything else the long-range
      bundle of the one station, whose URL names the station twice. */
  function SelectDataset(selector: string, stationId: string): (d: Dataset)
    ensures selector == "S" ==> d == Dataset("MOSMIX_S", "60", UrlShort)
    ensures selector != "S" ==> d.name == "MOSMIX_L" && d.interval == "360"
    ensures selector != "S" ==> d.url == UrlLongHead + stationId + UrlLongMiddle + stationId + UrlLongTail
  {
    if selector == "S" then Dataset("MOSMIX_S", "60", UrlShort)
    else Dataset("MOSMIX_L", "360", UrlLongHead + stationId + UrlLongMiddle + stationId + UrlLongTail)
  }

  // ---------------------------------------------------------------------------------------
  // Issuer metadata

  type Meta = map<string, string>

  /** One child of ProductDefinition: record its cleaned text under its local name; for
      IssueTime also `next_update`, using the interval then in the dict. */
  function MetadataStep(meta: Meta, c: Element, nextUpdate: (string, string) -> Option<string>): Result<Meta, MosmixError>
  {
    match c.text
    case None => Err(MissingText(c.local))
    case Some(t) =>
      var m := meta[c.local := Text.Normalize(t)];
      if c.local != "IssueTime" then Ok(m)
      else if "interval" !in m then Err(MissingEntry("interval"))
      else
        match nextUpdate(m["IssueTime"], m["interval"])
        case None => Err(BadIssueTime(m["IssueTime"]))
        case Some(u) => Ok(m["next_update" := u])
  }

  function MetadataStepFn(nextUpdate: (string, string) -> Option<string>): (Meta, Element) -> Result<Meta, MosmixError>
  {
    (m, c) => MetadataStep(m, c, nextUpdate)
  }

  method ReadMetadata(meta: Meta, children: seq<Element>, nextUpdate: (string, string) -> Option<string>)
    returns (r: Result<Meta, MosmixError>)
    ensures r == FoldResult(meta, children, MetadataStepFn(nextUpdate))
  {
    var m := meta;
    var i := 0;
    while i < |children|
      invariant 0 <= i <= |children|
      invariant FoldResult(meta, children[..i], MetadataStepFn(nextUpdate)) == Ok(m)
    {
      FoldResultStep(meta, children, i, MetadataStepFn(nextUpdate));
      var c := children[i];
      if c.text.None? {
        r := Err(MissingText(c.local));
        FoldResultAbsorbs(meta, children, i + 1, MetadataStepFn(nextUpdate));
        return;
      }
      m := m[c.local := Text.Normalize(c.text.value)];
      if c.local == "IssueTime" {
        if "interval" !in m {
          r := Err(MissingEntry("interval"));
          FoldResultAbsorbs(meta, children, i + 1, MetadataStepFn(nextUpdate));
          return;
        }
        var next := nextUpdate(m["IssueTime"], m["interval"]);
        if next.None? {
          r := Err(BadIssueTime(m["IssueTime"]));
          FoldResultAbsorbs(meta, children, i + 1, MetadataStepFn(nextUpdate));
          return;
        }
        m := m["next_update" := next.value];
      }
      i := i + 1;
    }
    assert children[..i] == children;
    r := Ok(m);
  }

  /** Every ProductDefinition child's local name becomes a key and no key is lost. */
  lemma {:induction false} MetadataKeys(meta: Meta, children: seq<Element>, nextUpdate: (string, string) -> Option<string>)
    requires FoldResult(meta, children, MetadataStepFn(nextUpdate)).Ok?
    ensures var m := FoldResult(meta, children, MetadataStepFn(nextUpdate)).value;
            && meta.Keys <= m.Keys
            && (forall i :: 0 <= i < |children| ==> children[i].local in m)
  {
    if children != [] {
      var init := children[..|children| - 1];
      var prev := FoldResult(meta, init, MetadataStepFn(nextUpdate));
      assert prev.Ok?;
      MetadataKeys(meta, init, nextUpdate);
      assert forall i :: 0 <= i < |init| ==> init[i] == children[i];
      assert FoldResult(meta, children, MetadataStepFn(nextUpdate)) == MetadataStep(prev.value, children[|children| - 1], nextUpdate);
    }
  }

  /** Once an IssueTime child was read, `next_update` is present. When it is the last
      IssueTime child and no later child is named `next_update` or `interval`, `next_update`
      is the next-update time of its cleaned text and the interval the dict ends with. */
  lemma {:induction false} MetadataNextUpdate(meta: Meta, children: seq<Element>, nextUpdate: (string, string) -> Option<string>, i: nat)
    requires FoldResult(meta, children, MetadataStepFn(nextUpdate)).Ok?
    requires i < |children| && children[i].local == "IssueTime"
    ensures "next_update" in FoldResult(meta, children, MetadataStepFn(nextUpdate)).value
    ensures (forall k :: i < k < |children| ==> children[k].local != "IssueTime" && children[k].local != "next_update" &&
                                                children[k].local != "interval") ==>
              var m := FoldResult(meta, children, MetadataStepFn(nextUpdate)).value;
              && children[i].text.Some? && "interval" in m
              && nextUpdate(Text.Normalize(children[i].text.value), m["interval"]) == Some(m["next_update"])
  {
    var init := children[..|children| - 1];
    var prev := FoldResult(meta, init, MetadataStepFn(nextUpdate));
    assert prev.Ok?;
    assert FoldResult(meta, children, MetadataStepFn(nextUpdate)) == MetadataStep(prev.value, children[|children| - 1], nextUpdate);
    if i < |children| - 1 {
      assert init[i] == children[i];
      assert forall k :: i < k < |init| ==> init[k] == children[k];
      MetadataNextUpdate(meta, init, nextUpdate, i);
    }
  }

  /** The values read from ProductDefinition are cleaned text, unless a later child wrote
      `next_update` over them. */
  lemma {:induction false} MetadataClean(meta: Meta, children: seq<Element>, nextUpdate: (string, string) -> Option<string>, i: nat)
    requires FoldResult(meta, children, MetadataStepFn(nextUpdate)).Ok?
    requires i < |children| && children[i].local != "next_update"
    requires forall k :: i < k < |children| ==> children[k].local != children[i].local
    ensures var m := FoldResult(meta, children, MetadataStepFn(nextUpdate)).value;
            children[i].text.Some? && children[i].local in m && m[children[i].local] == Text.Normalize(children[i].text.value)
  {
    MetadataKeys(meta, children, nextUpdate);
    var init := children[..|children| - 1];
    var c := children[|children| - 1];
    var prev := FoldResult(meta, init, MetadataStepFn(nextUpdate));
    assert prev.Ok?;
    assert FoldResult(meta, children, MetadataStepFn(nextUpdate)) == MetadataStep(prev.value, c, nextUpdate);
    if i < |children| - 1 {
      assert forall k :: 0 <= k < |init| ==> init[k] == children[k];
      MetadataClean(meta, init, nextUpdate, i);
      MetadataKeys(meta, init, nextUpdate);
    }
  }

  // ---------------------------------------------------------------------------------------
  // Time axis

  function TimeCell(e: Element): Cell
  {
    if e.text.Some? then Text(e.text.value) else Absent
  }

  /** The texts of the ForecastTimeSteps children, in document order. */
  method ReadTimeAxis(steps: seq<Element>) returns (time: Column)
    ensures |time| == |steps|
    ensures forall i :: 0 <= i < |steps| ==> time[i] == TimeCell(steps[i])
  {
    time := [];
    var i := 0;
    while i < |steps|
      invariant 0 <= i <= |steps| && |time| == i
      invariant forall k :: 0 <= k < i ==> time[k] == TimeCell(steps[k])
    {
      time := time + [TimeCell(steps[i])];
      i := i + 1;
    }
  }

  function TimeAxis(steps: seq<Element>): (time: Column)
    ensures |time| == |steps| && forall i :: 0 <= i < |steps| ==> time[i] == TimeCell(steps[i])
  {
    seq(|steps|, i requires 0 <= i < |steps| => TimeCell(steps[i]))
  }

  // ---------------------------------------------------------------------------------------
  // Station placemark

  predicate IsStationName(n: Node, stationId: string)
  {
    n.elem.local == "name" && n.elem.text == Some(stationId)
  }

  /** The first `name` element, in document order, whose text is the station id. */
  function StationNode(nodes: seq<Node>, stationId: string): (r: Option<Node>)
    ensures r.None? <==> forall k :: 0 <= k < |nodes| ==> !IsStationName(nodes[k], stationId)
    ensures r.Some? ==> exists k :: 0 <= k < |nodes| && nodes[k] == r.value && IsStationName(nodes[k], stationId) &&
                                    forall j :: 0 <= j < k ==> !IsStationName(nodes[j], stationId)
  {
    if nodes == [] then None
    else if IsStationName(nodes[0], stationId) then Some(nodes[0])
    else
      var r := StationNode(nodes[1..], stationId);
      assert forall k :: 0 <= k < |nodes| - 1 ==> nodes[1..][k] == nodes[k + 1];
      r
  }

  /** The search loop with its `break`. */
  method FindStation(nodes: seq<Node>, stationId: string) returns (r: Option<Node>)
    ensures r == StationNode(nodes, stationId)
  {
    var i := 0;
    while i < |nodes|
      invariant 0 <= i <= |nodes|
      invariant StationNode(nodes, stationId) == StationNode(nodes[i..], stationId)
    {
      if IsStationName(nodes[i], stationId) {
        return Some(nodes[i]);
      }
      assert nodes[i..][1..] == nodes[i + 1..];
      i := i + 1;
    }
    return None;
  }

  // ---------------------------------------------------------------------------------------
  // The placemark's siblings: description, and the forecast columns inside ExtendedData

  /** `description` is absent (None), or holds the sibling's `.text` (which may be None). */
  datatype Scan = Scan(description: Option<Option<string>>, frame: Frame, params: seq<Descriptor>)

  /** A `value` child: its tokens become the column `code`, and `code` is described. */
  function ValueStep(s: Scan, v: Element, code: string, doc: Option<Element>,
                     parseFloat: string -> Option<real>): Result<Scan, MosmixError>
  {
    if !EndsWith(v.local, "value") then Ok(s)
    else if v.text.None? then Err(MissingText(v.local))
    else
      var col :- Lift(ParseColumn(Split(v.text.value), parseFloat));
      var f :- Lift(Assign(s.frame, code, col));
      Ok(s.(frame := f, params := s.params + [ParameterCatalog.DescriptorFor(doc, code)]))
  }

  function ValueStepFn(code: string, doc: Option<Element>, parseFloat: string -> Option<real>): (Scan, Element) -> Result<Scan, MosmixError>
  {
    (s, v) => ValueStep(s, v, code, doc, parseFloat)
  }

  /** The parameter code of a Forecast node: the value of its first attribute, whatever its
      name; None for a node that is skipped. */
  function ForecastCode(c: Element): Option<string>
  {
    if EndsWith(c.local, "Forecast") && |c.attrs| > 0 && c.attrs[0].1 != "" then Some(c.attrs[0].1) else None
  }

  function ForecastStep(s: Scan, c: Element, doc: Option<Element>, parseFloat: string -> Option<real>): Result<Scan, MosmixError>
  {
    match ForecastCode(c)
    case None => Ok(s)
    case Some(code) => FoldResult(s, c.children, ValueStepFn(code, doc, parseFloat))
  }

  function ForecastStepFn(doc: Option<Element>, parseFloat: string -> Option<real>): (Scan, Element) -> Result<Scan, MosmixError>
  {
    (s, c) => ForecastStep(s, c, doc, parseFloat)
  }

  function SiblingStep(s: Scan, e: Element, doc: Option<Element>, parseFloat: string -> Option<real>): Result<Scan, MosmixError>
  {
    var s1 := if EndsWith(e.local, "description") then s.(description := Some(e.text)) else s;
    if EndsWith(e.local, "ExtendedData") then FoldResult(s1, e.children, ForecastStepFn(doc, parseFloat)) else Ok(s1)
  }

  function SiblingStepFn(doc: Option<Element>, parseFloat: string -> Option<real>): (Scan, Element) -> Result<Scan, MosmixError>
  {
    (s, e) => SiblingStep(s, e, doc, parseFloat)
  }

  /** The codes the scan describes, in discovery order: one per `value` child of a
      qualifying Forecast node, duplicates kept. */
  function ValueCodes(vals: seq<Element>, code: string): seq<string>
  {
    Flatten(vals, ValuePartFn(code))
  }

  /** The code one child of a Forecast node contributes: its own, if it is a `value`. */
  function ValuePart(v: Element, code: string): seq<string>
  {
    if EndsWith(v.local, "value") then [code] else []
  }

  function ValuePartFn(code: string): Element -> seq<string>
  {
    v => ValuePart(v, code)
  }

  function ForecastCodes(cs: seq<Element>): seq<string>
  {
    Flatten(cs, ForecastPart)
  }

  /** The codes one Forecast node contributes. */
  function ForecastPart(c: Element): seq<string>
  {
    match ForecastCode(c)
    case None => []
    case Some(code) => ValueCodes(c.children, code)
  }

  function SiblingCodes(sibs: seq<Element>): seq<string>
  {
    Flatten(sibs, SiblingPart)
  }

  /** The codes one sibling of the station's name contributes. */
  function SiblingPart(e: Element): seq<string>
  {
    if EndsWith(e.local, "ExtendedData") then ForecastCodes(e.children) else []
  }

  /** Every code a Forecast node contributes is its own, once per `value` child: a node
      whose children are all values contributes its code once for each of them. */
  lemma {:induction false} ValueCodesAll(vals: seq<Element>, code: string)
    ensures forall k :: 0 <= k < |ValueCodes(vals, code)| ==> ValueCodes(vals, code)[k] == code
    ensures (forall i :: 0 <= i < |vals| ==> EndsWith(vals[i].local, "value")) ==> |ValueCodes(vals, code)| == |vals|
  {
    if vals != [] {
      var init := vals[..|vals| - 1];
      ValueCodesAll(init, code);
      assert ValueCodes(vals, code) == ValueCodes(init, code) + ValuePart(vals[|vals| - 1], code);
      assert forall i :: 0 <= i < |init| ==> init[i] == vals[i];
    }
  }

  /** A code is discovered only on a Forecast node that has a first attribute with a
      non-empty value, and it is that value. */
  lemma {:induction false} ForecastCodesOrigin(cs: seq<Element>, k: nat)
    requires k < |ForecastCodes(cs)|
    ensures exists i :: 0 <= i < |cs| && EndsWith(cs[i].local, "Forecast") && |cs[i].attrs| > 0 &&
                        cs[i].attrs[0].1 != "" && ForecastCodes(cs)[k] == cs[i].attrs[0].1
  {
    var init := cs[..|cs| - 1];
    var c := cs[|cs| - 1];
    assert ForecastCodes(cs) == ForecastCodes(init) + ForecastPart(c);
    if k < |ForecastCodes(init)| {
      ForecastCodesOrigin(init, k);
      var i :| 0 <= i < |init| && EndsWith(init[i].local, "Forecast") && |init[i].attrs| > 0 &&
               init[i].attrs[0].1 != "" && ForecastCodes(init)[k] == init[i].attrs[0].1;
      assert cs[i] == init[i];
    } else {
      var code := ForecastCode(c).value;
      ValueCodesAll(c.children, code);
      assert ForecastCodes(cs)[k] == ValueCodes(c.children, code)[k - |ForecastCodes(init)|];
      assert cs[|cs| - 1] == c;
    }
  }

  function Describe(doc: Option<Element>, codes: seq<string>): (ds: seq<Descriptor>)
    ensures |ds| == |codes| && forall i :: 0 <= i < |codes| ==> ds[i] == ParameterCatalog.DescriptorFor(doc, codes[i])
  {
    seq(|codes|, i requires 0 <= i < |codes| => ParameterCatalog.DescriptorFor(doc, codes[i]))
  }

  lemma DescribeAppend(doc: Option<Element>, a: seq<string>, b: seq<string>)
    ensures Describe(doc, a + b) == Describe(doc, a) + Describe(doc, b)
  {
  }

  /** The scan's descriptors are the catalog's descriptors of the discovered codes, in
      order: one per `value` child, duplicates kept. */
  function ParamsOf(t: Scan): seq<Descriptor>
  {
    t.params
  }

  function DescribeFn(doc: Option<Element>, part: Element -> seq<string>): Element -> seq<Descriptor>
  {
    x => Describe(doc, part(x))
  }

  lemma {:induction false} DescribeFlatten(doc: Option<Element>, xs: seq<Element>, part: Element -> seq<string>)
    ensures Describe(doc, Flatten(xs, part)) == Flatten(xs, DescribeFn(doc, part))
  {
    if xs != [] {
      DescribeFlatten(doc, xs[..|xs| - 1], part);
      DescribeAppend(doc, Flatten(xs[..|xs| - 1], part), part(xs[|xs| - 1]));
    }
  }

  lemma ValueDescriptors(s: Scan, vals: seq<Element>, code: string, doc: Option<Element>,
                         parseFloat: string -> Option<real>)
    requires FoldResult(s, vals, ValueStepFn(code, doc, parseFloat)).Ok?
    ensures FoldResult(s, vals, ValueStepFn(code, doc, parseFloat)).value.params ==
            s.params + Describe(doc, ValueCodes(vals, code))
  {
    var step := ValueStepFn(code, doc, parseFloat);
    forall t, v | step(t, v).Ok?
      ensures ParamsOf(step(t, v).value) == ParamsOf(t) + DescribeFn(doc, ValuePartFn(code))(v)
    {
      ValueStepParams(t, v, code, doc, parseFloat);
    }
    FoldResultTrace(s, vals, step, ParamsOf, DescribeFn(doc, ValuePartFn(code)));
    DescribeFlatten(doc, vals, ValuePartFn(code));
  }

  lemma ValueStepParams(t: Scan, v: Element, code: string, doc: Option<Element>, parseFloat: string -> Option<real>)
    requires ValueStep(t, v, code, doc, parseFloat).Ok?
    ensures ValueStep(t, v, code, doc, parseFloat).value.params == t.params + Describe(doc, ValuePart(v, code))
  {
  }

  lemma ForecastDescriptors(s: Scan, cs: seq<Element>, doc: Option<Element>,
                            parseFloat: string -> Option<real>)
    requires FoldResult(s, cs, ForecastStepFn(doc, parseFloat)).Ok?
    ensures FoldResult(s, cs, ForecastStepFn(doc, parseFloat)).value.params ==
            s.params + Describe(doc, ForecastCodes(cs))
  {
    var step := ForecastStepFn(doc, parseFloat);
    forall t, c | step(t, c).Ok?
      ensures ParamsOf(step(t, c).value) == ParamsOf(t) + DescribeFn(doc, ForecastPart)(c)
    {
      ForecastStepParams(t, c, doc, parseFloat);
    }
    FoldResultTrace(s, cs, step, ParamsOf, DescribeFn(doc, ForecastPart));
    DescribeFlatten(doc, cs, ForecastPart);
  }

  lemma ForecastStepParams(t: Scan, c: Element, doc: Option<Element>, parseFloat: string -> Option<real>)
    requires ForecastStep(t, c, doc, parseFloat).Ok?
    ensures ForecastStep(t, c, doc, parseFloat).value.params == t.params + Describe(doc, ForecastPart(c))
  {
    match ForecastCode(c)
    case None =>
    case Some(code) => ValueDescriptors(t, c.children, code, doc, parseFloat);
  }

  lemma SiblingDescriptors(s: Scan, sibs: seq<Element>, doc: Option<Element>,
                           parseFloat: string -> Option<real>)
    requires FoldResult(s, sibs, SiblingStepFn(doc, parseFloat)).Ok?
    ensures FoldResult(s, sibs, SiblingStepFn(doc, parseFloat)).value.params ==
            s.params + Describe(doc, SiblingCodes(sibs))
  {
    var step := SiblingStepFn(doc, parseFloat);
    forall t, e | step(t, e).Ok?
      ensures ParamsOf(step(t, e).value) == ParamsOf(t) + DescribeFn(doc, SiblingPart)(e)
    {
      SiblingStepParams(t, e, doc, parseFloat);
    }
    FoldResultTrace(s, sibs, step, ParamsOf, DescribeFn(doc, SiblingPart));
    DescribeFlatten(doc, sibs, SiblingPart);
  }

  lemma SiblingStepParams(t: Scan, e: Element, doc: Option<Element>, parseFloat: string -> Option<real>)
    requires SiblingStep(t, e, doc, parseFloat).Ok?
    ensures SiblingStep(t, e, doc, parseFloat).value.params == t.params + Describe(doc, SiblingPart(e))
  {
    var t1 := if EndsWith(e.local, "description") then t.(description := Some(e.text)) else t;
    assert t1.params == t.params;
    if EndsWith(e.local, "ExtendedData") {
      ForecastDescriptors(t1, e.children, doc, parseFloat);
    } else {
      assert SiblingPart(e) == [];
      assert t.params + Describe(doc, []) == t.params;
    }
  }

  /** The description is the `.text` of the last sibling whose name ends in "description". */
  lemma {:induction false} SiblingDescription(s: Scan, sibs: seq<Element>, doc: Option<Element>,
                                              parseFloat: string -> Option<real>, i: nat)
    requires FoldResult(s, sibs, SiblingStepFn(doc, parseFloat)).Ok?
    requires i < |sibs| && EndsWith(sibs[i].local, "description")
    requires forall k :: i < k < |sibs| ==> !EndsWith(sibs[k].local, "description")
    ensures FoldResult(s, sibs, SiblingStepFn(doc, parseFloat)).value.description == Some(sibs[i].text)
  {
    var init := sibs[..|sibs| - 1];
    var e := sibs[|sibs| - 1];
    var prev := FoldResult(s, init, SiblingStepFn(doc, parseFloat));
    assert prev.Ok?;
    assert FoldResult(s, sibs, SiblingStepFn(doc, parseFloat)) == SiblingStep(prev.value, e, doc, parseFloat);
    var s1 := if EndsWith(e.local, "description") then prev.value.(description := Some(e.text)) else prev.value;
    if i < |sibs| - 1 {
      assert forall k :: 0 <= k < |init| ==> init[k] == sibs[k];
      SiblingDescription(s, init, doc, parseFloat, i);
    }
    if EndsWith(e.local, "ExtendedData") {
      ForecastsPreserve(s1, e.children, doc, parseFloat);
    }
  }

  /** A Forecast node leaves the description alone and only extends the table. */
  lemma {:induction false} ForecastsPreserve(s: Scan, cs: seq<Element>, doc: Option<Element>,
                                             parseFloat: string -> Option<real>)
    requires FoldResult(s, cs, ForecastStepFn(doc, parseFloat)).Ok?
    ensures var t := FoldResult(s, cs, ForecastStepFn(doc, parseFloat)).value;
            t.description == s.description && (Valid(s.frame) ==> Extends(s.frame, t.frame))
  {
    if cs != [] {
      var init := cs[..|cs| - 1];
      var c := cs[|cs| - 1];
      var prev := FoldResult(s, init, ForecastStepFn(doc, parseFloat));
      assert prev.Ok?;
      ForecastsPreserve(s, init, doc, parseFloat);
      assert FoldResult(s, cs, ForecastStepFn(doc, parseFloat)) == ForecastStep(prev.value, c, doc, parseFloat);
      match ForecastCode(c)
      case None =>
      case Some(code) => ValuesPreserve(prev.value, c.children, code, doc, parseFloat);
    }
  }

  /** A `value` child leaves the description alone and only extends the table. */
  lemma {:induction false} ValuesPreserve(s: Scan, vals: seq<Element>, code: string, doc: Option<Element>,
                                          parseFloat: string -> Option<real>)
    requires FoldResult(s, vals, ValueStepFn(code, doc, parseFloat)).Ok?
    ensures var t := FoldResult(s, vals, ValueStepFn(code, doc, parseFloat)).value;
            t.description == s.description && (Valid(s.frame) ==> Extends(s.frame, t.frame))
  {
    if vals != [] {
      var init := vals[..|vals| - 1];
      var v := vals[|vals| - 1];
      var prev := FoldResult(s, init, ValueStepFn(code, doc, parseFloat));
      assert prev.Ok?;
      ValuesPreserve(s, init, code, doc, parseFloat);
      assert FoldResult(s, vals, ValueStepFn(code, doc, parseFloat)) == ValueStep(prev.value, v, code, doc, parseFloat);
      if Valid(s.frame) && EndsWith(v.local, "value") {
        var col := ParseColumn(Split(v.text.value), parseFloat).value;
        AssignExtends(prev.value.frame, code, col);
      }
    }
  }

  /** The sibling scan only extends the table. */
  lemma {:induction false} SiblingsExtend(s: Scan, sibs: seq<Element>, doc: Option<Element>,
                                          parseFloat: string -> Option<real>)
    requires Valid(s.frame) && FoldResult(s, sibs, SiblingStepFn(doc, parseFloat)).Ok?
    ensures Extends(s.frame, FoldResult(s, sibs, SiblingStepFn(doc, parseFloat)).value.frame)
  {
    if sibs != [] {
      var init := sibs[..|sibs| - 1];
      var e := sibs[|sibs| - 1];
      var prev := FoldResult(s, init, SiblingStepFn(doc, parseFloat));
      assert prev.Ok?;
      SiblingsExtend(s, init, doc, parseFloat);
      assert FoldResult(s, sibs, SiblingStepFn(doc, parseFloat)) == SiblingStep(prev.value, e, doc, parseFloat);
      var s1 := if EndsWith(e.local, "description") then prev.value.(description := Some(e.text)) else prev.value;
      if EndsWith(e.local, "ExtendedData") {
        ForecastsPreserve(s1, e.children, doc, parseFloat);
      }
    }
  }

  // ---------------------------------------------------------------------------------------
  // The scan as loops, asking the catalog for each descriptor

  /** The `value` children of one Forecast node. */
  method ScanValues(catalog: ParameterCatalog.Catalog, fetched: Result<Element, string>, s: Scan,
                    vals: seq<Element>, code: string, parseFloat: string -> Option<real>)
    returns (r: Result<Scan, MosmixError>)
    modifies catalog
    ensures ParameterCatalog.Loaded(catalog.cache, fetched) == ParameterCatalog.Loaded(old(catalog.cache), fetched)
    ensures r == FoldResult(s, vals, ValueStepFn(code, ParameterCatalog.Loaded(old(catalog.cache), fetched), parseFloat))
  {
    ghost var doc := ParameterCatalog.Loaded(catalog.cache, fetched);
    var cur := s;
    var i := 0;
    while i < |vals|
      invariant 0 <= i <= |vals|
      invariant ParameterCatalog.Loaded(catalog.cache, fetched) == doc
      invariant FoldResult(s, vals[..i], ValueStepFn(code, doc, parseFloat)) == Ok(cur)
    {
      FoldResultStep(s, vals, i, ValueStepFn(code, doc, parseFloat));
      var v := vals[i];
      if EndsWith(v.local, "value") {
        if v.text.None? {
          r := Err(MissingText(v.local));
          FoldResultAbsorbs(s, vals, i + 1, ValueStepFn(code, doc, parseFloat));
          return;
        }
        var col := ParseColumn(Split(v.text.value), parseFloat);
        if col.Err? {
          r := Err(TableFailure(col.error));
          FoldResultAbsorbs(s, vals, i + 1, ValueStepFn(code, doc, parseFloat));
          return;
        }
        var f := Assign(cur.frame, code, col.value);
        if f.Err? {
          r := Err(TableFailure(f.error));
          FoldResultAbsorbs(s, vals, i + 1, ValueStepFn(code, doc, parseFloat));
          return;
        }
        var d := catalog.Describe(code, fetched);
        ParameterCatalog.LoadedIsStable(doc, fetched);
        cur := cur.(frame := f.value, params := cur.params + [d]);
      }
      i := i + 1;
    }
    assert vals[..i] == vals;
    r := Ok(cur);
  }

  /** The children of one ExtendedData sibling. */
  method ScanForecasts(catalog: ParameterCatalog.Catalog, fetched: Result<Element, string>, s: Scan,
                       cs: seq<Element>, parseFloat: string -> Option<real>)
    returns (r: Result<Scan, MosmixError>)
    modifies catalog
    ensures ParameterCatalog.Loaded(catalog.cache, fetched) == ParameterCatalog.Loaded(old(catalog.cache), fetched)
    ensures r == FoldResult(s, cs, ForecastStepFn(ParameterCatalog.Loaded(old(catalog.cache), fetched), parseFloat))
  {
    ghost var doc := ParameterCatalog.Loaded(catalog.cache, fetched);
    var cur := s;
    var i := 0;
    while i < |cs|
      invariant 0 <= i <= |cs|
      invariant ParameterCatalog.Loaded(catalog.cache, fetched) == doc
      invariant FoldResult(s, cs[..i], ForecastStepFn(doc, parseFloat)) == Ok(cur)
    {
      FoldResultStep(s, cs, i, ForecastStepFn(doc, parseFloat));
      var c := cs[i];
      var code := ForecastCode(c);
      if code.Some? {
        var next := ScanValues(catalog, fetched, cur, c.children, code.value, parseFloat);
        if next.Err? {
          r := next;
          FoldResultAbsorbs(s, cs, i + 1, ForecastStepFn(doc, parseFloat));
          return;
        }
        cur := next.value;
      }
      i := i + 1;
    }
    assert cs[..i] == cs;
    r := Ok(cur);
  }

  /** The siblings that follow the placemark's `name`. */
  method ScanSiblings(catalog: ParameterCatalog.Catalog, fetched: Result<Element, string>, s: Scan,
                      sibs: seq<Element>, parseFloat: string -> Option<real>)
    returns (r: Result<Scan, MosmixError>)
    modifies catalog
    ensures ParameterCatalog.Loaded(catalog.cache, fetched) == ParameterCatalog.Loaded(old(catalog.cache), fetched)
    ensures r == FoldResult(s, sibs, SiblingStepFn(ParameterCatalog.Loaded(old(catalog.cache), fetched), parseFloat))
  {
    ghost var doc := ParameterCatalog.Loaded(catalog.cache, fetched);
    var cur := s;
    var i := 0;
    while i < |sibs|
      invariant 0 <= i <= |sibs|
      invariant ParameterCatalog.Loaded(catalog.cache, fetched) == doc
      invariant FoldResult(s, sibs[..i], SiblingStepFn(doc, parseFloat)) == Ok(cur)
    {
      FoldResultStep(s, sibs, i, SiblingStepFn(doc, parseFloat));
      var e := sibs[i];
      if EndsWith(e.local, "description") {
        cur := cur.(description := Some(e.text));
      }
      if EndsWith(e.local, "ExtendedData") {
        var next := ScanForecasts(catalog, fetched, cur, e.children, parseFloat);
        if next.Err? {
          r := next;
          FoldResultAbsorbs(s, sibs, i + 1, SiblingStepFn(doc, parseFloat));
          return;
        }
        cur := next.value;
      }
      i := i + 1;
    }
    assert sibs[..i] == sibs;
    r := Ok(cur);
  }

  /** Without a description sibling the result has no description. */
  lemma {:induction false} SiblingNoDescription(s: Scan, sibs: seq<Element>, doc: Option<Element>,
                                                parseFloat: string -> Option<real>)
    requires FoldResult(s, sibs, SiblingStepFn(doc, parseFloat)).Ok?
    requires forall k :: 0 <= k < |sibs| ==> !EndsWith(sibs[k].local, "description")
    ensures FoldResult(s, sibs, SiblingStepFn(doc, parseFloat)).value.description == s.description
  {
    if sibs != [] {
      var init := sibs[..|sibs| - 1];
      var e := sibs[|sibs| - 1];
      var prev := FoldResult(s, init, SiblingStepFn(doc, parseFloat));
      assert prev.Ok?;
      assert forall k :: 0 <= k < |init| ==> init[k] == sibs[k];
      SiblingNoDescription(s, init, doc, parseFloat);
      assert FoldResult(s, sibs, SiblingStepFn(doc, parseFloat)) == SiblingStep(prev.value, e, doc, parseFloat);
      if EndsWith(e.local, "ExtendedData") {
        ForecastsPreserve(prev.value, e.children, doc, parseFloat);
      }
    }
  }

  // ---------------------------------------------------------------------------------------
  // What the scan writes into the table

  /** One assignment `dataframe[code] = …` of the scan: the code of the Forecast node and the
      text of the `value` child whose tokens are assigned. */
  datatype Write = Write(code: string, text: Option<string>)

  function ValueWrite(v: Element, code: string): seq<Write>
  {
    if EndsWith(v.local, "value") then [Write(code, v.text)] else []
  }

  function ValueWriteFn(code: string): Element -> seq<Write>
  {
    v => ValueWrite(v, code)
  }

  function ForecastWrite(c: Element): seq<Write>
  {
    match ForecastCode(c)
    case None => []
    case Some(code) => Flatten(c.children, ValueWriteFn(code))
  }

  function SiblingWrite(e: Element): seq<Write>
  {
    if EndsWith(e.local, "ExtendedData") then Flatten(e.children, ForecastWrite) else []
  }

  /** The scan's assignments in document order: one per `value` child of a qualifying
      Forecast node inside an ExtendedData sibling. */
  function SiblingWrites(sibs: seq<Element>): seq<Write>
  {
    Flatten(sibs, SiblingWrite)
  }

  function CodeOf(w: Write): string
  {
    w.code
  }

  /** The writes carry exactly the discovered codes, in order. */
  lemma WriteCodes(sibs: seq<Element>)
    ensures Map(SiblingWrites(sibs), CodeOf) == SiblingCodes(sibs)
  {
    forall c: Element ensures Map(ForecastWrite(c), CodeOf) == ForecastPart(c) {
      match ForecastCode(c)
      case None =>
      case Some(code) =>
        forall v: Element ensures Map(ValueWriteFn(code)(v), CodeOf) == ValuePartFn(code)(v) {
        }
        FlattenMap(c.children, ValueWriteFn(code), ValuePartFn(code), CodeOf);
    }
    forall e: Element ensures Map(SiblingWrite(e), CodeOf) == SiblingPart(e) {
      if EndsWith(e.local, "ExtendedData") {
        FlattenMap(e.children, ForecastWrite, ForecastPart, CodeOf);
      }
    }
    FlattenMap(sibs, SiblingWrite, SiblingPart, CodeOf);
  }

  /** The text of a write splits into tokens that all classify. */
  predicate Parses(w: Write, parseFloat: string -> Option<real>)
  {
    w.text.Some? && ParseColumn(Split(w.text.value), parseFloat).Ok?
  }

  /** The column a write stores. */
  function Written(w: Write, parseFloat: string -> Option<real>): Column
  {
    if Parses(w, parseFloat) then ParseColumn(Split(w.text.value), parseFloat).value else []
  }

  /** A write a table of `n` rows accepts: its text gives `n` cells. */
  predicate Fits(w: Write, parseFloat: string -> Option<real>, n: nat)
  {
    Parses(w, parseFloat) && |Written(w, parseFloat)| == n
  }

  function FitsFn(parseFloat: string -> Option<real>, n: nat): Write -> bool
  {
    w => Fits(w, parseFloat, n)
  }

  function PutWrite(parseFloat: string -> Option<real>): (Frame, Write) -> Frame
  {
    (f: Frame, w: Write) => Put(f, w.code, Written(w, parseFloat))
  }

  function AddName(names: set<string>, w: Write): set<string>
  {
    names + {w.code}
  }

  function FrameOf(t: Scan): Frame
  {
    t.frame
  }

  function NamesOf(t: Scan): set<string>
  {
    Names(t.frame)
  }

  predicate ValidScan(t: Scan)
  {
    Valid(t.frame)
  }

  function SizedFn(n: nat): Scan -> bool
  {
    (t: Scan) => Valid(t.frame) && t.frame.rows == n
  }

  /** A `value` child adds its code to the column names; on a table with rows it performs
      its write, which fits the table. */
  lemma ValueStepWrites(t: Scan, v: Element, code: string, doc: Option<Element>, parseFloat: string -> Option<real>)
    requires Valid(t.frame) && ValueStep(t, v, code, doc, parseFloat).Ok?
    ensures var u := ValueStep(t, v, code, doc, parseFloat).value;
            Valid(u.frame) && Names(u.frame) == Apply(Names(t.frame), ValueWrite(v, code), AddName)
    ensures var u := ValueStep(t, v, code, doc, parseFloat).value;
            t.frame.rows > 0 ==>
              && u.frame.rows == t.frame.rows && u.frame == Apply(t.frame, ValueWrite(v, code), PutWrite(parseFloat))
              && forall i :: 0 <= i < |ValueWrite(v, code)| ==> Fits(ValueWrite(v, code)[i], parseFloat, t.frame.rows)
  {
    if EndsWith(v.local, "value") {
      var col := ParseColumn(Split(v.text.value), parseFloat).value;
      AssignFacts(t.frame, code, col);
      AssignNames(t.frame, code, col);
      var w := Write(code, v.text);
      assert ValueWrite(v, code) == [w];
      assert [w][..0] == [];
      assert Written(w, parseFloat) == col;
    }
  }

  lemma ValueWritesApply(s: Scan, vals: seq<Element>, code: string, doc: Option<Element>,
                         parseFloat: string -> Option<real>)
    requires Valid(s.frame) && FoldResult(s, vals, ValueStepFn(code, doc, parseFloat)).Ok?
    ensures var u := FoldResult(s, vals, ValueStepFn(code, doc, parseFloat)).value;
            Valid(u.frame) && Names(u.frame) == Apply(Names(s.frame), Flatten(vals, ValueWriteFn(code)), AddName)
    ensures var u := FoldResult(s, vals, ValueStepFn(code, doc, parseFloat)).value;
            var ws := Flatten(vals, ValueWriteFn(code));
            s.frame.rows > 0 ==>
              && u.frame.rows == s.frame.rows && u.frame == Apply(s.frame, ws, PutWrite(parseFloat))
              && forall i :: 0 <= i < |ws| ==> Fits(ws[i], parseFloat, s.frame.rows)
  {
    var step := ValueStepFn(code, doc, parseFloat);
    forall t, v | ValidScan(t) && step(t, v).Ok?
      ensures ValidScan(step(t, v).value) && NamesOf(step(t, v).value) == Apply(NamesOf(t), ValueWriteFn(code)(v), AddName)
    {
      ValueStepWrites(t, v, code, doc, parseFloat);
    }
    FoldResultApply(s, vals, step, ValidScan, NamesOf, ValueWriteFn(code), AddName);
    if s.frame.rows > 0 {
      var n := s.frame.rows;
      forall t, v | SizedFn(n)(t) && step(t, v).Ok?
        ensures && SizedFn(n)(step(t, v).value)
                && FrameOf(step(t, v).value) == Apply(FrameOf(t), ValueWriteFn(code)(v), PutWrite(parseFloat))
                && forall i :: 0 <= i < |ValueWriteFn(code)(v)| ==> FitsFn(parseFloat, n)(ValueWriteFn(code)(v)[i])
      {
        ValueStepWrites(t, v, code, doc, parseFloat);
      }
      FoldResultApply(s, vals, step, SizedFn(n), FrameOf, ValueWriteFn(code), PutWrite(parseFloat));
      FoldResultAll(s, vals, step, SizedFn(n), ValueWriteFn(code), FitsFn(parseFloat, n));
    }
  }

  /** A Forecast node adds its codes to the column names; on a table with rows it performs its
      writes in order, each fitting the table. */
  lemma ForecastStepWrites(t: Scan, c: Element, doc: Option<Element>, parseFloat: string -> Option<real>)
    requires Valid(t.frame) && ForecastStep(t, c, doc, parseFloat).Ok?
    ensures var u := ForecastStep(t, c, doc, parseFloat).value;
            Valid(u.frame) && Names(u.frame) == Apply(Names(t.frame), ForecastWrite(c), AddName)
    ensures var u := ForecastStep(t, c, doc, parseFloat).value;
            t.frame.rows > 0 ==>
              && u.frame.rows == t.frame.rows && u.frame == Apply(t.frame, ForecastWrite(c), PutWrite(parseFloat))
              && forall i :: 0 <= i < |ForecastWrite(c)| ==> Fits(ForecastWrite(c)[i], parseFloat, t.frame.rows)
  {
    match ForecastCode(c)
    case None =>
    case Some(code) => ValueWritesApply(t, c.children, code, doc, parseFloat);
  }

  lemma ForecastWritesApply(s: Scan, cs: seq<Element>, doc: Option<Element>, parseFloat: string -> Option<real>)
    requires Valid(s.frame) && FoldResult(s, cs, ForecastStepFn(doc, parseFloat)).Ok?
    ensures var u := FoldResult(s, cs, ForecastStepFn(doc, parseFloat)).value;
            Valid(u.frame) && Names(u.frame) == Apply(Names(s.frame), Flatten(cs, ForecastWrite), AddName)
    ensures var u := FoldResult(s, cs, ForecastStepFn(doc, parseFloat)).value;
            var ws := Flatten(cs, ForecastWrite);
            s.frame.rows > 0 ==>
              && u.frame.rows == s.frame.rows && u.frame == Apply(s.frame, ws, PutWrite(parseFloat))
              && forall i :: 0 <= i < |ws| ==> Fits(ws[i], parseFloat, s.frame.rows)
  {
    var step := ForecastStepFn(doc, parseFloat);
    forall t, c | ValidScan(t) && step(t, c).Ok?
      ensures ValidScan(step(t, c).value) && NamesOf(step(t, c).value) == Apply(NamesOf(t), ForecastWrite(c), AddName)
    {
      ForecastStepWrites(t, c, doc, parseFloat);
    }
    FoldResultApply(s, cs, step, ValidScan, NamesOf, ForecastWrite, AddName);
    if s.frame.rows > 0 {
      var n := s.frame.rows;
      forall t, c | SizedFn(n)(t) && step(t, c).Ok?
        ensures && SizedFn(n)(step(t, c).value)
                && FrameOf(step(t, c).value) == Apply(FrameOf(t), ForecastWrite(c), PutWrite(parseFloat))
                && forall i :: 0 <= i < |ForecastWrite(c)| ==> FitsFn(parseFloat, n)(ForecastWrite(c)[i])
      {
        ForecastStepWrites(t, c, doc, parseFloat);
      }
      FoldResultApply(s, cs, step, SizedFn(n), FrameOf, ForecastWrite, PutWrite(parseFloat));
      FoldResultAll(s, cs, step, SizedFn(n), ForecastWrite, FitsFn(parseFloat, n));
    }
  }

  /** A sibling adds the codes of its Forecast nodes to the column names when it is an
      ExtendedData element; on a table with rows it performs their writes in order. */
  lemma SiblingStepWrites(t: Scan, e: Element, doc: Option<Element>, parseFloat: string -> Option<real>)
    requires Valid(t.frame) && SiblingStep(t, e, doc, parseFloat).Ok?
    ensures var u := SiblingStep(t, e, doc, parseFloat).value;
            Valid(u.frame) && Names(u.frame) == Apply(Names(t.frame), SiblingWrite(e), AddName)
    ensures var u := SiblingStep(t, e, doc, parseFloat).value;
            t.frame.rows > 0 ==>
              && u.frame.rows == t.frame.rows && u.frame == Apply(t.frame, SiblingWrite(e), PutWrite(parseFloat))
              && forall i :: 0 <= i < |SiblingWrite(e)| ==> Fits(SiblingWrite(e)[i], parseFloat, t.frame.rows)
  {
    var t1 := if EndsWith(e.local, "description") then t.(description := Some(e.text)) else t;
    if EndsWith(e.local, "ExtendedData") {
      assert SiblingStep(t, e, doc, parseFloat) == FoldResult(t1, e.children, ForecastStepFn(doc, parseFloat));
      ExtendedDataWrites(t, t1, e, doc, parseFloat);
    } else {
      assert SiblingStep(t, e, doc, parseFloat) == Ok(t1);
      assert SiblingWrite(e) == [];
    }
  }

  lemma ExtendedDataWrites(t: Scan, t1: Scan, e: Element, doc: Option<Element>, parseFloat: string -> Option<real>)
    requires Valid(t.frame) && t1.frame == t.frame && EndsWith(e.local, "ExtendedData")
    requires FoldResult(t1, e.children, ForecastStepFn(doc, parseFloat)).Ok?
    ensures var u := FoldResult(t1, e.children, ForecastStepFn(doc, parseFloat)).value;
            Valid(u.frame) && Names(u.frame) == Apply(Names(t.frame), SiblingWrite(e), AddName)
    ensures var u := FoldResult(t1, e.children, ForecastStepFn(doc, parseFloat)).value;
            t.frame.rows > 0 ==>
              && u.frame.rows == t.frame.rows && u.frame == Apply(t.frame, SiblingWrite(e), PutWrite(parseFloat))
              && forall i :: 0 <= i < |SiblingWrite(e)| ==> Fits(SiblingWrite(e)[i], parseFloat, t.frame.rows)
  {
    assert SiblingWrite(e) == Flatten(e.children, ForecastWrite);
    ForecastWritesApply(t1, e.children, doc, parseFloat);
  }

  lemma SiblingWritesApply(s: Scan, sibs: seq<Element>, doc: Option<Element>, parseFloat: string -> Option<real>)
    requires Valid(s.frame) && FoldResult(s, sibs, SiblingStepFn(doc, parseFloat)).Ok?
    ensures var u := FoldResult(s, sibs, SiblingStepFn(doc, parseFloat)).value;
            Valid(u.frame) && Names(u.frame) == Apply(Names(s.frame), SiblingWrites(sibs), AddName)
    ensures var u := FoldResult(s, sibs, SiblingStepFn(doc, parseFloat)).value;
            var ws := SiblingWrites(sibs);
            s.frame.rows > 0 ==>
              && u.frame.rows == s.frame.rows && u.frame == Apply(s.frame, ws, PutWrite(parseFloat))
              && forall i :: 0 <= i < |ws| ==> Fits(ws[i], parseFloat, s.frame.rows)
  {
    var step := SiblingStepFn(doc, parseFloat);
    forall t, e | ValidScan(t) && step(t, e).Ok?
      ensures ValidScan(step(t, e).value) && NamesOf(step(t, e).value) == Apply(NamesOf(t), SiblingWrite(e), AddName)
    {
      SiblingStepWrites(t, e, doc, parseFloat);
    }
    FoldResultApply(s, sibs, step, ValidScan, NamesOf, SiblingWrite, AddName);
    if s.frame.rows > 0 {
      var n := s.frame.rows;
      forall t, e | SizedFn(n)(t) && step(t, e).Ok?
        ensures && SizedFn(n)(step(t, e).value)
                && FrameOf(step(t, e).value) == Apply(FrameOf(t), SiblingWrite(e), PutWrite(parseFloat))
                && forall i :: 0 <= i < |SiblingWrite(e)| ==> FitsFn(parseFloat, n)(SiblingWrite(e)[i])
      {
        SiblingStepWrites(t, e, doc, parseFloat);
      }
      FoldResultApply(s, sibs, step, SizedFn(n), FrameOf, SiblingWrite, PutWrite(parseFloat));
      FoldResultAll(s, sibs, step, SizedFn(n), SiblingWrite, FitsFn(parseFloat, n));
    }
  }

  /** The position of the last write to a column, -1 if there is none. */
  function LastIndex(ws: seq<Write>, key: string): (r: int)
    ensures -1 <= r < |ws| && (r >= 0 ==> ws[r].code == key)
    ensures forall j :: r < j < |ws| ==> ws[j].code != key
  {
    if ws == [] then -1
    else if ws[|ws| - 1].code == key then |ws| - 1
    else
      assert forall j :: 0 <= j < |ws| - 1 ==> ws[..|ws| - 1][j] == ws[j];
      LastIndex(ws[..|ws| - 1], key)
  }

  /** The last write to a column, if any. */
  function LastWrite(ws: seq<Write>, key: string): (r: Option<Write>)
    ensures r.None? <==> forall i :: 0 <= i < |ws| ==> ws[i].code != key
    ensures r.Some? ==> exists i :: 0 <= i < |ws| && ws[i] == r.value && r.value.code == key &&
                                    forall j :: i < j < |ws| ==> ws[j].code != key
  {
    var i := LastIndex(ws, key);
    if i < 0 then None else Some(ws[i])
  }

  /** After writes that fit, a column holds what its last write stored, and a column nobody
      wrote is unchanged. */
  lemma {:induction false} ReadWrites(f: Frame, ws: seq<Write>, parseFloat: string -> Option<real>, key: string)
    requires Valid(f) && forall i :: 0 <= i < |ws| ==> Fits(ws[i], parseFloat, f.rows)
    ensures var g := Apply(f, ws, PutWrite(parseFloat));
            && Valid(g) && g.rows == f.rows
            && Get(g, key) == (if LastWrite(ws, key).Some? then Ok(Written(LastWrite(ws, key).value, parseFloat)) else Get(f, key))
  {
    if ws != [] {
      var init := ws[..|ws| - 1];
      var w := ws[|ws| - 1];
      assert forall i :: 0 <= i < |init| ==> init[i] == ws[i];
      ReadWrites(f, init, parseFloat, key);
      var g0 := Apply(f, init, PutWrite(parseFloat));
      assert Fits(w, parseFloat, f.rows);
      PutFacts(g0, w.code, Written(w, parseFloat));
      if w.code != key {
        PutKeepsOther(g0, w.code, Written(w, parseFloat), key);
      }
    }
  }

  /** The column names after a run of writes: the names before and the written codes. */
  lemma {:induction false} AddNames(names: set<string>, ws: seq<Write>)
    ensures forall k :: k in Apply(names, ws, AddName) <==> k in names || k in Map(ws, CodeOf)
  {
    if ws != [] {
      AddNames(names, ws[..|ws| - 1]);
      assert Map(ws, CodeOf) == Map(ws[..|ws| - 1], CodeOf) + [ws[|ws| - 1].code];
    }
  }

  /** After the station stage the table's columns are exactly the header's and the
      discovered codes. On a table with rows, a code's column holds the classified tokens of
      the text of the last `value` child carrying that code, which always parses, and every
      other column is unchanged. */
  lemma StationColumns(root: Element, stationId: string, frame: Frame, doc: Option<Element>,
                       parseFloat: string -> Option<real>)
    requires Valid(frame) && Station(root, stationId, frame, doc, parseFloat).Ok?
    ensures StationNode(Descendants(root), stationId).Some?
    ensures var scan := Station(root, stationId, frame, doc, parseFloat).value;
            var sibs := StationNode(Descendants(root), stationId).value.following;
            && Valid(scan.frame)
            && forall k :: HasColumn(scan.frame, k) <==> HasColumn(frame, k) || k in SiblingCodes(sibs)
    ensures var scan := Station(root, stationId, frame, doc, parseFloat).value;
            var ws := SiblingWrites(StationNode(Descendants(root), stationId).value.following);
            frame.rows > 0 ==>
              && scan.frame.rows == frame.rows
              && (forall key :: LastWrite(ws, key).None? ==> Get(scan.frame, key) == Get(frame, key))
              && forall key :: LastWrite(ws, key).Some? ==>
                   var w := LastWrite(ws, key).value;
                   && w.text.Some? && ParseColumn(Split(w.text.value), parseFloat).Ok?
                   && Get(scan.frame, key) == Ok(ParseColumn(Split(w.text.value), parseFloat).value)
  {
    var sibs := StationNode(Descendants(root), stationId).value.following;
    var scan := Station(root, stationId, frame, doc, parseFloat).value;
    var ws := SiblingWrites(sibs);
    SiblingWritesApply(Scan(None, frame, []), sibs, doc, parseFloat);
    WriteCodes(sibs);
    AddNames(Names(frame), ws);
    if frame.rows > 0 {
      forall key
        ensures LastWrite(ws, key).None? ==> Get(scan.frame, key) == Get(frame, key)
        ensures LastWrite(ws, key).Some? ==>
                  var w := LastWrite(ws, key).value;
                  && w.text.Some? && ParseColumn(Split(w.text.value), parseFloat).Ok?
                  && Get(scan.frame, key) == Ok(ParseColumn(Split(w.text.value), parseFloat).value)
      {
        ReadWrites(frame, ws, parseFloat, key);
        if LastWrite(ws, key).Some? {
          var i :| 0 <= i < |ws| && ws[i] == LastWrite(ws, key).value;
          assert Fits(ws[i], parseFloat, frame.rows);
        }
      }
    }
  }

  // ---------------------------------------------------------------------------------------
  // The whole extraction, stage by stage

  /** The collaborators: fetching and parsing the bundle at a URL, Python's `float()`, and
      the next-update time computed from the issue time and the interval. */
  datatype Env = Env(load: string -> Result<Element, string>,
                     parseFloat: string -> Option<real>,
                     nextUpdate: (string, string) -> Option<string>)

  /** The returned dict: the collected metadata, then the station's entries. */
  datatype Forecast = Forecast(meta: Meta, id: string, description: Option<Option<string>>, count: nat,
                               dateFrom: Cell, dateTo: Cell,
                               data: Frame, parameter: seq<Descriptor>)

  function Required(e: Option<Element>, err: MosmixError): Result<Element, MosmixError>
  {
    if e.Some? then Ok(e.value) else Err(err)
  }

  function LoadRoot(r: Result<Element, string>): Result<Element, MosmixError>
  {
    if r.Ok? then Ok(r.value) else Err(LoadFailed(r.error))
  }

  /** The metadata and the table holding the time axis. */
  function Header(root: Element, ds: Dataset, nextUpdate: (string, string) -> Option<string>): Result<(Meta, Frame), MosmixError>
  {
    var pd :- Required(FindFirst(root, "ProductDefinition"), NoProductDefinition);
    var meta :- FoldResult(map["dataset" := ds.name, "interval" := ds.interval], pd.children, MetadataStepFn(nextUpdate));
    var ts :- Required(FindFirst(root, "ForecastTimeSteps"), NoTimeSteps);
    var frame :- Lift(Assign(EmptyFrame, "time", TimeAxis(ts.children)));
    Ok((meta, frame))
  }

  /** The station's placemark and the scan of its siblings. */
  function Station(root: Element, stationId: string, frame: Frame, doc: Option<Element>,
                   parseFloat: string -> Option<real>): Result<Scan, MosmixError>
  {
    match StationNode(Descendants(root), stationId)
    case None => Err(StationNotFound(stationId))
    case Some(node) => FoldResult(Scan(None, frame, []), node.following, SiblingStepFn(doc, parseFloat))
  }

  /** The wind-direction column, then the optional unit conversion. */
  function Finish(scan: Scan, paToHpa: bool, kToC: bool): Result<Units.Converted, MosmixError>
  {
    var dd :- Lift(Get(scan.frame, "DD"));
    var wcd :- Lift(WindLabels(dd));
    var f :- Lift(Assign(scan.frame, "_wcd", wcd));
    if paToHpa || kToC then Lift(Units.ConvertAll(f, scan.params, paToHpa, kToC))
    else Ok(Units.Converted(f, scan.params))
  }

  /** The earliest text of a column, missing cells skipped. */
  function MinText(col: Column): (r: Option<string>)
    ensures r.None? <==> forall i :: 0 <= i < |col| ==> !col[i].Text?
    ensures r.Some? ==> exists i :: 0 <= i < |col| && col[i] == Text(r.value)
    ensures r.Some? ==> forall i :: 0 <= i < |col| && col[i].Text? ==> LessOrEqual(r.value, col[i].s)
  {
    if col == [] then None
    else
      var init := col[..|col| - 1];
      var c := col[|col| - 1];
      var rest := MinText(init);
      assert forall i :: 0 <= i < |init| ==> init[i] == col[i];
      if !c.Text? then rest
      else if rest.None? then Some(c.s)
      else if Less(c.s, rest.value) then
        assert forall i :: 0 <= i < |init| && init[i].Text? ==> Less(c.s, init[i].s) by {
          forall i | 0 <= i < |init| && init[i].Text? ensures Less(c.s, init[i].s) {
            if rest.value != init[i].s { LessTransitive(c.s, rest.value, init[i].s); }
          }
        }
        Some(c.s)
      else
        LessTotal(c.s, rest.value);
        Some(rest.value)
  }

  /** The latest text of a column, missing cells skipped. */
  function MaxText(col: Column): (r: Option<string>)
    ensures r.None? <==> forall i :: 0 <= i < |col| ==> !col[i].Text?
    ensures r.Some? ==> exists i :: 0 <= i < |col| && col[i] == Text(r.value)
    ensures r.Some? ==> forall i :: 0 <= i < |col| && col[i].Text? ==> LessOrEqual(col[i].s, r.value)
  {
    if col == [] then None
    else
      var init := col[..|col| - 1];
      var c := col[|col| - 1];
      var rest := MaxText(init);
      assert forall i :: 0 <= i < |init| ==> init[i] == col[i];
      if !c.Text? then rest
      else if rest.None? then Some(c.s)
      else if Less(rest.value, c.s) then
        assert forall i :: 0 <= i < |init| && init[i].Text? ==> Less(init[i].s, c.s) by {
          forall i | 0 <= i < |init| && init[i].Text? ensures Less(init[i].s, c.s) {
            if rest.value != init[i].s { LessTransitive(init[i].s, rest.value, c.s); }
          }
        }
        Some(c.s)
      else
        LessTotal(c.s, rest.value);
        Some(rest.value)
  }

  /** The smallest number of a column, other cells skipped. */
  function MinNumber(col: Column): (r: Option<real>)
    ensures r.None? <==> forall i :: 0 <= i < |col| ==> !col[i].Num?
    ensures r.Some? ==> exists i :: 0 <= i < |col| && col[i] == Num(r.value)
    ensures r.Some? ==> forall i :: 0 <= i < |col| && col[i].Num? ==> r.value <= col[i].x
  {
    if col == [] then None
    else
      var init := col[..|col| - 1];
      var c := col[|col| - 1];
      var rest := MinNumber(init);
      assert forall i :: 0 <= i < |init| ==> init[i] == col[i];
      if !c.Num? then rest
      else if rest.None? || c.x < rest.value then Some(c.x)
      else rest
  }

  /** The largest number of a column, other cells skipped. */
  function MaxNumber(col: Column): (r: Option<real>)
    ensures r.None? <==> forall i :: 0 <= i < |col| ==> !col[i].Num?
    ensures r.Some? ==> exists i :: 0 <= i < |col| && col[i] == Num(r.value)
    ensures r.Some? ==> forall i :: 0 <= i < |col| && col[i].Num? ==> col[i].x <= r.value
  {
    if col == [] then None
    else
      var init := col[..|col| - 1];
      var c := col[|col| - 1];
      var rest := MaxNumber(init);
      assert forall i :: 0 <= i < |init| ==> init[i] == col[i];
      if !c.Num? then rest
      else if rest.None? || rest.value < c.x then Some(c.x)
      else rest
  }

  /** A column pandas treats as floats: no text in it. */
  predicate Numeric(col: Column)
  {
    forall i :: 0 <= i < |col| ==> !col[i].Text?
  }

  /** A column of text with no missing value. */
  predicate AllText(col: Column)
  {
    forall i :: 0 <= i < |col| ==> col[i].Text?
  }

  /** `Series.min()`: a float column gives its smallest number, NaN when it has none; a column
      of text gives its smallest text; text beside a number or a missing value raises, since
      pandas fills the missing cells with infinity and then compares text with a float. */
  function ColumnMin(key: string, col: Column): (r: Result<Cell, TableError>)
    ensures r.Err? <==> !Numeric(col) && !AllText(col)
    ensures r.Err? ==> r.error == Unorderable(key)
    ensures r.Ok? && Numeric(col) ==> (r.value == Absent <==> forall i :: 0 <= i < |col| ==> !col[i].Num?)
    ensures r.Ok? && r.value.Num? ==>
              && Numeric(col) && (exists i :: 0 <= i < |col| && col[i] == r.value)
              && forall i :: 0 <= i < |col| && col[i].Num? ==> r.value.x <= col[i].x
    ensures r.Ok? && r.value.Text? ==>
              && AllText(col) && (exists i :: 0 <= i < |col| && col[i] == r.value)
              && forall i :: 0 <= i < |col| ==> LessOrEqual(r.value.s, col[i].s)
  {
    if Numeric(col) then
      var m := MinNumber(col);
      if m.Some? then Ok(Num(m.value)) else Ok(Absent)
    else if AllText(col) then Ok(Text(MinText(col).value))
    else Err(Unorderable(key))
  }

  /** `Series.max()`, by the same rules. */
  function ColumnMax(key: string, col: Column): (r: Result<Cell, TableError>)
    ensures r.Err? <==> !Numeric(col) && !AllText(col)
    ensures r.Err? ==> r.error == Unorderable(key)
    ensures r.Ok? && Numeric(col) ==> (r.value == Absent <==> forall i :: 0 <= i < |col| ==> !col[i].Num?)
    ensures r.Ok? && r.value.Num? ==>
              && Numeric(col) && (exists i :: 0 <= i < |col| && col[i] == r.value)
              && forall i :: 0 <= i < |col| && col[i].Num? ==> col[i].x <= r.value.x
    ensures r.Ok? && r.value.Text? ==>
              && AllText(col) && (exists i :: 0 <= i < |col| && col[i] == r.value)
              && forall i :: 0 <= i < |col| ==> LessOrEqual(col[i].s, r.value.s)
  {
    if Numeric(col) then
      var m := MaxNumber(col);
      if m.Some? then Ok(Num(m.value)) else Ok(Absent)
    else if AllText(col) then Ok(Text(MaxText(col).value))
    else Err(Unorderable(key))
  }

  /** A time axis with a step that has no text beside one that has raises in `min`; one
      of numbers and missing values gives its smallest number. */
  lemma ColumnMinExamples()
    ensures ColumnMin("time", [Text("2024-01-01T00:00:00.000Z"), Absent]) == Err(Unorderable("time"))
    ensures ColumnMin("time", [Num(2.0), Absent, Num(1.0)]) == Ok(Num(1.0))
    ensures ColumnMin("time", [Absent, Absent]) == Ok(Absent)
  {
  }

  /** `count`, `date_from`, `date_to`, `data` and `parameter`. */
  function Summary(meta: Meta, stationId: string, description: Option<Option<string>>,
                   c: Units.Converted): Result<Forecast, MosmixError>
  {
    var time :- Lift(Get(c.frame, "time"));
    var from :- Lift(ColumnMin("time", time));
    var to :- Lift(ColumnMax("time", time));
    Ok(Forecast(meta, stationId, description, c.frame.rows, from, to, c.frame, c.params))
  }

  /** The finish and the summary of a scanned station. */
  function Complete(meta: Meta, stationId: string, scan: Scan, paToHpa: bool, kToC: bool): Result<Forecast, MosmixError>
  {
    var conv :- Finish(scan, paToHpa, kToC);
    Summary(meta, stationId, scan.description, conv)
  }

  /** Everything after the download: the header, the station, the finish and the summary. */
  function Process(root: Element, ds: Dataset, stationId: string, paToHpa: bool, kToC: bool, env: Env,
                   doc: Option<Element>): Result<Forecast, MosmixError>
  {
    var header :- Header(root, ds, env.nextUpdate);
    var scan :- Station(root, stationId, header.1, doc, env.parseFloat);
    Complete(header.0, stationId, scan, paToHpa, kToC)
  }

  /** `get_mosmix_data(station_id, dataset, pa_to_hpa, k_to_c)`, where `doc` is the
      parameter document the catalog holds once asked. */
  function Extract(stationId: string, selector: string, paToHpa: bool, kToC: bool, env: Env,
                   doc: Option<Element>): Result<Forecast, MosmixError>
  {
    var ds := SelectDataset(selector, stationId);
    var root :- LoadRoot(env.load(ds.url));
    Process(root, ds, stationId, paToHpa, kToC, env, doc)
  }

  method GetMosmixData(catalog: ParameterCatalog.Catalog, fetched: Result<Element, string>,
                       stationId: string, selector: string, paToHpa: bool, kToC: bool, env: Env)
    returns (r: Result<Forecast, MosmixError>)
    modifies catalog
    ensures ParameterCatalog.Loaded(catalog.cache, fetched) == ParameterCatalog.Loaded(old(catalog.cache), fetched)
    ensures r == Extract(stationId, selector, paToHpa, kToC, env, ParameterCatalog.Loaded(old(catalog.cache), fetched))
  {
    ghost var doc := ParameterCatalog.Loaded(catalog.cache, fetched);
    var ds := SelectDataset(selector, stationId);
    var loaded := env.load(ds.url);
    if loaded.Err? {
      return Err(LoadFailed(loaded.error));
    }
    var root := loaded.value;
    var pd := FindFirst(root, "ProductDefinition");
    if pd.None? {
      return Err(NoProductDefinition);
    }
    var meta :- ReadMetadata(map["dataset" := ds.name, "interval" := ds.interval], pd.value.children, env.nextUpdate);
    var ts := FindFirst(root, "ForecastTimeSteps");
    if ts.None? {
      return Err(NoTimeSteps);
    }
    var time := ReadTimeAxis(ts.value.children);
    assert time == TimeAxis(ts.value.children);
    var frame :- Lift(Assign(EmptyFrame, "time", time));
    assert Header(root, ds, env.nextUpdate) == Ok((meta, frame));
    var node := FindStation(Descendants(root), stationId);
    if node.None? {
      return Err(StationNotFound(stationId));
    }
    var scan :- ScanSiblings(catalog, fetched, Scan(None, frame, []), node.value.following, env.parseFloat);
    assert Station(root, stationId, frame, doc, env.parseFloat) == Ok(scan);
    var dd :- Lift(Get(scan.frame, "DD"));
    var wcd :- Lift(WindLabels(dd));
    var f :- Lift(Assign(scan.frame, "_wcd", wcd));
    var conv := Units.Converted(f, scan.params);
    if paToHpa || kToC {
      var c := Units.ConvertUnits(f, scan.params, paToHpa, kToC);
      conv :- Lift(c);
    }
    assert Finish(scan, paToHpa, kToC) == Ok(conv);
    var col :- Lift(Get(conv.frame, "time"));
    var from :- Lift(ColumnMin("time", col));
    var to :- Lift(ColumnMax("time", col));
    r := Ok(Forecast(meta, stationId, scan.description, conv.frame.rows, from, to, conv.frame, conv.params));
  }

  // ---------------------------------------------------------------------------------------
  // Properties of the extraction

  /** The header holds the dataset entries and one entry per ProductDefinition child, and its
      table is the time axis alone, one row per time step. */
  lemma HeaderFacts(root: Element, ds: Dataset, nextUpdate: (string, string) -> Option<string>)
    requires Header(root, ds, nextUpdate).Ok?
    ensures FindFirst(root, "ProductDefinition").Some? && FindFirst(root, "ForecastTimeSteps").Some?
    ensures var (meta, frame) := Header(root, ds, nextUpdate).value;
            var pd := FindFirst(root, "ProductDefinition").value;
            && "dataset" in meta && "interval" in meta
            && (forall i :: 0 <= i < |pd.children| ==> pd.children[i].local in meta)
    ensures var frame := Header(root, ds, nextUpdate).value.1;
            var ts := FindFirst(root, "ForecastTimeSteps").value;
            && Valid(frame) && frame.rows == |ts.children| && Keys(frame.columns) == ["time"]
            && Get(frame, "time") == Ok(TimeAxis(ts.children))
  {
    var pd := FindFirst(root, "ProductDefinition").value;
    MetadataKeys(map["dataset" := ds.name, "interval" := ds.interval], pd.children, nextUpdate);
    var ts := FindFirst(root, "ForecastTimeSteps").value;
    AssignFacts(EmptyFrame, "time", TimeAxis(ts.children));
  }

  /** Every error but the missing station. */
  predicate OtherError(e: MosmixError)
  {
    !e.StationNotFound?
  }

  /** Reading the header never reports a missing station. */
  lemma HeaderErrors(root: Element, ds: Dataset, nextUpdate: (string, string) -> Option<string>)
    ensures Header(root, ds, nextUpdate).Err? ==> OtherError(Header(root, ds, nextUpdate).error)
  {
    if FindFirst(root, "ProductDefinition").Some? {
      FoldResultErrors(map["dataset" := ds.name, "interval" := ds.interval], FindFirst(root, "ProductDefinition").value.children,
                       MetadataStepFn(nextUpdate), OtherError);
    }
  }

  /** The sibling scan never reports a missing station. */
  lemma ScanErrors(s: Scan, sibs: seq<Element>, doc: Option<Element>, parseFloat: string -> Option<real>)
    ensures FoldResult(s, sibs, SiblingStepFn(doc, parseFloat)).Err? ==>
              OtherError(FoldResult(s, sibs, SiblingStepFn(doc, parseFloat)).error)
  {
    forall t: Scan, c: Element
      ensures ForecastStepFn(doc, parseFloat)(t, c).Err? ==> OtherError(ForecastStepFn(doc, parseFloat)(t, c).error)
    {
      if ForecastCode(c).Some? {
        FoldResultErrors(t, c.children, ValueStepFn(ForecastCode(c).value, doc, parseFloat), OtherError);
      }
    }
    forall t: Scan, e: Element
      ensures SiblingStepFn(doc, parseFloat)(t, e).Err? ==> OtherError(SiblingStepFn(doc, parseFloat)(t, e).error)
    {
      var t1 := if EndsWith(e.local, "description") then t.(description := Some(e.text)) else t;
      FoldResultErrors(t1, e.children, ForecastStepFn(doc, parseFloat), OtherError);
    }
    FoldResultErrors(s, sibs, SiblingStepFn(doc, parseFloat), OtherError);
  }

  /** The station stage reports a missing station exactly when no `name` element carries
      the id, and then names that id. */
  lemma StationErrors(root: Element, stationId: string, frame: Frame, doc: Option<Element>, parseFloat: string -> Option<real>)
    ensures var r := Station(root, stationId, frame, doc, parseFloat);
            (r.Err? && r.error.StationNotFound?) <==>
              forall k :: 0 <= k < |Descendants(root)| ==> !IsStationName(Descendants(root)[k], stationId)
    ensures var r := Station(root, stationId, frame, doc, parseFloat);
            r.Err? && r.error.StationNotFound? ==> r.error.id == stationId
  {
    var node := StationNode(Descendants(root), stationId);
    if node.Some? {
      ScanErrors(Scan(None, frame, []), node.value.following, doc, parseFloat);
    }
  }

  /** After the station stage the table only gained columns, and the descriptors are the
      catalog's answers for the discovered codes, one per `value` child in document order. */
  lemma StationFacts(root: Element, stationId: string, frame: Frame, doc: Option<Element>, parseFloat: string -> Option<real>)
    requires Valid(frame) && Station(root, stationId, frame, doc, parseFloat).Ok?
    ensures StationNode(Descendants(root), stationId).Some?
    ensures var scan := Station(root, stationId, frame, doc, parseFloat).value;
            var sibs := StationNode(Descendants(root), stationId).value.following;
            Extends(frame, scan.frame) && scan.params == Describe(doc, SiblingCodes(sibs))
  {
    var sibs := StationNode(Descendants(root), stationId).value.following;
    SiblingsExtend(Scan(None, frame, []), sibs, doc, parseFloat);
    SiblingDescriptors(Scan(None, frame, []), sibs, doc, parseFloat);
  }

  /** The description is the text of the last description sibling of the placemark's `name`,
      and absent when there is none. */
  lemma StationDescription(root: Element, stationId: string, frame: Frame, doc: Option<Element>,
                           parseFloat: string -> Option<real>, i: nat)
    requires Station(root, stationId, frame, doc, parseFloat).Ok?
    ensures StationNode(Descendants(root), stationId).Some?
    ensures var scan := Station(root, stationId, frame, doc, parseFloat).value;
            var sibs := StationNode(Descendants(root), stationId).value.following;
            (forall k :: 0 <= k < |sibs| ==> !EndsWith(sibs[k].local, "description")) ==> scan.description == None
    ensures var scan := Station(root, stationId, frame, doc, parseFloat).value;
            var sibs := StationNode(Descendants(root), stationId).value.following;
            (i < |sibs| && EndsWith(sibs[i].local, "description") &&
             forall k :: i < k < |sibs| ==> !EndsWith(sibs[k].local, "description")) ==>
              scan.description == Some(sibs[i].text)
  {
    var sibs := StationNode(Descendants(root), stationId).value.following;
    var s0 := Scan(None, frame, []);
    if forall k :: 0 <= k < |sibs| ==> !EndsWith(sibs[k].local, "description") {
      SiblingNoDescription(s0, sibs, doc, parseFloat);
    }
    if i < |sibs| && EndsWith(sibs[i].local, "description") &&
       forall k :: i < k < |sibs| ==> !EndsWith(sibs[k].local, "description") {
      SiblingDescription(s0, sibs, doc, parseFloat, i);
    }
  }

  /** Finishing a table without a `DD` column raises the KeyError. */
  lemma FinishWithoutDirection(scan: Scan, paToHpa: bool, kToC: bool)
    requires !HasColumn(scan.frame, "DD")
    ensures Finish(scan, paToHpa, kToC) == Err(TableFailure(MissingColumn("DD")))
  {
  }

  /** The `_wcd` assignment keeps the table valid and as long, adds `_wcd` and keeps `DD`. */
  lemma WindColumn(f: Frame, dd: Column)
    requires Valid(f) && Get(f, "DD") == Ok(dd) && WindLabels(dd).Ok?
    ensures Assign(f, "_wcd", WindLabels(dd).value).Ok?
    ensures var g := Assign(f, "_wcd", WindLabels(dd).value).value;
            && Extends(f, g) && g.rows == f.rows && HasColumn(g, "_wcd")
            && Get(g, "DD") == Ok(dd) && Get(g, "_wcd") == WindLabels(dd)
  {
    var wcd := WindLabels(dd).value;
    var k :| 0 <= k < |f.columns| && f.columns[k] == ("DD", dd);
    WindLabelsFacts(dd);
    assert Assign(f, "_wcd", wcd) == Ok(Put(f, "_wcd", wcd));
    PutFacts(f, "_wcd", wcd);
    AssignExtends(f, "_wcd", wcd);
    PutKeepsOther(f, "_wcd", wcd, "DD");
  }

  /** Finishing keeps the table valid and as long, adds `_wcd`, keeps every column, and
      relabels every descriptor as the conversion prescribes; without conversion `_wcd`
      holds the labels of `DD`. */
  lemma FinishFacts(scan: Scan, paToHpa: bool, kToC: bool)
    requires Valid(scan.frame) && Finish(scan, paToHpa, kToC).Ok?
    ensures var c := Finish(scan, paToHpa, kToC).value;
            && Extends(scan.frame, c.frame) && c.frame.rows == scan.frame.rows
            && HasColumn(c.frame, "_wcd") && HasColumn(c.frame, "DD")
            && |c.params| == |scan.params|
            && (forall i :: 0 <= i < |scan.params| ==> c.params[i] == Units.Relabel(scan.params[i], paToHpa, kToC))
    ensures !paToHpa && !kToC ==>
              var c := Finish(scan, paToHpa, kToC).value;
              Get(c.frame, "_wcd") == WindLabels(Get(scan.frame, "DD").value)
  {
    var dd := Get(scan.frame, "DD").value;
    WindColumn(scan.frame, dd);
    var f := Assign(scan.frame, "_wcd", WindLabels(dd).value).value;
    if paToHpa || kToC {
      Units.ConvertKeepsShape(f, scan.params, paToHpa, kToC);
      Units.DescriptorsRelabelled(f, scan.params, paToHpa, kToC);
    }
  }

  /** A failed download is reported as such; otherwise the bundle is processed. */
  lemma ExtractDownload(stationId: string, selector: string, paToHpa: bool, kToC: bool, env: Env, doc: Option<Element>)
    ensures var ds := SelectDataset(selector, stationId);
            env.load(ds.url).Err? ==> Extract(stationId, selector, paToHpa, kToC, env, doc) == Err(LoadFailed(env.load(ds.url).error))
    ensures var ds := SelectDataset(selector, stationId);
            env.load(ds.url).Ok? ==>
              Extract(stationId, selector, paToHpa, kToC, env, doc) == Process(env.load(ds.url).value, ds, stationId, paToHpa, kToC, env, doc)
  {
  }

  /** A successful run passed every stage. */
  lemma ProcessStages(root: Element, ds: Dataset, stationId: string, paToHpa: bool, kToC: bool, env: Env, doc: Option<Element>)
    requires Process(root, ds, stationId, paToHpa, kToC, env, doc).Ok?
    ensures Header(root, ds, env.nextUpdate).Ok?
    ensures var header := Header(root, ds, env.nextUpdate).value;
            && Station(root, stationId, header.1, doc, env.parseFloat).Ok?
            && var scan := Station(root, stationId, header.1, doc, env.parseFloat).value;
            && Finish(scan, paToHpa, kToC).Ok?
            && var c := Finish(scan, paToHpa, kToC).value;
            && var r := Process(root, ds, stationId, paToHpa, kToC, env, doc).value;
            && r.meta == header.0 && r.id == stationId && r.description == scan.description
            && r.count == c.frame.rows && r.data == c.frame && r.parameter == c.params
            && Get(c.frame, "time").Ok?
            && Ok(r.dateFrom) == ColumnMin("time", Get(c.frame, "time").value)
            && Ok(r.dateTo) == ColumnMax("time", Get(c.frame, "time").value)
  {
    var header := Header(root, ds, env.nextUpdate).value;
    var scan := Station(root, stationId, header.1, doc, env.parseFloat).value;
    assert Process(root, ds, stationId, paToHpa, kToC, env, doc) == Complete(header.0, stationId, scan, paToHpa, kToC);
  }

  /** A successful run names the station, counts the rows of a valid table holding the time
      axis, `DD` and `_wcd`, carries the dataset entries and every ProductDefinition entry,
      and has one row per time step whenever there is a time step. */
  lemma ProcessFacts(root: Element, ds: Dataset, stationId: string, paToHpa: bool, kToC: bool, env: Env, doc: Option<Element>)
    requires Process(root, ds, stationId, paToHpa, kToC, env, doc).Ok?
    ensures var r := Process(root, ds, stationId, paToHpa, kToC, env, doc).value;
            && r.id == stationId && Valid(r.data) && r.count == r.data.rows
            && HasColumn(r.data, "time") && HasColumn(r.data, "DD") && HasColumn(r.data, "_wcd")
            && "dataset" in r.meta && "interval" in r.meta
    ensures var r := Process(root, ds, stationId, paToHpa, kToC, env, doc).value;
            var pd := FindFirst(root, "ProductDefinition").value;
            forall i :: 0 <= i < |pd.children| ==> pd.children[i].local in r.meta
    ensures var r := Process(root, ds, stationId, paToHpa, kToC, env, doc).value;
            var ts := FindFirst(root, "ForecastTimeSteps").value;
            |ts.children| > 0 ==> r.count == |ts.children|
  {
    ProcessStages(root, ds, stationId, paToHpa, kToC, env, doc);
    var header := Header(root, ds, env.nextUpdate).value;
    HeaderFacts(root, ds, env.nextUpdate);
    var scan := Station(root, stationId, header.1, doc, env.parseFloat).value;
    StationFacts(root, stationId, header.1, doc, env.parseFloat);
    FinishFacts(scan, paToHpa, kToC);
    assert "time" in Keys(header.1.columns);
  }

  /** `date_from` and `date_to` are the minimum and the maximum of the returned table's
      `time` column. */
  lemma ProcessDates(root: Element, ds: Dataset, stationId: string, paToHpa: bool, kToC: bool, env: Env, doc: Option<Element>)
    requires Process(root, ds, stationId, paToHpa, kToC, env, doc).Ok?
    ensures var r := Process(root, ds, stationId, paToHpa, kToC, env, doc).value;
            && Get(r.data, "time").Ok?
            && Ok(r.dateFrom) == ColumnMin("time", Get(r.data, "time").value)
            && Ok(r.dateTo) == ColumnMax("time", Get(r.data, "time").value)
  {
    ProcessStages(root, ds, stationId, paToHpa, kToC, env, doc);
  }

  /** The descriptors are the catalog's answers for the discovered codes, one per `value`
      child in document order, relabelled by the conversion. */
  lemma ProcessParameters(root: Element, ds: Dataset, stationId: string, paToHpa: bool, kToC: bool, env: Env, doc: Option<Element>)
    requires Process(root, ds, stationId, paToHpa, kToC, env, doc).Ok?
    ensures var r := Process(root, ds, stationId, paToHpa, kToC, env, doc).value;
            var codes := SiblingCodes(StationNode(Descendants(root), stationId).value.following);
            && |r.parameter| == |codes|
            && forall i :: 0 <= i < |codes| ==>
                 r.parameter[i] == Units.Relabel(ParameterCatalog.DescriptorFor(doc, codes[i]), paToHpa, kToC)
  {
    ProcessStages(root, ds, stationId, paToHpa, kToC, env, doc);
    var header := Header(root, ds, env.nextUpdate).value;
    HeaderFacts(root, ds, env.nextUpdate);
    var scan := Station(root, stationId, header.1, doc, env.parseFloat).value;
    StationFacts(root, stationId, header.1, doc, env.parseFloat);
    FinishFacts(scan, paToHpa, kToC);
  }

  /** The returned table has a column for every discovered code. When there is a time step
      and no conversion, every code but `_wcd` holds the classified tokens of the text of the
      last `value` child carrying it. */
  lemma ProcessColumns(root: Element, ds: Dataset, stationId: string, paToHpa: bool, kToC: bool, env: Env, doc: Option<Element>)
    requires Process(root, ds, stationId, paToHpa, kToC, env, doc).Ok?
    ensures StationNode(Descendants(root), stationId).Some? && FindFirst(root, "ForecastTimeSteps").Some?
    ensures var r := Process(root, ds, stationId, paToHpa, kToC, env, doc).value;
            var codes := SiblingCodes(StationNode(Descendants(root), stationId).value.following);
            forall k :: 0 <= k < |codes| ==> HasColumn(r.data, codes[k])
    ensures var r := Process(root, ds, stationId, paToHpa, kToC, env, doc).value;
            var sibs := StationNode(Descendants(root), stationId).value.following;
            var ts := FindFirst(root, "ForecastTimeSteps").value;
            |ts.children| > 0 && !paToHpa && !kToC ==>
              forall key :: key in SiblingCodes(sibs) && key != "_wcd" ==>
                && LastWrite(SiblingWrites(sibs), key).Some?
                && var w := LastWrite(SiblingWrites(sibs), key).value;
                && w.text.Some? && ParseColumn(Split(w.text.value), env.parseFloat).Ok?
                && Get(r.data, key) == Ok(ParseColumn(Split(w.text.value), env.parseFloat).value)
  {
    ProcessStages(root, ds, stationId, paToHpa, kToC, env, doc);
    var header := Header(root, ds, env.nextUpdate).value;
    HeaderFacts(root, ds, env.nextUpdate);
    var scan := Station(root, stationId, header.1, doc, env.parseFloat).value;
    StationFacts(root, stationId, header.1, doc, env.parseFloat);
    FinishFacts(scan, paToHpa, kToC);
    if !paToHpa && !kToC {
      FinishKeepsOthers(scan);
    }
    CodesWritten(StationNode(Descendants(root), stationId).value.following);
    StationColumns(root, stationId, header.1, doc, env.parseFloat);
    var codes := SiblingCodes(StationNode(Descendants(root), stationId).value.following);
    var c := Finish(scan, paToHpa, kToC).value;
    forall k | 0 <= k < |codes| ensures HasColumn(c.frame, codes[k]) {
      assert HasColumn(scan.frame, codes[k]);
      assert codes[k] in Keys(scan.frame.columns);
    }
  }

  /** Every discovered code is written. */
  lemma CodesWritten(sibs: seq<Element>)
    ensures forall key :: key in SiblingCodes(sibs) ==> LastWrite(SiblingWrites(sibs), key).Some?
  {
    WriteCodes(sibs);
    forall key | key in SiblingCodes(sibs) ensures LastWrite(SiblingWrites(sibs), key).Some? {
      var i :| 0 <= i < |SiblingCodes(sibs)| && SiblingCodes(sibs)[i] == key;
      assert SiblingWrites(sibs)[i].code == key;
    }
  }

  /** Finishing without conversion leaves every column but `_wcd` as it was. */
  lemma FinishKeepsOthers(scan: Scan)
    requires Valid(scan.frame) && Finish(scan, false, false).Ok?
    ensures forall key :: key != "_wcd" ==> Get(Finish(scan, false, false).value.frame, key) == Get(scan.frame, key)
  {
    var dd := Get(scan.frame, "DD").value;
    var wcd := WindLabels(dd).value;
    var k :| 0 <= k < |scan.frame.columns| && scan.frame.columns[k] == ("DD", dd);
    WindLabelsFacts(dd);
    assert Assign(scan.frame, "_wcd", wcd) == Ok(Put(scan.frame, "_wcd", wcd));
    forall key | key != "_wcd" ensures Get(Finish(scan, false, false).value.frame, key) == Get(scan.frame, key) {
      PutKeepsOther(scan.frame, "_wcd", wcd, key);
    }
  }

  /** The description is the text of the last description sibling of the placemark's `name`,
      and absent when there is none. */
  lemma ProcessDescription(root: Element, ds: Dataset, stationId: string, paToHpa: bool, kToC: bool, env: Env, doc: Option<Element>, i: nat)
    requires Process(root, ds, stationId, paToHpa, kToC, env, doc).Ok?
    ensures var r := Process(root, ds, stationId, paToHpa, kToC, env, doc).value;
            var sibs := StationNode(Descendants(root), stationId).value.following;
            (forall k :: 0 <= k < |sibs| ==> !EndsWith(sibs[k].local, "description")) ==> r.description == None
    ensures var r := Process(root, ds, stationId, paToHpa, kToC, env, doc).value;
            var sibs := StationNode(Descendants(root), stationId).value.following;
            (i < |sibs| && EndsWith(sibs[i].local, "description") &&
             forall k :: i < k < |sibs| ==> !EndsWith(sibs[k].local, "description")) ==>
              r.description == Some(sibs[i].text)
  {
    ProcessStages(root, ds, stationId, paToHpa, kToC, env, doc);
    var header := Header(root, ds, env.nextUpdate).value;
    StationDescription(root, stationId, header.1, doc, env.parseFloat, i);
  }

  /** A bundle without a matching `name` element raises "station ... not found" once its
      header has been read. */
  lemma ProcessStationNotFound(root: Element, ds: Dataset, stationId: string, paToHpa: bool, kToC: bool, env: Env, doc: Option<Element>)
    requires Header(root, ds, env.nextUpdate).Ok?
    requires forall k :: 0 <= k < |Descendants(root)| ==> !IsStationName(Descendants(root)[k], stationId)
    ensures Process(root, ds, stationId, paToHpa, kToC, env, doc) == Err(StationNotFound(stationId))
  {
    var header := Header(root, ds, env.nextUpdate).value;
    assert Station(root, stationId, header.1, doc, env.parseFloat) == Err(StationNotFound(stationId));
  }

  /** ... and that error arises in no other way. */
  lemma OnlyMissingStation(root: Element, ds: Dataset, stationId: string, paToHpa: bool, kToC: bool, env: Env, doc: Option<Element>)
    requires Process(root, ds, stationId, paToHpa, kToC, env, doc).Err?
    requires Process(root, ds, stationId, paToHpa, kToC, env, doc).error.StationNotFound?
    ensures Header(root, ds, env.nextUpdate).Ok?
    ensures forall k :: 0 <= k < |Descendants(root)| ==> !IsStationName(Descendants(root)[k], stationId)
    ensures Process(root, ds, stationId, paToHpa, kToC, env, doc).error.id == stationId
  {
    HeaderErrors(root, ds, env.nextUpdate);
    var header := Header(root, ds, env.nextUpdate).value;
    StationErrors(root, stationId, header.1, doc, env.parseFloat);
    var st := Station(root, stationId, header.1, doc, env.parseFloat);
    if st.Ok? {
      CompleteErrors(header.0, stationId, st.value, paToHpa, kToC);
    }
  }

  /** Finishing and summarising fail only on the table. */
  lemma CompleteErrors(meta: Meta, stationId: string, scan: Scan, paToHpa: bool, kToC: bool)
    ensures Complete(meta, stationId, scan, paToHpa, kToC).Err? ==> Complete(meta, stationId, scan, paToHpa, kToC).error.TableFailure?
  {
  }
}
