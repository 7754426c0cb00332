/** The parameter catalog (`get_measurment_by_parameter`): a short code is resolved to its
    descriptor by scanning the element-definition document, which is fetched once and kept. */
module ParameterCatalog {
  import opened Wrappers
  import opened Xml
  import Text

  /** A descriptor as the program builds it: local name -> cleaned text. */
  type Descriptor = map<string, string>

  /** The sentinel for a code that has no entry, or when anything fails before a match. */
  function Fallback(code: string): Descriptor
  {
    map["ShortName" := "\"" + code + "\"", "UnitOfMeasurement" := "-", "Description" := ""]
  }

  /** `//ShortName[text()="code"]`. */
  predicate IsMatch(n: Node, code: string)
  {
    n.elem.local == "ShortName" && n.elem.text == Some(code)
  }

  /** `sub` is `whole` with some elements left out and the others in their order. */
  predicate IsSubsequence(sub: seq<Node>, whole: seq<Node>)
    decreases |whole|
  {
    if sub == [] then true
    else if whole == [] then false
    else if sub[|sub| - 1] == whole[|whole| - 1] then IsSubsequence(sub[..|sub| - 1], whole[..|whole| - 1])
    else IsSubsequence(sub, whole[..|whole| - 1])
  }

  function MatchesIn(nodes: seq<Node>, code: string): (ms: seq<Node>)
    ensures forall k :: 0 <= k < |ms| ==> IsMatch(ms[k], code)
    ensures ms == [] <==> forall k :: 0 <= k < |nodes| ==> !IsMatch(nodes[k], code)
  {
    if nodes == [] then []
    else
      MatchesIn(nodes[..|nodes| - 1], code)
        + (if IsMatch(nodes[|nodes| - 1], code) then [nodes[|nodes| - 1]] else [])
  }

  /** The matches are every node of `nodes` that matches, as often as it occurs there, and
      nothing else ... */
  lemma {:induction false} MatchesInCounts(nodes: seq<Node>, code: string)
    ensures forall n :: multiset(MatchesIn(nodes, code))[n] == (if IsMatch(n, code) then multiset(nodes)[n] else 0)
    decreases |nodes|
  {
    if nodes != [] {
      var init := nodes[..|nodes| - 1];
      var last := nodes[|nodes| - 1];
      assert nodes == init + [last];
      MatchesInCounts(init, code);
      var rest := MatchesIn(init, code);
      var ms := MatchesIn(nodes, code);
      assert ms == rest + (if IsMatch(last, code) then [last] else []);
      forall n ensures multiset(ms)[n] == (if IsMatch(n, code) then multiset(nodes)[n] else 0) {
        assert multiset(nodes)[n] == multiset(init)[n] + multiset([last])[n];
        assert multiset(ms)[n] == multiset(rest)[n] + multiset(if IsMatch(last, code) then [last] else [])[n];
      }
    }
  }

  /** ... in their order. */
  lemma {:induction false} MatchesInOrder(nodes: seq<Node>, code: string)
    ensures IsSubsequence(MatchesIn(nodes, code), nodes)
    decreases |nodes|
  {
    if nodes != [] {
      var init := nodes[..|nodes| - 1];
      var last := nodes[|nodes| - 1];
      MatchesInOrder(init, code);
      var rest := MatchesIn(init, code);
      var ms := MatchesIn(nodes, code);
      if IsMatch(last, code) {
        assert ms == rest + [last];
        assert ms[..|ms| - 1] == rest;
      } else {
        assert ms == rest;
        assert rest != [] ==> IsMatch(rest[|rest| - 1], code);
      }
    }
  }

  /** The matching elements in document order. */
  function Matches(doc: Element, code: string): seq<Node>
  {
    MatchesIn(AllNodes(doc), code)
  }

  /** The state of the scan: the fields gathered so far, whether a match was seen, and
      whether an exception (a `.text` of None) has ended the scan. */
  datatype Gather = Gather(fields: Descriptor, found: bool, failed: bool)

  const Start := Gather(map[], false, false)

  /** `result[localname(e)] = clean(e.text)`. */
  function Record(g: Gather, e: Element): Gather
  {
    if g.failed then g
    else
      match e.text
      case None => g.(failed := true)
      case Some(t) => g.(fields := g.fields[e.local := Text.Normalize(t)])
  }

  /** The inner loop over `itersiblings()`. */
  function CopySiblings(g: Gather, sibs: seq<Element>): Gather
  {
    if sibs == [] then g else Record(CopySiblings(g, sibs[..|sibs| - 1]), sibs[|sibs| - 1])
  }

  /** One iteration of the outer loop: the match's own field, the flag, then its siblings. */
  function Visit(g: Gather, m: Node): Gather
  {
    if g.failed then g
    else
      match m.elem.text
      case None => g.(failed := true)
      case Some(t) => CopySiblings(Gather(g.fields[m.elem.local := Text.Normalize(t)], true, false), m.following)
  }

  function GatherAll(ms: seq<Node>): Gather
  {
    if ms == [] then Start else Visit(GatherAll(ms[..|ms| - 1]), ms[|ms| - 1])
  }

  /** The descriptor for `code` found in the document `doc`. */
  function Collect(doc: Element, code: string): Descriptor
  {
    var g := GatherAll(Matches(doc, code));
    if g.found then g.fields else Fallback(code)
  }

  /** The descriptor for `code` with the document available (`Some`) or not (`None`: the
      fetch or the parse raised, which the program logs and swallows). */
  function DescriptorFor(doc: Option<Element>, code: string): Descriptor
  {
    if doc.None? then Fallback(code) else Collect(doc.value, code)
  }

  /** The lookup over a document already in hand. */
  method CollectFields(doc: Element, code: string) returns (d: Descriptor)
    ensures d == Collect(doc, code)
  {
    var g := GatherMatches(Matches(doc, code));
    d := if g.found then g.fields else Fallback(code);
  }

  /** The gathering loops over the matches, an exception ending both. */
  method GatherMatches(ms: seq<Node>) returns (g: Gather)
    ensures g == GatherAll(ms)
  {
    var fields: Descriptor := map[];
    var found := false;
    var failed := false;
    var i := 0;
    while i < |ms| && !failed
      invariant 0 <= i <= |ms|
      invariant Gather(fields, found, failed) == GatherAll(ms[..i])
    {
      var m := ms[i];
      assert ms[..i + 1][..i] == ms[..i];
      if m.elem.text.None? {
        failed := true;
      } else {
        fields := fields[m.elem.local := Text.Normalize(m.elem.text.value)];
        found := true;
        ghost var seed := Gather(fields, true, false);
        var sibs := m.following;
        var j := 0;
        while j < |sibs| && !failed
          invariant 0 <= j <= |sibs|
          invariant Gather(fields, found, failed) == CopySiblings(seed, sibs[..j])
        {
          assert sibs[..j + 1][..j] == sibs[..j];
          var e := sibs[j];
          if e.text.None? {
            failed := true;
          } else {
            fields := fields[e.local := Text.Normalize(e.text.value)];
          }
          j := j + 1;
        }
        if failed {
          CopySiblingsAbsorbs(seed, sibs, j);
        }
        assert sibs[..j] == sibs || failed;
      }
      i := i + 1;
    }
    if failed {
      GatherAllAbsorbs(ms, i);
    } else {
      assert ms[..i] == ms;
    }
    g := Gather(fields, found, failed);
  }

  lemma {:induction false} CopySiblingsAbsorbs(g: Gather, sibs: seq<Element>, j: nat)
    requires j <= |sibs| && CopySiblings(g, sibs[..j]).failed
    ensures CopySiblings(g, sibs) == CopySiblings(g, sibs[..j])
    decreases |sibs| - j
  {
    if j < |sibs| {
      assert sibs[..j + 1][..j] == sibs[..j];
      CopySiblingsAbsorbs(g, sibs, j + 1);
    } else {
      assert sibs[..j] == sibs;
    }
  }

  lemma {:induction false} GatherAllAbsorbs(ms: seq<Node>, i: nat)
    requires i <= |ms| && GatherAll(ms[..i]).failed
    ensures GatherAll(ms) == GatherAll(ms[..i])
    decreases |ms| - i
  {
    if i < |ms| {
      assert ms[..i + 1][..i] == ms[..i];
      GatherAllAbsorbs(ms, i + 1);
    } else {
      assert ms[..i] == ms;
    }
  }

  lemma {:induction false} CopySiblingsKeepsFound(g: Gather, sibs: seq<Element>)
    ensures CopySiblings(g, sibs).found == g.found
    ensures g.failed ==> CopySiblings(g, sibs) == g
    ensures g.fields.Keys <= CopySiblings(g, sibs).fields.Keys
  {
    if sibs != [] {
      CopySiblingsKeepsFound(g, sibs[..|sibs| - 1]);
    }
  }

  /** A match was seen exactly when the document has one: every match has text, so the
      first one always sets the flag before anything can fail. */
  lemma {:induction false} FoundIffMatched(ms: seq<Node>, code: string)
    requires forall k :: 0 <= k < |ms| ==> IsMatch(ms[k], code)
    ensures GatherAll(ms).found <==> ms != []
    ensures ms != [] ==> "ShortName" in GatherAll(ms).fields
  {
    if ms != [] {
      var init := ms[..|ms| - 1];
      FoundIffMatched(init, code);
      var g := GatherAll(init);
      var m := ms[|ms| - 1];
      if !g.failed {
        CopySiblingsKeepsFound(Gather(g.fields[m.elem.local := Text.Normalize(m.elem.text.value)], true, false), m.following);
      } else {
        assert init != [];
      }
    }
  }

  /** The sentinel is returned exactly when no `ShortName` element has the code as text;
      otherwise the descriptor carries a `ShortName` field. */
  lemma FallbackWithoutMatch(doc: Element, code: string)
    ensures Matches(doc, code) == [] ==> Collect(doc, code) == Fallback(code)
    ensures Matches(doc, code) != [] <==> GatherAll(Matches(doc, code)).found
    ensures Matches(doc, code) != [] ==> "ShortName" in Collect(doc, code)
  {
    FoundIffMatched(Matches(doc, code), code);
  }

  predicate AllClean(d: Descriptor)
  {
    forall k :: k in d ==> Text.Clean(d[k])
  }

  lemma {:induction false} CopySiblingsClean(g: Gather, sibs: seq<Element>)
    requires AllClean(g.fields)
    ensures AllClean(CopySiblings(g, sibs).fields)
  {
    if sibs != [] {
      CopySiblingsClean(g, sibs[..|sibs| - 1]);
      var e := sibs[|sibs| - 1];
      if e.text.Some? {
        Text.NormalizeIsClean(e.text.value);
      }
    }
  }

  lemma {:induction false} GatherAllClean(ms: seq<Node>)
    ensures AllClean(GatherAll(ms).fields)
  {
    if ms != [] {
      GatherAllClean(ms[..|ms| - 1]);
      var g := GatherAll(ms[..|ms| - 1]);
      var m := ms[|ms| - 1];
      if !g.failed && m.elem.text.Some? {
        Text.NormalizeIsClean(m.elem.text.value);
        CopySiblingsClean(Gather(g.fields[m.elem.local := Text.Normalize(m.elem.text.value)], true, false), m.following);
      }
    }
  }

  /** Every field of a found descriptor is cleaned text: no newline, no surrounding space. */
  lemma FoundFieldsAreClean(doc: Element, code: string)
    requires Matches(doc, code) != []
    ensures forall k :: k in Collect(doc, code) ==> Text.Clean(Collect(doc, code)[k])
  {
    FoundIffMatched(Matches(doc, code), code);
    GatherAllClean(Matches(doc, code));
  }

  predicate LastOfItsName(sibs: seq<Element>, j: nat)
    requires j < |sibs|
  {
    forall k :: j < k < |sibs| ==> sibs[k].local != sibs[j].local
  }

  /** Without a failure, a field holds the text of the last sibling that carries its name:
      later siblings overwrite earlier ones. */
  lemma {:induction false} LastSiblingWins(g: Gather, sibs: seq<Element>, j: nat)
    requires j < |sibs| && !CopySiblings(g, sibs).failed && sibs[j].text.Some?
    requires LastOfItsName(sibs, j)
    ensures sibs[j].local in CopySiblings(g, sibs).fields
    ensures CopySiblings(g, sibs).fields[sibs[j].local] == Text.Normalize(sibs[j].text.value)
  {
    var init := sibs[..|sibs| - 1];
    CopySiblingsKeepsFound(CopySiblings(g, init), [sibs[|sibs| - 1]]);
    if j < |sibs| - 1 {
      assert !CopySiblings(g, init).failed;
      assert forall k :: j < k < |init| ==> init[k] == sibs[k];
      LastSiblingWins(g, init, j);
    }
  }

  /** For the last match, each sibling that is the last of its name decides that field: a
      later match overwrites what an earlier one wrote. */
  lemma LastMatchWins(doc: Element, code: string, j: nat)
    requires var ms := Matches(doc, code);
             && ms != [] && !GatherAll(ms).failed
             && j < |ms[|ms| - 1].following| && ms[|ms| - 1].following[j].text.Some?
             && LastOfItsName(ms[|ms| - 1].following, j)
    ensures var e := Matches(doc, code)[|Matches(doc, code)| - 1].following[j];
            e.local in Collect(doc, code) && Collect(doc, code)[e.local] == Text.Normalize(e.text.value)
  {
    var ms := Matches(doc, code);
    var m := ms[|ms| - 1];
    var g := GatherAll(ms[..|ms| - 1]);
    FoundIffMatched(ms, code);
    LastSiblingWins(Gather(g.fields[m.elem.local := Text.Normalize(m.elem.text.value)], true, false), m.following, j);
  }

  /** Some element of `sibs` is named `k`. */
  predicate Named(sibs: seq<Element>, k: string)
  {
    exists j :: 0 <= j < |sibs| && sibs[j].local == k
  }

  /** Some sibling following one of the matches is named `k`. */
  predicate NamedBelow(ms: seq<Node>, k: string)
  {
    exists i :: 0 <= i < |ms| && Named(ms[i].following, k)
  }

  /** Copying siblings without a failure adds exactly their names, and a field no sibling
      names keeps its value. */
  lemma {:induction false} CopySiblingsKeys(g: Gather, sibs: seq<Element>)
    requires !CopySiblings(g, sibs).failed
    ensures forall k :: k in CopySiblings(g, sibs).fields <==> k in g.fields || Named(sibs, k)
    ensures forall k :: k in g.fields && !Named(sibs, k) ==> CopySiblings(g, sibs).fields[k] == g.fields[k]
  {
    if sibs != [] {
      var init := sibs[..|sibs| - 1];
      var e := sibs[|sibs| - 1];
      CopySiblingsKeepsFound(CopySiblings(g, init), [e]);
      assert !CopySiblings(g, init).failed;
      CopySiblingsKeys(g, init);
      forall k ensures Named(sibs, k) <==> Named(init, k) || e.local == k {
        if Named(sibs, k) && e.local != k {
          var j :| 0 <= j < |sibs| && sibs[j].local == k;
          assert init[j] == sibs[j];
        }
        if Named(init, k) {
          var j :| 0 <= j < |init| && init[j].local == k;
          assert sibs[j] == init[j];
        }
      }
    }
  }

  /** Without a failure, the fields gathered from the matches are `ShortName` and the names
      of the matches' following siblings, and `ShortName` is the cleaned code unless a
      sibling of that name overwrote it. */
  lemma {:induction false} GatherAllKeys(ms: seq<Node>, code: string)
    requires forall k :: 0 <= k < |ms| ==> IsMatch(ms[k], code)
    requires ms != [] && !GatherAll(ms).failed
    ensures forall k :: k in GatherAll(ms).fields <==> k == "ShortName" || NamedBelow(ms, k)
    ensures !NamedBelow(ms, "ShortName") ==> GatherAll(ms).fields["ShortName"] == Text.Normalize(code)
  {
    var init := ms[..|ms| - 1];
    var m := ms[|ms| - 1];
    assert IsMatch(m, code);
    var g := GatherAll(init);
    assert !g.failed;
    var g1 := Gather(g.fields["ShortName" := Text.Normalize(code)], true, false);
    assert GatherAll(ms) == CopySiblings(g1, m.following);
    CopySiblingsKeys(g1, m.following);
    if init != [] {
      assert forall k :: 0 <= k < |init| ==> init[k] == ms[k];
      GatherAllKeys(init, code);
    }
    NamedBelowSplit(ms);
  }

  lemma NamedBelowSplit(ms: seq<Node>)
    requires ms != []
    ensures forall k :: NamedBelow(ms, k) <==> NamedBelow(ms[..|ms| - 1], k) || Named(ms[|ms| - 1].following, k)
  {
    var init := ms[..|ms| - 1];
    forall k ensures NamedBelow(ms, k) <==> NamedBelow(init, k) || Named(ms[|ms| - 1].following, k) {
      if NamedBelow(ms, k) && !Named(ms[|ms| - 1].following, k) {
        var i :| 0 <= i < |ms| && Named(ms[i].following, k);
        assert init[i] == ms[i];
      }
      if NamedBelow(init, k) {
        var i :| 0 <= i < |init| && Named(init[i].following, k);
        assert ms[i] == init[i];
      }
    }
  }

  /** A lookup that finds the code and meets no missing text yields exactly `ShortName` and
      the names of the matches' following siblings, and `ShortName` is the cleaned code
      unless a sibling of that name overwrote it. */
  lemma CollectKeys(doc: Element, code: string)
    requires Matches(doc, code) != [] && !GatherAll(Matches(doc, code)).failed
    ensures forall k :: k in Collect(doc, code) <==> k == "ShortName" || NamedBelow(Matches(doc, code), k)
    ensures !NamedBelow(Matches(doc, code), "ShortName") ==> Collect(doc, code)["ShortName"] == Text.Normalize(code)
  {
    FoundIffMatched(Matches(doc, code), code);
    GatherAllKeys(Matches(doc, code), code);
  }

  /** What the cache holds after a lookup: the old document, or else the fetched one. */
  function Loaded(cache: Option<Element>, fetched: Result<Element, string>): (r: Option<Element>)
    ensures cache.Some? ==> r == cache
    ensures cache.None? ==> (r.Some? <==> fetched.Ok?)
    ensures cache.None? && fetched.Ok? ==> r == Some(fetched.value)
  {
    if cache.Some? then cache else if fetched.Ok? then Some(fetched.value) else None
  }

  /** Once loaded, the document stays: a second lookup with the same answer from the network
      sees the same document. */
  lemma LoadedIsStable(cache: Option<Element>, fetched: Result<Element, string>)
    ensures Loaded(Loaded(cache, fetched), fetched) == Loaded(cache, fetched)
  {
  }

  /** The catalog with its document cache (`global_root_measurement`). `fetches` counts the
      downloads. */
  class Catalog {
    var cache: Option<Element>
    ghost var fetches: nat

    constructor ()
      ensures cache == None && fetches == 0
    {
      cache := None;
      fetches := 0;
    }

    /** `get_measurment_by_parameter(code)`. `fetched` is what downloading and parsing the
        document yields, used only when nothing is cached; no exception escapes. */
    method Describe(code: string, fetched: Result<Element, string>) returns (d: Descriptor)
      modifies this
      ensures cache == Loaded(old(cache), fetched)
      ensures fetches == old(fetches) + (if old(cache).None? then 1 else 0)
      ensures d == DescriptorFor(cache, code)
    {
      if cache.None? {
        fetches := fetches + 1;
        if fetched.Ok? {
          cache := Some(fetched.value);
        }
      }
      if cache.None? {
        d := Fallback(code);
      } else {
        d := CollectFields(cache.value, code);
      }
    }
  }

  /** Two lookups fetch the document at most once when the first fetch succeeds. */
  method TwoLookups(code1: string, code2: string, doc: Element) returns (d1: Descriptor, d2: Descriptor)
    ensures d1 == Collect(doc, code1) && d2 == Collect(doc, code2)
  {
    var c := new Catalog();
    d1 := c.Describe(code1, Ok(doc));
    d2 := c.Describe(code2, Err("unreachable"));
    assert c.fetches == 1;
  }
}
