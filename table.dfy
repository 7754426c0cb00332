/** The forecast table as an ordered map from column name to column, with the pandas rules
    for assigning a column, and the list comprehensions that build and convert columns. */
module Table {
  import opened Wrappers
  import opened Strings
  import Cardinal

  /** A table cell: a float, a missing value (None or NaN), or text kept as it was. */
  datatype Cell = Num(x: real) | Absent | Text(s: string)

  type Column = seq<Cell>

  /** `rows` is the length of the index; the columns keep their order of first assignment. */
  datatype Frame = Frame(rows: nat, columns: seq<(string, Column)>)

  datatype TableError =
    | LengthMismatch(key: string)   // "Length of values does not match length of index"
    | MissingColumn(key: string)    // KeyError on `dataframe[key]`
    | BadNumber(token: string)      // `float(token)` raised
    | NotNumeric(key: string)       // `np.isnan` on a text or None cell
    | MissingKey(key: string)       // KeyError on a descriptor dict
    | Unorderable(key: string)      // `min`/`max` comparing text with a float

  const EmptyFrame := Frame(0, [])

  predicate KeysDistinct(cols: seq<(string, Column)>)
  {
    forall i, j :: 0 <= i < j < |cols| ==> cols[i].0 != cols[j].0
  }

  /** Every column has one cell per row and no name appears twice. */
  predicate Valid(f: Frame)
  {
    KeysDistinct(f.columns) && forall i :: 0 <= i < |f.columns| ==> |f.columns[i].1| == f.rows
  }

  function Keys(cols: seq<(string, Column)>): (ks: seq<string>)
    ensures |ks| == |cols| && forall i :: 0 <= i < |cols| ==> ks[i] == cols[i].0
  {
    if cols == [] then [] else [cols[0].0] + Keys(cols[1..])
  }

  predicate HasColumn(f: Frame, key: string)
  {
    key in Keys(f.columns)
  }

  function IndexOf(cols: seq<(string, Column)>, key: string): (i: nat)
    requires key in Keys(cols)
    ensures i < |cols| && cols[i].0 == key && forall j :: 0 <= j < i ==> cols[j].0 != key
  {
    if cols[0].0 == key then 0 else 1 + IndexOf(cols[1..], key)
  }

  /** `dataframe[key]`. */
  function Get(f: Frame, key: string): (r: Result<Column, TableError>)
    ensures r.Err? <==> !HasColumn(f, key)
    ensures r.Err? ==> r.error == MissingColumn(key)
    ensures r.Ok? ==> exists i :: 0 <= i < |f.columns| && f.columns[i] == (key, r.value)
  {
    if HasColumn(f, key) then Ok(f.columns[IndexOf(f.columns, key)].1) else Err(MissingColumn(key))
  }

  function Pad(col: Column, n: nat): (r: Column)
    ensures |r| == |col| + n
  {
    col + seq(n, _ => Absent)
  }

  /** An empty index takes the length of the first non-empty list assigned to it; the columns
      already present are filled with NaN. */
  function Reindex(f: Frame, n: nat): Frame
  {
    Frame(n, seq(|f.columns|, i requires 0 <= i < |f.columns| => (f.columns[i].0, Pad(f.columns[i].1, n))))
  }

  /** `dataframe[key] = col` once the lengths agree: an existing column is replaced where it
      stands, a new one is appended. */
  function Put(f: Frame, key: string, col: Column): Frame
  {
    if HasColumn(f, key) then Frame(f.rows, f.columns[IndexOf(f.columns, key) := (key, col)])
    else Frame(f.rows, f.columns + [(key, col)])
  }

  /** `dataframe[key] = col` for a list `col`. */
  function Assign(f: Frame, key: string, col: Column): Result<Frame, TableError>
  {
    if f.rows == 0 && |col| > 0 then Ok(Put(Reindex(f, |col|), key, col))
    else if |col| == f.rows then Ok(Put(f, key, col))
    else Err(LengthMismatch(key))
  }

  /** Assigning keeps the table valid, fails exactly on a length that the index rejects,
      puts the new column under its name, and leaves every other column where it was
      (padded with missing values when an empty index takes the new length). */
  lemma AssignFacts(f: Frame, key: string, col: Column)
    requires Valid(f)
    ensures Assign(f, key, col).Err? <==> (f.rows != 0 || |col| == 0) && |col| != f.rows
    ensures Assign(f, key, col).Ok? ==>
              var g := Assign(f, key, col).value;
              && Valid(g) && g.rows == |col| && Get(g, key) == Ok(col)
              && |g.columns| == |f.columns| + (if HasColumn(f, key) then 0 else 1)
              && (forall i :: 0 <= i < |f.columns| && f.columns[i].0 != key ==>
                    g.columns[i] == (f.columns[i].0, if f.rows == 0 then Pad(f.columns[i].1, |col|) else f.columns[i].1))
  {
    if f.rows == 0 && |col| > 0 {
      ReindexFacts(f, |col|);
      PutFacts(Reindex(f, |col|), key, col);
    } else if |col| == f.rows {
      PutFacts(f, key, col);
      if f.rows == 0 {
        forall i | 0 <= i < |f.columns| ensures Pad(f.columns[i].1, |col|) == f.columns[i].1 {
          assert |f.columns[i].1| == 0;
        }
      }
    }
  }

  /** The names of the columns. */
  function Names(f: Frame): (ns: set<string>)
    ensures forall k :: k in ns <==> HasColumn(f, k)
  {
    set k | k in Keys(f.columns)
  }

  /** A successful assignment adds its name to the table's names and no other. */
  lemma AssignNames(f: Frame, key: string, col: Column)
    requires Assign(f, key, col).Ok?
    ensures Names(Assign(f, key, col).value) == Names(f) + {key}
  {
    if f.rows == 0 && |col| > 0 {
      var e := Reindex(f, |col|);
      assert Keys(e.columns) == Keys(f.columns);
      assert Names(e) == Names(f);
      PutNames(e, key, col);
    } else {
      PutNames(f, key, col);
    }
  }

  lemma PutNames(f: Frame, key: string, col: Column)
    ensures Names(Put(f, key, col)) == Names(f) + {key}
  {
    var g := Put(f, key, col);
    if HasColumn(f, key) {
      var k := IndexOf(f.columns, key);
      assert g.columns == f.columns[k := (key, col)];
      assert Keys(g.columns) == Keys(f.columns);
    } else {
      assert g.columns == f.columns + [(key, col)];
      assert Keys(g.columns) == Keys(f.columns) + [key];
    }
  }

  /** `b` is `a` after further assignments: still valid, no column lost, and a non-empty
      index keeps its length. */
  predicate Extends(a: Frame, b: Frame)
  {
    && Valid(b)
    && (a.rows > 0 ==> b.rows == a.rows)
    && forall k :: k in Keys(a.columns) ==> k in Keys(b.columns)
  }

  lemma AssignExtends(f: Frame, key: string, col: Column)
    requires Valid(f) && Assign(f, key, col).Ok?
    ensures Extends(f, Assign(f, key, col).value) && HasColumn(Assign(f, key, col).value, key)
  {
    AssignFacts(f, key, col);
    var g := Assign(f, key, col).value;
    forall k | k in Keys(f.columns) ensures k in Keys(g.columns) {
      var i :| 0 <= i < |f.columns| && f.columns[i].0 == k;
      if k != key {
        assert g.columns[i].0 == k;
      }
    }
  }

  /** Putting a column leaves every other column readable as before. */
  lemma PutKeepsOther(f: Frame, key: string, col: Column, other: string)
    requires Valid(f) && |col| == f.rows && other != key
    ensures Get(Put(f, key, col), other) == Get(f, other)
  {
    var g := Put(f, key, col);
    PutFacts(f, key, col);
    if HasColumn(f, other) {
      var i := IndexOf(f.columns, other);
      assert g.columns[i] == f.columns[i];
      IndexOfAt(g.columns, other, i);
    } else if HasColumn(f, key) {
      assert Keys(g.columns) == Keys(f.columns);
    } else {
      assert Keys(g.columns) == Keys(f.columns) + [key];
    }
  }

  lemma ReindexFacts(f: Frame, n: nat)
    requires Valid(f) && f.rows == 0
    ensures var g := Reindex(f, n);
            && Valid(g) && g.rows == n && Keys(g.columns) == Keys(f.columns)
            && |g.columns| == |f.columns|
            && (forall i :: 0 <= i < |f.columns| ==> g.columns[i] == (f.columns[i].0, Pad(f.columns[i].1, n)))
  {
    var g := Reindex(f, n);
    assert Keys(g.columns) == Keys(f.columns);
  }

  lemma PutFacts(f: Frame, key: string, col: Column)
    requires Valid(f) && |col| == f.rows
    ensures var g := Put(f, key, col);
            && Valid(g) && g.rows == f.rows && Get(g, key) == Ok(col)
            && |g.columns| == |f.columns| + (if HasColumn(f, key) then 0 else 1)
            && (forall i :: 0 <= i < |f.columns| && f.columns[i].0 != key ==> g.columns[i] == f.columns[i])
  {
    if HasColumn(f, key) {
      PutReplaceFacts(f, key, col);
    } else {
      PutAppendFacts(f, key, col);
    }
  }

  /** In a table whose names are distinct, a column found at `k` is the one `IndexOf` finds. */
  lemma IndexOfAt(cols: seq<(string, Column)>, key: string, k: nat)
    requires KeysDistinct(cols) && k < |cols| && cols[k].0 == key
    ensures key in Keys(cols) && IndexOf(cols, key) == k
  {
    assert Keys(cols)[k] == key;
  }

  lemma PutReplaceFacts(f: Frame, key: string, col: Column)
    requires Valid(f) && |col| == f.rows && HasColumn(f, key)
    ensures var g := Put(f, key, col);
            && Valid(g) && g.rows == f.rows && Get(g, key) == Ok(col) && |g.columns| == |f.columns|
            && (forall i :: 0 <= i < |f.columns| && f.columns[i].0 != key ==> g.columns[i] == f.columns[i])
  {
    var k := IndexOf(f.columns, key);
    var g := Put(f, key, col);
    assert g.columns == f.columns[k := (key, col)];
    SameNamesDistinct(f.columns, g.columns);
    IndexOfAt(g.columns, key, k);
  }

  lemma SameNamesDistinct(a: seq<(string, Column)>, b: seq<(string, Column)>)
    requires KeysDistinct(a) && |a| == |b| && forall i :: 0 <= i < |a| ==> a[i].0 == b[i].0
    ensures KeysDistinct(b)
  {
    forall i, j | 0 <= i < j < |b| ensures b[i].0 != b[j].0 {
      assert a[i].0 != a[j].0;
    }
  }

  lemma PutAppendFacts(f: Frame, key: string, col: Column)
    requires Valid(f) && |col| == f.rows && !HasColumn(f, key)
    ensures var g := Put(f, key, col);
            && Valid(g) && g.rows == f.rows && Get(g, key) == Ok(col) && |g.columns| == |f.columns| + 1
            && (forall i :: 0 <= i < |f.columns| ==> g.columns[i] == f.columns[i])
  {
    var g := Put(f, key, col);
    assert g.columns == f.columns + [(key, col)];
    assert forall i :: 0 <= i < |f.columns| ==> f.columns[i].0 != key by {
      forall i | 0 <= i < |f.columns| ensures f.columns[i].0 != key {
        assert Keys(f.columns)[i] == f.columns[i].0;
      }
    }
    assert KeysDistinct(g.columns);
    IndexOfAt(g.columns, key, |f.columns|);
  }

  /** One token of a `value` text: `float(x)` if it starts with a digit, None if it is `-`,
      otherwise the text itself (so "-3.5" stays text). */
  function Classify(token: string, parseFloat: string -> Option<real>): (r: Result<Cell, TableError>)
  {
    if StartsWithDigit(token) then
      (match parseFloat(token) case Some(x) => Ok(Num(x)) case None => Err(BadNumber(token)))
    else if token == "-" then Ok(Absent)
    else Ok(Text(token))
  }

  /** The list comprehension over `text.split()`. */
  function ParseColumn(tokens: seq<string>, parseFloat: string -> Option<real>): (r: Result<Column, TableError>)
  {
    if tokens == [] then Ok([])
    else
      var init :- ParseColumn(tokens[..|tokens| - 1], parseFloat);
      var c :- Classify(tokens[|tokens| - 1], parseFloat);
      Ok(init + [c])
  }

  /** A column has one cell per token, each classified on its own; parsing fails only on a
      digit-led token that `float()` rejects. */
  lemma {:induction false} ParseColumnFacts(tokens: seq<string>, parseFloat: string -> Option<real>)
    ensures ParseColumn(tokens, parseFloat).Ok? <==>
              forall i :: 0 <= i < |tokens| ==> Classify(tokens[i], parseFloat).Ok?
    ensures ParseColumn(tokens, parseFloat).Ok? ==>
              var col := ParseColumn(tokens, parseFloat).value;
              |col| == |tokens| && forall i :: 0 <= i < |tokens| ==> col[i] == Classify(tokens[i], parseFloat).value
  {
    if tokens != [] {
      var init := tokens[..|tokens| - 1];
      ParseColumnFacts(init, parseFloat);
      assert forall i :: 0 <= i < |init| ==> init[i] == tokens[i];
    }
  }

  /** What each token becomes. */
  lemma ClassifyCases(token: string, parseFloat: string -> Option<real>)
    ensures StartsWithDigit(token) && parseFloat(token).Some? ==> Classify(token, parseFloat) == Ok(Num(parseFloat(token).value))
    ensures token == "-" ==> Classify(token, parseFloat) == Ok(Absent)
    ensures !StartsWithDigit(token) && token != "-" ==> Classify(token, parseFloat) == Ok(Text(token))
    ensures Classify("-3.5", parseFloat) == Ok(Text("-3.5"))
  {
  }

  /** The `_wcd` list comprehension over the `DD` column. */
  function WindLabels(dd: Column): (r: Result<Column, TableError>)
  {
    if dd == [] then Ok([])
    else
      var init :- WindLabels(dd[..|dd| - 1]);
      match dd[|dd| - 1]
      case Num(x) => Ok(init + [Text(Cardinal.Label(Cardinal.SectorOf(Cardinal.Finite(x))))])
      case Absent => Ok(init + [Absent])
      case Text(_) => Err(NotNumeric("DD"))
  }

  lemma {:induction false} WindLabelsFacts(dd: Column)
    ensures WindLabels(dd).Err? <==> exists i :: 0 <= i < |dd| && dd[i].Text?
    ensures WindLabels(dd).Ok? ==>
              var w := WindLabels(dd).value;
              && |w| == |dd|
              && (forall i :: 0 <= i < |dd| && dd[i].Num? ==>
                    w[i] == Text(Cardinal.Label(Cardinal.SectorOf(Cardinal.Finite(dd[i].x)))))
              && (forall i :: 0 <= i < |dd| && dd[i].Absent? ==> w[i] == Absent)
  {
    if dd != [] {
      var init := dd[..|dd| - 1];
      WindLabelsFacts(init);
      assert forall i :: 0 <= i < |init| ==> init[i] == dd[i];
    }
  }

  /** `[f(x) if type(x) == float else x for x in col]`. */
  function MapNumbers(col: Column, f: real -> real): (r: Column)
    ensures |r| == |col|
    ensures forall i :: 0 <= i < |col| ==> r[i] == (if col[i].Num? then Num(f(col[i].x)) else col[i])
  {
    seq(|col|, i requires 0 <= i < |col| => if col[i].Num? then Num(f(col[i].x)) else col[i])
  }

  function PaToHpa(x: real): real { x / 100.0 }

  function KelvinToCelsius(x: real): real { x - 273.15 }
}
