/** The 17-row compass table and the lookup of a sector by wind angle
    (`cardinal_direction` and `get_cardinal_direction_by_angle`). */
module Cardinal {

  /** A Python float as far as comparisons go: every comparison with NaN is false,
      and the infinities lie beyond every real. */
  datatype Float = Finite(value: real) | PosInf | NegInf | NaN

  /** `Azimuth2 <= a` and `a < Azimuth3` on a float. */
  predicate AtLeast(a: Float, bound: real)
  {
    match a
    case Finite(x) => bound <= x
    case PosInf => true
    case NegInf => false
    case NaN => false
  }

  predicate Below(a: Float, bound: real)
  {
    match a
    case Finite(x) => x < bound
    case PosInf => false
    case NegInf => true
    case NaN => false
  }

  /** A row of the table: `Name`, `Bearing`, `Azimuth`, `Azimuth2` (lower) and `Azimuth3`
      (upper, exclusive). */
  datatype Sector = Sector(name: string, bearing: string, azimuth: real, lower: real, upper: real)

  const Table: seq<Sector> := [
    Sector("Norden", "N", 0.00, 0.00, 11.25),
    Sector("Nordnordost", "NNO", 22.50, 11.26, 33.75),
    Sector("Nordost", "NO", 45.00, 33.76, 56.25),
    Sector("Ostnordost", "ONO", 67.50, 56.26, 78.75),
    Sector("Osten", "O", 90.00, 78.76, 101.25),
    Sector("Ostsüdost", "OSO", 112.50, 101.26, 123.75),
    Sector("Südost", "SO", 135.00, 123.76, 146.25),
    Sector("Südsüdost", "SSO", 157.50, 146.26, 168.75),
    Sector("Süden", "S", 180.00, 168.76, 191.25),
    Sector("Südsüdwest", "SSW", 202.50, 191.26, 213.75),
    Sector("Südwest", "SW", 225.00, 213.76, 236.25),
    Sector("Westsüdwest", "WSW", 247.50, 236.26, 258.75),
    Sector("Westen", "W", 270.00, 258.76, 281.25),
    Sector("Westnordwest", "WNW", 292.50, 281.26, 303.75),
    Sector("Nordwest", "NW", 315.00, 303.76, 326.25),
    Sector("Nordnordwest", "NNW", 337.50, 326.26, 348.75),
    Sector("Norden", "N", 360.00, 348.76, 360.00)
  ]

  /** What the lookup returns when no row matches. */
  const NoSector := Sector("", "", 0.0, 0.0, 0.0)

  predicate InSector(s: Sector, a: Float)
  {
    AtLeast(a, s.lower) && Below(a, s.upper)
  }

  /** The index of the first row at `from` or later whose interval holds `a`; `|Table|`
      when none does. */
  function FirstRow(a: Float, from: nat): (k: nat)
    requires from <= |Table|
    ensures from <= k <= |Table|
    ensures k < |Table| ==> InSector(Table[k], a)
    ensures forall j :: from <= j < k ==> !InSector(Table[j], a)
    decreases |Table| - from
  {
    if from == |Table| then |Table|
    else if InSector(Table[from], a) then from
    else FirstRow(a, from + 1)
  }

  /** The scan over the table: the first matching row, or the empty sector. */
  function SectorOf(a: Float): Sector
  {
    var k := FirstRow(a, 0);
    if k < |Table| then Table[k] else NoSector
  }

  /** `Name (Bearing)`, the text of a `_wcd` cell. */
  function Label(s: Sector): string
  {
    s.name + " (" + s.bearing + ")"
  }

  /** The angles between two consecutive rows that no row covers, such as [11.25, 11.26). */
  predicate InGap(a: real)
  {
    exists i :: 0 <= i < |Table| - 1 && Table[i].upper <= a < Table[i + 1].lower
  }

  /** No row is the empty sector: every row spans a non-empty interval. */
  lemma RowsNonEmpty()
    ensures forall i :: 0 <= i < |Table| ==> Table[i].lower < Table[i].upper
  {
  }

  /** The lookup returns the first row whose half-open interval holds the angle, and the
      empty sector exactly when no row does. */
  lemma LookupIsFirstMatch(a: Float)
    ensures SectorOf(a) == NoSector <==> forall j :: 0 <= j < |Table| ==> !InSector(Table[j], a)
    ensures SectorOf(a) != NoSector ==>
              exists i :: 0 <= i < |Table| && SectorOf(a) == Table[i] && InSector(Table[i], a) &&
                          forall j :: 0 <= j < i ==> !InSector(Table[j], a)
  {
    RowsNonEmpty();
  }

  /** NaN and the infinities fall through to the empty sector. */
  lemma NonFiniteHasNoSector(a: Float)
    requires !a.Finite?
    ensures SectorOf(a) == NoSector
  {
    LookupIsFirstMatch(a);
  }

  /** Every row lies within [0, 360]. */
  lemma RowsWithinCircle()
    ensures forall i :: 0 <= i < |Table| ==> 0.0 <= Table[i].lower && Table[i].upper <= 360.0
  {
  }

  /** An angle no row holds is looked up to the empty sector. */
  lemma NoRowHasNoSector(a: Float)
    requires forall j :: 0 <= j < |Table| ==> !InSector(Table[j], a)
    ensures SectorOf(a) == NoSector
  {
  }

  /** So do negative angles and angles from 360 on; 360 itself is not North. */
  lemma OutOfRangeHasNoSector(x: real)
    requires x < 0.0 || x >= 360.0
    ensures SectorOf(Finite(x)) == NoSector
  {
    RowsWithinCircle();
    NoRowHasNoSector(Finite(x));
  }

  lemma GapHasNoSector(x: real)
    requires InGap(x)
    ensures SectorOf(Finite(x)) == NoSector
  {
    var i :| 0 <= i < |Table| - 1 && Table[i].upper <= x < Table[i + 1].lower;
    RowsNonEmpty();
    forall j | 0 <= j < |Table| ensures !InSector(Table[j], Finite(x)) {
      if j < i {
        AdjacentOrdered(j, i);
        assert Table[j].upper <= Table[i].lower < Table[i].upper <= x;
      } else if j > i + 1 {
        AdjacentOrdered(i + 1, j);
        assert x < Table[i + 1].lower < Table[i + 1].upper <= Table[j].lower;
      }
    }
    NoRowHasNoSector(Finite(x));
  }

  /** Every row is a non-empty interval, and each ends no later than the next one starts. */
  lemma TableOrdered()
    ensures forall i :: 0 <= i < |Table| ==> Table[i].lower < Table[i].upper
    ensures forall i, j :: 0 <= i < j < |Table| ==> Table[i].upper <= Table[j].lower
  {
    RowsNonEmpty();
    forall i, j | 0 <= i < j < |Table| ensures Table[i].upper <= Table[j].lower {
      AdjacentOrdered(i, j);
    }
  }

  lemma {:induction false} AdjacentOrdered(i: nat, j: nat)
    requires i < j < |Table|
    ensures Table[i].upper <= Table[j].lower
    decreases j - i
  {
    if j > i + 1 {
      AdjacentOrdered(i, j - 1);
      assert Table[j - 1].lower < Table[j - 1].upper <= Table[j].lower;
    }
  }

  /** Among the rows whose lower bound is at most `x`, the last one either holds `x` or
      leaves `x` in the gap after it. */
  lemma {:induction false} CoveredFrom(x: real, i: nat)
    requires i < |Table| && Table[i].lower <= x < 360.0 && !InGap(x)
    ensures exists k :: i <= k < |Table| && InSector(Table[k], Finite(x))
    decreases |Table| - i
  {
    if x >= Table[i].upper {
      CoveredFrom(x, i + 1);
    }
  }

  /** For an angle in [0, 360) outside the gaps exactly one row matches, and the lookup
      returns it. */
  lemma ExactlyOneSector(x: real)
    requires 0.0 <= x < 360.0 && !InGap(x)
    ensures exists i :: 0 <= i < |Table| && InSector(Table[i], Finite(x)) && SectorOf(Finite(x)) == Table[i]
    ensures forall i, j :: (0 <= i < |Table| && 0 <= j < |Table| &&
                            InSector(Table[i], Finite(x)) && InSector(Table[j], Finite(x))) ==> i == j
  {
    CoveredFrom(x, 0);
    TableOrdered();
    LookupIsFirstMatch(Finite(x));
  }

  /** Each row's own lower bound is looked up to that row: the boundaries are inclusive. */
  lemma LowerBoundSelectsRow(i: nat)
    requires i < |Table|
    ensures SectorOf(Finite(Table[i].lower)) == Table[i]
  {
    TableOrdered();
    LookupIsFirstMatch(Finite(Table[i].lower));
    assert InSector(Table[i], Finite(Table[i].lower));
  }

  /** The empty sector's label is " ()". */
  lemma NoSectorLabel()
    ensures Label(NoSector) == " ()"
  {
  }
}
