/**
 The earth's magnetic field from tables sampled every ten degrees, by bilinear interpolation
 over real numbers.
 */
module MagneticField {
  import opened Wrappers

  type Table = seq<seq<real>>

  const ROWS: int := 19       // latitudes from -90 to 90
  const COLUMNS: int := 37    // longitudes from -180 to 180

  ghost predicate IsTable(t: Table) {
    |t| == ROWS && forall i | 0 <= i < ROWS :: |t[i]| == COLUMNS
  }

  predicate InBounds(lat: real, lon: real) {
    -90.0 <= lat < 90.0 && -180.0 <= lon < 180.0
  }

  // ---------------------------------------------------------------- interpolate_table

  /** The sampling point at or below an angle, in degrees. */
  function RoundDown(deg: real): int {
    (deg / 10.0).Floor * 10
  }

  function LatIndex(lat: real): int {
    (90 + RoundDown(lat)) / 10
  }

  function LonIndex(lon: real): int {
    (180 + RoundDown(lon)) / 10
  }

  function Times(x: real, y: real): real {
    x * y
  }

  /** From one value to another. */
  function Blend(a: real, b: real, x: real): real {
    Times(x, b - a) + a
  }

  /** Along a row of the table, between column j and the next. */
  function AlongRow(t: Table, i: int, j: int, lon: real): real
    requires IsTable(t) && 0 <= i < ROWS && 0 <= j < COLUMNS - 1
  {
    Blend(t[i][j], t[i][j + 1], (lon - (10 * j - 180) as real) / 10.0)
  }

  /** The formula of the cell whose south-west corner is in row i and column j. */
  function InCell(t: Table, i: int, j: int, lat: real, lon: real): real
    requires IsTable(t) && 0 <= i < ROWS - 1 && 0 <= j < COLUMNS - 1
  {
    Blend(AlongRow(t, i, j, lon), AlongRow(t, i + 1, j, lon), (lat - (10 * i - 90) as real) / 10.0)
  }

  /** All four table accesses are in bounds, and the point lies in the cell they span. */
  lemma IndicesFit(lat: real, lon: real)
    requires InBounds(lat, lon)
    ensures 0 <= LatIndex(lat) < ROWS - 1 && 0 <= LonIndex(lon) < COLUMNS - 1
    ensures RoundDown(lat) == 10 * LatIndex(lat) - 90 && RoundDown(lon) == 10 * LonIndex(lon) - 180
    ensures 0.0 <= lat - RoundDown(lat) as real < 10.0 && 0.0 <= lon - RoundDown(lon) as real < 10.0
  {
    assert -9 <= (lat / 10.0).Floor < 9 && -18 <= (lon / 10.0).Floor < 18;
  }

  /** interpolate_table */
  method InterpolateTable(table: Table, lat: real, lon: real) returns (value: real)
    requires IsTable(table) && InBounds(lat, lon)
    ensures 0 <= LatIndex(lat) < ROWS - 1 && 0 <= LonIndex(lon) < COLUMNS - 1
    ensures value == InCell(table, LatIndex(lat), LonIndex(lon), lat, lon)
  {
    IndicesFit(lat, lon);
    var minLat := (lat / 10.0).Floor * 10;
    var minLon := (lon / 10.0).Floor * 10;
    var i := (90 + minLat) / 10;
    var j := (180 + minLon) / 10;
    var sw, se, ne, nw := table[i][j], table[i][j + 1], table[i + 1][j + 1], table[i + 1][j];
    var dataMin := ((lon - minLon as real) / 10.0) * (se - sw) + sw;
    var dataMax := ((lon - minLon as real) / 10.0) * (ne - nw) + nw;
    value := ((lat - minLat as real) / 10.0) * (dataMax - dataMin) + dataMin;
  }

  // ---------------------------------------------------------------- within a cell

  lemma Distribute(x: real, a: real, b: real)
    ensures Times(x, a + b) == Times(x, a) + Times(x, b) && Times(x, -a) == -Times(x, a)
    ensures Times(a + b, x) == Times(a, x) + Times(b, x)
    ensures Times(1.0, x) == x && Times(0.0, x) == 0.0
  {}

  lemma Positive(x: real, y: real)
    requires 0.0 <= x && 0.0 <= y
    ensures 0.0 <= Times(x, y)
  {}

  lemma PartOf(x: real, d: real)
    requires 0.0 <= x <= 1.0 && 0.0 <= d
    ensures 0.0 <= Times(x, d) <= d
  {
    hide Times;
    Positive(x, d);
    Positive(1.0 - x, d);
    Distribute(d, 1.0 - x, x);
  }

  lemma BlendIsBetween(a: real, b: real, x: real, lo: real, hi: real)
    requires 0.0 <= x <= 1.0 && lo <= a <= hi && lo <= b <= hi
    ensures lo <= Blend(a, b, x) <= hi
  {
    hide Times;
    if a <= b {
      PartOf(x, b - a);
    } else {
      PartOf(x, a - b);
      Distribute(x, a - b, 0.0);
      assert -(a - b) == b - a;
    }
  }

  lemma RowIsBetween(t: Table, i: int, j: int, lon: real, lo: real, hi: real)
    requires IsTable(t) && 0 <= i < ROWS && 0 <= j < COLUMNS - 1
    requires 0.0 <= lon - (10 * j - 180) as real <= 10.0
    requires lo <= t[i][j] <= hi && lo <= t[i][j + 1] <= hi
    ensures lo <= AlongRow(t, i, j, lon) <= hi
  {
    BlendIsBetween(t[i][j], t[i][j + 1], (lon - (10 * j - 180) as real) / 10.0, lo, hi);
  }

  /** The result lies between the smallest and the largest of the four corners. */
  lemma WithinCorners(t: Table, lat: real, lon: real, lo: real, hi: real)
    requires IsTable(t) && InBounds(lat, lon)
    requires 0 <= LatIndex(lat) < ROWS - 1 && 0 <= LonIndex(lon) < COLUMNS - 1
    requires var i, j := LatIndex(lat), LonIndex(lon);
             lo <= t[i][j] <= hi && lo <= t[i][j + 1] <= hi && lo <= t[i + 1][j] <= hi && lo <= t[i + 1][j + 1] <= hi
    ensures lo <= InCell(t, LatIndex(lat), LonIndex(lon), lat, lon) <= hi
  {
    IndicesFit(lat, lon);
    var i, j := LatIndex(lat), LonIndex(lon);
    hide LatIndex, LonIndex, RoundDown, Blend;
    RowIsBetween(t, i, j, lon, lo, hi);
    RowIsBetween(t, i + 1, j, lon, lo, hi);
    BlendIsBetween(AlongRow(t, i, j, lon), AlongRow(t, i + 1, j, lon), (lat - (10 * i - 90) as real) / 10.0, lo, hi);
  }

  /** At a sampling point the result is the table's entry. */
  lemma ExactAtGrid(t: Table, i: int, j: int)
    requires IsTable(t) && 0 <= i < ROWS - 1 && 0 <= j < COLUMNS - 1
    ensures var lat, lon := (10 * i - 90) as real, (10 * j - 180) as real;
            InBounds(lat, lon) && LatIndex(lat) == i && LonIndex(lon) == j && InCell(t, i, j, lat, lon) == t[i][j]
  {
    var lat, lon := (10 * i - 90) as real, (10 * j - 180) as real;
    assert lat / 10.0 == (i - 9) as real && lon / 10.0 == (j - 18) as real;
  }

  /** Inside a cell each corner counts by how near the point is to it in latitude and in longitude; x and y are the parts of
      ten degrees that the point lies east and north of the south-west corner. */
  lemma CornersAreWeighted(t: Table, i: int, j: int, x: real, y: real)
    requires IsTable(t) && 0 <= i < 18 && 0 <= j < 36
    ensures var lat, lon := 10.0 * y + (10 * i - 90) as real, 10.0 * x + (10 * j - 180) as real;
            InCell(t, i, j, lat, lon) ==
            (1.0 - y) * ((1.0 - x) * t[i][j] + x * t[i][j + 1]) + y * ((1.0 - x) * t[i + 1][j] + x * t[i + 1][j + 1])
    ensures 0.0 <= x < 1.0 && 0.0 <= y < 1.0 ==>
              var lat, lon := 10.0 * y + (10 * i - 90) as real, 10.0 * x + (10 * j - 180) as real;
              -90.0 <= lat < 90.0 && -180.0 <= lon < 180.0 && LatIndex(lat) == i && LonIndex(lon) == j
  {
    var lat, lon := 10.0 * y + (10 * i - 90) as real, 10.0 * x + (10 * j - 180) as real;
    assert (lat - (10 * i - 90) as real) / 10.0 == y && (lon - (10 * j - 180) as real) / 10.0 == x;
    assert lat / 10.0 == y + (i - 9) as real && lon / 10.0 == x + (j - 18) as real;
    Weighted(t[i][j], t[i][j + 1], x);
    Weighted(t[i + 1][j], t[i + 1][j + 1], x);
    Weighted(AlongRow(t, i, j, lon), AlongRow(t, i + 1, j, lon), y);
  }

  lemma Weighted(a: real, b: real, x: real)
    ensures Blend(a, b, x) == (1.0 - x) * a + x * b
  {}

  /** On the edge two cells share, their formulas agree. */
  lemma CellsAgreeOnEdges(t: Table, i: int, j: int, lat: real, lon: real)
    requires IsTable(t) && 0 <= i < ROWS - 1 && 0 <= j < COLUMNS - 1
    ensures i < ROWS - 2 && lat == (10 * (i + 1) - 90) as real ==> InCell(t, i, j, lat, lon) == InCell(t, i + 1, j, lat, lon)
    ensures j < COLUMNS - 2 && lon == (10 * (j + 1) - 180) as real ==> InCell(t, i, j, lat, lon) == InCell(t, i, j + 1, lat, lon)
  {
    if i < ROWS - 2 && lat == (10 * (i + 1) - 90) as real {
      assert (lat - (10 * i - 90) as real) / 10.0 == 1.0 && (lat - (10 * (i + 1) - 90) as real) / 10.0 == 0.0;
    }
    if j < COLUMNS - 2 && lon == (10 * (j + 1) - 180) as real {
      assert (lon - (10 * j - 180) as real) / 10.0 == 1.0 && (lon - (10 * (j + 1) - 180) as real) / 10.0 == 0.0;
    }
  }

  // ---------------------------------------------------------------- across cells

  ghost function Abs(x: real): real {
    if x < 0.0 then -x else x
  }

  lemma BlendDifference(a: real, b: real, c: real, d: real, x: real)
    ensures Blend(a, b, x) - Blend(c, d, x) == Blend(a - c, b - d, x)
  {
    hide Times;
    Distribute(x, (b - d) - (a - c), d - c);
    assert (b - d) - (a - c) + (d - c) == b - a;
  }

  /** Moving along one piece of a line. */
  lemma BlendAt(a: real, b: real, x: real, y: real)
    ensures Blend(a, b, y) - Blend(a, b, x) == Times(y - x, b - a) && Blend(a, b, 0.0) == a && Blend(a, b, 1.0) == b
  {
    hide Times;
    Distribute(b - a, y - x, x);
    assert y - x + x == y;
  }

  lemma Scaled(x: real, y: real, d: real)
    requires 0.0 <= x && Abs(y) <= d
    ensures Abs(Times(x, y)) <= Times(x, d)
  {
    hide Times;
    Positive(x, d - y);
    Positive(x, d + y);
    Distribute(x, d, y);
    Distribute(x, d, -y);
    Distribute(x, y, 0.0);
    assert d + -y == d - y;
  }

  /** The broken line through some values at 0, 1, 2, ... */
  ghost function Along(s: seq<real>, u: real): real
    requires 0.0 <= u < (|s| - 1) as real
  {
    Blend(s[u.Floor], s[u.Floor + 1], u - u.Floor as real)
  }

  /** Neighbouring values differ by at most d. */
  ghost predicate Gentle(s: seq<real>, d: real) {
    forall k | 0 <= k < |s| - 1 :: Abs(s[k + 1] - s[k]) <= d
  }

  /** Reaching the end of a piece. */
  lemma PieceEnd(s: seq<real>, u: real, d: real)
    requires 0.0 <= u < (|s| - 1) as real && Gentle(s, d)
    ensures var k := u.Floor + 1;
            Abs(s[k] - Along(s, u)) <= Times(k as real - u, d)
  {
    hide Times;
    var k := u.Floor;
    BlendAt(s[k], s[k + 1], u - k as real, 1.0);
    Scaled((k + 1) as real - u, s[k + 1] - s[k], d);
  }

  /** A broken line with gentle pieces is gentle everywhere. */
  lemma {:induction false} AlongIsLipschitz(s: seq<real>, u: real, v: real, d: real)
    requires 0.0 <= u <= v < (|s| - 1) as real && Gentle(s, d)
    ensures Abs(Along(s, v) - Along(s, u)) <= Times(v - u, d)
    decreases v.Floor - u.Floor
  {
    hide Times;
    var k := u.Floor;
    if v.Floor == k {
      BlendAt(s[k], s[k + 1], u - k as real, v - k as real);
      assert v - k as real - (u - k as real) == v - u;
      Scaled(v - u, s[k + 1] - s[k], d);
    } else {
      var w := (k + 1) as real;
      PieceEnd(s, u, d);
      AlongIsLipschitz(s, w, v, d);
      AtKnot(s, k + 1);
      Distribute(d, v - w, w - u);
      assert v - w + (w - u) == v - u;
      hide Along;
    }
  }

  lemma AtKnot(s: seq<real>, k: nat)
    requires k + 1 < |s|
    ensures Along(s, k as real) == s[k]
  {
    hide Times;
    BlendAt(s[k], s[k + 1], 0.0, 1.0);
  }

  /** What the table gives for any point in bounds. */
  ghost function Field(t: Table, lat: real, lon: real): real
    requires IsTable(t) && InBounds(lat, lon)
  {
    IndicesFit(lat, lon);
    InCell(t, LatIndex(lat), LonIndex(lon), lat, lon)
  }

  /** A column of the table. */
  ghost function Meridian(t: Table, j: int): (r: seq<real>)
    requires IsTable(t) && 0 <= j < COLUMNS
    ensures |r| == ROWS && forall i | 0 <= i < ROWS :: r[i] == t[i][j]
  {
    seq(ROWS, i requires 0 <= i < ROWS => t[i][j])
  }

  /** Neighbouring entries of the table differ by at most d. */
  ghost predicate GentleTable(t: Table, d: real)
    requires IsTable(t)
  {
    && (forall j | 0 <= j < COLUMNS :: Gentle(Meridian(t, j), d))
    && (forall i | 0 <= i < ROWS :: Gentle(t[i], d))
  }

  /** The rows' values at one longitude. */
  ghost function Column(t: Table, j: int, lon: real): (r: seq<real>)
    requires IsTable(t) && 0 <= j < COLUMNS - 1
    ensures |r| == ROWS && forall i | 0 <= i < ROWS :: r[i] == AlongRow(t, i, j, lon)
  {
    seq(ROWS, i requires 0 <= i < ROWS => AlongRow(t, i, j, lon))
  }

  lemma Coordinates(lat: real, lon: real)
    requires InBounds(lat, lon)
    ensures var u, v := (lat + 90.0) / 10.0, (lon + 180.0) / 10.0;
            && 0.0 <= u < (ROWS - 1) as real && u.Floor == LatIndex(lat)
            && 0.0 <= v < (COLUMNS - 1) as real && v.Floor == LonIndex(lon)
            && (lat - (10 * LatIndex(lat) - 90) as real) / 10.0 == u - u.Floor as real
            && (lon - (10 * LonIndex(lon) - 180) as real) / 10.0 == v - v.Floor as real
  {
    IndicesFit(lat, lon);
    var u, v := (lat + 90.0) / 10.0, (lon + 180.0) / 10.0;
    assert u == lat / 10.0 + 9.0 && v == lon / 10.0 + 18.0;
    assert LatIndex(lat) as real <= u < (LatIndex(lat) + 1) as real;
    assert LonIndex(lon) as real <= v < (LonIndex(lon) + 1) as real;
  }

  lemma RowsAreGentle(t: Table, i: int, j: int, lon: real, d: real)
    requires IsTable(t) && GentleTable(t, d) && 0 <= i < ROWS - 1 && 0 <= j < COLUMNS - 1
    requires 0.0 <= lon - (10 * j - 180) as real <= 10.0
    ensures Abs(AlongRow(t, i + 1, j, lon) - AlongRow(t, i, j, lon)) <= d
  {
    hide Blend, Times;
    var x := (lon - (10 * j - 180) as real) / 10.0;
    var west, east := Meridian(t, j), Meridian(t, j + 1);
    assert Abs(west[i + 1] - west[i]) <= d && Abs(east[i + 1] - east[i]) <= d;
    BlendDifference(t[i + 1][j], t[i + 1][j + 1], t[i][j], t[i][j + 1], x);
    BlendIsBetween(west[i + 1] - west[i], east[i + 1] - east[i], x, -d, d);
  }

  /** Along a meridian. */
  lemma GentleInLatitude(t: Table, a: real, b: real, lon: real, d: real)
    requires IsTable(t) && GentleTable(t, d) && InBounds(a, lon) && InBounds(b, lon) && a <= b
    ensures Abs(Field(t, b, lon) - Field(t, a, lon)) <= Times((b - a) / 10.0, d)
  {
    var j := LonIndex(lon);
    IndicesFit(a, lon);
    var s := Column(t, j, lon);
    ColumnIsGentle(t, j, lon, d);
    AlongColumn(t, a, lon);
    AlongColumn(t, b, lon);
    Coordinates(a, lon);
    Coordinates(b, lon);
    hide Abs, Times, Along, Gentle, Field, Column, LatIndex, LonIndex, RoundDown, GentleTable, IsTable;
    AlongIsLipschitz(s, (a + 90.0) / 10.0, (b + 90.0) / 10.0, d);
    assert (b + 90.0) / 10.0 - (a + 90.0) / 10.0 == (b - a) / 10.0;
  }

  lemma ColumnIsGentle(t: Table, j: int, lon: real, d: real)
    requires IsTable(t) && GentleTable(t, d) && 0 <= j < COLUMNS - 1
    requires 0.0 <= lon - (10 * j - 180) as real <= 10.0
    ensures Gentle(Column(t, j, lon), d)
  {
    hide Abs, AlongRow, GentleTable;
    var s := Column(t, j, lon);
    forall i | 0 <= i < ROWS - 1
      ensures Abs(s[i + 1] - s[i]) <= d
    {
      RowsAreGentle(t, i, j, lon, d);
    }
  }

  lemma AlongColumn(t: Table, lat: real, lon: real)
    requires IsTable(t) && InBounds(lat, lon)
    ensures 0 <= LonIndex(lon) < COLUMNS - 1 && 0.0 <= (lat + 90.0) / 10.0 < (ROWS - 1) as real
    ensures Field(t, lat, lon) == Along(Column(t, LonIndex(lon), lon), (lat + 90.0) / 10.0)
  {
    Coordinates(lat, lon);
    IndicesFit(lat, lon);
    hide RoundDown, AlongRow, Blend, Column;
    var s := Column(t, LonIndex(lon), lon);
    assert s[LatIndex(lat)] == AlongRow(t, LatIndex(lat), LonIndex(lon), lon);
    assert s[LatIndex(lat) + 1] == AlongRow(t, LatIndex(lat) + 1, LonIndex(lon), lon);
  }

  lemma BetweenRows(t: Table, lat: real, lon: real)
    requires IsTable(t) && InBounds(lat, lon)
    ensures 0 <= LatIndex(lat) < ROWS - 1 && 0.0 <= (lon + 180.0) / 10.0 < (COLUMNS - 1) as real
    ensures var i, v := LatIndex(lat), (lon + 180.0) / 10.0;
            Field(t, lat, lon) == Blend(Along(t[i], v), Along(t[i + 1], v), (lat - (10 * i - 90) as real) / 10.0)
  {
    Coordinates(lat, lon);
    IndicesFit(lat, lon);
    hide RoundDown, Blend;
  }

  /** Along a parallel. */
  lemma GentleInLongitude(t: Table, lat: real, a: real, b: real, d: real)
    requires IsTable(t) && GentleTable(t, d) && InBounds(lat, a) && InBounds(lat, b) && a <= b
    ensures Abs(Field(t, lat, b) - Field(t, lat, a)) <= Times((b - a) / 10.0, d)
  {
    var i := LatIndex(lat);
    var y := (lat - (10 * i - 90) as real) / 10.0;
    var u, v := (a + 180.0) / 10.0, (b + 180.0) / 10.0;
    IndicesFit(lat, a);
    BetweenRows(t, lat, a);
    BetweenRows(t, lat, b);
    hide Field, LatIndex, LonIndex, RoundDown, Times, Along, Gentle, Blend;
    AlongIsLipschitz(t[i], u, v, d);
    AlongIsLipschitz(t[i + 1], u, v, d);
    assert v - u == (b - a) / 10.0;
    hide IsTable, GentleTable, InBounds;
    BlendIsGentle(Along(t[i], v), Along(t[i + 1], v), Along(t[i], u), Along(t[i + 1], u), y, Times(v - u, d));
  }

  lemma BlendIsGentle(a: real, b: real, c: real, d: real, y: real, e: real)
    requires 0.0 <= y <= 1.0 && Abs(a - c) <= e && Abs(b - d) <= e
    ensures Abs(Blend(a, b, y) - Blend(c, d, y)) <= e
  {
    hide Blend;
    BlendDifference(a, b, c, d, y);
    BlendIsBetween(a - c, b - d, y, -e, e);
  }

  /** The interpolated field is continuous over the whole range: if neighbouring entries of the table differ by at most
      d, results differ by at most d for each ten degrees of latitude and of longitude between the points. */
  lemma FieldIsLipschitz(t: Table, lat: real, lon: real, lat': real, lon': real, d: real)
    requires IsTable(t) && GentleTable(t, d) && InBounds(lat, lon) && InBounds(lat', lon')
    ensures Abs(Field(t, lat', lon') - Field(t, lat, lon)) <= Times((Abs(lat' - lat) + Abs(lon' - lon)) / 10.0, d)
  {
    hide Field, GentleTable, IsTable, Times;
    var m := Field(t, lat', lon);
    if lat <= lat' { GentleInLatitude(t, lat, lat', lon, d); } else { GentleInLatitude(t, lat', lat, lon, d); }
    if lon <= lon' { GentleInLongitude(t, lat', lon, lon', d); } else { GentleInLongitude(t, lat', lon', lon, d); }
    var x, y := Abs(lat' - lat) / 10.0, Abs(lon' - lon) / 10.0;
    Distribute(d, x, y);
    Distribute(x, d, 0.0);
    TimesCommutes(x, d);
    TimesCommutes(y, d);
    TimesCommutes(x + y, d);
    assert x + y == (Abs(lat' - lat) + Abs(lon' - lon)) / 10.0;
    assert Abs(m - Field(t, lat, lon)) <= Times(x, d) && Abs(Field(t, lat', lon') - m) <= Times(y, d);
  }

  lemma TimesCommutes(x: real, y: real)
    ensures Times(x, y) == Times(y, x)
  {}

  // ---------------------------------------------------------------- get_mag_field_ef

  /** The module's tables and its one global. */
  class Tables {
    const declination: Table
    const inclination: Table
    const intensity: Table
    var earthDeclination: Option<real>

    constructor (declination: Table, inclination: Table, intensity: Table)
      ensures this.declination == declination && this.inclination == inclination && this.intensity == intensity
      ensures earthDeclination == None
    {
      this.declination, this.inclination, this.intensity, earthDeclination := declination, inclination, intensity, None;
    }

    /** Declination, inclination and intensity, exactly for points in bounds; the declination is remembered. */
    method GetMagFieldEf(lat: real, lon: real) returns (r: Option<(real, real, real)>)
      requires IsTable(declination) && IsTable(inclination) && IsTable(intensity)
      modifies this
      ensures r.Some? <==> -90.0 <= lat < 90.0 && -180.0 <= lon < 180.0
      ensures InBounds(lat, lon) ==>
                && r == Some((Field(declination, lat, lon), Field(inclination, lat, lon), Field(intensity, lat, lon)))
                && earthDeclination == Some(r.value.0)
      ensures !InBounds(lat, lon) ==> earthDeclination == old(earthDeclination)
    {
      if lat < -90.0 { return None; }
      if lat >= 90.0 { return None; }
      if lon < -180.0 { return None; }
      if lon >= 180.0 { return None; }
      hide InCell, LatIndex, LonIndex;
      var gauss := InterpolateTable(intensity, lat, lon);
      var declinationDeg := InterpolateTable(declination, lat, lon);
      var inclinationDeg := InterpolateTable(inclination, lat, lon);
      earthDeclination := Some(declinationDeg);
      r := Some((declinationDeg, inclinationDeg, gauss));
    }
  }
}
