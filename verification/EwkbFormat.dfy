/**
 PostGIS EWKB as functions: the bytes of a geometry, as OGC 06-103r4 section 8 lays them out with
 the PostGIS SRID flag, and what `read_geometry` and its helpers in
 `crates/core/src/codec/postgis.rs` make of any bytes. Nested reading ends because every geometry
 takes bytes from the input.
 */
module EwkbFormat {
  import opened Base
  import opened WireFormat

  /** An IEEE 754 double, as its eight bytes from the least significant on. */
  type f64 = b: bytes | |b| == 8 witness [0, 0, 0, 0, 0, 0, 0, 0]

  predicate IsNaN(d: f64) {
    && d[7] % 128 == 127 && d[6] >= 240
    && (d[6] > 240 || exists i :: 0 <= i < 6 && d[i] != 0)
  }

  predicate IsZero(d: f64) {
    d[7] % 128 == 0 && forall i :: 0 <= i < 7 ==> d[i] == 0
  }

  /** Floating-point equality. */
  predicate FloatEq(a: f64, b: f64) {
    !IsNaN(a) && !IsNaN(b) && (a == b || (IsZero(a) && IsZero(b)))
  }

  datatype Coord = Coord(x: f64, y: f64)

  type Line = seq<Coord>

  datatype Polygon = Polygon(exterior: Line, interiors: seq<Line>)

  datatype Geometry =
    | PointOf(point: Coord)
    | LineOf(line: Line)
    | PolygonOf(polygon: Polygon)
    | MultiPoint(points: seq<Coord>)
    | MultiLine(lines: seq<Line>)
    | MultiPolygon(polygons: seq<Polygon>)
    | NotSupported(variant: string)   // GeometryCollection, Line, Rect, Triangle

  datatype Spatial = Spatial(geometry: Geometry, srid: Option<u32>)

  datatype EwkbError =
    | Truncated
    | BadEndian(marker: byte)
    | NotPlanar
    | NegativeSrid(srid: int)
    | NestedSrid
    | WrongMember
    | Unsupported(variant: string)
    | UnknownType(id: nat)
    | CountOverflow
    | NoColumn
    | NullColumn
    | TrailingBytes

  datatype Parsed<+T> = Parsed(value: T, rest: bytes) | Failed(error: EwkbError)

  const WKB_POINT: u32 := 1
  const WKB_LINESTRING: u32 := 2
  const WKB_POLYGON: u32 := 3
  const WKB_MULTIPOINT: u32 := 4
  const WKB_MULTILINESTRING: u32 := 5
  const WKB_MULTIPOLYGON: u32 := 6
  const WKB_GEOMETRY_COLLECTION: u32 := 7
  const EWKB_Z_FLAG: u32 := 0x8000_0000
  const EWKB_M_FLAG: u32 := 0x4000_0000
  const EWKB_SRID_FLAG: u32 := 0x2000_0000

  predicate HasFlag(id: u32, flag: u32)
    requires flag > 0
  {
    (id / flag) % 2 == 1
  }

  // ----- Rings ----------------------------------------------------------------------------------------

  predicate CoordEq(a: Coord, b: Coord) {
    FloatEq(a.x, b.x) && FloatEq(a.y, b.y)
  }

  predicate IsClosed(ring: Line) {
    ring == [] || CoordEq(ring[0], ring[|ring| - 1])
  }

  /** `Polygon::new` repeats the first coordinate of a ring that is not closed. */
  function CloseRing(ring: Line): Line {
    if IsClosed(ring) then ring else ring + [ring[0]]
  }

  function CloseRings(rings: seq<Line>): seq<Line> {
    seq(|rings|, i requires 0 <= i < |rings| => CloseRing(rings[i]))
  }

  function NewPolygon(exterior: Line, interiors: seq<Line>): Polygon {
    Polygon(CloseRing(exterior), CloseRings(interiors))
  }

  function ClosePolygon(p: Polygon): Polygon {
    NewPolygon(p.exterior, p.interiors)
  }

  function ClosePolygons(ps: seq<Polygon>): seq<Polygon> {
    seq(|ps|, i requires 0 <= i < |ps| => ClosePolygon(ps[i]))
  }

  function CloseAll(g: Geometry): Geometry {
    match g
    case PolygonOf(p) => PolygonOf(ClosePolygon(p))
    case MultiPolygon(ps) => MultiPolygon(ClosePolygons(ps))
    case _ => g
  }

  predicate PolygonClosed(p: Polygon) {
    IsClosed(p.exterior) && forall i :: 0 <= i < |p.interiors| ==> IsClosed(p.interiors[i])
  }

  predicate RingsClosed(g: Geometry) {
    match g
    case PolygonOf(p) => PolygonClosed(p)
    case MultiPolygon(ps) => forall i :: 0 <= i < |ps| ==> PolygonClosed(ps[i])
    case _ => true
  }

  lemma PolygonKept(p: Polygon)
    ensures ClosePolygon(p) == p <==> PolygonClosed(p)
  {
    if ClosePolygon(p) == p {
      forall i | 0 <= i < |p.interiors|
        ensures IsClosed(p.interiors[i])
      {
        assert CloseRings(p.interiors)[i] == p.interiors[i];
      }
    }
    assert PolygonClosed(p) ==> CloseRings(p.interiors) == p.interiors;
  }

  /** Closing the rings changes nothing exactly when they are closed. */
  lemma RingsKept(g: Geometry)
    ensures CloseAll(g) == g <==> RingsClosed(g)
  {
    match g {
      case PolygonOf(p) => PolygonKept(p);
      case MultiPolygon(ps) =>
        forall i | 0 <= i < |ps|
          ensures ClosePolygons(ps)[i] == ps[i] <==> PolygonClosed(ps[i])
        {
          PolygonKept(ps[i]);
        }
        assert RingsClosed(g) ==> ClosePolygons(ps) == ps;
      case _ =>
    }
  }

  // ----- The bytes of a geometry -----------------------------------------------------------------------

  function U32Le(n: u32): bytes {
    [n % 0x100, n / 0x100 % 0x100, n / 0x1_0000 % 0x100, n / 0x100_0000]
  }

  function U32Bytes(n: u32, little: bool): bytes {
    if little then U32Le(n) else PutU32(n, [])
  }

  function Count(n: nat, little: bool): bytes {
    U32Bytes(n % 0x1_0000_0000, little)
  }

  function Flip(d: f64): (r: f64) {
    [d[7], d[6], d[5], d[4], d[3], d[2], d[1], d[0]]
  }

  function F64Bytes(d: f64, little: bool): bytes {
    if little then d else Flip(d)
  }

  function CoordBytes(c: Coord, little: bool): bytes {
    F64Bytes(c.x, little) + F64Bytes(c.y, little)
  }

  function CoordsBytes(cs: seq<Coord>, little: bool): bytes {
    if cs == [] then [] else CoordBytes(cs[0], little) + CoordsBytes(cs[1..], little)
  }

  function LineBytes(line: Line, little: bool): bytes {
    Count(|line|, little) + CoordsBytes(line, little)
  }

  function LinesBytes(lines: seq<Line>, little: bool): bytes {
    if lines == [] then [] else LineBytes(lines[0], little) + LinesBytes(lines[1..], little)
  }

  function PolygonBytes(p: Polygon, little: bool): bytes {
    Count(1 + |p.interiors|, little) + LinesBytes([p.exterior] + p.interiors, little)
  }

  function TypeId(g: Geometry): u32 {
    match g
    case PointOf(_) => WKB_POINT
    case LineOf(_) => WKB_LINESTRING
    case PolygonOf(_) => WKB_POLYGON
    case MultiPoint(_) => WKB_MULTIPOINT
    case MultiLine(_) => WKB_MULTILINESTRING
    case MultiPolygon(_) => WKB_MULTIPOLYGON
    case NotSupported(_) => WKB_GEOMETRY_COLLECTION
  }

  function Header(id: u32, srid: Option<u32>, little: bool): bytes
    requires id < EWKB_SRID_FLAG
  {
    [if little then 1 else 0]
    + U32Bytes(if srid.Some? then id + EWKB_SRID_FLAG else id, little)
    + (if srid.Some? then U32Bytes(srid.value, little) else [])
  }

  function PointsBytes(points: seq<Coord>, little: bool): bytes {
    if points == [] then []
    else Header(WKB_POINT, None, little) + CoordBytes(points[0], little) + PointsBytes(points[1..], little)
  }

  function LineMembers(lines: seq<Line>, little: bool): bytes {
    if lines == [] then []
    else Header(WKB_LINESTRING, None, little) + LineBytes(lines[0], little) + LineMembers(lines[1..], little)
  }

  function PolygonMembers(ps: seq<Polygon>, little: bool): bytes {
    if ps == [] then []
    else Header(WKB_POLYGON, None, little) + PolygonBytes(ps[0], little) + PolygonMembers(ps[1..], little)
  }

  function BodyBytes(g: Geometry, little: bool): bytes {
    match g
    case PointOf(c) => CoordBytes(c, little)
    case LineOf(line) => LineBytes(line, little)
    case PolygonOf(p) => PolygonBytes(p, little)
    case MultiPoint(points) => Count(|points|, little) + PointsBytes(points, little)
    case MultiLine(lines) => Count(|lines|, little) + LineMembers(lines, little)
    case MultiPolygon(ps) => Count(|ps|, little) + PolygonMembers(ps, little)
    case NotSupported(_) => []
  }

  function GeometryBytes(g: Geometry, srid: Option<u32>, little: bool): bytes {
    Header(TypeId(g), srid, little) + BodyBytes(g, little)
  }

  // ----- Reading ---------------------------------------------------------------------------------------------

  function U32Of(b: bytes, little: bool): u32
    requires |b| >= 4
  {
    if little then
      var b0: int, b1: int, b2: int, b3: int := b[0], b[1], b[2], b[3];
      b0 + b1 * 0x100 + b2 * 0x1_0000 + b3 * 0x100_0000
    else U32At(b)
  }

  function ParseU32(b: bytes, little: bool): Parsed<u32> {
    if |b| < 4 then Failed(Truncated) else Parsed(U32Of(b, little), b[4..])
  }

  function ParseCoord(b: bytes, little: bool): Parsed<Coord> {
    if |b| < 16 then Failed(Truncated)
    else Parsed(Coord(F64Bytes(b[..8], little), F64Bytes(b[8..16], little)), b[16..])
  }

  function ParseCoords(n: nat, b: bytes, little: bool): Parsed<seq<Coord>> {
    if n == 0 then Parsed([], b)
    else
      var first := ParseCoord(b, little);
      if first.Failed? then Failed(first.error)
      else
        var more := ParseCoords(n - 1, first.rest, little);
        if more.Failed? then more else Parsed([first.value] + more.value, more.rest)
  }

  function ParseLine(b: bytes, little: bool): Parsed<Line> {
    var n := ParseU32(b, little);
    if n.Failed? then Failed(n.error) else ParseCoords(n.value, n.rest, little)
  }

  function ParseLines(n: nat, b: bytes, little: bool): Parsed<seq<Line>> {
    if n == 0 then Parsed([], b)
    else
      var first := ParseLine(b, little);
      if first.Failed? then Failed(first.error)
      else
        var more := ParseLines(n - 1, first.rest, little);
        if more.Failed? then more else Parsed([first.value] + more.value, more.rest)
  }

  function ParsePolygon(b: bytes, little: bool): Parsed<Polygon> {
    var n := ParseU32(b, little);
    if n.Failed? then Failed(n.error)
    else if n.value == 0 then Parsed(NewPolygon([], []), n.rest)
    else
      var rings := ParseLines(n.value, n.rest, little);
      if rings.Failed? then Failed(rings.error)
      else if rings.value == [] then Parsed(NewPolygon([], []), rings.rest)
      else Parsed(NewPolygon(rings.value[0], rings.value[1..]), rings.rest)
  }

  /** The header: the byte order, the type and the SRID. */
  datatype Head = Head(little: bool, kind: u32, srid: Option<u32>)

  function ParseHead(b: bytes): Parsed<Head> {
    if b == [] then Failed(Truncated)
    else if b[0] > 1 then Failed(BadEndian(b[0]))
    else
      var little := b[0] == 1;
      var id := ParseU32(b[1..], little);
      if id.Failed? then Failed(id.error)
      else if HasFlag(id.value, EWKB_Z_FLAG) || HasFlag(id.value, EWKB_M_FLAG) then Failed(NotPlanar)
      else if !HasFlag(id.value, EWKB_SRID_FLAG) then Parsed(Head(little, id.value % 0x1_0000, None), id.rest)
      else
        var srid := ParseU32(id.rest, little);
        if srid.Failed? then Failed(srid.error)
        else if srid.value >= 0x8000_0000 then Failed(NegativeSrid(Signed32(srid.value)))
        else Parsed(Head(little, id.value % 0x1_0000, Some(srid.value)), srid.rest)
  }

  lemma HeadTakesBytes(b: bytes)
    ensures ParseHead(b).Parsed? ==> |ParseHead(b).rest| <= |b| - 5
  {
  }

  lemma {:induction false} CoordsTakeBytes(n: nat, b: bytes, little: bool)
    ensures var r := ParseCoords(n, b, little); r.Parsed? ==> |r.rest| <= |b| && |r.value| == n
  {
    if n > 0 && ParseCoord(b, little).Parsed? {
      CoordsTakeBytes(n - 1, ParseCoord(b, little).rest, little);
    }
  }

  lemma {:induction false} LinesTakeBytes(n: nat, b: bytes, little: bool)
    ensures var r := ParseLines(n, b, little); r.Parsed? ==> |r.rest| <= |b| && |r.value| == n
  {
    if n > 0 {
      LineTakesBytes(b, little);
      if ParseLine(b, little).Parsed? {
        LinesTakeBytes(n - 1, ParseLine(b, little).rest, little);
      }
    }
  }

  lemma LineTakesBytes(b: bytes, little: bool)
    ensures var r := ParseLine(b, little); r.Parsed? ==> |r.rest| <= |b|
  {
    if |b| >= 4 {
      CoordsTakeBytes(U32Of(b, little), b[4..], little);
    }
  }

  lemma PolygonTakesBytes(b: bytes, little: bool)
    ensures var r := ParsePolygon(b, little); r.Parsed? ==> |r.rest| <= |b|
  {
    if |b| >= 4 {
      LinesTakeBytes(U32Of(b, little), b[4..], little);
    }
  }

  function AsPoint(g: Geometry): Option<Coord> {
    if g.PointOf? then Some(g.point) else None
  }

  function AsLine(g: Geometry): Option<Line> {
    if g.LineOf? then Some(g.line) else None
  }

  function AsPolygon(g: Geometry): Option<Polygon> {
    if g.PolygonOf? then Some(g.polygon) else None
  }

  function Mapped<A, B>(r: Parsed<A>, f: A -> B): Parsed<B> {
    if r.Failed? then Failed(r.error) else Parsed(f(r.value), r.rest)
  }

  /** The kinds of body without nested geometries. */
  function ParseFlat(kind: u32, b: bytes, little: bool): Parsed<Geometry> {
    if kind == WKB_POINT then Mapped(ParseCoord(b, little), c => PointOf(c))
    else if kind == WKB_LINESTRING then Mapped(ParseLine(b, little), l => LineOf(l))
    else if kind == WKB_POLYGON then Mapped(ParsePolygon(b, little), p => PolygonOf(p))
    else if kind == WKB_GEOMETRY_COLLECTION then Failed(Unsupported("GeometryCollection"))
    else Failed(UnknownType(kind))
  }

  lemma FlatTakesBytes(kind: u32, b: bytes, little: bool)
    ensures var r := ParseFlat(kind, b, little); r.Parsed? ==> |r.rest| <= |b|
  {
    LineTakesBytes(b, little);
    PolygonTakesBytes(b, little);
  }

  function ParseGeometry(b: bytes): (r: Parsed<Spatial>)
    ensures r.Parsed? ==> |r.rest| < |b|
    decreases |b|, 0, 0
  {
    var head := ParseHead(b);
    if head.Failed? then Failed(head.error)
    else
      HeadTakesBytes(b);
      var g := ParseBody(head.value.kind, head.rest, head.value.little);
      if g.Failed? then Failed(g.error) else Parsed(Spatial(g.value, head.value.srid), g.rest)
  }

  function ParseBody(kind: u32, b: bytes, little: bool): (r: Parsed<Geometry>)
    ensures r.Parsed? ==> |r.rest| <= |b|
    decreases |b|, 2
  {
    if kind == WKB_MULTIPOINT then Mapped(ParseMulti(b, little, AsPoint), ps => MultiPoint(ps))
    else if kind == WKB_MULTILINESTRING then Mapped(ParseMulti(b, little, AsLine), ls => MultiLine(ls))
    else if kind == WKB_MULTIPOLYGON then Mapped(ParseMulti(b, little, AsPolygon), ps => MultiPolygon(ps))
    else
      FlatTakesBytes(kind, b, little);
      ParseFlat(kind, b, little)
  }

  function ParseMulti<T>(b: bytes, little: bool, member: Geometry -> Option<T>): (r: Parsed<seq<T>>)
    ensures r.Parsed? ==> |r.rest| <= |b|
    decreases |b|, 1
  {
    var n := ParseU32(b, little);
    if n.Failed? then Failed(n.error) else ParseMembers(n.value, n.rest, member)
  }

  function ParseMembers<T>(n: nat, b: bytes, member: Geometry -> Option<T>): (r: Parsed<seq<T>>)
    ensures r.Parsed? ==> |r.rest| <= |b|
    decreases |b|, 1
  {
    if n == 0 then Parsed([], b)
    else
      var first := ParseMember(b, member);
      if first.Failed? then Failed(first.error)
      else
        var more := ParseMembers(n - 1, first.rest, member);
        if more.Failed? then more else Parsed([first.value] + more.value, more.rest)
  }

  /** One nested geometry, which must be of the right kind and have no SRID of its own. */
  function ParseMember<T>(b: bytes, member: Geometry -> Option<T>): (r: Parsed<T>)
    ensures r.Parsed? ==> |r.rest| < |b|
    decreases |b|, 0, 1
  {
    var g := ParseGeometry(b);
    if g.Failed? then Failed(g.error)
    else if g.value.srid.Some? then Failed(NestedSrid)
    else
      var m := member(g.value.geometry);
      if m.None? then Failed(WrongMember) else Parsed(m.value, g.rest)
  }
}
