/**
 Reading the bytes of a geometry gives the geometry with its rings closed and its SRID, and leaves
 what follows, in either byte order. So it gives back the geometry itself exactly when its rings are
 closed and its SRID is not one that reads as negative.
 */
module EwkbRoundTrip {
  import opened Base
  import opened WireFormat
  import opened EwkbFormat

  predicate CountFits(n: nat) {
    n < 0x1_0000_0000
  }

  predicate PolygonFits(p: Polygon) {
    CountFits(1 + |p.interiors|) && CountFits(|p.exterior|)
    && forall i :: 0 <= i < |p.interiors| ==> CountFits(|p.interiors[i]|)
  }

  /** Every line and ring has a count that fits 32 bits. */
  predicate LinesFit(g: Geometry) {
    match g
    case LineOf(line) => CountFits(|line|)
    case PolygonOf(p) => PolygonFits(p)
    case MultiLine(lines) => forall i :: 0 <= i < |lines| ==> CountFits(|lines[i]|)
    case MultiPolygon(ps) => forall i :: 0 <= i < |ps| ==> PolygonFits(ps[i])
    case _ => true
  }

  /** The geometries that are written: a supported shape, with no more than 2^32 - 1 members. */
  predicate Writable(g: Geometry) {
    match g
    case MultiPoint(points) => CountFits(|points|)
    case MultiLine(lines) => CountFits(|lines|)
    case MultiPolygon(ps) => CountFits(|ps|)
    case NotSupported(_) => false
    case _ => true
  }

  lemma DropsBack(a: bytes, b: bytes)
    ensures (a + b)[..|a|] == a && (a + b)[|a|..] == b
  {
  }

  lemma U32LeReadsBack(n: u32)
    ensures U32Of(U32Le(n), true) == n
  {
    var high, middle := n / 0x100, n / 0x1_0000;
    assert n == high * 0x100 + n % 0x100;
    assert middle == high / 0x100 && n / 0x100_0000 == middle / 0x100;
    assert high == middle * 0x100 + high % 0x100;
    assert middle == middle / 0x100 * 0x100 + middle % 0x100;
  }

  lemma U32ReadsBack(n: u32, little: bool, tail: bytes)
    ensures ParseU32(U32Bytes(n, little) + tail, little) == Parsed(n, tail)
  {
    var b := U32Bytes(n, little);
    PutU32Shape(n, []);
    assert |b| == 4;
    DropsBack(b, tail);
    if little {
      U32LeReadsBack(n);
    } else {
      assert (b + tail)[2..][..2] == b[2..];
      assert U32At(b + tail) == U32At(b);
    }
  }

  lemma CoordReadsBack(c: Coord, little: bool, tail: bytes)
    ensures ParseCoord(CoordBytes(c, little) + tail, little) == Parsed(c, tail)
  {
    var b := CoordBytes(c, little) + tail;
    assert b[..8] == F64Bytes(c.x, little) && b[8..16] == F64Bytes(c.y, little) && b[16..] == tail;
    assert Flip(Flip(c.x)) == c.x && Flip(Flip(c.y)) == c.y;
  }

  lemma CoordsStep(n: nat, b: bytes, little: bool, c: Coord, rest: bytes, more: seq<Coord>, tail: bytes)
    requires ParseCoord(b, little) == Parsed(c, rest) && ParseCoords(n, rest, little) == Parsed(more, tail)
    ensures ParseCoords(n + 1, b, little) == Parsed([c] + more, tail)
  {
  }

  lemma {:induction false} CoordsReadBack(cs: seq<Coord>, little: bool, tail: bytes)
    ensures ParseCoords(|cs|, CoordsBytes(cs, little) + tail, little) == Parsed(cs, tail)
  {
    if cs == [] {
      assert [] + tail == tail;
    } else {
      var first, more := CoordBytes(cs[0], little), CoordsBytes(cs[1..], little);
      CoordsReadBack(cs[1..], little, tail);
      CoordReadsBack(cs[0], little, more + tail);
      Assoc(first, more, tail);
      CoordsStep(|cs| - 1, (first + more) + tail, little, cs[0], more + tail, cs[1..], tail);
      assert [cs[0]] + cs[1..] == cs;
    }
  }

  lemma CountReadsBack(n: nat, body: bytes, little: bool, tail: bytes)
    requires CountFits(n)
    ensures ParseU32((Count(n, little) + body) + tail, little) == Parsed(n, body + tail)
  {
    assert n % 0x1_0000_0000 == n;
    var count := U32Bytes(n, little);
    U32ReadsBack(n, little, body + tail);
    Assoc(count, body, tail);
  }

  lemma LineReadsBack(line: Line, little: bool, tail: bytes)
    requires CountFits(|line|)
    ensures ParseLine(LineBytes(line, little) + tail, little) == Parsed(line, tail)
  {
    var body := CoordsBytes(line, little);
    CoordsReadBack(line, little, tail);
    CountReadsBack(|line|, body, little, tail);
    LineIs(LineBytes(line, little) + tail, little, |line|, body + tail);
  }

  lemma LineIs(b: bytes, little: bool, n: u32, rest: bytes)
    requires ParseU32(b, little) == Parsed(n, rest)
    ensures ParseLine(b, little) == ParseCoords(n, rest, little)
  {
  }

  lemma LinesStep(n: nat, b: bytes, little: bool, line: Line, rest: bytes, more: seq<Line>, tail: bytes)
    requires ParseLine(b, little) == Parsed(line, rest) && ParseLines(n, rest, little) == Parsed(more, tail)
    ensures ParseLines(n + 1, b, little) == Parsed([line] + more, tail)
  {
  }

  lemma {:induction false} LinesReadBack(lines: seq<Line>, little: bool, tail: bytes)
    requires forall i :: 0 <= i < |lines| ==> CountFits(|lines[i]|)
    ensures ParseLines(|lines|, LinesBytes(lines, little) + tail, little) == Parsed(lines, tail)
  {
    if lines == [] {
      assert [] + tail == tail;
    } else {
      var first, more := LineBytes(lines[0], little), LinesBytes(lines[1..], little);
      LinesReadBack(lines[1..], little, tail);
      LineReadsBack(lines[0], little, more + tail);
      Assoc(first, more, tail);
      LinesStep(|lines| - 1, (first + more) + tail, little, lines[0], more + tail, lines[1..], tail);
      assert [lines[0]] + lines[1..] == lines;
    }
  }

  lemma PolygonIs(b: bytes, little: bool, rings: seq<Line>, rest: bytes, tail: bytes)
    requires rings != [] && CountFits(|rings|)
    requires ParseU32(b, little) == Parsed(|rings|, rest) && ParseLines(|rings|, rest, little) == Parsed(rings, tail)
    ensures ParsePolygon(b, little) == Parsed(NewPolygon(rings[0], rings[1..]), tail)
  {
  }

  lemma PolygonReadsBack(p: Polygon, little: bool, tail: bytes)
    requires PolygonFits(p)
    ensures ParsePolygon(PolygonBytes(p, little) + tail, little) == Parsed(ClosePolygon(p), tail)
  {
    var rings := [p.exterior] + p.interiors;
    var body := LinesBytes(rings, little);
    LinesReadBack(rings, little, tail);
    CountReadsBack(|rings|, body, little, tail);
    PolygonIs(PolygonBytes(p, little) + tail, little, rings, body + tail, tail);
    assert rings[1..] == p.interiors;
  }

  predicate NegativeAsI32(srid: Option<u32>) {
    srid.Some? && srid.value >= 0x8000_0000
  }

  lemma FlagsReadBack(kind: u32, withSrid: bool)
    requires kind <= 7
    ensures var id := if withSrid then kind + EWKB_SRID_FLAG else kind;
      && !HasFlag(id, EWKB_Z_FLAG) && !HasFlag(id, EWKB_M_FLAG)
      && (HasFlag(id, EWKB_SRID_FLAG) <==> withSrid) && id % 0x1_0000 == kind
  {
  }

  lemma HeadReadsBack(kind: u32, srid: Option<u32>, little: bool, tail: bytes)
    requires kind <= 7
    ensures ParseHead(Header(kind, srid, little) + tail) ==
      if NegativeAsI32(srid) then Failed(NegativeSrid(Signed32(srid.value))) else Parsed(Head(little, kind, srid), tail)
  {
    var id := if srid.Some? then kind + EWKB_SRID_FLAG else kind;
    var last := (if srid.Some? then U32Bytes(srid.value, little) else []) + tail;
    var b := Header(kind, srid, little) + tail;
    assert b[1..] == U32Bytes(id, little) + last;
    U32ReadsBack(id, little, last);
    FlagsReadBack(kind, srid.Some?);
    if srid.Some? {
      U32ReadsBack(srid.value, little, tail);
    }
  }

  predicate IsFlat(g: Geometry) {
    g.PointOf? || g.LineOf? || g.PolygonOf?
  }

  lemma FlatReadsBack(g: Geometry, little: bool, tail: bytes)
    requires IsFlat(g) && LinesFit(g)
    ensures ParseFlat(TypeId(g), BodyBytes(g, little) + tail, little) == Parsed(CloseAll(g), tail)
  {
    match g {
      case PointOf(c) => CoordReadsBack(c, little, tail);
      case LineOf(line) => LineReadsBack(line, little, tail);
      case PolygonOf(p) => PolygonReadsBack(p, little, tail);
    }
  }

  lemma BodyIsFlat(kind: u32, b: bytes, little: bool)
    requires kind <= 3
    ensures ParseBody(kind, b, little) == ParseFlat(kind, b, little)
  {
  }

  lemma MemberIs<T>(b: bytes, member: Geometry -> Option<T>, g: Geometry, tail: bytes)
    requires ParseGeometry(b) == Parsed(Spatial(g, None), tail) && member(g).Some?
    ensures ParseMember(b, member) == Parsed(member(g).value, tail)
  {
  }

  /** A flat geometry written without an SRID is read as a member. */
  lemma MemberReadsBack<T>(g: Geometry, member: Geometry -> Option<T>, little: bool, tail: bytes)
    requires IsFlat(g) && LinesFit(g) && member(CloseAll(g)).Some?
    ensures ParseMember(Header(TypeId(g), None, little) + BodyBytes(g, little) + tail, member)
         == Parsed(member(CloseAll(g)).value, tail)
  {
    var rest := BodyBytes(g, little) + tail;
    var b := Header(TypeId(g), None, little) + BodyBytes(g, little) + tail;
    Assoc(Header(TypeId(g), None, little), BodyBytes(g, little), tail);
    HeadReadsBack(TypeId(g), None, little, rest);
    FlatReadsBack(g, little, tail);
    BodyIsFlat(TypeId(g), rest, little);
    GeometryIs(b, Head(little, TypeId(g), None), rest, CloseAll(g), tail);
    MemberIs(b, member, CloseAll(g), tail);
  }

  lemma MembersStep<T>(n: nat, b: bytes, member: Geometry -> Option<T>, x: T, rest: bytes, more: seq<T>, tail: bytes)
    requires ParseMember(b, member) == Parsed(x, rest) && ParseMembers(n, rest, member) == Parsed(more, tail)
    ensures ParseMembers(n + 1, b, member) == Parsed([x] + more, tail)
  {
  }

  lemma {:induction false} PointsReadBack(points: seq<Coord>, little: bool, tail: bytes)
    ensures ParseMembers(|points|, PointsBytes(points, little) + tail, AsPoint) == Parsed(points, tail)
  {
    if points == [] {
      assert [] + tail == tail;
    } else {
      var g := PointOf(points[0]);
      var first := Header(TypeId(g), None, little) + BodyBytes(g, little);
      var more := PointsBytes(points[1..], little);
      PointsReadBack(points[1..], little, tail);
      MemberReadsBack(g, AsPoint, little, more + tail);
      Assoc(first, more, tail);
      MembersStep(|points| - 1, (first + more) + tail, AsPoint, points[0], more + tail, points[1..], tail);
      assert [points[0]] + points[1..] == points;
    }
  }

  lemma {:induction false} LineMembersReadBack(lines: seq<Line>, little: bool, tail: bytes)
    requires forall i :: 0 <= i < |lines| ==> CountFits(|lines[i]|)
    ensures ParseMembers(|lines|, LineMembers(lines, little) + tail, AsLine) == Parsed(lines, tail)
  {
    if lines == [] {
      assert [] + tail == tail;
    } else {
      var g := LineOf(lines[0]);
      var first := Header(TypeId(g), None, little) + BodyBytes(g, little);
      var more := LineMembers(lines[1..], little);
      LineMembersReadBack(lines[1..], little, tail);
      MemberReadsBack(g, AsLine, little, more + tail);
      Assoc(first, more, tail);
      MembersStep(|lines| - 1, (first + more) + tail, AsLine, lines[0], more + tail, lines[1..], tail);
      assert [lines[0]] + lines[1..] == lines;
    }
  }

  lemma PolygonMembersHead(ps: seq<Polygon>, little: bool)
    requires ps != []
    ensures PolygonMembers(ps, little)
         == (Header(TypeId(PolygonOf(ps[0])), None, little) + BodyBytes(PolygonOf(ps[0]), little))
            + PolygonMembers(ps[1..], little)
  {
  }

  lemma ClosedHead(ps: seq<Polygon>)
    requires ps != []
    ensures ClosePolygons(ps) == [ClosePolygon(ps[0])] + ClosePolygons(ps[1..])
  {
  }

  lemma {:induction false} PolygonMembersReadBack(ps: seq<Polygon>, little: bool, tail: bytes)
    requires forall i :: 0 <= i < |ps| ==> PolygonFits(ps[i])
    ensures ParseMembers(|ps|, PolygonMembers(ps, little) + tail, AsPolygon) == Parsed(ClosePolygons(ps), tail)
  {
    if ps == [] {
      assert [] + tail == tail && ClosePolygons(ps) == [];
    } else {
      var g := PolygonOf(ps[0]);
      var first := Header(TypeId(g), None, little) + BodyBytes(g, little);
      var more := PolygonMembers(ps[1..], little);
      PolygonMembersReadBack(ps[1..], little, tail);
      MemberReadsBack(g, AsPolygon, little, more + tail);
      Assoc(first, more, tail);
      PolygonMembersHead(ps, little);
      ClosedHead(ps);
      MembersStep(|ps| - 1, (first + more) + tail, AsPolygon, ClosePolygon(ps[0]), more + tail,
                  ClosePolygons(ps[1..]), tail);
    }
  }

  lemma MultiIs<T>(b: bytes, little: bool, member: Geometry -> Option<T>, n: u32, rest: bytes)
    requires ParseU32(b, little) == Parsed(n, rest)
    ensures ParseMulti(b, little, member) == ParseMembers(n, rest, member)
  {
  }

  lemma MultiReadsBack<T>(n: nat, members: bytes, little: bool, member: Geometry -> Option<T>, tail: bytes)
    requires CountFits(n)
    ensures ParseMulti((Count(n, little) + members) + tail, little, member) == ParseMembers(n, members + tail, member)
  {
    CountReadsBack(n, members, little, tail);
    MultiIs((Count(n, little) + members) + tail, little, member, n, members + tail);
  }

  lemma BodyReadsBack(g: Geometry, little: bool, tail: bytes)
    requires Writable(g) && LinesFit(g)
    ensures ParseBody(TypeId(g), BodyBytes(g, little) + tail, little) == Parsed(CloseAll(g), tail)
  {
    match g {
      case MultiPoint(points) =>
        MultiReadsBack(|points|, PointsBytes(points, little), little, AsPoint, tail);
        PointsReadBack(points, little, tail);
      case MultiLine(lines) =>
        MultiReadsBack(|lines|, LineMembers(lines, little), little, AsLine, tail);
        LineMembersReadBack(lines, little, tail);
      case MultiPolygon(ps) =>
        MultiReadsBack(|ps|, PolygonMembers(ps, little), little, AsPolygon, tail);
        PolygonMembersReadBack(ps, little, tail);
      case _ =>
        FlatReadsBack(g, little, tail);
        BodyIsFlat(TypeId(g), BodyBytes(g, little) + tail, little);
    }
  }

  /** What reading makes of the bytes of any geometry that is written. */
  lemma GeometryReads(g: Geometry, srid: Option<u32>, little: bool, tail: bytes)
    requires Writable(g) && LinesFit(g)
    ensures ParseGeometry(GeometryBytes(g, srid, little) + tail) ==
      if NegativeAsI32(srid) then Failed(NegativeSrid(Signed32(srid.value)))
      else Parsed(Spatial(CloseAll(g), srid), tail)
  {
    var head, body := Header(TypeId(g), srid, little), BodyBytes(g, little);
    Assoc(head, body, tail);
    HeadReadsBack(TypeId(g), srid, little, body + tail);
    if !NegativeAsI32(srid) {
      BodyReadsBack(g, little, tail);
      GeometryIs((head + body) + tail, Head(little, TypeId(g), srid), body + tail, CloseAll(g), tail);
    }
  }

  lemma GeometryIs(b: bytes, head: Head, rest: bytes, g: Geometry, tail: bytes)
    requires ParseHead(b) == Parsed(head, rest) && ParseBody(head.kind, rest, head.little) == Parsed(g, tail)
    ensures ParseGeometry(b) == Parsed(Spatial(g, head.srid), tail)
  {
  }

  /** The round trip, with whatever follows left over, and exactly when it holds. */
  lemma RoundTrip(g: Geometry, srid: Option<u32>, little: bool, tail: bytes)
    requires Writable(g) && LinesFit(g)
    ensures ParseGeometry(GeometryBytes(g, srid, little) + tail) == Parsed(Spatial(g, srid), tail)
       <==> RingsClosed(g) && !NegativeAsI32(srid)
  {
    GeometryReads(g, srid, little, tail);
    RingsKept(g);
  }

  /** `decode_spatial`: the first column, whole. */
  function DecodeColumns(columns: seq<Option<bytes>>): Result<Spatial, EwkbError> {
    if columns == [] then Err(NoColumn)
    else if columns[0].None? then Err(NullColumn)
    else
      match ParseGeometry(columns[0].value)
      case Failed(e) => Err(e)
      case Parsed(s, rest) => if rest != [] then Err(TrailingBytes) else Ok(s)
  }

  lemma ColumnRoundTrip(g: Geometry, srid: Option<u32>)
    requires Writable(g) && LinesFit(g)
    ensures DecodeColumns([Some(GeometryBytes(g, srid, true))]) == Ok(Spatial(g, srid))
       <==> RingsClosed(g) && !NegativeAsI32(srid)
    ensures forall b: byte :: DecodeColumns([Some(GeometryBytes(g, srid, true) + [b])]).Err?
  {
    var bytes := GeometryBytes(g, srid, true);
    GeometryReads(g, srid, true, []);
    assert bytes + [] == bytes;
    RingsKept(g);
    forall b: byte
      ensures DecodeColumns([Some(bytes + [b])]).Err?
    {
      GeometryReads(g, srid, true, [b]);
    }
  }

  lemma KnownHeader()
    ensures Header(WKB_POINT, Some(4326), true) == [1, 1, 0, 0, 32, 230, 16, 0, 0]
    ensures Header(WKB_POINT, Some(4326), false) == [0, 32, 0, 0, 1, 0, 0, 16, 230]
  {
    assert PutU16(0x2000, PutU16(1, [])) == [32, 0, 0, 1] && PutU16(0, PutU16(4326, [])) == [0, 0, 16, 230];
  }

  lemma KnownCoord(x: f64, y: f64)
    ensures CoordBytes(Coord(x, y), true) == x + y
    ensures CoordBytes(Coord(x, y), false) == Flip(x) + Flip(y)
  {
  }

  /** The point (1, 2) in WGS 84, as octets in either byte order. */
  lemma KnownPoint()
    ensures var one: f64, two: f64 := [0, 0, 0, 0, 0, 0, 240, 63], [0, 0, 0, 0, 0, 0, 0, 64];
      && GeometryBytes(PointOf(Coord(one, two)), Some(4326), true)
         == [1, 1, 0, 0, 32, 230, 16, 0, 0] + [0, 0, 0, 0, 0, 0, 240, 63] + [0, 0, 0, 0, 0, 0, 0, 64]
      && GeometryBytes(PointOf(Coord(one, two)), Some(4326), false)
         == [0, 32, 0, 0, 1, 0, 0, 16, 230] + [63, 240, 0, 0, 0, 0, 0, 0] + [64, 0, 0, 0, 0, 0, 0, 0]
  {
    var one: f64, two: f64 := [0, 0, 0, 0, 0, 0, 240, 63], [0, 0, 0, 0, 0, 0, 0, 64];
    KnownHeader();
    KnownCoord(one, two);
    Assoc([1, 1, 0, 0, 32, 230, 16, 0, 0], one, two);
    Assoc([0, 32, 0, 0, 1, 0, 0, 16, 230], Flip(one), Flip(two));
  }
}
