/**
 The EWKB writer and reader of `crates/core/src/codec/postgis.rs`: writers append to a buffer, and
 the mutually recursive readers advance one cursor.
 */
module Ewkb {
  import opened Base
  import opened WireFormat
  import opened EwkbFormat
  import opened EwkbRoundTrip

  // ----- Writing ---------------------------------------------------------------------------------------

  lemma FirstLine(lines: seq<Line>, i: nat)
    requires i < |lines|
    ensures LinesBytes(lines[i..], true) == LineBytes(lines[i], true) + LinesBytes(lines[i + 1..], true)
  {
    assert lines[i..][1..] == lines[i + 1..];
  }

  lemma CountIs(n: nat)
    requires CountFits(n)
    ensures Count(n, true) == U32Le(n)
  {
  }

  lemma PolygonParts(before: bytes, p: Polygon)
    requires CountFits(1 + |p.interiors|)
    ensures before + U32Le(1 + |p.interiors|) + LineBytes(p.exterior, true) + LinesBytes(p.interiors, true)
         == before + PolygonBytes(p, true)
  {
    var count := U32Le(1 + |p.interiors|);
    var first, more := LineBytes(p.exterior, true), LinesBytes(p.interiors, true);
    var rings := [p.exterior] + p.interiors;
    assert rings[1..] == p.interiors;
    Assoc(before + count, first, more);
    Assoc(before, count, first + more);
  }

  function WriteError(g: Geometry): EwkbError {
    if g.NotSupported? then Unsupported(g.variant) else CountOverflow
  }

  class Output {
    var buf: bytes

    constructor ()
      ensures buf == []
    {
      buf := [];
    }

    method WritePoint(point: Coord)
      modifies this
      ensures buf == old(buf) + CoordBytes(point, true)
    {
      buf := buf + point.x;
      buf := buf + point.y;
    }

    method WriteLineString(line: Line)
      requires CountFits(|line|)
      modifies this
      ensures buf == old(buf) + LineBytes(line, true)
    {
      buf := buf + U32Le(|line|);
      ghost var whole := buf + CoordsBytes(line, true);
      assert line[0..] == line;
      for i := 0 to |line|
        invariant buf + CoordsBytes(line[i..], true) == whole
      {
        assert line[i..][1..] == line[i + 1..];
        ghost var before := buf;
        WritePoint(line[i]);
        Assoc(before, CoordBytes(line[i], true), CoordsBytes(line[i + 1..], true));
      }
      Assoc(old(buf), U32Le(|line|), CoordsBytes(line, true));
      assert buf + [] == buf;
    }

    method WriteRings(rings: seq<Line>)
      requires forall i :: 0 <= i < |rings| ==> CountFits(|rings[i]|)
      modifies this
      ensures buf == old(buf) + LinesBytes(rings, true)
    {
      ghost var whole := buf + LinesBytes(rings, true);
      assert rings[0..] == rings;
      for i := 0 to |rings|
        invariant buf + LinesBytes(rings[i..], true) == whole
      {
        FirstLine(rings, i);
        ghost var before := buf;
        WriteLineString(rings[i]);
        Assoc(before, LineBytes(rings[i], true), LinesBytes(rings[i + 1..], true));
      }
      assert buf + [] == buf;
    }

    method WritePolygon(polygon: Polygon)
      requires PolygonFits(polygon)
      modifies this
      ensures buf == old(buf) + PolygonBytes(polygon, true)
    {
      buf := buf + U32Le(1 + |polygon.interiors|);
      WriteLineString(polygon.exterior);
      WriteRings(polygon.interiors);
      PolygonParts(old(buf), polygon);
    }

    method WriteHeader(id: u32, srid: Option<u32>)
      requires id < EWKB_SRID_FLAG
      modifies this
      ensures buf == old(buf) + Header(id, srid, true)
    {
      ghost var before := buf;
      buf := buf + [1];
      var kind: u32 := id;
      if srid.Some? {
        kind := kind + EWKB_SRID_FLAG;
      }
      buf := buf + U32Le(kind);
      ghost var last := if srid.Some? then U32Le(srid.value) else [];
      if srid.Some? {
        buf := buf + U32Le(srid.value);
      }
      assert buf == before + ([1] + U32Le(kind) + last);
    }

    /** `write_geometry`: a supported shape is appended in little-endian order, its members without an
        SRID of their own; what has been written before an error is not used. */
    method WriteGeometry(geometry: Geometry, srid: Option<u32>, includeSrid: bool) returns (r: Result<(), EwkbError>)
      requires LinesFit(geometry)
      modifies this
      ensures r.Ok? <==> Writable(geometry)
      ensures r.Ok? ==> buf == old(buf) + GeometryBytes(geometry, if includeSrid then srid else None, true)
      ensures r.Err? ==> r.error == WriteError(geometry)
      decreases if IsFlat(geometry) then 0 else 2, 1
    {
      if geometry.NotSupported? {
        return Err(Unsupported(geometry.variant));
      }
      ghost var before := buf;
      var own := if includeSrid then srid else None;
      WriteHeader(TypeId(geometry), own);
      if IsFlat(geometry) {
        WriteFlat(geometry);
        r := Ok(());
      } else {
        r := WriteMulti(geometry);
      }
      Assoc(before, Header(TypeId(geometry), own, true), BodyBytes(geometry, true));
    }

    method WriteFlat(geometry: Geometry)
      requires LinesFit(geometry) && IsFlat(geometry)
      modifies this
      ensures buf == old(buf) + BodyBytes(geometry, true)
    {
      match geometry {
        case PointOf(point) => WritePoint(point);
        case LineOf(line) => WriteLineString(line);
        case PolygonOf(polygon) => WritePolygon(polygon);
      }
    }

    method WriteMulti(geometry: Geometry) returns (r: Result<(), EwkbError>)
      requires LinesFit(geometry) && !IsFlat(geometry) && !geometry.NotSupported?
      modifies this
      ensures r.Ok? <==> Writable(geometry)
      ensures r.Ok? ==> buf == old(buf) + BodyBytes(geometry, true)
      ensures r.Err? ==> r.error == CountOverflow
      decreases 2, 0
    {
      match geometry {
        case MultiPoint(points) => r := WriteMultiPoint(points);
        case MultiLine(lines) => r := WriteMultiLine(lines);
        case MultiPolygon(polygons) => r := WriteMultiPolygon(polygons);
      }
    }

    method WriteMultiPoint(points: seq<Coord>) returns (r: Result<(), EwkbError>)
      modifies this
      ensures r.Ok? <==> CountFits(|points|)
      ensures r.Err? ==> r.error == CountOverflow
      ensures r.Ok? ==> buf == old(buf) + (Count(|points|, true) + PointsBytes(points, true))
      decreases 1, 1
    {
      if !CountFits(|points|) {
        return Err(CountOverflow);
      }
      CountIs(|points|);
      buf := buf + U32Le(|points|);
      WritePoints(points);
      Assoc(old(buf), Count(|points|, true), PointsBytes(points, true));
      return Ok(());
    }

    method WriteMultiLine(lines: seq<Line>) returns (r: Result<(), EwkbError>)
      requires forall i :: 0 <= i < |lines| ==> CountFits(|lines[i]|)
      modifies this
      ensures r.Ok? <==> CountFits(|lines|)
      ensures r.Err? ==> r.error == CountOverflow
      ensures r.Ok? ==> buf == old(buf) + (Count(|lines|, true) + LineMembers(lines, true))
      decreases 1, 1
    {
      if !CountFits(|lines|) {
        return Err(CountOverflow);
      }
      CountIs(|lines|);
      buf := buf + U32Le(|lines|);
      WriteLines(lines);
      Assoc(old(buf), Count(|lines|, true), LineMembers(lines, true));
      return Ok(());
    }

    method WriteMultiPolygon(polygons: seq<Polygon>) returns (r: Result<(), EwkbError>)
      requires forall i :: 0 <= i < |polygons| ==> PolygonFits(polygons[i])
      modifies this
      ensures r.Ok? <==> CountFits(|polygons|)
      ensures r.Err? ==> r.error == CountOverflow
      ensures r.Ok? ==> buf == old(buf) + (Count(|polygons|, true) + PolygonMembers(polygons, true))
      decreases 1, 1
    {
      if !CountFits(|polygons|) {
        return Err(CountOverflow);
      }
      CountIs(|polygons|);
      buf := buf + U32Le(|polygons|);
      WritePolygons(polygons);
      Assoc(old(buf), Count(|polygons|, true), PolygonMembers(polygons, true));
      return Ok(());
    }

    method WritePoints(points: seq<Coord>)
      modifies this
      ensures buf == old(buf) + PointsBytes(points, true)
      decreases 1, 0
    {
      ghost var whole := buf + PointsBytes(points, true);
      assert points[0..] == points;
      for i := 0 to |points|
        invariant buf + PointsBytes(points[i..], true) == whole
      {
        assert points[i..][1..] == points[i + 1..];
        ghost var before := buf;
        var _ := WriteGeometry(PointOf(points[i]), None, false);
        Assoc(before, GeometryBytes(PointOf(points[i]), None, true), PointsBytes(points[i + 1..], true));
      }
      assert buf + [] == buf;
    }

    method WriteLines(lines: seq<Line>)
      requires forall i :: 0 <= i < |lines| ==> CountFits(|lines[i]|)
      modifies this
      ensures buf == old(buf) + LineMembers(lines, true)
      decreases 1, 0
    {
      ghost var whole := buf + LineMembers(lines, true);
      assert lines[0..] == lines;
      for i := 0 to |lines|
        invariant buf + LineMembers(lines[i..], true) == whole
      {
        assert lines[i..][1..] == lines[i + 1..];
        ghost var before := buf;
        var _ := WriteGeometry(LineOf(lines[i]), None, false);
        Assoc(before, GeometryBytes(LineOf(lines[i]), None, true), LineMembers(lines[i + 1..], true));
      }
      assert buf + [] == buf;
    }

    method WritePolygons(polygons: seq<Polygon>)
      requires forall i :: 0 <= i < |polygons| ==> PolygonFits(polygons[i])
      modifies this
      ensures buf == old(buf) + PolygonMembers(polygons, true)
      decreases 1, 0
    {
      ghost var whole := buf + PolygonMembers(polygons, true);
      assert polygons[0..] == polygons;
      for i := 0 to |polygons|
        invariant buf + PolygonMembers(polygons[i..], true) == whole
      {
        assert polygons[i..][1..] == polygons[i + 1..];
        ghost var before := buf;
        var _ := WriteGeometry(PolygonOf(polygons[i]), None, false);
        Assoc(before, GeometryBytes(PolygonOf(polygons[i]), None, true), PolygonMembers(polygons[i + 1..], true));
      }
      assert buf + [] == buf;
    }
  }

  /** `encode_spatial`. */
  method EncodeSpatial(geometry: Geometry, srid: Option<u32>) returns (r: Result<bytes, EwkbError>)
    requires LinesFit(geometry)
    ensures r.Ok? <==> Writable(geometry)
    ensures r.Ok? ==> r.value == GeometryBytes(geometry, srid, true)
    ensures r.Err? ==> r.error == WriteError(geometry)
  {
    var out := new Output();
    var done := out.WriteGeometry(geometry, srid, true);
    if done.Err? {
      return Err(done.error);
    }
    return Ok(out.buf);
  }

  // ----- Reading ---------------------------------------------------------------------------------------

  /** A read has done what the parsing function says. */
  ghost predicate Does<T>(parsed: Parsed<T>, r: Result<T, EwkbError>, after: bytes) {
    match parsed
    case Parsed(v, rest) => r == Ok(v) && after == rest
    case Failed(e) => r == Err(e)
  }

  class Cursor {
    var input: bytes

    constructor (input: bytes)
      ensures this.input == input
    {
      this.input := input;
    }

    method ReadExact(len: nat) returns (r: Result<bytes, EwkbError>)
      modifies this
      ensures if |old(input)| < len then r == Err(Truncated) && input == old(input)
              else r == Ok(old(input)[..len]) && input == old(input)[len..]
    {
      if |input| < len {
        return Err(Truncated);
      }
      r := Ok(input[..len]);
      input := input[len..];
    }

    method ReadU32(little: bool) returns (r: Result<u32, EwkbError>)
      modifies this
      ensures Does(ParseU32(old(input), little), r, input)
    {
      ghost var before := input;
      var raw := ReadExact(4);
      if raw.Err? {
        return Err(raw.error);
      }
      assert before[2..4] == raw.value[2..];
      return Ok(U32Of(raw.value, little));
    }

    method ReadF64(little: bool) returns (r: Result<f64, EwkbError>)
      modifies this
      ensures if |old(input)| < 8 then r == Err(Truncated)
              else r == Ok(F64Bytes(old(input)[..8], little)) && input == old(input)[8..]
    {
      var raw := ReadExact(8);
      if raw.Err? {
        return Err(raw.error);
      }
      return Ok(F64Bytes(raw.value, little));
    }

    method ReadPoint(little: bool) returns (r: Result<Coord, EwkbError>)
      modifies this
      ensures Does(ParseCoord(old(input), little), r, input)
    {
      ghost var before := input;
      var x := ReadF64(little);
      if x.Err? {
        return Err(x.error);
      }
      var y := ReadF64(little);
      if y.Err? {
        return Err(y.error);
      }
      assert before[8..][..8] == before[8..16] && before[8..][8..] == before[16..];
      return Ok(Coord(x.value, y.value));
    }

    method ReadLineString(little: bool) returns (r: Result<Line, EwkbError>)
      modifies this
      ensures Does(ParseLine(old(input), little), r, input)
    {
      var count := ReadU32(little);
      if count.Err? {
        return Err(count.error);
      }
      var coords: seq<Coord> := [];
      ghost var whole := ParseCoords(count.value, input, little);
      ghost var left: nat := count.value;
      assert whole.Parsed? ==> coords + whole.value == whole.value;
      for i := 0 to count.value
        invariant left == count.value - i
        invariant whole == After(coords, ParseCoords(left, input, little))
      {
        CoordsGo(coords, left, input, little);
        var coord := ReadPoint(little);
        if coord.Err? {
          return Err(coord.error);
        }
        coords := coords + [coord.value];
        left := left - 1;
      }
      assert coords + [] == coords;
      return Ok(coords);
    }

    method ReadLines(count: nat, little: bool) returns (r: Result<seq<Line>, EwkbError>)
      modifies this
      ensures Does(ParseLines(count, old(input), little), r, input)
    {
      var lines: seq<Line> := [];
      ghost var whole := ParseLines(count, input, little);
      ghost var left := count;
      assert whole.Parsed? ==> lines + whole.value == whole.value;
      for i := 0 to count
        invariant left == count - i
        invariant whole == After(lines, ParseLines(left, input, little))
      {
        LinesGo(lines, left, input, little);
        var line := ReadLineString(little);
        if line.Err? {
          return Err(line.error);
        }
        lines := lines + [line.value];
        left := left - 1;
      }
      assert lines + [] == lines;
      return Ok(lines);
    }

    method ReadPolygon(little: bool) returns (r: Result<Polygon, EwkbError>)
      modifies this
      ensures Does(ParsePolygon(old(input), little), r, input)
    {
      var count := ReadU32(little);
      if count.Err? {
        return Err(count.error);
      }
      if count.value == 0 {
        return Ok(NewPolygon([], []));
      }
      ghost var start := input;
      ghost var n: nat := count.value - 1;
      LinesOf(n, start, little);
      var exterior := ReadLineString(little);
      if exterior.Err? {
        return Err(exterior.error);
      }
      var interiors := ReadLines(count.value - 1, little);
      if interiors.Err? {
        return Err(interiors.error);
      }
      assert ([exterior.value] + interiors.value)[1..] == interiors.value;
      return Ok(NewPolygon(exterior.value, interiors.value));
    }

    method ReadHead() returns (r: Result<Head, EwkbError>)
      modifies this
      ensures Does(ParseHead(old(input)), r, input)
    {
      var marker := ReadExact(1);
      if marker.Err? {
        return Err(marker.error);
      }
      if marker.value[0] > 1 {
        return Err(BadEndian(marker.value[0]));
      }
      var little := marker.value[0] == 1;
      var id := ReadU32(little);
      if id.Err? {
        return Err(id.error);
      }
      if HasFlag(id.value, EWKB_Z_FLAG) || HasFlag(id.value, EWKB_M_FLAG) {
        return Err(NotPlanar);
      }
      if !HasFlag(id.value, EWKB_SRID_FLAG) {
        return Ok(Head(little, id.value % 0x1_0000, None));
      }
      var srid := ReadU32(little);
      if srid.Err? {
        return Err(srid.error);
      }
      if srid.value >= 0x8000_0000 {
        return Err(NegativeSrid(Signed32(srid.value)));
      }
      return Ok(Head(little, id.value % 0x1_0000, Some(srid.value)));
    }

    /** `read_geometry`. */
    method ReadGeometry() returns (r: Result<Spatial, EwkbError>)
      modifies this
      ensures Does(ParseGeometry(old(input)), r, input)
      decreases |input|, 0, 0
    {
      HeadTakesBytes(input);
      var head := ReadHead();
      if head.Err? {
        return Err(head.error);
      }
      var geometry := ReadBody(head.value.kind, head.value.little);
      if geometry.Err? {
        return Err(geometry.error);
      }
      return Ok(Spatial(geometry.value, head.value.srid));
    }

    method ReadBody(kind: u32, little: bool) returns (r: Result<Geometry, EwkbError>)
      modifies this
      ensures Does(ParseBody(kind, old(input), little), r, input)
      decreases |input|, 2
    {
      if kind == WKB_MULTIPOINT {
        var points := ReadMulti(little, AsPoint);
        return if points.Ok? then Ok(MultiPoint(points.value)) else Err(points.error);
      } else if kind == WKB_MULTILINESTRING {
        var lines := ReadMulti(little, AsLine);
        return if lines.Ok? then Ok(MultiLine(lines.value)) else Err(lines.error);
      } else if kind == WKB_MULTIPOLYGON {
        var polygons := ReadMulti(little, AsPolygon);
        return if polygons.Ok? then Ok(MultiPolygon(polygons.value)) else Err(polygons.error);
      } else {
        r := ReadFlat(kind, little);
      }
    }

    method ReadFlat(kind: u32, little: bool) returns (r: Result<Geometry, EwkbError>)
      modifies this
      ensures Does(ParseFlat(kind, old(input), little), r, input)
    {
      if kind == WKB_POINT {
        var point := ReadPoint(little);
        return if point.Ok? then Ok(PointOf(point.value)) else Err(point.error);
      } else if kind == WKB_LINESTRING {
        var line := ReadLineString(little);
        return if line.Ok? then Ok(LineOf(line.value)) else Err(line.error);
      } else if kind == WKB_POLYGON {
        var polygon := ReadPolygon(little);
        return if polygon.Ok? then Ok(PolygonOf(polygon.value)) else Err(polygon.error);
      } else if kind == WKB_GEOMETRY_COLLECTION {
        return Err(Unsupported("GeometryCollection"));
      } else {
        return Err(UnknownType(kind));
      }
    }

    /** `read_multi_point`, `read_multi_line_string` and `read_multi_polygon`, which differ in the
        member that they accept. */
    method ReadMulti<T>(little: bool, member: Geometry -> Option<T>) returns (r: Result<seq<T>, EwkbError>)
      modifies this
      ensures Does(ParseMulti(old(input), little, member), r, input)
      decreases |input|, 1
    {
      var count := ReadU32(little);
      if count.Err? {
        return Err(count.error);
      }
      ghost var start := input;
      ghost var whole := ParseMembers(count.value, input, member);
      ghost var left: nat := count.value;
      var members: seq<T> := [];
      assert whole.Parsed? ==> members + whole.value == whole.value;
      for i := 0 to count.value
        invariant left == count.value - i && |input| <= |start|
        invariant whole == After(members, ParseMembers(left, input, member))
      {
        MembersGo(members, left, input, member);
        var nested := ReadGeometry();
        if nested.Err? {
          return Err(nested.error);
        }
        if nested.value.srid.Some? {
          return Err(NestedSrid);
        }
        var own := member(nested.value.geometry);
        if own.None? {
          return Err(WrongMember);
        }
        members := members + [own.value];
        left := left - 1;
      }
      assert members + [] == members;
      return Ok(members);
    }
  }

  /** `decode_spatial`. */
  method DecodeSpatial(columns: seq<Option<bytes>>) returns (r: Result<Spatial, EwkbError>)
    ensures r == DecodeColumns(columns)
  {
    if columns == [] {
      return Err(NoColumn);
    }
    if columns[0].None? {
      return Err(NullColumn);
    }
    var cursor := new Cursor(columns[0].value);
    var decoded := cursor.ReadGeometry();
    if decoded.Err? {
      return Err(decoded.error);
    }
    if cursor.input != [] {
      return Err(TrailingBytes);
    }
    return Ok(decoded.value);
  }

  ghost function After<T>(done: seq<T>, more: Parsed<seq<T>>): Parsed<seq<T>> {
    if more.Failed? then more else Parsed(done + more.value, more.rest)
  }

  lemma LinesOf(n: nat, b: bytes, little: bool)
    ensures ParseLine(b, little).Failed? ==> ParseLines(n + 1, b, little) == Failed(ParseLine(b, little).error)
    ensures ParseLine(b, little).Parsed? ==>
      ParseLines(n + 1, b, little)
      == After([ParseLine(b, little).value], ParseLines(n, ParseLine(b, little).rest, little))
  {
  }

  lemma LinesGo(done: seq<Line>, n: nat, b: bytes, little: bool)
    requires n > 0
    ensures After(done, ParseLines(n, b, little)) ==
      match ParseLine(b, little)
      case Failed(e) => Failed(e)
      case Parsed(line, rest) => After(done + [line], ParseLines(n - 1, rest, little))
  {
    var line := ParseLine(b, little);
    if line.Parsed? {
      var more := ParseLines(n - 1, line.rest, little);
      assert more.Parsed? ==> done + ([line.value] + more.value) == (done + [line.value]) + more.value;
    }
  }

  lemma MembersGo<T>(done: seq<T>, n: nat, b: bytes, member: Geometry -> Option<T>)
    requires n > 0
    ensures After(done, ParseMembers(n, b, member)) ==
      match ParseMember(b, member)
      case Failed(e) => Failed(e)
      case Parsed(x, rest) => After(done + [x], ParseMembers(n - 1, rest, member))
  {
    var x := ParseMember(b, member);
    if x.Parsed? {
      var more := ParseMembers(n - 1, x.rest, member);
      assert more.Parsed? ==> done + ([x.value] + more.value) == (done + [x.value]) + more.value;
    }
  }

  lemma CoordsGo(done: seq<Coord>, n: nat, b: bytes, little: bool)
    requires n > 0
    ensures After(done, ParseCoords(n, b, little)) ==
      match ParseCoord(b, little)
      case Failed(e) => Failed(e)
      case Parsed(c, rest) => After(done + [c], ParseCoords(n - 1, rest, little))
  {
    var c := ParseCoord(b, little);
    if c.Parsed? {
      var more := ParseCoords(n - 1, c.rest, little);
      assert more.Parsed? ==> done + ([c.value] + more.value) == (done + [c.value]) + more.value;
    }
  }
}
