/**
  The geometry converter of the MCP transform tools: a string-level WKT
  parser and GeoJSON serialiser for points, line strings and polygons
  (a subset of section 7 of OGC 06-103r4, Simple Feature Access Part 1, and
  of the geometry objects of section 3.1 of RFC 7946).

  Coordinates are integers. A GeoJSON geometry is its `type` string and its
  `coordinates` tree; a dict without one of these keys behaves exactly like
  one holding the defaults the converter reads (`""` and `[]`), so absent
  keys are represented by those defaults.
 */
module Wkt {
  import opened Wrappers
  import opened Text

  /** A coordinate tree: a number, or a list of trees. */
  datatype Coord = Num(n: int) | List(items: seq<Coord>)

  datatype Geometry = Geometry(typ: string, coordinates: Coord)

  /** Both conversions wrap every failure in this one exception. */
  datatype Error = AgentExecutionError(message: string)

  const WktFailure := "Failed to convert WKT to GeoJSON: "
  const GeoJsonFailure := "Failed to convert GeoJSON to WKT: "

  // ---------------------------------------------------------------------
  // Well-formed coordinate trees

  /** `[x, y]` with two numbers. */
  predicate IsPosition(c: Coord) {
    c.List? && |c.items| == 2 && c.items[0].Num? && c.items[1].Num?
  }

  predicate AllPositions(ps: seq<Coord>) {
    forall i :: 0 <= i < |ps| ==> IsPosition(ps[i])
  }

  /** A non-empty list of positions: a line string, or one ring of a polygon. */
  predicate IsPath(c: Coord) {
    c.List? && |c.items| > 0 && AllPositions(c.items)
  }

  predicate AllPaths(rings: seq<Coord>) {
    forall i :: 0 <= i < |rings| ==> IsPath(rings[i])
  }

  // ---------------------------------------------------------------------
  // Reference rendering of well-formed trees, independent of the converter

  /** `x y` for the position `[x, y]`. */
  function PositionText(p: Coord): (r: string)
    requires IsPosition(p)
  {
    ShowInt(p.items[0].n) + " " + ShowInt(p.items[1].n)
  }

  function PositionTexts(ps: seq<Coord>): (r: seq<string>)
    requires AllPositions(ps)
    ensures |r| == |ps|
  {
    if ps == [] then [] else [PositionText(ps[0])] + PositionTexts(ps[1..])
  }

  /** `x1 y1, x2 y2, ...` for a list of positions. */
  function PathText(c: Coord): (r: string)
    requires c.List? && AllPositions(c.items)
  {
    Join(PositionTexts(c.items), ", ")
  }

  function PathTexts(rings: seq<Coord>): (r: seq<string>)
    requires forall i :: 0 <= i < |rings| ==> rings[i].List? && AllPositions(rings[i].items)
    ensures |r| == |rings|
  {
    if rings == [] then [] else [PathText(rings[0])] + PathTexts(rings[1..])
  }

  // ---------------------------------------------------------------------
  // geojson_to_wkt

  /** Python's `str()` of a number or of a (nested) list of numbers. */
  function Show(c: Coord): (r: string)
    ensures c.Num? ==> r == ShowInt(c.n)
    ensures c.List? ==> |r| >= 2 && r[0] == '[' && r[|r| - 1] == ']'
    decreases c
  {
    match c
    case Num(n) => ShowInt(n)
    case List(xs) => "[" + Join(seq(|xs|, i requires 0 <= i < |xs| => Show(xs[i])), ", ") + "]"
  }

  /** Python's `c[k]` on a coordinate tree, with the exception text when it fails. */
  function Index(c: Coord, k: nat): (r: Result<Coord, string>)
    ensures r.Ok? <==> c.List? && k < |c.items|
    ensures r.Ok? ==> r.value == c.items[k]
  {
    match c
    case Num(_) => Err("'int' object is not subscriptable")
    case List(xs) => if k < |xs| then Ok(xs[k]) else Err("list index out of range")
  }

  /** `f"{c[0]} {c[1]}"`. */
  function PairText(c: Coord): (r: Result<string, string>) {
    match (Index(c, 0), Index(c, 1))
    case (Err(e), _) => Err(e)
    case (_, Err(e)) => Err(e)
    case (Ok(x), Ok(y)) => Ok(Show(x) + " " + Show(y))
  }

  /** `[f"{c[0]} {c[1]}" for c in cs]`: the first failing element decides the error. */
  function PairTexts(cs: seq<Coord>): (r: Result<seq<string>, string>)
    ensures r.Ok? ==> |r.value| == |cs|
  {
    if cs == [] then Ok([])
    else
      match PairText(cs[0])
      case Err(e) => Err(e)
      case Ok(h) =>
        match PairTexts(cs[1..])
        case Err(e) => Err(e)
        case Ok(t) => Ok([h] + t)
  }

  /** `", ".join(...)` of the pairs of one ring or line; a number is not iterable. */
  function RingText(c: Coord): (r: Result<string, string>) {
    match c
    case Num(_) => Err("'int' object is not iterable")
    case List(cs) =>
      match PairTexts(cs)
      case Err(e) => Err(e)
      case Ok(ts) => Ok(Join(ts, ", "))
  }

  /** The holes of a polygon, each parenthesised, in order. */
  function HoleTexts(holes: seq<Coord>): (r: Result<seq<string>, string>)
    ensures r.Ok? ==> |r.value| == |holes|
  {
    if holes == [] then Ok([])
    else
      match RingText(holes[0])
      case Err(e) => Err(e)
      case Ok(h) =>
        match HoleTexts(holes[1..])
        case Err(e) => Err(e)
        case Ok(t) => Ok(["(" + h + ")"] + t)
  }

  /** `f"POINT({coords[0]} {coords[1]})"`. */
  function PointWkt(coords: Coord): (r: Result<string, string>) {
    match (Index(coords, 0), Index(coords, 1))
    case (Err(e), _) => Err(e)
    case (_, Err(e)) => Err(e)
    case (Ok(x), Ok(y)) => Ok("POINT(" + Show(x) + " " + Show(y) + ")")
  }

  function LineStringWkt(coords: Coord): (r: Result<string, string>) {
    match RingText(coords)
    case Err(e) => Err(e)
    case Ok(s) => Ok("LINESTRING(" + s + ")")
  }

  /** The exterior ring first; a polygon with holes writes `(exterior), (hole), ...`. */
  function PolygonWkt(coords: Coord): (r: Result<string, string>) {
    match Index(coords, 0)
    case Err(m) => Err(m)
    case Ok(exterior) =>
      match RingText(exterior)
      case Err(m) => Err(m)
      case Ok(e) =>
        if |coords.items| == 1 then Ok("POLYGON((" + e + "))")
        else
          match HoleTexts(coords.items[1..])
          case Err(m) => Err(m)
          case Ok(holes) => Ok("POLYGON(" + "(" + e + "), " + Join(holes, ", ") + ")")
  }

  /** The body of `geojson_to_wkt`, with the raised exception's text as the error. */
  function ToWkt(g: Geometry): (r: Result<string, string>) {
    var t := Upper(g.typ);
    if t == "POINT" then PointWkt(g.coordinates)
    else if t == "LINESTRING" then LineStringWkt(g.coordinates)
    else if t == "POLYGON" then PolygonWkt(g.coordinates)
    else Err("Unsupported GeoJSON type: " + t)
  }

  /** `geojson_to_wkt` for a GeoJSON dict. */
  function GeoJsonToWkt(g: Geometry): (r: Result<string, Error>)
    ensures r.Err? <==> ToWkt(g).Err?
    ensures r.Err? ==> r.error.message == GeoJsonFailure + ToWkt(g).error
    ensures Upper(g.typ) != "POINT" && Upper(g.typ) != "LINESTRING" && Upper(g.typ) != "POLYGON" ==>
      r == Err(AgentExecutionError(GeoJsonFailure + ("Unsupported GeoJSON type: " + Upper(g.typ))))
  {
    match ToWkt(g)
    case Ok(s) => Ok(s)
    case Err(e) => Err(AgentExecutionError(GeoJsonFailure + e))
  }

  // ---------------------------------------------------------------------
  // wkt_to_geojson

  /** `float(c)` for each word, restricted to integers. */
  function ParseNumbers(words: seq<string>): (r: Result<seq<Coord>, string>)
    ensures r.Ok? ==> |r.value| == |words|
    ensures r.Ok? ==> forall i :: 0 <= i < |words| ==> ParseInt(words[i]).Some? && r.value[i] == Num(ParseInt(words[i]).value)
  {
    if words == [] then Ok([])
    else match ParseInt(words[0])
      case None => Err("could not convert string to float: '" + words[0] + "'")
      case Some(n) =>
        match ParseNumbers(words[1..])
        case Err(e) => Err(e)
        case Ok(t) =>
          assert forall i :: 1 <= i < |words| ==> words[i] == words[1..][i - 1];
          Ok([Num(n)] + t)
  }

  /** `[float(c) for c in pair.strip().split()]`. */
  function ParsePosition(piece: string): (r: Result<Coord, string>)
    ensures r.Ok? ==> r.value.List?
  {
    match ParseNumbers(SplitWs(Strip(piece)))
    case Err(e) => Err(e)
    case Ok(ns) => Ok(List(ns))
  }

  function ParsePositions(pieces: seq<string>): (r: Result<seq<Coord>, string>)
    ensures r.Ok? ==> |r.value| == |pieces|
  {
    if pieces == [] then Ok([])
    else
      match ParsePosition(pieces[0])
      case Err(e) => Err(e)
      case Ok(h) =>
        match ParsePositions(pieces[1..])
        case Err(e) => Err(e)
        case Ok(t) => Ok([h] + t)
  }

  /** The positions of one comma-separated ring or line text. */
  function RingCoords(ring: string): (r: Result<seq<Coord>, string>) {
    ParsePositions(SplitOn(ring, ","))
  }

  /** Each ring text split on `,` into positions. */
  function ParseRings(rings: seq<string>): (r: Result<seq<Coord>, string>)
    ensures r.Ok? ==> |r.value| == |rings|
  {
    if rings == [] then Ok([])
    else
      match RingCoords(rings[0])
      case Err(e) => Err(e)
      case Ok(h) =>
        match ParseRings(rings[1..])
        case Err(e) => Err(e)
        case Ok(t) => Ok([List(h)] + t)
  }

  /** A ring piece after splitting on `),`: surrounding blanks and one opening parenthesis dropped. */
  function RingBody(piece: string): (r: string) {
    var t := Strip(piece);
    if t != [] && t[0] == '(' then t[1..] else t
  }

  function RingBodies(pieces: seq<string>): (r: seq<string>)
    ensures |r| == |pieces|
  {
    if pieces == [] then [] else [RingBody(pieces[0])] + RingBodies(pieces[1..])
  }

  /** `w.replace(prefix, "").replace(suffix, "").strip()`. */
  function Unwrap(w: string, prefix: string, suffix: string): (r: string)
    requires |prefix| > 0 && |suffix| > 0
  {
    Strip(ReplaceAll(ReplaceAll(w, prefix, ""), suffix, ""))
  }

  /** The coordinates of `POINT(x y ...)`: every number, however many. */
  function PointCoords(w: string): (r: Result<seq<Coord>, string>) {
    ParseNumbers(SplitWs(Unwrap(w, "POINT(", ")")))
  }

  /** The positions of `LINESTRING(x1 y1, ...)`. */
  function LineStringCoords(w: string): (r: Result<seq<Coord>, string>) {
    RingCoords(Unwrap(w, "LINESTRING(", ")"))
  }

  /**
    The rings of `POLYGON((...), ...)`. With `corrected` false the rings
    are split on `),(` as the source does; with `corrected` true they are
    split on `),` and each ring's opening parenthesis is dropped, so the
    separator `), (` that the serialiser writes is accepted too.
   */
  function PolygonCoords(w: string, corrected: bool): (r: Result<seq<Coord>, string>) {
    var body := Unwrap(w, "POLYGON((", "))");
    if corrected then ParseRings(RingBodies(SplitOn(body, "),")))
    else ParseRings(SplitOn(body, "),("))
  }

  function Tagged(typ: string, r: Result<seq<Coord>, string>): (g: Result<Geometry, string>)
    ensures g.Ok? <==> r.Ok?
    ensures g.Ok? ==> g.value == Geometry(typ, List(r.value))
    ensures g.Err? ==> g.error == r.error
  {
    match r
    case Err(e) => Err(e)
    case Ok(xs) => Ok(Geometry(typ, List(xs)))
  }

  /** The body of `wkt_to_geojson`: dispatch on the upper-cased prefix of the stripped text. */
  function ParseWkt(wkt: string, corrected: bool): (r: Result<Geometry, string>)
    ensures r.Ok? ==> r.value.typ in {"Point", "LineString", "Polygon"} && r.value.coordinates.List?
  {
    ParseStripped(Strip(wkt), corrected)
  }

  /** The dispatch on an already stripped text. */
  function ParseStripped(w: string, corrected: bool): (r: Result<Geometry, string>)
    ensures r.Ok? ==> r.value.typ in {"Point", "LineString", "Polygon"} && r.value.coordinates.List?
  {
    var u := Upper(w);
    if StartsWith(u, "POINT") then Tagged("Point", PointCoords(w))
    else if StartsWith(u, "LINESTRING") then Tagged("LineString", LineStringCoords(w))
    else if StartsWith(u, "POLYGON") then Tagged("Polygon", PolygonCoords(w, corrected))
    else Err("Unsupported WKT type: " + w)
  }

  function WrapWkt(r: Result<Geometry, string>): (e: Result<Geometry, Error>)
    ensures e.Ok? <==> r.Ok?
    ensures r.Ok? ==> e.value == r.value
    ensures r.Err? ==> e.error.message == WktFailure + r.error
  {
    match r
    case Ok(g) => Ok(g)
    case Err(m) => Err(AgentExecutionError(WktFailure + m))
  }

  /** `wkt_to_geojson` as written. */
  function WktToGeoJson(wkt: string): (r: Result<Geometry, Error>)
    ensures r.Ok? ==> r.value.typ in {"Point", "LineString", "Polygon"}
    ensures (var u := Upper(Strip(wkt));
      !StartsWith(u, "POINT") && !StartsWith(u, "LINESTRING") && !StartsWith(u, "POLYGON")) ==>
      r == Err(AgentExecutionError(WktFailure + ("Unsupported WKT type: " + Strip(wkt))))
  {
    WrapWkt(ParseWkt(wkt, false))
  }

  /** `wkt_to_geojson` with the polygon ring separator corrected. */
  function WktToGeoJsonCorrected(wkt: string): (r: Result<Geometry, Error>)
    ensures r.Ok? ==> r.value.typ in {"Point", "LineString", "Polygon"}
    ensures (var u := Upper(Strip(wkt)); !StartsWith(u, "POLYGON")) ==> r == WktToGeoJson(wkt)
  {
    WrapWkt(ParseWkt(wkt, true))
  }

  // ---------------------------------------------------------------------
  // transform_srid and sql_server_to_geojson

  /** A geometry in either of the formats the tools accept. */
  datatype AnyGeometry = WktText(text: string) | GeoJson(geometry: Geometry)

  /** `transform_srid`: no reprojection happens; the input comes back in its own format. */
  function TransformSrid(geometry: AnyGeometry, sourceSrid: int, targetSrid: int): (r: AnyGeometry)
    ensures r.WktText? <==> geometry.WktText?
    ensures r == geometry
  {
    match geometry
    case WktText(t) => WktText(t)
    case GeoJson(g) => GeoJson(g)
  }

  /** `sql_server_to_geojson`: the binary input is ignored. */
  function SqlServerToGeoJson(sqlGeometry: seq<bv8>): (r: Geometry)
    ensures r.typ == "Point" && IsPosition(r.coordinates)
    ensures r.coordinates == List([Num(0), Num(0)])
  {
    Geometry("Point", List([Num(0), Num(0)]))
  }

  // ---------------------------------------------------------------------
  // Character facts about rendered coordinates

  /** Only sign, digits, blanks and commas. */
  predicate Plain(s: string) {
    forall k :: 0 <= k < |s| ==> s[k] == '-' || IsDigit(s[k]) || s[k] == ' ' || s[k] == ','
  }

  /** Starts with a sign or digit and ends with a digit. */
  predicate NumberEnds(s: string) {
    |s| > 0 && (s[0] == '-' || IsDigit(s[0])) && IsDigit(s[|s| - 1])
  }

  lemma {:induction false} JoinPlain(parts: seq<string>, sep: string)
    requires Plain(sep) && forall i :: 0 <= i < |parts| ==> Plain(parts[i])
    ensures Plain(Join(parts, sep))
    decreases |parts|
  {
    if |parts| > 1 {
      JoinPlain(parts[1..], sep);
      var s := parts[0] + sep + Join(parts[1..], sep);
      forall k | 0 <= k < |s| ensures s[k] == '-' || IsDigit(s[k]) || s[k] == ' ' || s[k] == ',' {
        if k < |parts[0]| {
          assert s[k] == parts[0][k];
        } else if k < |parts[0]| + |sep| {
          assert s[k] == sep[k - |parts[0]|];
        } else {
          assert s[k] == Join(parts[1..], sep)[k - |parts[0]| - |sep|];
        }
      }
    }
  }

  lemma {:induction false} JoinEnds(parts: seq<string>, sep: string)
    requires |parts| > 0 && forall i :: 0 <= i < |parts| ==> NumberEnds(parts[i])
    ensures NumberEnds(Join(parts, sep))
    decreases |parts|
  {
    if |parts| > 1 {
      JoinEnds(parts[1..], sep);
      var s := parts[0] + sep + Join(parts[1..], sep);
      assert s[0] == parts[0][0];
      assert s[|s| - 1] == Join(parts[1..], sep)[|Join(parts[1..], sep)| - 1];
    }
  }

  lemma {:induction false} PositionTextShape(p: Coord)
    requires IsPosition(p)
    ensures Plain(PositionText(p)) && NumberEnds(PositionText(p))
    ensures NoChar(PositionText(p), ',')
  {
    var a := ShowInt(p.items[0].n);
    var b := ShowInt(p.items[1].n);
    var s := a + " " + b;
    forall k | 0 <= k < |s| ensures s[k] == '-' || IsDigit(s[k]) || s[k] == ' ' {
      if k < |a| { assert s[k] == a[k]; }
      else if k > |a| { assert s[k] == b[k - |a| - 1]; }
    }
    assert s[|s| - 1] == b[|b| - 1];
  }

  lemma {:induction false} PathTextShape(c: Coord)
    requires IsPath(c)
    ensures Plain(PathText(c)) && NumberEnds(PathText(c))
  {
    var ts := PositionTexts(c.items);
    forall i | 0 <= i < |ts| ensures Plain(ts[i]) && NumberEnds(ts[i]) {
      PositionTextsAt(c.items, i);
      PositionTextShape(c.items[i]);
    }
    JoinPlain(ts, ", ");
    JoinEnds(ts, ", ");
  }

  lemma {:induction false} PositionTextsAt(ps: seq<Coord>, i: nat)
    requires AllPositions(ps) && i < |ps|
    ensures PositionTexts(ps)[i] == PositionText(ps[i])
    decreases i
  {
    if i > 0 {
      PositionTextsAt(ps[1..], i - 1);
    }
  }

  lemma {:induction false} PathTextsAt(rings: seq<Coord>, i: nat)
    requires AllPaths(rings) && i < |rings|
    ensures PathTexts(rings)[i] == PathText(rings[i])
    decreases i
  {
    if i > 0 {
      PathTextsAt(rings[1..], i - 1);
    }
  }

  /** The text every polygon renders to: its ring texts joined by `), (`. */
  function RingsText(rings: seq<Coord>): (r: string)
    requires AllPaths(rings)
  {
    Join(PathTexts(rings), "), (")
  }

  // ---------------------------------------------------------------------
  // What the serialiser writes

  lemma {:induction false} PairTextsOfPositions(ps: seq<Coord>)
    requires AllPositions(ps)
    ensures PairTexts(ps) == Ok(PositionTexts(ps))
    decreases |ps|
  {
    if ps != [] {
      PairTextsOfPositions(ps[1..]);
    }
  }

  lemma {:induction false} RingTextOfPositions(c: Coord)
    requires c.List? && AllPositions(c.items)
    ensures RingText(c) == Ok(PathText(c))
  {
    PairTextsOfPositions(c.items);
  }

  /** The GeoJSON type names upper-case to the keywords the converter tests for. */
  lemma {:induction false} UpperPoint()
    ensures Upper("Point") == "POINT"
  {
    UpperEach("Point", "POINT");
  }

  lemma {:induction false} UpperLineString()
    ensures Upper("LineString") == "LINESTRING"
  {
    UpperEach("LineString", "LINESTRING");
  }

  lemma {:induction false} UpperPolygon()
    ensures Upper("Polygon") == "POLYGON"
  {
    UpperEach("Polygon", "POLYGON");
  }

  /** `geojson_to_wkt` of a Point `[x, y]` is exactly `POINT(x y)`. */
  lemma {:induction false} PointText(x: int, y: int)
    ensures GeoJsonToWkt(Geometry("Point", List([Num(x), Num(y)])))
         == Ok("POINT(" + ShowInt(x) + " " + ShowInt(y) + ")")
  {
    UpperPoint();
  }

  /** `geojson_to_wkt` of a LineString joins its `x y` pairs with `, `. */
  lemma {:induction false} LineStringText(c: Coord)
    requires c.List? && AllPositions(c.items)
    ensures GeoJsonToWkt(Geometry("LineString", c)) == Ok("LINESTRING(" + PathText(c) + ")")
  {
    UpperLineString();
    RingTextOfPositions(c);
  }

  /** Each text parenthesised. */
  function Parens(ts: seq<string>): (r: seq<string>)
    ensures |r| == |ts|
  {
    if ts == [] then [] else ["(" + ts[0] + ")"] + Parens(ts[1..])
  }

  lemma {:induction false} HoleTextsOfPaths(holes: seq<Coord>)
    requires AllPaths(holes)
    ensures HoleTexts(holes) == Ok(Parens(PathTexts(holes)))
    decreases |holes|
  {
    if holes != [] {
      RingTextOfPositions(holes[0]);
      HoleTextsOfPaths(holes[1..]);
      assert PathTexts(holes)[0] == PathText(holes[0]);
      assert PathTexts(holes)[1..] == PathTexts(holes[1..]);
    }
  }

  lemma {:induction false} JoinCons(x: string, xs: seq<string>, sep: string)
    requires xs != []
    ensures Join([x] + xs, sep) == x + sep + Join(xs, sep)
  {
    assert ([x] + xs)[0] == x;
    assert ([x] + xs)[1..] == xs;
  }

  lemma {:induction false} ParenStep(t: string, j: string)
    ensures "(" + t + ")" + ", " + ("(" + j + ")") == "(" + (t + "), (" + j) + ")"
  {
  }

  /** Parenthesised texts joined by `, ` are the texts joined by `), (`, parenthesised once. */
  lemma {:induction false} JoinParens(ts: seq<string>)
    requires ts != []
    ensures Join(Parens(ts), ", ") == "(" + Join(ts, "), (") + ")"
    decreases |ts|
  {
    if |ts| == 1 {
      assert Parens(ts) == ["(" + ts[0] + ")"];
    } else {
      JoinParens(ts[1..]);
      assert Parens(ts) == ["(" + ts[0] + ")"] + Parens(ts[1..]);
      JoinCons("(" + ts[0] + ")", Parens(ts[1..]), ", ");
      JoinCons(ts[0], ts[1..], "), (");
      assert [ts[0]] + ts[1..] == ts;
      ParenStep(ts[0], Join(ts[1..], "), ("));
    }
  }

  lemma {:induction false} PolygonStep(e: string, rest: string)
    ensures "POLYGON(" + "(" + e + "), " + ("(" + rest + ")") + ")" == "POLYGON((" + (e + "), (" + rest) + "))"
  {
  }

  lemma {:induction false} PolygonWktOfPaths(rings: seq<Coord>)
    requires rings != [] && AllPaths(rings)
    ensures PolygonWkt(List(rings)) == Ok("POLYGON((" + RingsText(rings) + "))")
  {
    RingTextOfPositions(rings[0]);
    var e := PathText(rings[0]);
    assert PathTexts(rings)[0] == e;
    if |rings| > 1 {
      HoleTextsOfPaths(rings[1..]);
      JoinParens(PathTexts(rings[1..]));
      assert PathTexts(rings) == [e] + PathTexts(rings[1..]);
      JoinCons(e, PathTexts(rings[1..]), "), (");
      PolygonStep(e, RingsText(rings[1..]));
    } else {
      assert PathTexts(rings) == [e];
    }
  }

  /**
    `geojson_to_wkt` of a Polygon: each ring's pairs joined with `, `, each
    ring parenthesised, the rings joined with `, `. One ring gives
    `POLYGON((...))`.
   */
  lemma {:induction false} PolygonText(rings: seq<Coord>)
    requires rings != [] && AllPaths(rings)
    ensures GeoJsonToWkt(Geometry("Polygon", List(rings))) == Ok("POLYGON((" + RingsText(rings) + "))")
    ensures |rings| == 1 ==> RingsText(rings) == PathText(rings[0])
  {
    UpperPolygon();
    PolygonWktOfPaths(rings);
    if |rings| == 1 {
      assert PathTexts(rings) == [PathText(rings[0])];
    }
  }

  /** The GeoJSON type test reads `type` through `upper()`: the spelling's case does not matter. */
  lemma {:induction false} TypeIsCaseInsensitive(t1: string, t2: string, c: Coord)
    requires Upper(t1) == Upper(t2)
    ensures GeoJsonToWkt(Geometry(t1, c)) == GeoJsonToWkt(Geometry(t2, c))
  {
  }

  /** A Point without two coordinates fails with Python's index error. */
  lemma {:induction false} ShortPointFails(t: string, xs: seq<Coord>)
    requires Upper(t) == "POINT" && |xs| < 2
    ensures GeoJsonToWkt(Geometry(t, List(xs))) == Err(AgentExecutionError(GeoJsonFailure + "list index out of range"))
  {
  }

  // ---------------------------------------------------------------------
  // What the parser reads back

  /** Two words that read as the numbers x and y. */
  lemma {:induction false} ParseTwoNumbers(a: string, b: string, x: int, y: int)
    requires ParseInt(a) == Some(x) && ParseInt(b) == Some(y)
    ensures ParseNumbers([a, b]) == Ok([Num(x), Num(y)])
  {
    assert [a, b][1..] == [b];
    assert [b][0] == b && [b][1..] == [];
    assert ParseNumbers([]) == Ok([]);
    assert [Num(y)] + [] == [Num(y)];
    assert ParseNumbers([b]) == Ok([Num(y)]);
    assert [a, b][0] == a;
    assert [Num(x)] + [Num(y)] == [Num(x), Num(y)];
  }

  /** One leading blank is stripped away from an unpadded text. */
  lemma {:induction false} StripAfterBlank(pre: string, t: string)
    requires pre == "" || pre == " "
    requires |t| > 0 && !IsSpace(t[0]) && !IsSpace(t[|t| - 1])
    ensures Strip(pre + t) == t
  {
    if pre == " " {
      StripLeadingSpace(pre + t);
      assert (pre + t)[1..] == t;
    } else {
      assert pre + t == t;
    }
    StripUnpadded(t);
  }

  /** `a b` splits into the words a and b. */
  lemma {:induction false} TwoWords(a: string, b: string)
    requires |a| > 0 && |b| > 0 && NoSpace(a) && NoSpace(b)
    ensures SplitWs(a + " " + b) == [a, b]
  {
    SplitWsFirst(a, b);
    SplitWsWord(b);
  }

  lemma {:induction false} ShowIntNoSpace(n: int)
    ensures NoSpace(ShowInt(n))
  {
    var a := ShowInt(n);
    forall k | 0 <= k < |a| ensures !IsSpace(a[k]) {
      assert a[k] == '-' || IsDigit(a[k]);
    }
  }

  lemma {:induction false} PairEnds(a: string, b: string)
    requires |a| > 0 && |b| > 0 && NoSpace(a) && NoSpace(b)
    ensures var t := a + " " + b; !IsSpace(t[0]) && !IsSpace(t[|t| - 1])
  {
    var t := a + " " + b;
    assert t[0] == a[0];
    assert t[|t| - 1] == b[|b| - 1];
  }

  lemma {:induction false} StripPair(pre: string, a: string, b: string)
    requires pre == "" || pre == " "
    requires |a| > 0 && |b| > 0 && NoSpace(a) && NoSpace(b)
    ensures Strip(pre + a + " " + b) == a + " " + b
  {
    var t := a + " " + b;
    PairEnds(a, b);
    Associate(pre, a, " ", b);
    StripAfterBlank(pre, t);
  }

  lemma {:induction false} Associate(p: string, a: string, q: string, b: string)
    ensures p + a + q + b == p + (a + q + b)
  {
  }

  /** A piece that strips to two number words parses to their position. */
  lemma {:induction false} ParseStrippedPair(w: string, a: string, b: string, x: int, y: int)
    requires Strip(w) == a + " " + b
    requires |a| > 0 && |b| > 0 && NoSpace(a) && NoSpace(b)
    requires ParseInt(a) == Some(x) && ParseInt(b) == Some(y)
    ensures ParsePosition(w) == Ok(List([Num(x), Num(y)]))
  {
    TwoWords(a, b);
    ParseTwoNumbers(a, b, x, y);
  }

  /** Two number words separated by one blank, possibly after one blank, parse to a position. */
  lemma {:induction false} ParseWordPair(pre: string, a: string, b: string, x: int, y: int)
    requires pre == "" || pre == " "
    requires |a| > 0 && |b| > 0 && NoSpace(a) && NoSpace(b)
    requires ParseInt(a) == Some(x) && ParseInt(b) == Some(y)
    ensures ParsePosition(pre + a + " " + b) == Ok(List([Num(x), Num(y)]))
  {
    StripPair(pre, a, b);
    ParseStrippedPair(pre + a + " " + b, a, b, x, y);
  }

  /** The two numbers written with one blank between, possibly after one blank, parse back. */
  lemma {:induction false} PositionWords(pre: string, x: int, y: int)
    requires pre == "" || pre == " "
    ensures ParsePosition(pre + (ShowInt(x) + " " + ShowInt(y))) == Ok(List([Num(x), Num(y)]))
  {
    ShowIntNoSpace(x);
    ShowIntNoSpace(y);
    ParseShowInt(x);
    ParseShowInt(y);
    var a, b := ShowInt(x), ShowInt(y);
    ParseWordPair(pre, a, b, x, y);
    Associate(pre, a, " ", b);
  }

  /** One rendered position, possibly after one blank, parses back to the position. */
  lemma {:induction false} ParsePositionText(pre: string, p: Coord)
    requires pre == "" || pre == " "
    requires IsPosition(p)
    ensures ParsePosition(pre + PositionText(p)) == Ok(p)
  {
    var x, y := p.items[0].n, p.items[1].n;
    assert p.items == [Num(x), Num(y)];
    PositionWords(pre, x, y);
  }

  lemma {:induction false} ParsePositionsCons(a: string, rest: seq<string>)
    requires ParsePosition(a).Ok? && ParsePositions(rest).Ok?
    ensures ParsePositions([a] + rest) == Ok([ParsePosition(a).value] + ParsePositions(rest).value)
  {
    assert ([a] + rest)[0] == a;
    assert ([a] + rest)[1..] == rest;
  }

  lemma {:induction false} NoCharAfterBlank(pre: string, t: string, c: char)
    requires pre == "" || pre == " "
    requires NoChar(t, c) && c != ' '
    ensures NoChar(pre + t, c)
  {
    if pre == " " {
      forall k | 0 <= k < |pre + t| ensures (pre + t)[k] != c {
        if k > 0 { assert (pre + t)[k] == t[k - 1]; }
      }
    } else {
      assert pre + t == t;
    }
  }

  lemma {:induction false} CommaStep(pre: string, t: string, rest: string)
    ensures pre + (t + ", " + rest) == (pre + t) + "," + (" " + rest)
  {
  }

  lemma {:induction false} ParseSinglePiece(a: string, p: Coord)
    requires ParsePosition(a) == Ok(p)
    ensures ParsePositions([a]) == Ok([p])
  {
    assert ParsePositions([]) == Ok([]);
    ParsePositionsCons(a, []);
    assert [a] + [] == [a];
    assert [p] + [] == [p];
  }

  /** The last piece of a comma-separated list. */
  lemma {:induction false} ParseLastPiece(a: string, p: Coord)
    requires NoChar(a, ',') && ParsePosition(a) == Ok(p)
    ensures ParsePositions(SplitOn(a, ",")) == Ok([p])
  {
    ParseSinglePiece(a, p);
    SplitOnNone(a, ",");
  }

  /** A piece before a comma is parsed first. */
  lemma {:induction false} ParseFirstPiece(a: string, b: string, p: Coord, tail: seq<Coord>)
    requires NoChar(a, ',') && ParsePosition(a) == Ok(p)
    requires ParsePositions(SplitOn(b, ",")) == Ok(tail)
    ensures ParsePositions(SplitOn(a + "," + b, ",")) == Ok([p] + tail)
  {
    SplitOnFirst(a, ",", b);
    ParsePositionsCons(a, SplitOn(b, ","));
  }

  /** A rendered first position, after `pre`, has no comma and parses back. */
  lemma {:induction false} FirstPosition(pre: string, p: Coord)
    requires pre == "" || pre == " "
    requires IsPosition(p)
    ensures NoChar(pre + PositionText(p), ',')
    ensures ParsePosition(pre + PositionText(p)) == Ok(p)
  {
    PositionTextShape(p);
    ParsePositionText(pre, p);
    NoCharAfterBlank(pre, PositionText(p), ',');
  }

  lemma {:induction false} ParsePathOne(pre: string, ps: seq<Coord>)
    requires pre == "" || pre == " "
    requires |ps| == 1 && AllPositions(ps)
    ensures ParsePositions(SplitOn(pre + Join(PositionTexts(ps), ", "), ",")) == Ok(ps)
  {
    var t0 := PositionText(ps[0]);
    FirstPosition(pre, ps[0]);
    PositionTextsAt(ps, 0);
    JoinOne(PositionTexts(ps), ", ");
    ParseLastPiece(pre + t0, ps[0]);
    Singleton(ps);
  }

  /** The rendering of a position list is its first position, a comma, and the rest. */
  lemma {:induction false} PathTextCons(ps: seq<Coord>)
    requires |ps| > 1 && AllPositions(ps)
    ensures Join(PositionTexts(ps), ", ") == PositionText(ps[0]) + ", " + Join(PositionTexts(ps[1..]), ", ")
  {
    PositionTextsCons(ps);
    JoinCons(PositionText(ps[0]), PositionTexts(ps[1..]), ", ");
  }

  lemma {:induction false} HeadTail<T>(s: seq<T>)
    requires |s| > 0
    ensures [s[0]] + s[1..] == s
  {
  }

  /** A rendered position, a comma and the rendering of the rest parse to the position and the rest. */
  lemma {:induction false} PositionThenRest(pre: string, p: Coord, tail: seq<Coord>, rest: string)
    requires pre == "" || pre == " "
    requires IsPosition(p)
    requires ParsePositions(SplitOn(" " + rest, ",")) == Ok(tail)
    ensures ParsePositions(SplitOn(pre + (PositionText(p) + ", " + rest), ",")) == Ok([p] + tail)
  {
    FirstPosition(pre, p);
    CommaStep(pre, PositionText(p), rest);
    ParseFirstPiece(pre + PositionText(p), " " + rest, p, tail);
  }

  lemma {:induction false} PositionTextsCons(ps: seq<Coord>)
    requires ps != [] && AllPositions(ps)
    ensures PositionTexts(ps) == [PositionText(ps[0])] + PositionTexts(ps[1..])
  {
  }

  /** A rendered position list, split on `,`, parses back to the positions. */
  lemma {:induction false} ParsePathText(pre: string, ps: seq<Coord>)
    requires pre == "" || pre == " "
    requires ps != [] && AllPositions(ps)
    ensures ParsePositions(SplitOn(pre + Join(PositionTexts(ps), ", "), ",")) == Ok(ps)
    decreases |ps|
  {
    if |ps| == 1 {
      ParsePathOne(pre, ps);
    } else {
      ParsePathText(" ", ps[1..]);
      PathTextCons(ps);
      PositionThenRest(pre, ps[0], ps[1..], Join(PositionTexts(ps[1..]), ", "));
      HeadTail(ps);
    }
  }

  /** Upper-casing leaves a text of capitals, digits and punctuation as it is. */
  lemma {:induction false} UpperFixed(s: string)
    requires forall k :: 0 <= k < |s| ==> UpperChar(s[k]) == [s[k]]
    ensures Upper(s) == s
    decreases |s|
  {
    if s != [] {
      UpperFixed(s[1..]);
    }
  }

  // ---------------------------------------------------------------------
  // The frame around a WKT body

  /** Upper-casing a text that starts with a keyword of capitals and punctuation keeps the keyword in front. */
  lemma {:induction false} UpperKeepsKeyword(prefix: string, rest: string)
    requires forall k :: 0 <= k < |prefix| ==> UpperChar(prefix[k]) == [prefix[k]]
    ensures StartsWith(Upper(prefix + rest), prefix)
  {
    UpperAppend(prefix, rest);
    UpperFixed(prefix);
  }

  lemma {:induction false} StartsWithShorter(s: string, prefix: string, keyword: string)
    requires StartsWith(s, prefix) && StartsWith(prefix, keyword)
    ensures StartsWith(s, keyword)
  {
    assert s[..|keyword|] == prefix[..|keyword|];
  }

  lemma {:induction false} SuffixVanishes(suffix: string)
    requires |suffix| > 0
    ensures ReplaceAll(suffix, suffix, "") == ""
  {
    ReplaceAllAtFront([], suffix, "");
    assert suffix + [] == suffix;
  }

  /** A closing suffix whose first character the body lacks is the only thing replaced away. */
  lemma {:induction false} DropSuffix(body: string, suffix: string)
    requires |suffix| > 0 && NoChar(body, suffix[0])
    ensures ReplaceAll(body + suffix, suffix, "") == body
  {
    ReplaceAllKeepsPrefix(body, suffix, suffix, "");
    SuffixVanishes(suffix);
    assert body + "" == body;
  }

  lemma {:induction false} AssociateFrame(prefix: string, body: string, suffix: string)
    ensures prefix + body + suffix == prefix + (body + suffix)
  {
  }

  /** A keyword at the front is replaced away, and nothing after it is touched. */
  lemma {:induction false} FrontReplaced(prefix: string, rest: string)
    requires |prefix| > 0 && NoChar(rest, prefix[0])
    ensures ReplaceAll(prefix + rest, prefix, "") == rest
  {
    ReplaceAllAtFront(rest, prefix, "");
    assert "" + rest == rest;
  }

  lemma {:induction false} ReplaceFrame(prefix: string, body: string, suffix: string)
    requires |prefix| > 0 && |suffix| > 0
    requires NoChar(body + suffix, prefix[0])
    requires ReplaceAll(body + suffix, suffix, "") == body
    ensures ReplaceAll(ReplaceAll(prefix + body + suffix, prefix, ""), suffix, "") == body
  {
    AssociateFrame(prefix, body, suffix);
    FrontReplaced(prefix, body + suffix);
  }

  /** A text that starts and ends with non-blank frame characters is its own strip. */
  lemma {:induction false} StripFrame(prefix: string, body: string, suffix: string)
    requires |prefix| > 0 && |suffix| > 0
    requires !IsSpace(prefix[0]) && !IsSpace(suffix[|suffix| - 1])
    ensures Strip(prefix + body + suffix) == prefix + body + suffix
  {
    var w := prefix + body + suffix;
    assert w[0] == prefix[0] && w[|w| - 1] == suffix[|suffix| - 1];
    StripUnpadded(w);
  }

  /**
    The body of `prefix + body + suffix` survives the two replacements and
    the strip that the parser applies.
   */
  lemma {:induction false} UnwrapFrame(prefix: string, body: string, suffix: string)
    requires |prefix| > 0 && |suffix| > 0
    requires NoChar(body + suffix, prefix[0])
    requires ReplaceAll(body + suffix, suffix, "") == body
    requires body == [] || (!IsSpace(body[0]) && !IsSpace(body[|body| - 1]))
    ensures Unwrap(prefix + body + suffix, prefix, suffix) == body
  {
    ReplaceFrame(prefix, body, suffix);
    StripUnpadded(body);
  }

  /** Plain text has none of the frame's letters and parentheses. */
  lemma {:induction false} PlainNoChar(body: string, suffix: string, c: char)
    requires Plain(body) && NoChar(suffix, c)
    requires c != '-' && !IsDigit(c) && c != ' ' && c != ','
    ensures NoChar(body, c) && NoChar(body + suffix, c)
  {
    forall k | 0 <= k < |body + suffix| ensures (body + suffix)[k] != c {
      if k < |body| { assert (body + suffix)[k] == body[k]; }
      else { assert (body + suffix)[k] == suffix[k - |body|]; }
    }
  }

  lemma {:induction false} NoCharAppend(a: string, b: string, c: char)
    requires NoChar(a, c) && NoChar(b, c)
    ensures NoChar(a + b, c)
  {
    forall k | 0 <= k < |a + b| ensures (a + b)[k] != c {
      if k >= |a| { assert (a + b)[k] == b[k - |a|]; }
    }
  }

  lemma {:induction false} NumberEndsUnpadded(body: string)
    requires NumberEnds(body)
    ensures !IsSpace(body[0]) && !IsSpace(body[|body| - 1])
  {
  }

  /** Plain, number-delimited text inside a frame is what the parser unwraps. */
  lemma {:induction false} UnwrapPlain(prefix: string, body: string, suffix: string)
    requires |prefix| > 0 && |suffix| > 0
    requires prefix[0] != '-' && !IsDigit(prefix[0]) && prefix[0] != ' ' && prefix[0] != ',' && NoChar(suffix, prefix[0])
    requires suffix[0] != '-' && !IsDigit(suffix[0]) && suffix[0] != ' ' && suffix[0] != ','
    requires Plain(body) && NumberEnds(body)
    ensures Unwrap(prefix + body + suffix, prefix, suffix) == body
  {
    PlainNoChar(body, suffix, prefix[0]);
    PlainNoChar(body, [], suffix[0]);
    DropSuffix(body, suffix);
    NumberEndsUnpadded(body);
    UnwrapFrame(prefix, body, suffix);
  }

  // ---------------------------------------------------------------------
  // Dispatch on the keyword

  lemma {:induction false} DispatchPoint(w: string, corrected: bool)
    requires Strip(w) == w && StartsWith(Upper(w), "POINT(")
    ensures ParseWkt(w, corrected) == Tagged("Point", PointCoords(w))
  {
    StartsWithShorter(Upper(w), "POINT(", "POINT");
  }

  lemma {:induction false} DispatchLineString(w: string, corrected: bool)
    requires Strip(w) == w && StartsWith(Upper(w), "LINESTRING(")
    ensures ParseWkt(w, corrected) == Tagged("LineString", LineStringCoords(w))
  {
    StartsWithShorter(Upper(w), "LINESTRING(", "LINESTRING");
  }

  lemma {:induction false} PolygonIsNotPoint(u: string)
    requires StartsWith(u, "POLYGON")
    ensures !StartsWith(u, "POINT") && !StartsWith(u, "LINESTRING")
  {
    assert u[2] == "POLYGON"[2];
  }

  lemma {:induction false} DispatchPolygon(w: string, corrected: bool)
    requires Strip(w) == w && StartsWith(Upper(w), "POLYGON((")
    ensures ParseWkt(w, corrected) == Tagged("Polygon", PolygonCoords(w, corrected))
  {
    StartsWithShorter(Upper(w), "POLYGON((", "POLYGON");
    PolygonIsNotPoint(Upper(w));
  }

  /** Leading whitespace is stripped before the keyword is looked at. */
  lemma {:induction false} LeadingSpaceIgnored(c: char, wkt: string)
    requires IsSpace(c)
    ensures WktToGeoJson([c] + wkt) == WktToGeoJson(wkt)
    ensures WktToGeoJsonCorrected([c] + wkt) == WktToGeoJsonCorrected(wkt)
  {
    StripLeadingSpace([c] + wkt);
    assert ([c] + wkt)[1..] == wkt;
  }

  lemma {:induction false} KeywordAhead(prefix: string, body: string, suffix: string)
    requires StartsWith(Upper(prefix + (body + suffix)), prefix)
    ensures StartsWith(Upper(prefix + body + suffix), prefix)
  {
    AssociateFrame(prefix, body, suffix);
  }

  // ---------------------------------------------------------------------
  // The three frames: a rendered body inside its keyword parses as that body

  /** The three keywords are already upper case, so upper-casing a text keeps its leading keyword. */
  lemma {:induction false} FrameKeywordsUpper(rest: string)
    ensures StartsWith(Upper("POINT(" + rest), "POINT(")
    ensures StartsWith(Upper("LINESTRING(" + rest), "LINESTRING(")
    ensures StartsWith(Upper("POLYGON((" + rest), "POLYGON((")
  {
    UpperKeepsKeyword("POINT(", rest);
    UpperKeepsKeyword("LINESTRING(", rest);
    UpperKeepsKeyword("POLYGON((", rest);
  }

  lemma {:induction false} PointFrame(body: string, corrected: bool)
    requires Plain(body) && NumberEnds(body)
    ensures ParseWkt("POINT(" + body + ")", corrected) == Tagged("Point", ParseNumbers(SplitWs(body)))
  {
    StripFrame("POINT(", body, ")");
    FrameKeywordsUpper(body + ")");
    KeywordAhead("POINT(", body, ")");
    UnwrapPlain("POINT(", body, ")");
    DispatchPoint("POINT(" + body + ")", corrected);
  }

  lemma {:induction false} LineStringFrame(body: string, corrected: bool)
    requires Plain(body) && NumberEnds(body)
    ensures ParseWkt("LINESTRING(" + body + ")", corrected) == Tagged("LineString", RingCoords(body))
  {
    StripFrame("LINESTRING(", body, ")");
    FrameKeywordsUpper(body + ")");
    KeywordAhead("LINESTRING(", body, ")");
    UnwrapPlain("LINESTRING(", body, ")");
    DispatchLineString("LINESTRING(" + body + ")", corrected);
  }

  /** A polygon text is dispatched to the polygon reader, whatever its body. */
  lemma {:induction false} PolygonDispatch(body: string, corrected: bool)
    requires body == [] || (!IsSpace(body[0]) && !IsSpace(body[|body| - 1]))
    ensures ParseWkt("POLYGON((" + body + "))", corrected) == Tagged("Polygon", PolygonCoords("POLYGON((" + body + "))", corrected))
  {
    StripFrame("POLYGON((", body, "))");
    FrameKeywordsUpper(body + "))");
    KeywordAhead("POLYGON((", body, "))");
    DispatchPolygon("POLYGON((" + body + "))", corrected);
  }

  /** Every polygon body without `P` that the closing `))` leaves intact is unwrapped as it is. */
  lemma {:induction false} PolygonUnwrap(body: string)
    requires NoChar(body, 'P') && ReplaceAll(body + "))", "))", "") == body
    requires body == [] || (!IsSpace(body[0]) && !IsSpace(body[|body| - 1]))
    ensures Unwrap("POLYGON((" + body + "))", "POLYGON((", "))") == body
  {
    NoCharAppend(body, "))", 'P');
    UnwrapFrame("POLYGON((", body, "))");
  }

  // ---------------------------------------------------------------------
  // Round trips

  lemma {:induction false} PointWords(x: int, y: int)
    ensures ParseNumbers(SplitWs(ShowInt(x) + " " + ShowInt(y))) == Ok([Num(x), Num(y)])
  {
    var a, b := ShowInt(x), ShowInt(y);
    ShowIntNoSpace(x);
    ShowIntNoSpace(y);
    TwoWords(a, b);
    ParseShowInt(x);
    ParseShowInt(y);
    ParseTwoNumbers(a, b, x, y);
  }

  lemma {:induction false} PointBodyShape(x: int, y: int)
    ensures Plain(ShowInt(x) + " " + ShowInt(y)) && NumberEnds(ShowInt(x) + " " + ShowInt(y))
  {
    PositionTextShape(List([Num(x), Num(y)]));
  }

  lemma {:induction false} FrameAround(k: string, a: string, b: string, s: string)
    ensures k + a + " " + b + s == k + (a + " " + b) + s
  {
  }

  /** Point `[x, y]` -> `POINT(x y)` -> the same Point. */
  lemma {:induction false} PointRoundTrip(x: int, y: int)
    ensures var g := Geometry("Point", List([Num(x), Num(y)]));
      && GeoJsonToWkt(g).Ok?
      && WktToGeoJson(GeoJsonToWkt(g).value) == Ok(g)
  {
    PointText(x, y);
    var body := ShowInt(x) + " " + ShowInt(y);
    FrameAround("POINT(", ShowInt(x), ShowInt(y), ")");
    PointBodyShape(x, y);
    PointFrame(body, false);
    PointWords(x, y);
  }

  /** A rendered position list is read back by the ring reader. */
  lemma {:induction false} PathCoords(c: Coord)
    requires IsPath(c)
    ensures RingCoords(PathText(c)) == Ok(c.items)
  {
    ParsePathText("", c.items);
    assert "" + PathText(c) == PathText(c);
  }

  /** LineString -> `LINESTRING(...)` -> the same LineString, for every non-empty position list. */
  lemma {:induction false} LineStringRoundTrip(c: Coord)
    requires IsPath(c)
    ensures var g := Geometry("LineString", c);
      && GeoJsonToWkt(g).Ok?
      && WktToGeoJson(GeoJsonToWkt(g).value) == Ok(g)
  {
    LineStringText(c);
    PathTextShape(c);
    LineStringFrame(PathText(c), false);
    PathCoords(c);
  }

  /** One ring text parses to that ring. */
  lemma {:induction false} ParseSingleRing(body: string, ring: Coord)
    requires ring.List? && RingCoords(body) == Ok(ring.items)
    ensures ParseRings([body]) == Ok([ring])
  {
    assert ParseRings([]) == Ok([]);
    ParseRingsCons(body, []);
    assert [body] + [] == [body];
    assert [ring] + [] == [ring];
  }

  lemma {:induction false} ParseRingsCons(a: string, rest: seq<string>)
    requires RingCoords(a).Ok? && ParseRings(rest).Ok?
    ensures ParseRings([a] + rest) == Ok([List(RingCoords(a).value)] + ParseRings(rest).value)
  {
    assert ([a] + rest)[0] == a;
    assert ([a] + rest)[1..] == rest;
  }

  /** A rendered ring meets what the polygon frame asks of its body, and has no `)`. */
  lemma {:induction false} PlainPolygonBody(body: string)
    requires Plain(body) && NumberEnds(body)
    ensures NoChar(body, 'P') && NoChar(body, ')')
    ensures ReplaceAll(body + "))", "))", "") == body
    ensures !IsSpace(body[0]) && !IsSpace(body[|body| - 1])
  {
    PlainNoChar(body, [], 'P');
    PlainNoChar(body, [], ')');
    DropSuffix(body, "))");
  }

  lemma {:induction false} AsWrittenRings(body: string)
    requires Unwrap("POLYGON((" + body + "))", "POLYGON((", "))") == body
    ensures PolygonCoords("POLYGON((" + body + "))", false) == ParseRings(SplitOn(body, "),("))
  {
  }

  lemma {:induction false} CorrectedRings(body: string)
    requires Unwrap("POLYGON((" + body + "))", "POLYGON((", "))") == body
    ensures PolygonCoords("POLYGON((" + body + "))", true) == ParseRings(RingBodies(SplitOn(body, "),")))
  {
  }

  /** Single-ring Polygon -> `POLYGON((...))` -> the same Polygon. */
  lemma {:induction false} PolygonRoundTrip(ring: Coord)
    requires IsPath(ring)
    ensures var g := Geometry("Polygon", List([ring]));
      && GeoJsonToWkt(g).Ok?
      && WktToGeoJson(GeoJsonToWkt(g).value) == Ok(g)
  {
    assert AllPaths([ring]);
    PolygonText([ring]);
    var body := PathText(ring);
    PathTextShape(ring);
    PlainPolygonBody(body);
    PolygonDispatch(body, false);
    PolygonUnwrap(body);
    AsWrittenRings(body);
    SplitOnNone(body, "),(");
    PathCoords(ring);
    ParseSingleRing(body, ring);
  }

  // ---------------------------------------------------------------------
  // Polygons with holes: the ring separator

  /** What the polygon reader needs of one rendered ring. */
  lemma {:induction false} RingTextFacts(ring: Coord)
    requires IsPath(ring)
    ensures NoChar(PathText(ring), ')') && NoChar(PathText(ring), '(') && NoChar(PathText(ring), 'P')
    ensures NumberEnds(PathText(ring))
    ensures RingCoords(PathText(ring)) == Ok(ring.items)
  {
    PathTextShape(ring);
    PlainNoChar(PathText(ring), [], ')');
    PlainNoChar(PathText(ring), [], '(');
    PlainNoChar(PathText(ring), [], 'P');
    PathCoords(ring);
  }

  lemma {:induction false} JoinNoChar(parts: seq<string>, sep: string, c: char)
    requires NoChar(sep, c) && forall i :: 0 <= i < |parts| ==> NoChar(parts[i], c)
    ensures NoChar(Join(parts, sep), c)
    decreases |parts|
  {
    if |parts| > 1 {
      JoinNoChar(parts[1..], sep, c);
      NoCharAppend(parts[0], sep, c);
      NoCharAppend(parts[0] + sep, Join(parts[1..], sep), c);
    }
  }

  /** `)` followed by a comma is not the closing `))`. */
  lemma {:induction false} ParenThenComma(y: string)
    requires |y| > 0 && y[0] == ','
    ensures ReplaceAll(")" + y, "))", "") == ")" + ReplaceAll(y, "))", "")
  {
    assert (")" + y)[..2][1] == ',';
    assert (")" + y)[1..] == y;
  }

  lemma {:induction false} ClosingStep(t0: string, rest: string)
    requires NoChar(t0, ')') && ReplaceAll(rest + "))", "))", "") == rest
    ensures ReplaceAll(t0 + "), (" + rest + "))", "))", "") == t0 + "), (" + rest
  {
    RingSeparatorSplits();
    Regroup(t0, ")", ", (", rest, "))");
    ReplaceAllKeepsPrefix(t0, ")" + (", (" + (rest + "))")), "))", "");
    ClosingTail(rest);
  }

  lemma {:induction false} RingSeparatorSplits()
    ensures "), (" == ")" + ", ("
  {
  }

  lemma {:induction false} Regroup(t: string, p: string, c: string, r: string, d: string)
    ensures t + (p + c) + r + d == t + (p + (c + (r + d)))
    ensures t + (p + (c + r)) == t + (p + c) + r
  {
  }

  /** After a ring's closing parenthesis, the separator and the next rings keep only the final `))` to drop. */
  lemma {:induction false} ClosingTail(rest: string)
    requires ReplaceAll(rest + "))", "))", "") == rest
    ensures ReplaceAll(")" + (", (" + (rest + "))")), "))", "") == ")" + (", (" + rest)
  {
    ParenThenComma(", (" + (rest + "))"));
    ReplaceAllKeepsPrefix(", (", rest + "))", "))", "");
  }

  /** The closing `))` is the only `))` in a rendered polygon body. */
  lemma {:induction false} ClosingKept(ts: seq<string>)
    requires |ts| > 0 && forall i :: 0 <= i < |ts| ==> NoChar(ts[i], ')')
    ensures ReplaceAll(Join(ts, "), (") + "))", "))", "") == Join(ts, "), (")
    decreases |ts|
  {
    if |ts| == 1 {
      DropSuffix(ts[0], "))");
    } else {
      ClosingKept(ts[1..]);
      JoinCons(ts[0], ts[1..], "), (");
      HeadTail(ts);
      ClosingStep(ts[0], Join(ts[1..], "), ("));
    }
  }

  /** What the polygon frame needs of a rendered polygon body. */
  lemma {:induction false} PolygonBodyFacts(rings: seq<Coord>)
    requires rings != [] && AllPaths(rings)
    ensures NoChar(RingsText(rings), 'P')
    ensures ReplaceAll(RingsText(rings) + "))", "))", "") == RingsText(rings)
    ensures NumberEnds(RingsText(rings))
  {
    var ts := PathTexts(rings);
    forall i | 0 <= i < |ts| ensures NoChar(ts[i], ')') && NoChar(ts[i], 'P') && NumberEnds(ts[i]) {
      PathTextsAt(rings, i);
      RingTextFacts(rings[i]);
    }
    JoinNoChar(ts, "), (", 'P');
    ClosingKept(ts);
    JoinEnds(ts, "), (");
  }

  /** After `""` or the ` (` that follows a separator, a ring piece's body is the ring text. */
  lemma {:induction false} RingBodyOf(pre: string, t: string)
    requires pre == "" || pre == " ("
    requires NumberEnds(t)
    ensures RingBody(pre + t) == t
  {
    if pre == " (" {
      RingBodyAfterParen(t);
    } else {
      assert pre + t == t;
      RingBodyPlain(t);
    }
  }

  lemma {:induction false} RingBodyPlain(t: string)
    requires NumberEnds(t)
    ensures RingBody(t) == t
  {
    StripUnpadded(t);
    assert t[0] != '(';
  }

  lemma {:induction false} RingBodyAfterParen(t: string)
    requires NumberEnds(t)
    ensures RingBody(" (" + t) == t
  {
    StripBlankParen(t);
    var u := "(" + t;
    assert u[0] == '(' && u[1..] == t;
  }

  lemma {:induction false} StripBlankParen(t: string)
    requires NumberEnds(t)
    ensures Strip(" (" + t) == "(" + t
  {
    var u := "(" + t;
    BlankParenSplits();
    assert " (" + t == " " + u;
    StripLeadingSpace(" " + u);
    assert (" " + u)[1..] == u;
    OpenParenStrip(t);
  }

  lemma {:induction false} BlankParenSplits()
    ensures " (" == " " + "("
  {
  }

  lemma {:induction false} OpenParenStrip(t: string)
    requires NumberEnds(t)
    ensures Strip("(" + t) == "(" + t
  {
    var u := "(" + t;
    assert u[|u| - 1] == t[|t| - 1];
    StripUnpadded(u);
  }

  lemma {:induction false} NoParenAfter(pre: string, t: string)
    requires pre == "" || pre == " ("
    requires NoChar(t, ')')
    ensures NoChar(pre + t, ')')
  {
    NoCharAppend(pre, t, ')');
  }

  lemma {:induction false} RingBodiesCons(a: string, rest: seq<string>)
    ensures RingBodies([a] + rest) == [RingBody(a)] + RingBodies(rest)
  {
    assert ([a] + rest)[0] == a;
    assert ([a] + rest)[1..] == rest;
  }

  lemma {:induction false} RingSplitAssoc(pre: string, t0: string, rest: string)
    ensures pre + (t0 + "), (" + rest) == (pre + t0) + ")," + (" (" + rest)
  {
  }

  /** The last ring piece. */
  lemma {:induction false} RingLast(pre: string, t0: string, ring: Coord)
    requires pre == "" || pre == " ("
    requires ring.List? && NoChar(t0, ')') && NumberEnds(t0) && RingCoords(t0) == Ok(ring.items)
    ensures ParseRings(RingBodies(SplitOn(pre + t0, "),"))) == Ok([ring])
  {
    NoParenAfter(pre, t0);
    SplitOnNone(pre + t0, "),");
    RingBodyOf(pre, t0);
    RingBodiesCons(pre + t0, []);
    assert [pre + t0] + [] == [pre + t0];
    assert RingBodies([]) == [];
    assert [RingBody(pre + t0)] + [] == [t0];
    ParseSingleRing(t0, ring);
  }

  /** A ring piece before the separator is read first. */
  lemma {:induction false} RingThenRest(pre: string, t0: string, ring: Coord, tail: seq<Coord>, rest: string)
    requires pre == "" || pre == " ("
    requires ring.List? && NoChar(t0, ')') && NumberEnds(t0) && RingCoords(t0) == Ok(ring.items)
    requires ParseRings(RingBodies(SplitOn(" (" + rest, "),"))) == Ok(tail)
    ensures ParseRings(RingBodies(SplitOn(pre + (t0 + "), (" + rest), "),"))) == Ok([ring] + tail)
  {
    NoParenAfter(pre, t0);
    RingSplitAssoc(pre, t0, rest);
    SplitOnFirst(pre + t0, "),", " (" + rest);
    RingBodiesCons(pre + t0, SplitOn(" (" + rest, "),"));
    RingBodyOf(pre, t0);
    ParseRingsCons(t0, RingBodies(SplitOn(" (" + rest, "),")));
  }

  /** What the corrected reader needs of ring texts `ts` rendered from `rings`. */
  predicate RingTexts(ts: seq<string>, rings: seq<Coord>) {
    |ts| == |rings| &&
    forall i :: 0 <= i < |ts| ==>
      rings[i].List? && NoChar(ts[i], ')') && NumberEnds(ts[i]) && RingCoords(ts[i]) == Ok(rings[i].items)
  }

  lemma {:induction false} RingTextsTail(ts: seq<string>, rings: seq<Coord>)
    requires |ts| > 0 && RingTexts(ts, rings)
    ensures RingTexts(ts[1..], rings[1..])
  {
    forall i | 0 <= i < |ts| - 1
      ensures rings[1..][i].List? && NoChar(ts[1..][i], ')') && NumberEnds(ts[1..][i])
      ensures RingCoords(ts[1..][i]) == Ok(rings[1..][i].items)
    {
      assert ts[1..][i] == ts[i + 1] && rings[1..][i] == rings[i + 1];
    }
  }

  /** The corrected reader splits joined ring texts back into their rings. */
  lemma {:induction false} CorrectedRingsParse(pre: string, ts: seq<string>, rings: seq<Coord>)
    requires pre == "" || pre == " ("
    requires ts != [] && RingTexts(ts, rings)
    ensures ParseRings(RingBodies(SplitOn(pre + Join(ts, "), ("), "),"))) == Ok(rings)
    decreases |ts|
  {
    if |ts| == 1 {
      OneRingParse(pre, ts, rings);
    } else {
      RingTextsTail(ts, rings);
      CorrectedRingsParse(" (", ts[1..], rings[1..]);
      RingsStep(pre, ts, rings);
    }
  }

  lemma {:induction false} OneRingParse(pre: string, ts: seq<string>, rings: seq<Coord>)
    requires pre == "" || pre == " ("
    requires |ts| == 1 && RingTexts(ts, rings)
    ensures ParseRings(RingBodies(SplitOn(pre + Join(ts, "), ("), "),"))) == Ok(rings)
  {
    JoinOne(ts, "), (");
    RingLast(pre, ts[0], rings[0]);
    Singleton(rings);
  }

  lemma {:induction false} JoinOne(ts: seq<string>, sep: string)
    requires |ts| == 1
    ensures Join(ts, sep) == ts[0]
  {
  }

  lemma {:induction false} Singleton<T>(s: seq<T>)
    requires |s| == 1
    ensures [s[0]] == s
  {
  }

  lemma {:induction false} RingsStep(pre: string, ts: seq<string>, rings: seq<Coord>)
    requires pre == "" || pre == " ("
    requires |ts| > 1 && RingTexts(ts, rings)
    requires ParseRings(RingBodies(SplitOn(" (" + Join(ts[1..], "), ("), "),"))) == Ok(rings[1..])
    ensures ParseRings(RingBodies(SplitOn(pre + Join(ts, "), ("), "),"))) == Ok(rings)
  {
    JoinCons(ts[0], ts[1..], "), (");
    HeadTail(ts);
    RingThenRest(pre, ts[0], rings[0], rings[1..], Join(ts[1..], "), ("));
    HeadTail(rings);
  }

  lemma {:induction false} RenderedRingTexts(rings: seq<Coord>)
    requires AllPaths(rings)
    ensures RingTexts(PathTexts(rings), rings)
  {
    var ts := PathTexts(rings);
    forall i | 0 <= i < |ts|
      ensures rings[i].List? && NoChar(ts[i], ')') && NumberEnds(ts[i]) && RingCoords(ts[i]) == Ok(rings[i].items)
    {
      PathTextsAt(rings, i);
      RingTextFacts(rings[i]);
    }
  }

  /**
    Every Polygon, holes included, survives the trip through WKT when the
    reader splits rings on `),` as the serialiser writes them.
   */
  lemma {:induction false} CorrectedPolygonRoundTrip(rings: seq<Coord>)
    requires rings != [] && AllPaths(rings)
    ensures var g := Geometry("Polygon", List(rings));
      && GeoJsonToWkt(g).Ok?
      && WktToGeoJsonCorrected(GeoJsonToWkt(g).value) == Ok(g)
  {
    PolygonText(rings);
    var body := RingsText(rings);
    PolygonBodyFacts(rings);
    NumberEndsUnpadded(body);
    PolygonDispatch(body, true);
    PolygonUnwrap(body);
    CorrectedRings(body);
    RenderedRingTexts(rings);
    CorrectedRingsParse("", PathTexts(rings), rings);
    assert "" + body == body;
  }

  // ---------------------------------------------------------------------
  // The ring separator as written: a counterexample

  /** The serialiser's separator `), (` never contains the reader's `),(`. */
  lemma {:induction false} NoRingSeparator(a: string, b: string)
    requires NoChar(a, ')') && NoChar(b, ')')
    ensures forall j :: !OccursAt(a + "), (" + b, "),(", j)
  {
    var s := a + "), (" + b;
    assert s[|a|..|a| + 4] == "), (";
    forall j ensures !OccursAt(s, "),(", j) {
      if 0 <= j && j + 3 <= |s| {
        assert s[j..j + 3][0] == s[j] && s[j..j + 3][2] == s[j + 2];
        if j < |a| {
          assert s[j] == a[j];
        } else if j >= |a| + 4 {
          assert s[j] == b[j - |a| - 4];
        } else if j == |a| {
          assert s[j + 2] == s[|a|..|a| + 4][2];
        } else {
          assert s[j] == s[|a|..|a| + 4][j - |a|];
        }
      }
    }
  }

  lemma {:induction false} SecondWordFails(a: string, b: string)
    requires ParseInt(a).Some? && ParseInt(b).None?
    ensures ParseNumbers([a, b]) == Err("could not convert string to float: '" + b + "'")
  {
    assert [a, b][1..] == [b];
    assert [b][0] == b;
  }

  /** A word that does not end in a digit is not a number. */
  lemma {:induction false} NotANumber(w: string)
    requires |w| > 0 && !IsDigit(w[|w| - 1])
    ensures ParseInt(w).None?
  {
    if w[0] == '-' || w[0] == '+' {
      assert w[1..] == [] || w[1..][|w[1..]| - 1] == w[|w| - 1];
    }
  }

  lemma {:induction false} NoSpaceAppend(a: string, b: string)
    requires NoSpace(a) && NoSpace(b)
    ensures NoSpace(a + b)
  {
    forall k | 0 <= k < |a + b| ensures !IsSpace((a + b)[k]) {
      if k >= |a| { assert (a + b)[k] == b[k - |a|]; }
    }
  }

  /** The piece `x y)` splits into `x` and `y)`. */
  lemma {:induction false} ClosedPieceWords(x: int, y: int)
    ensures SplitWs(Strip(ShowInt(x) + " " + ShowInt(y) + ")")) == [ShowInt(x), ShowInt(y) + ")"]
  {
    var a, b := ShowInt(x), ShowInt(y) + ")";
    ShowIntNoSpace(x);
    ShowIntNoSpace(y);
    NoSpaceAppend(ShowInt(y), ")");
    assert ShowInt(x) + " " + ShowInt(y) + ")" == a + " " + b;
    PairEnds(a, b);
    StripUnpadded(a + " " + b);
    TwoWords(a, b);
  }

  /** The piece `x y)` that the reader as written is left with is rejected at `y)`. */
  lemma {:induction false} ClosedPieceFails(x: int, y: int)
    ensures ParsePosition(ShowInt(x) + " " + ShowInt(y) + ")")
         == Err("could not convert string to float: '" + (ShowInt(y) + ")") + "'")
  {
    ClosedPieceWords(x, y);
    ParseShowInt(x);
    ClosedWordNotANumber(y);
    SecondWordFails(ShowInt(x), ShowInt(y) + ")");
  }

  lemma {:induction false} ClosedWordNotANumber(y: int)
    ensures ParseInt(ShowInt(y) + ")").None?
  {
    var w := ShowInt(y) + ")";
    assert w[|w| - 1] == ')';
    NotANumber(w);
  }

  lemma {:induction false} ParsePositionsHeadFails(a: string, rest: seq<string>)
    requires ParsePosition(a).Err?
    ensures ParsePositions([a] + rest) == Err(ParsePosition(a).error)
  {
    assert ([a] + rest)[0] == a;
  }

  lemma {:induction false} ParseRingsHeadFails(a: string)
    requires RingCoords(a).Err?
    ensures ParseRings([a]) == Err(RingCoords(a).error)
  {
    assert [a][0] == a;
  }

  /** A two-ring body is read as one ring whose first piece is `x y)`. */
  lemma {:induction false} HoleRingFails(x: int, y: int, t1: string)
    requires NoChar(t1, ')')
    ensures ParseRings([ShowInt(x) + " " + ShowInt(y) + "), (" + t1])
         == Err("could not convert string to float: '" + (ShowInt(y) + ")") + "'")
  {
    var p := List([Num(x), Num(y)]);
    var t0 := ShowInt(x) + " " + ShowInt(y);
    var body := t0 + "), (" + t1;
    PositionTextShape(p);
    assert PositionText(p) == t0;
    NoCharAppend(t0, ")", ',');
    assert body == (t0 + ")") + "," + (" (" + t1);
    SplitOnFirst(t0 + ")", ",", " (" + t1);
    ClosedPieceFails(x, y);
    ParsePositionsHeadFails(t0 + ")", SplitOn(" (" + t1, ","));
    ParseRingsHeadFails(body);
  }

  /** An outer ring and a hole of one position each. */
  function TwoRings(x0: int, y0: int, x1: int, y1: int): (rings: seq<Coord>)
    ensures |rings| == 2 && AllPaths(rings)
  {
    [List([List([Num(x0), Num(y0)])]), List([List([Num(x1), Num(y1)])])]
  }

  lemma {:induction false} TwoRingsText(x0: int, y0: int, x1: int, y1: int)
    ensures RingsText(TwoRings(x0, y0, x1, y1))
         == ShowInt(x0) + " " + ShowInt(y0) + "), (" + (ShowInt(x1) + " " + ShowInt(y1))
  {
    var rings := TwoRings(x0, y0, x1, y1);
    var t0, t1 := ShowInt(x0) + " " + ShowInt(y0), ShowInt(x1) + " " + ShowInt(y1);
    assert PathText(rings[0]) == t0;
    assert PathText(rings[1]) == t1;
    assert PathTexts(rings) == [t0, t1];
    JoinCons(t0, [t1], "), (");
    assert [t0] + [t1] == [t0, t1];
  }

  /**
    A polygon with a hole is written with the ring separator `), (`, which
    the reader as written does not split on: it reads one ring whose first
    piece `x0 y0)` is not a position, and fails. The corrected reader
    returns the polygon.
   */
  lemma {:induction false} HolesDoNotRoundTrip(x0: int, y0: int, x1: int, y1: int)
    ensures var g := Geometry("Polygon", List(TwoRings(x0, y0, x1, y1)));
      && GeoJsonToWkt(g).Ok?
      && WktToGeoJson(GeoJsonToWkt(g).value)
         == Err(AgentExecutionError(WktFailure + ("could not convert string to float: '" + (ShowInt(y0) + ")") + "'")))
      && WktToGeoJsonCorrected(GeoJsonToWkt(g).value) == Ok(g)
  {
    var rings := TwoRings(x0, y0, x1, y1);
    var t1 := ShowInt(x1) + " " + ShowInt(y1);
    var body := ShowInt(x0) + " " + ShowInt(y0) + "), (" + t1;
    TwoRingsText(x0, y0, x1, y1);
    PolygonText(rings);
    PolygonBodyFacts(rings);
    NumberEndsUnpadded(body);
    PolygonDispatch(body, false);
    PolygonUnwrap(body);
    AsWrittenRings(body);
    RingTextFacts(rings[0]);
    RingTextFacts(rings[1]);
    NoRingSeparator(ShowInt(x0) + " " + ShowInt(y0), t1);
    SplitOnAbsent(body, "),(");
    HoleRingFails(x0, y0, t1);
    CorrectedPolygonRoundTrip(rings);
  }
}
