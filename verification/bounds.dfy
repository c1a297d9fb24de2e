/**
  The map client's bounding-box helpers: the bounds of a GeoJSON object
  (a FeatureCollection, a Feature or a bare geometry) and the bounds of a
  flat list of positions, both as `[[minLng, minLat], [maxLng, maxLat]]`.

  Coordinates are integers, and each geometry's coordinates are nested as
  its type prescribes (section 3.1 of RFC 7946), so the JavaScript cases
  where a coordinate is not a number do not arise.

  Both helpers start from the sentinel box (180, 90, -180, -90) and widen
  it position by position. The GeoJSON helper then reports "no bounds"
  whenever a sentinel value survives, which also happens when a position
  lies on the sentinel value itself; `GetBoundsCorrected` is the version
  that reports "no bounds" exactly when there is no position.
 */
module Bounds {
  import opened Wrappers

  datatype Position = Position(lng: int, lat: int)

  /** `[[minLng, minLat], [maxLng, maxLat]]`. */
  datatype Box = Box(minLng: int, minLat: int, maxLng: int, maxLat: int)

  /** A geometry; `Other` is any type the helper does not handle. */
  datatype Shape =
    | Point(p: Position)
    | LineString(line: seq<Position>)
    | MultiPoint(points: seq<Position>)
    | Polygon(rings: seq<seq<Position>>)
    | MultiLineString(lines: seq<seq<Position>>)
    | MultiPolygon(polygons: seq<seq<seq<Position>>>)
    | Other(typ: string)

  /** The argument: `null`/`undefined`, a FeatureCollection, a Feature, or a bare geometry. */
  datatype GeoJson =
    | Missing
    | FeatureCollection(features: seq<Shape>)
    | Feature(geometry: Shape)
    | Bare(shape: Shape)

  const Sentinel := Box(180, 90, -180, -90)

  function Min(a: int, b: int): int { if a <= b then a else b }
  function Max(a: int, b: int): int { if a >= b then a else b }

  predicate Encloses(b: Box, p: Position) {
    b.minLng <= p.lng <= b.maxLng && b.minLat <= p.lat <= b.maxLat
  }

  /** The box spanning both boxes (componentwise min of the minima, max of the maxima). */
  function Union(a: Box, b: Box): (r: Box) {
    Box(Min(a.minLng, b.minLng), Min(a.minLat, b.minLat), Max(a.maxLng, b.maxLng), Max(a.maxLat, b.maxLat))
  }

  /** One `Math.min`/`Math.max` step for one position. */
  function Include(b: Box, p: Position): (r: Box)
    ensures Encloses(r, p)
    ensures r == Union(b, Box(p.lng, p.lat, p.lng, p.lat))
  {
    Box(Min(b.minLng, p.lng), Min(b.minLat, p.lat), Max(b.maxLng, p.lng), Max(b.maxLat, p.lat))
  }

  // ---------------------------------------------------------------------
  // The traversal as the helper runs it

  /** `coords.forEach(coord => ...)`. */
  function Fold(b: Box, ps: seq<Position>): (r: Box)
    decreases |ps|
  {
    if ps == [] then b else Fold(Include(b, ps[0]), ps[1..])
  }

  /** `coords.forEach(line => line.forEach(coord => ...))`. */
  function FoldLines(b: Box, lines: seq<seq<Position>>): (r: Box)
    decreases |lines|
  {
    if lines == [] then b else FoldLines(Fold(b, lines[0]), lines[1..])
  }

  /** `coords.forEach(poly => poly.forEach(line => line.forEach(coord => ...)))`. */
  function FoldPolygons(b: Box, polygons: seq<seq<seq<Position>>>): (r: Box)
    decreases |polygons|
  {
    if polygons == [] then b else FoldPolygons(FoldLines(b, polygons[0]), polygons[1..])
  }

  /** `processCoordinates(geometry.coordinates, geometry.type)`. */
  function Process(b: Box, s: Shape): (r: Box) {
    match s
    case Point(p) => Include(b, p)
    case LineString(ps) => Fold(b, ps)
    case MultiPoint(ps) => Fold(b, ps)
    case Polygon(rings) => FoldLines(b, rings)
    case MultiLineString(lines) => FoldLines(b, lines)
    case MultiPolygon(polygons) => FoldPolygons(b, polygons)
    case Other(_) => b
  }

  /** `features.forEach(feature => processCoordinates(...))`. */
  function ProcessAll(b: Box, shapes: seq<Shape>): (r: Box)
    decreases |shapes|
  {
    if shapes == [] then b else ProcessAll(Process(b, shapes[0]), shapes[1..])
  }

  /** The four running values once every geometry has been visited, starting from the sentinel. */
  function Scan(g: GeoJson): (r: Box)
    requires !g.Missing?
  {
    match g
    case FeatureCollection(fs) => ProcessAll(Sentinel, fs)
    case Feature(s) => Process(Sentinel, s)
    case Bare(s) => Process(Sentinel, s)
  }

  /** Whether a value of the box is still (or again) its sentinel value. */
  predicate OnSentinel(b: Box) {
    b.minLng == 180 || b.minLat == 90 || b.maxLng == -180 || b.maxLat == -90
  }

  /** `getBoundsFromGeoJSON` as written. */
  function GetBoundsFromGeoJson(g: GeoJson): (r: Option<Box>)
    ensures g.Missing? ==> r.None?
    ensures r.Some? ==> !OnSentinel(r.value)
  {
    if g.Missing? then None
    else
      var b := Scan(g);
      if OnSentinel(b) then None else Some(b)
  }

  // ---------------------------------------------------------------------
  // The positions a GeoJSON object holds, and the nested traversal as one fold

  function Flatten(lines: seq<seq<Position>>): (ps: seq<Position>)
    decreases |lines|
  {
    if lines == [] then [] else lines[0] + Flatten(lines[1..])
  }

  function FlattenPolygons(polygons: seq<seq<seq<Position>>>): (ps: seq<Position>)
    decreases |polygons|
  {
    if polygons == [] then [] else Flatten(polygons[0]) + FlattenPolygons(polygons[1..])
  }

  /** Every position of a geometry, in visiting order; none for an unhandled type. */
  function ShapePositions(s: Shape): (ps: seq<Position>)
    ensures s.Other? ==> ps == []
  {
    match s
    case Point(p) => [p]
    case LineString(ps) => ps
    case MultiPoint(ps) => ps
    case Polygon(rings) => Flatten(rings)
    case MultiLineString(lines) => Flatten(lines)
    case MultiPolygon(polygons) => FlattenPolygons(polygons)
    case Other(_) => []
  }

  function AllPositions(shapes: seq<Shape>): (ps: seq<Position>)
    decreases |shapes|
  {
    if shapes == [] then [] else ShapePositions(shapes[0]) + AllPositions(shapes[1..])
  }

  /** Every position the helper visits. */
  function Positions(g: GeoJson): (ps: seq<Position>)
    ensures g.Missing? ==> ps == []
  {
    match g
    case Missing => []
    case FeatureCollection(fs) => AllPositions(fs)
    case Feature(s) => ShapePositions(s)
    case Bare(s) => ShapePositions(s)
  }

  lemma {:induction false} FoldAppend(b: Box, xs: seq<Position>, ys: seq<Position>)
    ensures Fold(b, xs + ys) == Fold(Fold(b, xs), ys)
    decreases |xs|
  {
    if xs == [] {
      assert xs + ys == ys;
    } else {
      assert (xs + ys)[1..] == xs[1..] + ys;
      FoldAppend(Include(b, xs[0]), xs[1..], ys);
    }
  }

  lemma {:induction false} FoldLinesIsFold(b: Box, lines: seq<seq<Position>>)
    ensures FoldLines(b, lines) == Fold(b, Flatten(lines))
    decreases |lines|
  {
    if lines != [] {
      FoldLinesIsFold(Fold(b, lines[0]), lines[1..]);
      FoldAppend(b, lines[0], Flatten(lines[1..]));
    }
  }

  lemma {:induction false} FoldPolygonsIsFold(b: Box, polygons: seq<seq<seq<Position>>>)
    ensures FoldPolygons(b, polygons) == Fold(b, FlattenPolygons(polygons))
    decreases |polygons|
  {
    if polygons != [] {
      FoldLinesIsFold(b, polygons[0]);
      FoldPolygonsIsFold(FoldLines(b, polygons[0]), polygons[1..]);
      FoldAppend(b, Flatten(polygons[0]), FlattenPolygons(polygons[1..]));
    }
  }

  /** Visiting one geometry's nested arrays is one fold over its positions. */
  lemma {:induction false} ProcessIsFold(b: Box, s: Shape)
    ensures Process(b, s) == Fold(b, ShapePositions(s))
  {
    match s
    case Point(p) => assert Fold(Include(b, p), []) == Include(b, p);
    case Polygon(rings) => FoldLinesIsFold(b, rings);
    case MultiLineString(lines) => FoldLinesIsFold(b, lines);
    case MultiPolygon(polygons) => FoldPolygonsIsFold(b, polygons);
    case _ =>
  }

  lemma {:induction false} ProcessAllIsFold(b: Box, shapes: seq<Shape>)
    ensures ProcessAll(b, shapes) == Fold(b, AllPositions(shapes))
    decreases |shapes|
  {
    if shapes != [] {
      ProcessIsFold(b, shapes[0]);
      ProcessAllIsFold(Process(b, shapes[0]), shapes[1..]);
      FoldAppend(b, ShapePositions(shapes[0]), AllPositions(shapes[1..]));
    }
  }

  /** The scan is the fold of the sentinel over every position. */
  lemma {:induction false} ScanIsFold(g: GeoJson)
    requires !g.Missing?
    ensures Scan(g) == Fold(Sentinel, Positions(g))
  {
    match g
    case FeatureCollection(fs) => ProcessAllIsFold(Sentinel, fs);
    case Feature(s) => ProcessIsFold(Sentinel, s);
    case Bare(s) => ProcessIsFold(Sentinel, s);
  }

  // ---------------------------------------------------------------------
  // The tight box of a non-empty list of positions

  /** Folding from a union is the union with the fold. */
  lemma {:induction false} FoldUnion(a: Box, b: Box, ps: seq<Position>)
    ensures Fold(Union(a, b), ps) == Union(a, Fold(b, ps))
    decreases |ps|
  {
    if ps != [] {
      assert Include(Union(a, b), ps[0]) == Union(a, Include(b, ps[0]));
      FoldUnion(a, Include(b, ps[0]), ps[1..]);
    }
  }

  /** The smallest box holding every position of a non-empty list. */
  function Hull(ps: seq<Position>): (r: Box)
    requires ps != []
  {
    Fold(Box(ps[0].lng, ps[0].lat, ps[0].lng, ps[0].lat), ps[1..])
  }

  /** A fold keeps what the start box held and encloses every position it visits. */
  lemma {:induction false} FoldEncloses(b: Box, ps: seq<Position>)
    ensures var r := Fold(b, ps);
      && r.minLng <= b.minLng && r.minLat <= b.minLat && r.maxLng >= b.maxLng && r.maxLat >= b.maxLat
      && forall i :: 0 <= i < |ps| ==> Encloses(r, ps[i])
    decreases |ps|
  {
    if ps != [] {
      FoldEncloses(Include(b, ps[0]), ps[1..]);
      assert forall i :: 1 <= i < |ps| ==> ps[i] == ps[1..][i - 1];
    }
  }

  /** Each bound of a fold is the start box's bound or a visited position's coordinate. */
  lemma {:induction false} FoldAttains(b: Box, ps: seq<Position>)
    ensures var r := Fold(b, ps);
      && (r.minLng == b.minLng || exists i :: 0 <= i < |ps| && ps[i].lng == r.minLng)
      && (r.minLat == b.minLat || exists i :: 0 <= i < |ps| && ps[i].lat == r.minLat)
      && (r.maxLng == b.maxLng || exists i :: 0 <= i < |ps| && ps[i].lng == r.maxLng)
      && (r.maxLat == b.maxLat || exists i :: 0 <= i < |ps| && ps[i].lat == r.maxLat)
    decreases |ps|
  {
    if ps != [] {
      FoldAttains(Include(b, ps[0]), ps[1..]);
      assert forall i :: 1 <= i < |ps| ==> ps[i] == ps[1..][i - 1];
    }
  }

  /** The hull encloses every position, and each of its four bounds is some position's coordinate. */
  lemma {:induction false} HullIsTight(ps: seq<Position>)
    requires ps != []
    ensures var h := Hull(ps);
      && (forall i :: 0 <= i < |ps| ==> Encloses(h, ps[i]))
      && (exists i :: 0 <= i < |ps| && ps[i].lng == h.minLng)
      && (exists i :: 0 <= i < |ps| && ps[i].lat == h.minLat)
      && (exists i :: 0 <= i < |ps| && ps[i].lng == h.maxLng)
      && (exists i :: 0 <= i < |ps| && ps[i].lat == h.maxLat)
  {
    var b := Box(ps[0].lng, ps[0].lat, ps[0].lng, ps[0].lat);
    FoldEncloses(b, ps[1..]);
    FoldAttains(b, ps[1..]);
    assert forall i :: 1 <= i < |ps| ==> ps[i] == ps[1..][i - 1];
    assert Encloses(Hull(ps), ps[0]);
  }

  /** A fold from the sentinel is the sentinel widened by the hull. */
  lemma {:induction false} SentinelFold(ps: seq<Position>)
    requires ps != []
    ensures Fold(Sentinel, ps) == Union(Sentinel, Hull(ps))
  {
    var p := Box(ps[0].lng, ps[0].lat, ps[0].lng, ps[0].lat);
    FoldUnion(Sentinel, p, ps[1..]);
  }

  /** From the sentinel, an empty fold keeps every sentinel value. */
  lemma {:induction false} NothingVisited()
    ensures Fold(Sentinel, []) == Sentinel && OnSentinel(Sentinel)
  {
  }

  // ---------------------------------------------------------------------
  // The corrected helper, and how the helper as written departs from it

  /** Bounds that are absent exactly when there is no position. */
  function GetBoundsCorrected(g: GeoJson): (r: Option<Box>)
    ensures r.None? <==> Positions(g) == []
    ensures r.Some? ==> forall i :: 0 <= i < |Positions(g)| ==> Encloses(r.value, Positions(g)[i])
    ensures r.Some? ==> r.value.minLng <= r.value.maxLng && r.value.minLat <= r.value.maxLat
  {
    var ps := Positions(g);
    if ps == [] then None
    else
      HullIsTight(ps);
      Some(Hull(ps))
  }

  /** The sentinel test applied to the tight box. */
  function SentinelTest(b: Option<Box>): (r: Option<Box>) {
    match b
    case None => None
    case Some(h) =>
      if h.minLng >= 180 || h.minLat >= 90 || h.maxLng <= -180 || h.maxLat <= -90 then None else Some(h)
  }

  /**
    The helper as written is the corrected helper followed by the sentinel
    test: whenever it gives bounds they are the tight ones, and it gives
    none for positions whose hull reaches a sentinel value.
   */
  lemma {:induction false} AsWrittenIsSentinelTested(g: GeoJson)
    ensures GetBoundsFromGeoJson(g) == SentinelTest(GetBoundsCorrected(g))
  {
    if !g.Missing? {
      ScanIsFold(g);
      var ps := Positions(g);
      if ps == [] {
        NothingVisited();
      } else {
        SentinelFold(ps);
      }
    }
  }

  /**
    When bounds are given, every visited position lies within them, the
    minima do not exceed the maxima, and each bound is attained.
   */
  lemma {:induction false} BoundsEnclose(g: GeoJson)
    requires GetBoundsFromGeoJson(g).Some?
    ensures var b := GetBoundsFromGeoJson(g).value;
      && (forall i :: 0 <= i < |Positions(g)| ==> Encloses(b, Positions(g)[i]))
      && b.minLng <= b.maxLng && b.minLat <= b.maxLat
      && (exists i :: 0 <= i < |Positions(g)| && Positions(g)[i].lng == b.minLng)
      && (exists i :: 0 <= i < |Positions(g)| && Positions(g)[i].lat == b.maxLat)
  {
    AsWrittenIsSentinelTested(g);
    HullIsTight(Positions(g));
  }

  /** A single Point on the antimeridian has no bounds as written, but has them once corrected. */
  lemma {:induction false} AntimeridianPointHasNoBounds(lat: int)
    ensures GetBoundsFromGeoJson(Bare(Point(Position(180, lat)))) == None
    ensures GetBoundsCorrected(Bare(Point(Position(180, lat)))) == Some(Box(180, lat, 180, lat))
  {
    AsWrittenIsSentinelTested(Bare(Point(Position(180, lat))));
  }

  /** A FeatureCollection's running values are the union of those of its parts. */
  lemma {:induction false} FeatureCollectionUnion(fs: seq<Shape>, gs: seq<Shape>)
    ensures Scan(FeatureCollection(fs + gs)) == Union(Scan(FeatureCollection(fs)), Scan(FeatureCollection(gs)))
  {
    ProcessAllIsFold(Sentinel, fs + gs);
    ProcessAllIsFold(Sentinel, fs);
    ProcessAllIsFold(Sentinel, gs);
    AllPositionsAppend(fs, gs);
    var a := Fold(Sentinel, AllPositions(fs));
    FoldAppend(Sentinel, AllPositions(fs), AllPositions(gs));
    FoldEncloses(Sentinel, AllPositions(fs));
    assert Union(a, Sentinel) == a;
    FoldUnion(a, Sentinel, AllPositions(gs));
  }

  lemma {:induction false} AllPositionsAppend(fs: seq<Shape>, gs: seq<Shape>)
    ensures AllPositions(fs + gs) == AllPositions(fs) + AllPositions(gs)
    decreases |fs|
  {
    if fs == [] {
      assert fs + gs == gs;
    } else {
      assert (fs + gs)[1..] == fs[1..] + gs;
      AllPositionsAppend(fs[1..], gs);
    }
  }

  // ---------------------------------------------------------------------
  // The flat helper

  /** A position within longitude [-180, 180] and latitude [-90, 90]. */
  predicate OnEarth(p: Position) {
    -180 <= p.lng <= 180 && -90 <= p.lat <= 90
  }

  /**
    `getBoundsFromCoordinates`: no bounds for a missing or empty list;
    otherwise the sentinel widened by every position, which encloses them
    all and, for positions on Earth, is their tight box.
   */
  method GetBoundsFromCoordinates(coordinates: Option<seq<Position>>) returns (r: Option<Box>)
    ensures r.None? <==> coordinates.None? || coordinates.value == []
    ensures r.Some? ==> forall i :: 0 <= i < |coordinates.value| ==> Encloses(r.value, coordinates.value[i])
    ensures r.Some? ==> r.value == Union(Sentinel, Hull(coordinates.value))
    ensures r.Some? && (forall i :: 0 <= i < |coordinates.value| ==> OnEarth(coordinates.value[i]))
      ==> r.value == Hull(coordinates.value)
  {
    if coordinates.None? || coordinates.value == [] {
      return None;
    }
    var ps := coordinates.value;
    var b := Sentinel;
    var i := 0;
    while i < |ps|
      invariant 0 <= i <= |ps|
      invariant b == Fold(Sentinel, ps[..i])
    {
      FoldAppend(Sentinel, ps[..i], [ps[i]]);
      assert ps[..i + 1] == ps[..i] + [ps[i]];
      b := Include(b, ps[i]);
      i := i + 1;
    }
    assert ps[..i] == ps;
    SentinelFold(ps);
    HullIsTight(ps);
    FoldEncloses(Sentinel, ps);
    r := Some(b);
  }
}
