/** GeoJSON geometries (RFC 7946, section 3.1) and the two GeometryCollection
    normalisers of the plug-in: `process_geometry` in src/prosessors.py and
    `process_geometry_collection` in helpers.py.

    Shapely's `buffer`, `union` and `unary_union` are floating-point computational
    geometry; they enter here as function parameters about which nothing is assumed. */
module Geometry {
  import opened Wrappers
  import opened Values

  datatype Position = Position(x: real, y: real)
  /** The coordinates of a LineString. */
  type Path = seq<Position>
  /** The rings of a Polygon: the exterior, then the holes. */
  type Rings = seq<Path>

  datatype Geom =
    | Point(position: Position)
    | LineString(path: Path)
    | Polygon(rings: Rings)
    | MultiPoint(points: seq<Position>)
    | MultiLineString(lines: seq<Path>)
    | MultiPolygon(polygons: seq<Rings>)
    | GeometryCollection(geoms: seq<Geom>)

  /** The geometry type, as shapely's `type(g)` and GeoJSON's `"type"` member tell it. */
  datatype Kind =
    | PointKind | LineStringKind | PolygonKind
    | MultiPointKind | MultiLineStringKind | MultiPolygonKind
    | CollectionKind

  function KindOf(g: Geom): Kind {
    match g
    case Point(_) => PointKind
    case LineString(_) => LineStringKind
    case Polygon(_) => PolygonKind
    case MultiPoint(_) => MultiPointKind
    case MultiLineString(_) => MultiLineStringKind
    case MultiPolygon(_) => MultiPolygonKind
    case GeometryCollection(_) => CollectionKind
  }

  /** The GeoJSON type name, also what geopandas' `geom_type` reports. */
  function TypeName(k: Kind): string {
    match k
    case PointKind => "Point"
    case LineStringKind => "LineString"
    case PolygonKind => "Polygon"
    case MultiPointKind => "MultiPoint"
    case MultiLineStringKind => "MultiLineString"
    case MultiPolygonKind => "MultiPolygon"
    case CollectionKind => "GeometryCollection"
  }

  predicate IsSimple(k: Kind) {
    k == PointKind || k == LineStringKind || k == PolygonKind
  }

  predicate IsMulti(k: Kind) {
    k == MultiPointKind || k == MultiLineStringKind || k == MultiPolygonKind
  }

  function MultiOf(k: Kind): (m: Kind)
    requires IsSimple(k)
    ensures IsMulti(m)
  {
    match k
    case PointKind => MultiPointKind
    case LineStringKind => MultiLineStringKind
    case PolygonKind => MultiPolygonKind
  }

  /** The component geometries, as shapely's `.geoms` lists them; a simple geometry is its own only member. */
  function Members(g: Geom): seq<Geom> {
    match g
    case MultiPoint(ps) => seq(|ps|, i requires 0 <= i < |ps| => Point(ps[i]))
    case MultiLineString(ls) => seq(|ls|, i requires 0 <= i < |ls| => LineString(ls[i]))
    case MultiPolygon(pp) => seq(|pp|, i requires 0 <= i < |pp| => Polygon(pp[i]))
    case GeometryCollection(gs) => gs
    case _ => [g]
  }

  function ConcatMembers(cs: seq<Geom>): seq<Geom> {
    if cs == [] then [] else Members(cs[0]) + ConcatMembers(cs[1..])
  }

  predicate AllOfKind(cs: seq<Geom>, k: Kind) {
    forall i :: 0 <= i < |cs| ==> KindOf(cs[i]) == k
  }

  /** `{type(geom) for geom in geometry.geoms}`. */
  function KindSet(cs: seq<Geom>): set<Kind> {
    set i | 0 <= i < |cs| :: KindOf(cs[i])
  }

  /** The set test of src/prosessors.py is "non-empty and all of one kind". */
  lemma KindSetSingleton(cs: seq<Geom>, k: Kind)
    ensures KindSet(cs) == {k} <==> |cs| > 0 && AllOfKind(cs, k)
  {
    if |cs| > 0 && AllOfKind(cs, k) {
      assert KindOf(cs[0]) in KindSet(cs);
    }
    if KindSet(cs) == {k} {
      forall i | 0 <= i < |cs| ensures KindOf(cs[i]) == k {
        assert KindOf(cs[i]) in KindSet(cs);
      }
    }
  }

  /** `MultiX(children)` for children that are all of the simple kind `k`. */
  function Collect(cs: seq<Geom>, k: Kind): (m: Geom)
    requires IsSimple(k) && AllOfKind(cs, k)
  {
    match k
    case PointKind => MultiPoint(seq(|cs|, i requires 0 <= i < |cs| => cs[i].position))
    case LineStringKind => MultiLineString(seq(|cs|, i requires 0 <= i < |cs| => cs[i].path))
    case PolygonKind => MultiPolygon(seq(|cs|, i requires 0 <= i < |cs| => cs[i].rings))
  }

  /** A homogeneous simple collection becomes the matching Multi kind holding the same children in the same order. */
  lemma CollectKeepsChildren(cs: seq<Geom>, k: Kind)
    requires IsSimple(k) && AllOfKind(cs, k)
    ensures KindOf(Collect(cs, k)) == MultiOf(k)
    ensures Members(Collect(cs, k)) == cs
  {
    var ms := Members(Collect(cs, k));
    assert |ms| == |cs|;
    forall i | 0 <= i < |cs| ensures ms[i] == cs[i] {
      assert KindOf(cs[i]) == k;
    }
  }

  function FlatPoints(cs: seq<Geom>): seq<Position>
    requires AllOfKind(cs, MultiPointKind)
  {
    if cs == [] then [] else cs[0].points + FlatPoints(cs[1..])
  }

  function FlatLines(cs: seq<Geom>): seq<Path>
    requires AllOfKind(cs, MultiLineStringKind)
  {
    if cs == [] then [] else cs[0].lines + FlatLines(cs[1..])
  }

  function FlatPolygons(cs: seq<Geom>): seq<Rings>
    requires AllOfKind(cs, MultiPolygonKind)
  {
    if cs == [] then [] else cs[0].polygons + FlatPolygons(cs[1..])
  }

  /** `MultiX([g for geom in geoms for g in geom.geoms])` for children all of the Multi kind `k`. */
  function Flatten(cs: seq<Geom>, k: Kind): Geom
    requires IsMulti(k) && AllOfKind(cs, k)
  {
    match k
    case MultiPointKind => MultiPoint(FlatPoints(cs))
    case MultiLineStringKind => MultiLineString(FlatLines(cs))
    case MultiPolygonKind => MultiPolygon(FlatPolygons(cs))
  }

  /** A homogeneous Multi collection becomes one geometry of that kind whose members are
      the children's members, child by child and in order. */
  lemma {:induction false} FlattenConcatenates(cs: seq<Geom>, k: Kind)
    requires IsMulti(k) && AllOfKind(cs, k)
    ensures KindOf(Flatten(cs, k)) == k
    ensures Members(Flatten(cs, k)) == ConcatMembers(cs)
  {
    if cs != [] {
      FlattenConcatenates(cs[1..], k);
      var head := Members(cs[0]);
      var tail := Members(Flatten(cs[1..], k));
      var all := Members(Flatten(cs, k));
      assert |all| == |head| + |tail|;
      forall i | 0 <= i < |all| ensures all[i] == (head + tail)[i] {
        assert KindOf(cs[0]) == k;
      }
    }
  }

  /** The polygonal parts of a mixed collection: points and lines are buffered,
      polygons kept, and any other kind (a nested collection) dropped. */
  function Areal(cs: seq<Geom>, distance: real, buffer: (Geom, real) -> Geom): (parts: seq<Geom>)
    ensures |parts| <= |cs|
  {
    if cs == [] then []
    else
      var rest := Areal(cs[1..], distance, buffer);
      match KindOf(cs[0])
      case CollectionKind => rest
      case PolygonKind => [cs[0]] + rest
      case MultiPolygonKind => [cs[0]] + rest
      case _ => [buffer(cs[0], distance)] + rest
  }

  /** Nothing is left to dissolve exactly when every child is itself a collection. */
  lemma {:induction false} ArealEmptyIffAllCollections(cs: seq<Geom>, distance: real, buffer: (Geom, real) -> Geom)
    ensures Areal(cs, distance, buffer) == [] <==> AllOfKind(cs, CollectionKind)
  {
    if cs != [] {
      ArealEmptyIffAllCollections(cs[1..], distance, buffer);
      assert AllOfKind(cs, CollectionKind) <==> KindOf(cs[0]) == CollectionKind && AllOfKind(cs[1..], CollectionKind) by {
        if KindOf(cs[0]) == CollectionKind && AllOfKind(cs[1..], CollectionKind) {
          forall i | 0 < i < |cs| ensures KindOf(cs[i]) == CollectionKind {
            assert cs[i] == cs[1..][i - 1];
          }
        }
      }
    }
  }

  /** A lone polygon from the dissolve is wrapped as a one-member MultiPolygon. */
  function WrapPolygon(g: Geom): Geom {
    if g.Polygon? then MultiPolygon([g.rings]) else g
  }

  // ----- src/prosessors.py: process_geometry -----

  /** `process_geometry`: the normalisation applied to each row's geometry (absent geometry stays absent). */
  function ProcessGeometry(g: Option<Geom>, distance: real, buffer: (Geom, real) -> Geom,
                           unaryUnion: seq<Geom> -> Geom): (r: Option<Geom>)
    ensures g.None? || !g.value.GeometryCollection? ==> r == g
  {
    match g
    case Some(GeometryCollection(cs)) => ProcessCollection(cs, distance, buffer, unaryUnion)
    case _ => g
  }

  function ProcessCollection(cs: seq<Geom>, distance: real, buffer: (Geom, real) -> Geom,
                             unaryUnion: seq<Geom> -> Geom): Option<Geom>
  {
    if |cs| == 1 then Some(cs[0])
    else if KindSet(cs) == {LineStringKind} then
      assert AllOfKind(cs, LineStringKind) by { KindSetSingleton(cs, LineStringKind); }
      Some(Collect(cs, LineStringKind))
    else if KindSet(cs) == {PointKind} then
      assert AllOfKind(cs, PointKind) by { KindSetSingleton(cs, PointKind); }
      Some(Collect(cs, PointKind))
    else if KindSet(cs) == {PolygonKind} then
      assert AllOfKind(cs, PolygonKind) by { KindSetSingleton(cs, PolygonKind); }
      Some(Collect(cs, PolygonKind))
    else if KindSet(cs) == {MultiLineStringKind} then
      assert AllOfKind(cs, MultiLineStringKind) by { KindSetSingleton(cs, MultiLineStringKind); }
      Some(Flatten(cs, MultiLineStringKind))
    else if KindSet(cs) == {MultiPointKind} then
      assert AllOfKind(cs, MultiPointKind) by { KindSetSingleton(cs, MultiPointKind); }
      Some(Flatten(cs, MultiPointKind))
    else if KindSet(cs) == {MultiPolygonKind} then
      assert AllOfKind(cs, MultiPolygonKind) by { KindSetSingleton(cs, MultiPolygonKind); }
      Some(Flatten(cs, MultiPolygonKind))
    else
      var polygons := Areal(cs, distance, buffer);
      if polygons == [] then None else Some(WrapPolygon(unaryUnion(polygons)))
  }

  /** A one-child collection is replaced by that child, whatever its kind. */
  lemma SingleChildUnwrapped(c: Geom, distance: real, buffer: (Geom, real) -> Geom, unaryUnion: seq<Geom> -> Geom)
    ensures ProcessGeometry(Some(GeometryCollection([c])), distance, buffer, unaryUnion) == Some(c)
  {
  }

  /** Two or more children all of one simple kind become that Multi kind with the same children in order;
      two or more children all of one Multi kind become one geometry of that kind with their members concatenated. */
  lemma HomogeneousCollapse(cs: seq<Geom>, k: Kind, distance: real, buffer: (Geom, real) -> Geom,
                            unaryUnion: seq<Geom> -> Geom)
    requires |cs| >= 2 && AllOfKind(cs, k) && k != CollectionKind
    ensures var r := ProcessGeometry(Some(GeometryCollection(cs)), distance, buffer, unaryUnion);
            r.Some?
            && (IsSimple(k) ==> KindOf(r.value) == MultiOf(k) && Members(r.value) == cs)
            && (IsMulti(k) ==> KindOf(r.value) == k && Members(r.value) == ConcatMembers(cs))
  {
    KindSetSingleton(cs, k);
    match k
    case PointKind => CollectKeepsChildren(cs, k);
    case LineStringKind => CollectKeepsChildren(cs, k);
    case PolygonKind => CollectKeepsChildren(cs, k);
    case MultiPointKind => FlattenConcatenates(cs, k);
    case MultiLineStringKind => FlattenConcatenates(cs, k);
    case MultiPolygonKind => FlattenConcatenates(cs, k);
    case CollectionKind =>
  }

  /** A collection of two or more children not all of one kind (or with no children) is dissolved:
      nothing comes out when no child is usable, otherwise the union of the usable parts, a lone
      polygon wrapped as a MultiPolygon. */
  lemma MixedDissolved(cs: seq<Geom>, distance: real, buffer: (Geom, real) -> Geom,
                       unaryUnion: seq<Geom> -> Geom)
    requires |cs| != 1
    requires forall k :: k != CollectionKind ==> !(|cs| > 0 && AllOfKind(cs, k))
    ensures var r := ProcessGeometry(Some(GeometryCollection(cs)), distance, buffer, unaryUnion);
            && (r.None? <==> AllOfKind(cs, CollectionKind))
            && (r.Some? ==> r.value == WrapPolygon(unaryUnion(Areal(cs, distance, buffer))))
            && (r.Some? ==> !r.value.Polygon?)
  {
    KindSetSingleton(cs, LineStringKind);
    KindSetSingleton(cs, PointKind);
    KindSetSingleton(cs, PolygonKind);
    KindSetSingleton(cs, MultiLineStringKind);
    KindSetSingleton(cs, MultiPointKind);
    KindSetSingleton(cs, MultiPolygonKind);
    ArealEmptyIffAllCollections(cs, distance, buffer);
  }

  /** The empty collection yields no geometry. */
  lemma EmptyCollectionVanishes(distance: real, buffer: (Geom, real) -> Geom, unaryUnion: seq<Geom> -> Geom)
    ensures ProcessGeometry(Some(GeometryCollection([])), distance, buffer, unaryUnion) == None
  {
    assert KindSet([]) == {};
  }

  /** A normalised geometry is a collection only when a one-child collection held a collection,
      or when the dissolve itself returned one. */
  lemma CollectionOnlyFromInputOrDissolve(cs: seq<Geom>, distance: real, buffer: (Geom, real) -> Geom,
                                          unaryUnion: seq<Geom> -> Geom)
    ensures var r := ProcessGeometry(Some(GeometryCollection(cs)), distance, buffer, unaryUnion);
            r.Some? && r.value.GeometryCollection? ==>
              (|cs| == 1 && cs[0] == r.value) || unaryUnion(Areal(cs, distance, buffer)) == r.value
  {
  }

  // ----- helpers.py: process_geometry_collection -----

  /** About half a metre: 4.49e-6 degrees for a WGS84 request, 0.5 map units otherwise. */
  function BufferDistance(crs: string): (d: real)
    ensures d > 0.0
    ensures crs == "WGS84" <==> d < 0.5
  {
    if crs == "WGS84" then 0.00000449 else 0.5
  }

  /** The left fold `union(...union(union(p0, p1), p2)..., pn)`. */
  function Dissolve(parts: seq<Geom>, union: (Geom, Geom) -> Geom): Geom
    requires |parts| > 0
  {
    if |parts| == 1 then parts[0] else union(Dissolve(parts[..|parts| - 1], union), parts[|parts| - 1])
  }

  /** What `process_geometry_collection` returns for the children `cs`, or the exception it raises.
      Python's `all` is true of an empty list, so the homogeneous tests run in the source's order
      and without a non-empty guard. */
  function CollectionOutcome(cs: seq<Geom>, crs: string, buffer: (Geom, real) -> Geom,
                             union: (Geom, Geom) -> Geom): Result<Geom, PyError>
  {
    if |cs| == 1 then Ok(cs[0])
    else if AllOfKind(cs, LineStringKind) then Ok(Collect(cs, LineStringKind))
    else if AllOfKind(cs, PointKind) then Ok(Collect(cs, PointKind))
    else if AllOfKind(cs, PolygonKind) then Ok(Collect(cs, PolygonKind))
    else if AllOfKind(cs, MultiLineStringKind) then Ok(Flatten(cs, MultiLineStringKind))
    else if AllOfKind(cs, MultiPointKind) then Ok(Flatten(cs, MultiPointKind))
    else if AllOfKind(cs, MultiPolygonKind) then Ok(Flatten(cs, MultiPolygonKind))
    else
      var parts := Areal(cs, BufferDistance(crs), buffer);
      if parts == [] then Err(IndexError) else Ok(Dissolve(parts, union))
  }

  /** `process_geometry_collection(geometry, crs)` on the collection's children `cs`. */
  method ProcessGeometryCollection(cs: seq<Geom>, crs: string, buffer: (Geom, real) -> Geom,
                                   union: (Geom, Geom) -> Geom) returns (r: Result<Geom, PyError>)
    ensures r == CollectionOutcome(cs, crs, buffer, union)
  {
    if |cs| == 1 {
      return Ok(cs[0]);
    }
    if AllOfKind(cs, LineStringKind) {
      return Ok(Collect(cs, LineStringKind));
    }
    if AllOfKind(cs, PointKind) {
      return Ok(Collect(cs, PointKind));
    }
    if AllOfKind(cs, PolygonKind) {
      return Ok(Collect(cs, PolygonKind));
    }
    if AllOfKind(cs, MultiLineStringKind) {
      return Ok(Flatten(cs, MultiLineStringKind));
    }
    if AllOfKind(cs, MultiPointKind) {
      return Ok(Flatten(cs, MultiPointKind));
    }
    if AllOfKind(cs, MultiPolygonKind) {
      return Ok(Flatten(cs, MultiPolygonKind));
    }
    var buffered := Areal(cs, BufferDistance(crs), buffer);
    if |buffered| == 0 {
      return Err(IndexError);
    }
    var dissolved := buffered[0];
    var i := 1;
    while i < |buffered|
      invariant 1 <= i <= |buffered|
      invariant dissolved == Dissolve(buffered[..i], union)
    {
      assert buffered[..i + 1][..i] == buffered[..i];
      dissolved := union(dissolved, buffered[i]);
      i := i + 1;
    }
    assert buffered[..i] == buffered;
    r := Ok(dissolved);
  }

  /** The empty collection passes the first `all` test and becomes an empty MultiLineString. */
  lemma EmptyBecomesMultiLineString(crs: string, buffer: (Geom, real) -> Geom, union: (Geom, Geom) -> Geom)
    ensures CollectionOutcome([], crs, buffer, union) == Ok(MultiLineString([]))
  {
    assert Collect([], LineStringKind).lines == [];
  }

  /** For two or more children of one kind the two normalisers agree. */
  lemma HomogeneousAgree(cs: seq<Geom>, k: Kind, crs: string, distance: real, buffer: (Geom, real) -> Geom,
                         union: (Geom, Geom) -> Geom, unaryUnion: seq<Geom> -> Geom)
    requires |cs| >= 2 && AllOfKind(cs, k) && k != CollectionKind
    ensures CollectionOutcome(cs, crs, buffer, union).Ok?
    ensures Some(CollectionOutcome(cs, crs, buffer, union).value)
            == ProcessGeometry(Some(GeometryCollection(cs)), distance, buffer, unaryUnion)
  {
    KindSetSingleton(cs, k);
    forall k' | k' != k ensures !AllOfKind(cs, k') {
      assert KindOf(cs[0]) == k;
    }
    var r := ProcessGeometry(Some(GeometryCollection(cs)), distance, buffer, unaryUnion);
    match k
    case PointKind => assert r == Some(Collect(cs, k));
    case LineStringKind => assert r == Some(Collect(cs, k));
    case PolygonKind => assert r == Some(Collect(cs, k));
    case MultiPointKind => assert r == Some(Flatten(cs, k));
    case MultiLineStringKind => assert r == Some(Flatten(cs, k));
    case MultiPolygonKind => assert r == Some(Flatten(cs, k));
  }

  /** In the mixed case the usable parts are dissolved by a left fold of `union` in child order,
      and when none is usable the indexing of the empty list raises. */
  lemma MixedFolded(cs: seq<Geom>, crs: string, buffer: (Geom, real) -> Geom, union: (Geom, Geom) -> Geom)
    requires |cs| >= 2
    requires forall k :: k != CollectionKind ==> !AllOfKind(cs, k)
    ensures var parts := Areal(cs, BufferDistance(crs), buffer);
            && (AllOfKind(cs, CollectionKind) ==> CollectionOutcome(cs, crs, buffer, union) == Err(IndexError))
            && (!AllOfKind(cs, CollectionKind) ==>
                  |parts| > 0 && CollectionOutcome(cs, crs, buffer, union) == Ok(Dissolve(parts, union)))
  {
    ArealEmptyIffAllCollections(cs, BufferDistance(crs), buffer);
  }

  /** The left fold takes the parts in order: the dissolve of a longer list unions one more part onto the shorter one's. */
  lemma {:induction false} DissolveExtends(parts: seq<Geom>, more: seq<Geom>, union: (Geom, Geom) -> Geom)
    requires |parts| > 0 && |more| > 0
    ensures Dissolve(parts + more, union) == Dissolve([union(Dissolve(parts, union), more[0])] + more[1..], union)
    decreases |more|
  {
    var all := parts + more;
    if |more| == 1 {
      assert all[..|all| - 1] == parts;
    } else {
      var front := more[..|more| - 1];
      assert all[..|all| - 1] == parts + front;
      DissolveExtends(parts, front, union);
      var s := [union(Dissolve(parts, union), more[0])] + more[1..];
      assert s[..|s| - 1] == [union(Dissolve(parts, union), front[0])] + front[1..];
    }
  }
}
