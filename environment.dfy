/**
 * The environment of the graph simulator: a map from point ids to
 * coordinates and an adjacency map from point ids to ordered sets of point
 * ids, built from the Point and LineString features of a GeoJSON document
 * (sections 3.1.2 and 3.1.4 of RFC 7946).
 *
 * The model keeps the iteration order of the point map explicitly, as the
 * sequence `order` of its keys in insertion order: `get_nth_point_id` and the
 * first-match scan of `from_geojson` both walk the map in that order.
 * Coordinates are reals; the squared-distance test against the threshold is
 * the oracle `near(stored, position)`.
 */
module GraphEnvironment {
  datatype Option<T> = None | Some(value: T)

  datatype Point = Point(x: real, y: real)

  /** A GeoJSON feature once its geometry has been decoded. */
  datatype Feature =
    | PointFeature(id: nat, coordinates: Point)
    | LineString(positions: seq<Point>)
    | OtherFeature

  datatype Environment = Environment(points: map<nat, Point>, order: seq<nat>, edges: map<nat, set<nat>>)

  predicate Distinct(s: seq<nat>) {
    forall i, j :: 0 <= i < j < |s| ==> s[i] != s[j]
  }

  function Elements(s: seq<nat>): set<nat> {
    set x | x in s
  }

  /** `order` lists every key of `points` exactly once. */
  ghost predicate Listed(points: map<nat, Point>, order: seq<nat>) {
    Distinct(order) && forall id :: id in points <==> id in order
  }

  predicate Adjacent(edges: map<nat, set<nat>>, a: nat, b: nat) {
    a in edges && b in edges[a]
  }

  ghost predicate Symmetric(edges: map<nat, set<nat>>) {
    forall a, b :: Adjacent(edges, a, b) ==> Adjacent(edges, b, a)
  }

  ghost predicate Loopless(edges: map<nat, set<nat>>) {
    forall a :: !Adjacent(edges, a, a)
  }

  ghost predicate OnPoints(edges: map<nat, set<nat>>, points: map<nat, Point>) {
    forall a, b :: Adjacent(edges, a, b) ==> a in points && b in points
  }

  /** Every key of the adjacency map has at least one neighbour. */
  ghost predicate NoEmptyLists(edges: map<nat, set<nat>>) {
    forall a :: a in edges ==> edges[a] != {}
  }

  /** What `from_geojson` guarantees of every environment it builds. */
  ghost predicate Valid(e: Environment) {
    && Listed(e.points, e.order)
    && Symmetric(e.edges)
    && Loopless(e.edges)
    && OnPoints(e.edges, e.points)
    && NoEmptyLists(e.edges)
  }

  // ---------------------------------------------------------------- accessors

  /** `size`: the number of stored points. */
  function Size(e: Environment): nat {
    |e.points|
  }

  lemma {:induction false} DistinctCardinality(s: seq<nat>)
    requires Distinct(s)
    ensures |Elements(s)| == |s|
  {
    if s != [] {
      var pre := s[..|s| - 1];
      assert Distinct(pre);
      DistinctCardinality(pre);
      assert Elements(s) == Elements(pre) + {s[|s| - 1]};
      assert s[|s| - 1] !in Elements(pre);
    }
  }

  /** The size is the length of the iteration order. */
  lemma SizeIsOrderLength(e: Environment)
    requires Listed(e.points, e.order)
    ensures Size(e) == |e.order|
  {
    DistinctCardinality(e.order);
    assert e.points.Keys == Elements(e.order);
  }

  /** `get_nth_point_id(k)`: the k-th key in iteration order (k itself is not a key). */
  function NthPointId(e: Environment, k: nat): (r: nat)
    requires Listed(e.points, e.order) && k < Size(e)
    ensures r in e.points
  {
    SizeIsOrderLength(e);
    e.order[k]
  }

  /** Distinct positions in the order give distinct ids. */
  lemma NthPointIdInjective(e: Environment, k: nat, k': nat)
    requires Listed(e.points, e.order) && k < Size(e) && k' < Size(e)
    requires k != k'
    ensures NthPointId(e, k) != NthPointId(e, k')
  {
    SizeIsOrderLength(e);
  }

  /** Every stored point is the k-th for some k below the size. */
  lemma NthPointIdCovers(e: Environment, id: nat)
    requires Listed(e.points, e.order) && id in e.points
    ensures exists k: nat :: k < Size(e) && NthPointId(e, k) == id
  {
    SizeIsOrderLength(e);
    var k :| 0 <= k < |e.order| && e.order[k] == id;
    assert NthPointId(e, k) == id;
  }

  /** `get_points`: the point map, whose keys are exactly the ids listed in iteration order. */
  function GetPoints(e: Environment): (r: map<nat, Point>)
    ensures Listed(e.points, e.order) ==> r.Keys == Elements(e.order)
  {
    e.points
  }

  /**
   * `get_edges(id)`: the neighbours of id; `at` throws for an id without an
   * entry, so the model requires one.
   */
  function GetEdges(e: Environment, id: nat): (r: set<nat>)
    requires id in e.edges
    ensures Valid(e) ==> r != {} && id !in r
    ensures Valid(e) ==> forall b :: b in r ==> b in e.points && Adjacent(e.edges, b, id)
  {
    assert Valid(e) ==> !Adjacent(e.edges, id, id) && forall b :: b in e.edges[id] ==> Adjacent(e.edges, id, b);
    e.edges[id]
  }

  // ---------------------------------------------- specification of from_geojson

  /** The point map after the features fs: a repeated id keeps its first coordinates. */
  function PointsOf(fs: seq<Feature>): map<nat, Point> {
    if fs == [] then map[]
    else
      var prev := PointsOf(fs[..|fs| - 1]);
      match fs[|fs| - 1]
      case PointFeature(id, c) => if id in prev then prev else prev[id := c]
      case _ => prev
  }

  /** The iteration order after the features fs: each new id is appended. */
  function OrderOf(fs: seq<Feature>): seq<nat> {
    if fs == [] then []
    else
      var prev := OrderOf(fs[..|fs| - 1]);
      match fs[|fs| - 1]
      case PointFeature(id, _) => if id in prev then prev else prev + [id]
      case _ => prev
  }

  lemma {:induction false} ListedOf(fs: seq<Feature>)
    ensures Listed(PointsOf(fs), OrderOf(fs))
  {
    if fs != [] {
      ListedOf(fs[..|fs| - 1]);
    }
  }

  /**
   * The scan for a stored point near position p: the first id in iteration
   * order whose coordinates are near, or none.
   */
  function FirstMatch(order: seq<nat>, points: map<nat, Point>, p: Point, near: (Point, Point) -> bool): (r: Option<nat>)
    requires forall id :: id in order ==> id in points
    ensures r.Some? ==> r.value in order && near(points[r.value], p)
    ensures r.None? ==> forall id :: id in order ==> !near(points[id], p)
  {
    if order == [] then None
    else if near(points[order[0]], p) then Some(order[0])
    else FirstMatch(order[1..], points, p, near)
  }

  /** The scan returns the first near id: every id before it is not near. */
  lemma {:induction false} FirstMatchIsFirst(order: seq<nat>, points: map<nat, Point>, p: Point, near: (Point, Point) -> bool, i: nat)
    requires forall id :: id in order ==> id in points
    requires i < |order| && FirstMatch(order, points, p, near) == Some(order[i])
    requires Distinct(order)
    ensures forall j :: 0 <= j < i ==> !near(points[order[j]], p)
  {
    if i > 0 {
      assert order[0] != order[i];
      assert !near(points[order[0]], p);
      var rest := order[1..];
      assert rest[i - 1] == order[i];
      FirstMatchIsFirst(rest, points, p, near, i - 1);
      forall j | 0 <= j < i
        ensures !near(points[order[j]], p)
      {
        if j > 0 {
          assert order[j] == rest[j - 1];
        }
      }
    }
  }

  /** The two directed edges a segment with matched, distinct endpoints adds. */
  function Segment(s: Option<nat>, t: Option<nat>): set<(nat, nat)> {
    if s.Some? && t.Some? && s.value != t.value then {(s.value, t.value), (t.value, s.value)} else {}
  }

  /** The endpoints s and t match a and b, in either direction, and differ. */
  predicate Joins(s: Option<nat>, t: Option<nat>, a: nat, b: nat) {
    a != b && ((s == Some(a) && t == Some(b)) || (s == Some(b) && t == Some(a)))
  }

  /** The directed edges contributed by the first n segments (i, i + 1) of a line. */
  function LinePairs(c: seq<Point>, n: nat, points: map<nat, Point>, order: seq<nat>, near: (Point, Point) -> bool): set<(nat, nat)>
    requires n == 0 || n < |c|
    requires forall id :: id in order ==> id in points
  {
    if n == 0 then {}
    else
      LinePairs(c, n - 1, points, order, near)
      + Segment(FirstMatch(order, points, c[n - 1], near), FirstMatch(order, points, c[n], near))
  }

  /** The number of segments of a line: one less than its positions. */
  function Segments(c: seq<Point>): nat {
    if c == [] then 0 else |c| - 1
  }

  /**
   * The directed edges after the features fs: each LineString matches its
   * positions against the points stored before it.
   */
  function EdgePairs(fs: seq<Feature>, near: (Point, Point) -> bool): set<(nat, nat)> {
    if fs == [] then {}
    else
      var pre := fs[..|fs| - 1];
      ListedOf(pre);
      EdgePairs(pre, near)
      + match fs[|fs| - 1]
        case LineString(c) => LinePairs(c, Segments(c), PointsOf(pre), OrderOf(pre), near)
        case _ => {}
  }

  // ------------------------------------------------------ properties of the spec

  /** A segment adds the pair (a, b) exactly when its endpoints join a and b. */
  lemma SegmentJoins(s: Option<nat>, t: Option<nat>, a: nat, b: nat)
    ensures (a, b) in Segment(s, t) <==> Joins(s, t, a, b)
  {
  }

  /** A line adds (a, b) exactly when one of its first n consecutive segments joins a and b. */
  lemma {:induction false} LinePairsJoin(c: seq<Point>, n: nat, points: map<nat, Point>, order: seq<nat>, near: (Point, Point) -> bool, a: nat, b: nat)
    requires n == 0 || n < |c|
    requires forall id :: id in order ==> id in points
    ensures (a, b) in LinePairs(c, n, points, order, near)
        <==> exists i :: 0 <= i < n && Joins(FirstMatch(order, points, c[i], near), FirstMatch(order, points, c[i + 1], near), a, b)
  {
    if n > 0 {
      LinePairsJoin(c, n - 1, points, order, near, a, b);
      SegmentJoins(FirstMatch(order, points, c[n - 1], near), FirstMatch(order, points, c[n], near), a, b);
    }
  }

  lemma {:induction false} LinePairsSymmetric(c: seq<Point>, n: nat, points: map<nat, Point>, order: seq<nat>, near: (Point, Point) -> bool, a: nat, b: nat)
    requires n == 0 || n < |c|
    requires forall id :: id in order ==> id in points
    ensures (a, b) in LinePairs(c, n, points, order, near) ==> (b, a) in LinePairs(c, n, points, order, near) && a != b
    ensures (a, b) in LinePairs(c, n, points, order, near) ==> a in order && b in order
  {
    if n > 0 {
      LinePairsSymmetric(c, n - 1, points, order, near, a, b);
    }
  }

  /** Stored points are never removed or overwritten by later features. */
  lemma {:induction false} PointsGrow(fs: seq<Feature>, k: nat)
    requires k <= |fs|
    ensures forall id :: id in PointsOf(fs[..k]) ==> id in PointsOf(fs) && PointsOf(fs)[id] == PointsOf(fs[..k])[id]
  {
    if k < |fs| {
      assert fs[..|fs| - 1][..k] == fs[..k];
      PointsGrow(fs[..|fs| - 1], k);
    } else {
      assert fs[..k] == fs;
    }
  }

  /** The adjacency is symmetric and has no self-loops, and every endpoint is a stored point. */
  lemma {:induction false} EdgePairsShape(fs: seq<Feature>, near: (Point, Point) -> bool, a: nat, b: nat)
    ensures (a, b) in EdgePairs(fs, near) ==> (b, a) in EdgePairs(fs, near) && a != b
    ensures (a, b) in EdgePairs(fs, near) ==> a in PointsOf(fs) && b in PointsOf(fs)
  {
    if fs != [] {
      var pre := fs[..|fs| - 1];
      ListedOf(pre);
      EdgePairsShape(pre, near, a, b);
      PointsGrow(fs, |fs| - 1);
      match fs[|fs| - 1]
      case LineString(c) =>
        LinePairsSymmetric(c, Segments(c), PointsOf(pre), OrderOf(pre), near, a, b);
      case _ =>
    }
  }

  /**
   * The first Point feature carrying an id decides its coordinates; later
   * Point features with the same id change nothing.
   */
  lemma {:induction false} FirstPointWins(fs: seq<Feature>, i: nat)
    requires i < |fs| && fs[i].PointFeature?
    requires forall j :: 0 <= j < i ==> !(fs[j].PointFeature? && fs[j].id == fs[i].id)
    ensures fs[i].id in PointsOf(fs) && PointsOf(fs)[fs[i].id] == fs[i].coordinates
  {
    if i < |fs| - 1 {
      FirstPointWins(fs[..|fs| - 1], i);
    } else {
      NoEarlierPoint(fs[..i], fs[i].id);
      assert fs[..|fs| - 1] == fs[..i];
    }
  }

  /** An id that no Point feature carries is not stored. */
  lemma {:induction false} NoEarlierPoint(fs: seq<Feature>, id: nat)
    requires forall j :: 0 <= j < |fs| ==> !(fs[j].PointFeature? && fs[j].id == id)
    ensures id !in PointsOf(fs)
  {
    if fs != [] {
      NoEarlierPoint(fs[..|fs| - 1], id);
    }
  }

  // ------------------------------------------------------ the imperative builder

  /** `edges[a].insert(b)`: the entry of a is created empty when missing. */
  function Link(edges: map<nat, set<nat>>, a: nat, b: nat): (r: map<nat, set<nat>>)
    ensures forall x, y :: Adjacent(r, x, y) <==> Adjacent(edges, x, y) || (x == a && y == b)
    ensures NoEmptyLists(edges) ==> NoEmptyLists(r)
  {
    edges[a := (if a in edges then edges[a] else {}) + {b}]
  }

  /** The scan over the stored points for one position, with its early return. */
  method FindPoint(points: map<nat, Point>, order: seq<nat>, p: Point, near: (Point, Point) -> bool) returns (r: Option<nat>)
    requires forall id :: id in order ==> id in points
    ensures r == FirstMatch(order, points, p, near)
  {
    var k := 0;
    while k < |order|
      invariant 0 <= k <= |order|
      invariant FirstMatch(order, points, p, near) == FirstMatch(order[k..], points, p, near)
    {
      assert order[k..][1..] == order[k + 1..];
      if near(points[order[k]], p) {
        return Some(order[k]);
      }
      k := k + 1;
    }
    return None;
  }

  /**
   * The inner loop of `from_geojson` over one LineString: each consecutive
   * pair whose positions match two distinct stored points is linked both ways.
   */
  method AddLine(points: map<nat, Point>, order: seq<nat>, edges: map<nat, set<nat>>, c: seq<Point>, near: (Point, Point) -> bool)
    returns (edges': map<nat, set<nat>>)
    requires c != []
    requires forall id :: id in order ==> id in points
    requires NoEmptyLists(edges)
    ensures forall a: nat, b: nat ::
              Adjacent(edges', a, b) <==> Adjacent(edges, a, b) || (a, b) in LinePairs(c, Segments(c), points, order, near)
    ensures NoEmptyLists(edges')
  {
    edges' := edges;
    var i := 0;
    while i < |c| - 1
      invariant 0 <= i <= |c| - 1
      invariant forall a: nat, b: nat ::
                  Adjacent(edges', a, b) <==> Adjacent(edges, a, b) || (a, b) in LinePairs(c, i, points, order, near)
      invariant NoEmptyLists(edges')
    {
      var s := FindPoint(points, order, c[i], near);
      var t := FindPoint(points, order, c[i + 1], near);
      if s.Some? && t.Some? && s.value != t.value {
        edges' := Link(Link(edges', s.value, t.value), t.value, s.value);
      }
      i := i + 1;
    }
  }

  /** Every LineString has a position, so that `size() - 1` does not wrap. */
  predicate LinesNonEmpty(features: seq<Feature>) {
    forall i :: 0 <= i < |features| && features[i].LineString? ==> features[i].positions != []
  }

  /**
   * `from_geojson`, over already-decoded features: Point features fill the
   * point map (first id wins), each consecutive pair of a LineString whose
   * positions match two distinct stored points links them both ways.
   */
  method FromGeoJson(features: seq<Feature>, near: (Point, Point) -> bool) returns (env: Environment)
    requires LinesNonEmpty(features)
    ensures env.points == PointsOf(features) && env.order == OrderOf(features)
    ensures forall a: nat, b: nat :: Adjacent(env.edges, a, b) <==> (a, b) in EdgePairs(features, near)
    ensures Valid(env)
  {
    var points: map<nat, Point> := map[];
    var order: seq<nat> := [];
    var edges: map<nat, set<nat>> := map[];
    var j := 0;
    while j < |features|
      invariant 0 <= j <= |features|
      invariant points == PointsOf(features[..j]) && order == OrderOf(features[..j])
      invariant Listed(points, order)
      invariant forall a: nat, b: nat :: Adjacent(edges, a, b) <==> (a, b) in EdgePairs(features[..j], near)
      invariant NoEmptyLists(edges)
    {
      assert features[..j + 1][..j] == features[..j];
      assert features[..j + 1][j] == features[j];
      ListedOf(features[..j + 1]);
      match features[j] {
      case PointFeature(id, c) =>
        if id !in points {
          points := points[id := c];
          order := order + [id];
        }
      case LineString(c) =>
        edges := AddLine(points, order, edges, c, near);
      case OtherFeature =>
      }
      j := j + 1;
    }
    assert features[..j] == features;
    env := Environment(points, order, edges);
    forall a, b | Adjacent(edges, a, b)
      ensures Adjacent(edges, b, a) && a != b && a in points && b in points
    {
      EdgePairsShape(features, near, a, b);
    }
  }
}
