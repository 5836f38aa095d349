/** The polygon geofence (src/security/geofence.rs), over finite reals with a separate
    non-finite case for the position. Distances are squared. */
module Geofence {
  import opened Foundation

  datatype Vertex = Vertex(x: real, y: real)

  datatype Edge = Edge(a: Vertex, b: Vertex)

  datatype Position = Position(x: F64, y: F64, z: F64)

  datatype Fence = Fence(
    boundary: seq<Vertex>,
    minAltitude: real,
    maxAltitude: real,
    hardMargin: real,
    softMargin: real)

  datatype GeofenceResult = Safe | SoftWarning(distanceSquared: real) | HardBreach

  /** The edges in the order the loops visit them: edge `i` ends at vertex `i`. */
  function Edges(boundary: seq<Vertex>): (edges: seq<Edge>)
    ensures |edges| == |boundary|
  {
    seq(|boundary|, i requires 0 <= i < |boundary| =>
      Edge(boundary[if i == 0 then |boundary| - 1 else i - 1], boundary[i]))
  }

  // -------------------------------------------------------------------- ray casting

  predicate Straddles(e: Edge, y: real) {
    (e.b.y > y) != (e.a.y > y)
  }

  /** Where the edge meets the horizontal line at height `y`. */
  function CrossingX(e: Edge, y: real): real
    requires Straddles(e, y)
  {
    (e.a.x - e.b.x) * (y - e.b.y) / (e.a.y - e.b.y) + e.b.x
  }

  predicate Crosses(e: Edge, p: Vertex) {
    Straddles(e, p.y) && p.x < CrossingX(e, p.y)
  }

  /** How many edges the ray to the right of `p` crosses. */
  function Crossings(edges: seq<Edge>, p: Vertex): nat
    decreases |edges|
  {
    if edges == [] then 0
    else Crossings(edges[..|edges| - 1], p) + (if Crosses(edges[|edges| - 1], p) then 1 else 0)
  }

  predicate Inside(boundary: seq<Vertex>, p: Vertex) {
    3 <= |boundary| && Crossings(Edges(boundary), p) % 2 == 1
  }

  lemma PrefixGrows<T>(s: seq<T>, i: nat)
    requires i < |s|
    ensures s[..i + 1][..i] == s[..i] && s[..i + 1][i] == s[i]
  {
  }

  method PointInPolygon(boundary: seq<Vertex>, x: real, y: real) returns (inside: bool)
    ensures inside == Inside(boundary, Vertex(x, y))
  {
    var n := |boundary|;
    if n < 3 {
      return false;
    }
    inside := false;
    var j := n - 1;
    ghost var edges := Edges(boundary);
    for i := 0 to n
      invariant j == if i == 0 then n - 1 else i - 1
      invariant inside <==> Crossings(edges[..i], Vertex(x, y)) % 2 == 1
    {
      PrefixGrows(edges, i);
      var e := Edge(boundary[j], boundary[i]);
      if Crosses(e, Vertex(x, y)) {
        inside := !inside;
      }
      j := i;
    }
    assert edges[..n] == edges;
  }

  // ------------------------------------------------------------ distance to the boundary

  function Toward(a: real, b: real, t: real): real {
    a + Times(t, b - a)
  }

  /** The point at fraction `t` of the way from `a` to `b`. */
  function Along(e: Edge, t: real): Vertex {
    Vertex(Toward(e.a.x, e.b.x, t), Toward(e.a.y, e.b.y, t))
  }

  function DistanceSquared(p: Vertex, q: Vertex): real {
    Square(p.x - q.x) + Square(p.y - q.y)
  }

  function LengthSquared(e: Edge): real {
    Square(e.b.x - e.a.x) + Square(e.b.y - e.a.y)
  }

  /** Too short for the projection to be divided by its squared length. */
  predicate Short(e: Edge) {
    LengthSquared(e) < 0.000_000_000_001
  }

  /** The component of `p - a` along the edge. */
  function Projection(p: Vertex, e: Edge): real {
    (p.x - e.a.x) * (e.b.x - e.a.x) + (p.y - e.a.y) * (e.b.y - e.a.y)
  }

  /** The point of the edge that its distance is measured to: a short edge's first end, else
      the clamped projection. */
  function MeasuredPoint(p: Vertex, e: Edge): Vertex {
    if Short(e) then e.a
    else Along(e, ClampReal(Projection(p, e) / LengthSquared(e), 0.0, 1.0))
  }

  function SegmentDistance(p: Vertex, e: Edge): real {
    DistanceSquared(p, MeasuredPoint(p, e))
  }

  /** The least segment distance; `None` stands for infinity. */
  function BoundaryDistance(edges: seq<Edge>, p: Vertex): Option<real>
    decreases |edges|
  {
    if edges == [] then None
    else
      var before, last := BoundaryDistance(edges[..|edges| - 1], p), SegmentDistance(p, edges[|edges| - 1]);
      if before.None? || last < before.value then Some(last) else before
  }

  method DistanceToBoundary(boundary: seq<Vertex>, x: real, y: real) returns (least: Option<real>)
    ensures least == BoundaryDistance(Edges(boundary), Vertex(x, y))
  {
    var n := |boundary|;
    if n == 0 {
      return None;
    }
    least := None;
    var j := n - 1;
    ghost var edges := Edges(boundary);
    for i := 0 to n
      invariant j == if i == 0 then n - 1 else i - 1
      invariant least == BoundaryDistance(edges[..i], Vertex(x, y))
    {
      PrefixGrows(edges, i);
      var distance := SegmentDistance(Vertex(x, y), Edge(boundary[j], boundary[i]));
      if least.None? || distance < least.value {
        least := Some(distance);
      }
      j := i;
    }
    assert edges[..n] == edges;
  }

  /** `d <= margin` for the distance `d` whose square is given. */
  predicate Within(squared: real, margin: real) {
    0.0 <= margin && squared <= margin * margin
  }

  function Verdict(f: Fence, pos: Position): GeofenceResult {
    if !pos.x.Finite? || !pos.y.Finite? || !pos.z.Finite? then HardBreach
    else if -pos.z.value < f.minAltitude || -pos.z.value > f.maxAltitude then HardBreach
    else
      var p := Vertex(pos.x.value, pos.y.value);
      var distance := BoundaryDistance(Edges(f.boundary), p);
      if !Inside(f.boundary, p) then HardBreach
      else if distance.None? then Safe
      else if Within(distance.value, f.hardMargin) then HardBreach
      else if Within(distance.value, f.softMargin) then SoftWarning(distance.value)
      else Safe
  }

  method CheckPosition(f: Fence, pos: Position) returns (r: GeofenceResult)
    ensures r == Verdict(f, pos)
  {
    if !pos.x.Finite? || !pos.y.Finite? || !pos.z.Finite? {
      return HardBreach;
    }
    var altitude := -pos.z.value;
    if altitude < f.minAltitude || altitude > f.maxAltitude {
      return HardBreach;
    }
    var inside := PointInPolygon(f.boundary, pos.x.value, pos.y.value);
    var distance := DistanceToBoundary(f.boundary, pos.x.value, pos.y.value);
    if !inside {
      return HardBreach;
    }
    if distance.Some? && Within(distance.value, f.hardMargin) {
      return HardBreach;
    } else if distance.Some? && Within(distance.value, f.softMargin) {
      return SoftWarning(distance.value);
    } else {
      return Safe;
    }
  }

  // ---------------------------------------------------------------- crossings as geometry

  /** How far along a straddling edge the line at height `y` lies. */
  function CrossingFraction(e: Edge, y: real): real
    requires Straddles(e, y)
  {
    (e.a.y - y) / (e.a.y - e.b.y)
  }

  lemma FractionInUnit(k: real, h: real)
    requires h != 0.0 && (0.0 <= k <= h || h <= k <= 0.0)
    ensures 0.0 <= k / h <= 1.0
  {
    var t := k / h;
    assert t * h == k;
    if t < 0.0 || 1.0 < t {
      assert (t - 1.0) * h == k - h;
    }
  }

  lemma CrossingArithmetic(ax: real, bx: real, ay: real, low: real, y: real)
    requires ay != low
    ensures (ax - bx) * (y - low) / (ay - low) + bx == Toward(ax, bx, (ay - y) / (ay - low))
    ensures y == Toward(ay, low, (ay - y) / (ay - low))
  {
    var h, s, r := ay - low, (ay - y) / (ay - low), (ax - bx) * (y - low) / (ay - low);
    FractionScaled(ax - bx, y - low, ay - y, h, s, r);
    assert s * (bx - ax) == -(s * (ax - bx)) && s * (low - ay) == -(s * h);
  }

  lemma FractionScaled(w: real, k: real, m: real, h: real, s: real, r: real)
    requires h != 0.0 && k + m == h && s * h == m && r * h == w * k
    ensures r == w - s * w
  {
    assert (w - s * w) * h == w * h - w * (s * h);
    assert w * h - w * m == w * k;
    Cancel(r, w - s * w, h);
  }

  /** The crossing is the point of the edge at that height. */
  lemma CrossingOnEdge(e: Edge, y: real)
    requires Straddles(e, y)
    ensures 0.0 <= CrossingFraction(e, y) <= 1.0
    ensures Along(e, CrossingFraction(e, y)) == Vertex(CrossingX(e, y), y)
  {
    FractionInUnit(e.a.y - y, e.a.y - e.b.y);
    CrossingPoint(e, y);
  }

  lemma CrossingPoint(e: Edge, y: real)
    requires Straddles(e, y)
    ensures Along(e, CrossingFraction(e, y)) == Vertex(CrossingX(e, y), y)
  {
    CrossingArithmetic(e.a.x, e.b.x, e.a.y, e.b.y, y);
    assert CrossingX(e, y) == (e.a.x - e.b.x) * (y - e.b.y) / (e.a.y - e.b.y) + e.b.x;
    assert CrossingFraction(e, y) == (e.a.y - y) / (e.a.y - e.b.y);
  }

  lemma Rising(a: real, b: real, t: real)
    requires 0.0 <= t <= 1.0 && a <= b
    ensures a <= Toward(a, b, t) <= b
  {
    FractionOf(t, b - a);
  }

  lemma FromOtherEnd(a: real, b: real, t: real)
    ensures Toward(a, b, t) == Toward(b, a, 1.0 - t)
  {
  }

  lemma Between(a: real, b: real, t: real)
    requires 0.0 <= t <= 1.0
    ensures MinReal(a, b) <= Toward(a, b, t) <= MaxReal(a, b)
  {
    if a <= b {
      Rising(a, b, t);
    } else {
      Rising(b, a, 1.0 - t);
      FromOtherEnd(a, b, t);
    }
  }

  // --------------------------------------------------------- rotating and reversing

  lemma {:induction false} CrossingsOfConcat(s: seq<Edge>, t: seq<Edge>, p: Vertex)
    decreases |t|
    ensures Crossings(s + t, p) == Crossings(s, p) + Crossings(t, p)
  {
    if t == [] {
      assert s + t == s;
    } else {
      var n := |t| - 1;
      assert (s + t)[..|s + t| - 1] == s + t[..n] && (s + t)[|s + t| - 1] == t[n];
      CrossingsOfConcat(s, t[..n], p);
    }
  }

  function Rotated<T>(s: seq<T>, k: nat): seq<T>
    requires k <= |s|
  {
    s[k..] + s[..k]
  }

  lemma EdgesRotated(boundary: seq<Vertex>, k: nat)
    requires k <= |boundary|
    ensures Edges(Rotated(boundary, k)) == Rotated(Edges(boundary), k)
  {
    var n, there, expected := |boundary|, Edges(Rotated(boundary, k)), Rotated(Edges(boundary), k);
    forall i | 0 <= i < n
      ensures there[i] == expected[i]
    {
      if i < n - k {
        assert expected[i] == Edges(boundary)[i + k];
      } else {
        assert expected[i] == Edges(boundary)[i + k - n];
      }
    }
  }

  /** Starting the vertex list elsewhere does not move the fence. */
  lemma InsideOfRotation(boundary: seq<Vertex>, k: nat, p: Vertex)
    requires k <= |boundary|
    ensures Inside(Rotated(boundary, k), p) == Inside(boundary, p)
  {
    var edges := Edges(boundary);
    EdgesRotated(boundary, k);
    CrossingsOfConcat(edges[k..], edges[..k], p);
    CrossingsOfConcat(edges[..k], edges[k..], p);
    assert edges[..k] + edges[k..] == edges;
  }

  function Flip(e: Edge): Edge {
    Edge(e.b, e.a)
  }

  lemma FlippedCrosses(e: Edge, p: Vertex)
    ensures Crosses(Flip(e), p) == Crosses(e, p)
  {
    if Straddles(e, p.y) {
      CrossingOnEdge(e, p.y);
      CrossingOnEdge(Flip(e), p.y);
      FlippedFraction(e.a.y - p.y, e.b.y - p.y);
      FromOtherEnd(e.a.x, e.b.x, CrossingFraction(e, p.y));
    }
  }

  lemma FlippedFraction(k: real, m: real)
    requires k != m
    ensures m / (m - k) == 1.0 - k / (k - m)
  {
    var s, r := m / (m - k), k / (k - m);
    assert s * (m - k) == m && r * (k - m) == k;
    assert (1.0 - r) * (m - k) == m - k + r * (k - m);
    Cancel(s, 1.0 - r, m - k);
  }

  function FlippedBack(edges: seq<Edge>): (back: seq<Edge>)
    ensures |back| == |edges|
  {
    seq(|edges|, i requires 0 <= i < |edges| => Flip(edges[|edges| - 1 - i]))
  }

  lemma {:induction false} CrossingsFlippedBack(edges: seq<Edge>, p: Vertex)
    decreases |edges|
    ensures Crossings(FlippedBack(edges), p) == Crossings(edges, p)
  {
    if edges != [] {
      var n := |edges| - 1;
      assert FlippedBack(edges) == [Flip(edges[n])] + FlippedBack(edges[..n]);
      CrossingsOfConcat([Flip(edges[n])], FlippedBack(edges[..n]), p);
      CrossingsFlippedBack(edges[..n], p);
      FlippedCrosses(edges[n], p);
      CrossingsOfOne(Flip(edges[n]), p);
    }
  }

  lemma CrossingsOfOne(e: Edge, p: Vertex)
    ensures Crossings([e], p) == if Crosses(e, p) then 1 else 0
  {
    assert [e][..0] == [];
  }

  function Reversed<T>(s: seq<T>): seq<T> {
    seq(|s|, i requires 0 <= i < |s| => s[|s| - 1 - i])
  }

  lemma EdgesReversed(boundary: seq<Vertex>)
    requires boundary != []
    ensures Edges(Reversed(boundary)) == [Flip(Edges(boundary)[0])] + FlippedBack(Edges(boundary)[1..])
  {
    var n, back := |boundary|, Reversed(boundary);
    var there, expected := Edges(back), [Flip(Edges(boundary)[0])] + FlippedBack(Edges(boundary)[1..]);
    forall i | 0 <= i < n
      ensures there[i] == expected[i]
    {
      if i != 0 {
        assert expected[i] == Flip(Edges(boundary)[1..][n - 1 - i]) == Flip(Edges(boundary)[n - i]);
        assert there[i] == Edge(back[i - 1], back[i]) == Edge(boundary[n - i], boundary[n - 1 - i]);
      }
    }
  }

  /** Nor does listing the vertices the other way round. */
  lemma InsideOfReversal(boundary: seq<Vertex>, p: Vertex)
    ensures Inside(Reversed(boundary), p) == Inside(boundary, p)
  {
    if boundary != [] {
      var edges := Edges(boundary);
      var first, rest := edges[0], edges[1..];
      assert edges == [first] + rest;
      EdgesReversed(boundary);
      CrossingsOfConcat([Flip(first)], FlippedBack(rest), p);
      CrossingsOfConcat([first], rest, p);
      CrossingsFlippedBack(rest, p);
      FlippedCrosses(first, p);
      CrossingsOfOne(Flip(first), p);
      CrossingsOfOne(first, p);
    }
  }

  // -------------------------------------------------------------------- bounding box

  /** How many edges lead from marked to unmarked vertices or back. */
  function ChangeCount(edges: seq<Edge>, mark: Vertex -> bool): nat
    decreases |edges|
  {
    if edges == [] then 0
    else
      var last := edges[|edges| - 1];
      ChangeCount(edges[..|edges| - 1], mark) + (if mark(last.a) != mark(last.b) then 1 else 0)
  }

  /** Walking along the boundary, the count so far is odd just when the walk has changed sides. */
  lemma {:induction false} ChangesSoFar(boundary: seq<Vertex>, mark: Vertex -> bool, i: nat)
    requires 1 <= i <= |boundary|
    ensures ChangeCount(Edges(boundary)[..i], mark) % 2 == 1
            <==> mark(boundary[|boundary| - 1]) != mark(boundary[i - 1])
  {
    var edges := Edges(boundary);
    PrefixGrows(edges, i - 1);
    if i == 1 {
      assert ChangeCount(edges[..0], mark) == 0;
    } else {
      ChangesSoFar(boundary, mark, i - 1);
    }
  }

  /** Round the whole cycle the sides change an even number of times. */
  lemma ChangesEven(boundary: seq<Vertex>, mark: Vertex -> bool)
    ensures ChangeCount(Edges(boundary), mark) % 2 == 0
  {
    var edges := Edges(boundary);
    assert edges[..|edges|] == edges;
    if boundary != [] {
      ChangesSoFar(boundary, mark, |boundary|);
    }
  }

  lemma CrossingBetweenEnds(e: Edge, y: real)
    requires Straddles(e, y)
    ensures MinReal(e.a.x, e.b.x) <= CrossingX(e, y) <= MaxReal(e.a.x, e.b.x)
  {
    CrossingOnEdge(e, y);
    Between(e.a.x, e.b.x, CrossingFraction(e, y));
  }

  lemma {:induction false} AllToTheRight(edges: seq<Edge>, p: Vertex)
    requires forall e | e in edges :: p.x < e.a.x && p.x < e.b.x
    decreases |edges|
    ensures Crossings(edges, p) == ChangeCount(edges, (v: Vertex) => v.y > p.y)
  {
    if edges != [] {
      var last := edges[|edges| - 1];
      AllToTheRight(edges[..|edges| - 1], p);
      if Straddles(last, p.y) {
        CrossingBetweenEnds(last, p.y);
      }
    }
  }

  lemma {:induction false} SomeCrosses(edges: seq<Edge>, p: Vertex) returns (e: Edge)
    requires Crossings(edges, p) != 0
    decreases |edges|
    ensures e in edges && Crosses(e, p)
  {
    var last := edges[|edges| - 1];
    if Crosses(last, p) {
      e := last;
    } else {
      e := SomeCrosses(edges[..|edges| - 1], p);
    }
  }

  /** Vertices of the fence lie on every side of `p`. */
  ghost predicate InBoundingBox(boundary: seq<Vertex>, p: Vertex) {
    && (exists v | v in boundary :: v.x <= p.x)
    && (exists v | v in boundary :: p.x < v.x)
    && (exists v | v in boundary :: v.y <= p.y)
    && (exists v | v in boundary :: p.y < v.y)
  }

  lemma EndsAreVertices(boundary: seq<Vertex>, e: Edge)
    requires e in Edges(boundary)
    ensures e.a in boundary && e.b in boundary
  {
  }

  lemma SomeToTheLeft(boundary: seq<Vertex>, p: Vertex)
    requires Inside(boundary, p)
    ensures exists v | v in boundary :: v.x <= p.x
  {
    if forall v | v in boundary :: p.x < v.x {
      forall e | e in Edges(boundary)
        ensures p.x < e.a.x && p.x < e.b.x
      {
        EndsAreVertices(boundary, e);
      }
      AllToTheRight(Edges(boundary), p);
      ChangesEven(boundary, (v: Vertex) => v.y > p.y);
      assert false;
    }
  }

  /** What is inside lies within the bounding box. */
  lemma InsideIsInBox(boundary: seq<Vertex>, p: Vertex)
    requires Inside(boundary, p)
    ensures InBoundingBox(boundary, p)
  {
    SomeToTheLeft(boundary, p);
    var e := SomeCrosses(Edges(boundary), p);
    EndsAreVertices(boundary, e);
    CrossingBetweenEnds(e, p.y);
    assert p.x < MaxReal(e.a.x, e.b.x);
    assert p.x < e.a.x || p.x < e.b.x;
    assert e.a.y <= p.y || e.b.y <= p.y;
    assert p.y < e.a.y || p.y < e.b.y;
  }

  // ---------------------------------------------------------------- horizontal moves

  /** The edge is met by a move to the right from `p` to `x`. */
  predicate Passed(e: Edge, p: Vertex, x: real) {
    Straddles(e, p.y) && p.x < CrossingX(e, p.y) <= x
  }

  function PassedCount(edges: seq<Edge>, p: Vertex, x: real): nat
    decreases |edges|
  {
    if edges == [] then 0
    else PassedCount(edges[..|edges| - 1], p, x) + (if Passed(edges[|edges| - 1], p, x) then 1 else 0)
  }

  /** A move to the right loses exactly the crossings it passes. */
  lemma {:induction false} MoveRight(edges: seq<Edge>, p: Vertex, x: real)
    requires p.x <= x
    decreases |edges|
    ensures Crossings(edges, p) == Crossings(edges, Vertex(x, p.y)) + PassedCount(edges, p, x)
  {
    if edges != [] {
      MoveRight(edges[..|edges| - 1], p, x);
    }
  }

  /** No boundary point lies on the horizontal segment from `p` to `x`. */
  ghost predicate Untouched(edges: seq<Edge>, p: Vertex, x: real) {
    forall e, t: real | e in edges && 0.0 <= t <= 1.0 ::
      var q := Along(e, t); !(q.y == p.y && p.x <= q.x <= x)
  }

  lemma {:induction false} NonePassed(edges: seq<Edge>, p: Vertex, x: real)
    requires Untouched(edges, p, x)
    decreases |edges|
    ensures PassedCount(edges, p, x) == 0
  {
    if edges != [] {
      var last := edges[|edges| - 1];
      NonePassed(edges[..|edges| - 1], p, x);
      if Straddles(last, p.y) {
        CrossingOnEdge(last, p.y);
      }
    }
  }

  /** A horizontal move that touches no boundary point stays inside or stays outside. */
  lemma HorizontalMove(boundary: seq<Vertex>, p: Vertex, x: real)
    requires p.x <= x && Untouched(Edges(boundary), p, x)
    ensures Inside(boundary, p) == Inside(boundary, Vertex(x, p.y))
  {
    MoveRight(Edges(boundary), p, x);
    NonePassed(Edges(boundary), p, x);
  }

  // -------------------------------------------------------------- the measured distance

  /** How the squared distance to the point at `t` differs from that to the first end. */
  function Gain(length: real, projection: real, t: real): real {
    Times(Square(t), length) - 2.0 * t * projection
  }

  lemma AxisAlong(p: real, a: real, b: real, t: real)
    ensures Square(p - Toward(a, b, t)) == Square(p - a) + Gain(Square(b - a), (p - a) * (b - a), t)
  {
    SquareOfStep(p - a, b - a, t);
    assert p - Toward(a, b, t) == p - a - t * (b - a);
  }

  lemma SquareOfStep(u: real, d: real, t: real)
    ensures Square(u - t * d) == Square(u) + Gain(Square(d), u * d, t)
  {
  }

  lemma GainAdds(length: real, more: real, projection: real, further: real, t: real)
    ensures Gain(length + more, projection + further, t) == Gain(length, projection, t) + Gain(more, further, t)
  {
  }

  lemma DistanceAlong(p: Vertex, e: Edge, t: real)
    ensures DistanceSquared(p, Along(e, t)) == DistanceSquared(p, e.a) + Gain(LengthSquared(e), Projection(p, e), t)
  {
    AxisAlong(p.x, e.a.x, e.b.x, t);
    AxisAlong(p.y, e.a.y, e.b.y, t);
    GainAdds(Square(e.b.x - e.a.x), Square(e.b.y - e.a.y),
             (p.x - e.a.x) * (e.b.x - e.a.x), (p.y - e.a.y) * (e.b.y - e.a.y), t);
  }

  lemma NearerAlong(p: Vertex, e: Edge, s: real, t: real)
    requires Gain(LengthSquared(e), Projection(p, e), s) <= Gain(LengthSquared(e), Projection(p, e), t)
    ensures DistanceSquared(p, Along(e, s)) <= DistanceSquared(p, Along(e, t))
  {
    DistanceAlong(p, e, s);
    DistanceAlong(p, e, t);
  }

  /** The clamped minimiser of a quadratic is its minimum over the unit interval. */
  lemma QuadraticLeast(length: real, projection: real, s: real, t: real)
    requires 0.0 < length && s == ClampReal(projection / length, 0.0, 1.0) && 0.0 <= t <= 1.0
    ensures Gain(length, projection, s) <= Gain(length, projection, t)
  {
    var free := projection / length;
    assert free * length == projection;
    SquareNonNegative(t - s);
    MulNonNegative((t - s) * (t - s), length);
    SlopeAtLeast(free, s, t);
    MulNonNegative((t - s) * (s - free), length);
    QuadraticGap(length, free, s, t);
  }

  lemma SlopeAtLeast(free: real, s: real, t: real)
    requires s == ClampReal(free, 0.0, 1.0) && 0.0 <= t <= 1.0
    ensures 0.0 <= (t - s) * (s - free)
  {
    if free < 0.0 {
      MulNonNegative(t, -free);
    } else if free > 1.0 {
      MulNonNegative(1.0 - t, free - 1.0);
      assert (t - s) * (s - free) == (1.0 - t) * (free - 1.0);
    }
  }

  lemma QuadraticGap(length: real, free: real, s: real, t: real)
    ensures t * t * length - 2.0 * t * (free * length) - (s * s * length - 2.0 * s * (free * length))
            == (t - s) * (t - s) * length + 2.0 * ((t - s) * (s - free) * length)
  {
  }

  /** No point of a long enough edge is nearer than the measured distance. */
  lemma SegmentDistanceLeast(p: Vertex, e: Edge, t: real)
    requires !Short(e) && 0.0 <= t <= 1.0
    ensures SegmentDistance(p, e) <= DistanceSquared(p, Along(e, t))
  {
    var s := ClampReal(Projection(p, e) / LengthSquared(e), 0.0, 1.0);
    QuadraticLeast(LengthSquared(e), Projection(p, e), s, t);
    NearerAlong(p, e, s, t);
  }

  ghost predicate MeasuresExactly(e: Edge) {
    forall p: Vertex, t: real | 0.0 <= t <= 1.0 :: SegmentDistance(p, e) <= DistanceSquared(p, Along(e, t))
  }

  /** The measured distance is the distance for every position just when the edge is not
      shorter than the threshold, or has no length at all. */
  lemma MeasuredExactly(e: Edge)
    ensures MeasuresExactly(e) <==> !Short(e) || e.a == e.b
  {
    if !Short(e) {
      forall p: Vertex, t: real | 0.0 <= t <= 1.0
        ensures SegmentDistance(p, e) <= DistanceSquared(p, Along(e, t))
      {
        SegmentDistanceLeast(p, e, t);
      }
    } else if e.a == e.b {
      forall p: Vertex, t: real | 0.0 <= t <= 1.0
        ensures SegmentDistance(p, e) <= DistanceSquared(p, Along(e, t))
      {
        assert Along(e, t) == e.a;
      }
    } else {
      LengthPositive(e);
      assert Along(e, 1.0) == e.b;
      assert SegmentDistance(e.b, e) == LengthSquared(e);
      assert DistanceSquared(e.b, Along(e, 1.0)) == 0.0;
    }
  }

  lemma LengthPositive(e: Edge)
    requires e.a != e.b
    ensures 0.0 < LengthSquared(e)
  {
    assert e.a == Vertex(e.a.x, e.a.y) && e.b == Vertex(e.b.x, e.b.y);
    if e.a.x != e.b.x {
      SquarePositive(e.b.x - e.a.x);
    } else {
      SquarePositive(e.b.y - e.a.y);
    }
  }

  /** The measured point is on the edge. */
  lemma MeasuredOnEdge(p: Vertex, e: Edge) returns (t: real)
    ensures 0.0 <= t <= 1.0 && Along(e, t) == MeasuredPoint(p, e)
  {
    t := if Short(e) then 0.0 else ClampReal(Projection(p, e) / LengthSquared(e), 0.0, 1.0);
  }

  lemma {:induction false} BoundaryDistanceLeast(edges: seq<Edge>, p: Vertex, e: Edge)
    requires e in edges
    decreases |edges|
    ensures BoundaryDistance(edges, p).Some? && BoundaryDistance(edges, p).value <= SegmentDistance(p, e)
  {
    var n := |edges| - 1;
    if e != edges[n] {
      assert e in edges[..n];
      BoundaryDistanceLeast(edges[..n], p, e);
    }
  }

  lemma {:induction false} BoundaryDistanceAttained(edges: seq<Edge>, p: Vertex) returns (e: Edge)
    requires edges != []
    decreases |edges|
    ensures e in edges && BoundaryDistance(edges, p) == Some(SegmentDistance(p, e))
  {
    var n := |edges| - 1;
    if n == 0 || SegmentDistance(p, edges[n]) < BoundaryDistance(edges[..n], p).value {
      e := edges[n];
    } else {
      e := BoundaryDistanceAttained(edges[..n], p);
    }
  }

  // ---------------------------------------------------------------------- the verdict

  /** Every point of the boundary is farther from `p` than the margin. */
  ghost predicate AllBeyond(edges: seq<Edge>, p: Vertex, margin: real) {
    forall e, t: real | e in edges && 0.0 <= t <= 1.0 :: !Within(DistanceSquared(p, Along(e, t)), margin)
  }

  /** No edge has a length between zero and the threshold. */
  predicate Regular(edges: seq<Edge>) {
    forall e | e in edges :: !Short(e) || e.a == e.b
  }

  /** Then the measured distance exceeds the margin exactly when the whole boundary does. */
  lemma MarginIsExact(edges: seq<Edge>, p: Vertex, margin: real)
    requires edges != [] && Regular(edges)
    ensures BoundaryDistance(edges, p).Some?
    ensures Within(BoundaryDistance(edges, p).value, margin) <==> !AllBeyond(edges, p, margin)
  {
    var nearest := BoundaryDistanceAttained(edges, p);
    var s := MeasuredOnEdge(p, nearest);
    if Within(BoundaryDistance(edges, p).value, margin) {
      assert DistanceSquared(p, Along(nearest, s)) == BoundaryDistance(edges, p).value;
    } else {
      forall e, t: real | e in edges && 0.0 <= t <= 1.0
        ensures !Within(DistanceSquared(p, Along(e, t)), margin)
      {
        BoundaryDistanceLeast(edges, p, e);
        MeasuredExactly(e);
      }
    }
  }

  ghost predicate InAltitudeBand(f: Fence, pos: Position) {
    pos.z.Finite? && f.minAltitude <= -pos.z.value <= f.maxAltitude
  }

  /** What the fence is for: a position that is known, in the band and the polygon, and clear
      of the whole boundary by the margin. */
  ghost predicate ClearBy(f: Fence, pos: Position, margin: real) {
    && pos.x.Finite? && pos.y.Finite? && InAltitudeBand(f, pos)
    && var p := Vertex(pos.x.value, pos.y.value);
       Inside(f.boundary, p) && AllBeyond(Edges(f.boundary), p, margin)
  }

  /** On a fence without short edges the verdict is exact. */
  lemma VerdictExact(f: Fence, pos: Position)
    requires Regular(Edges(f.boundary))
    ensures Verdict(f, pos).HardBreach? <==> !ClearBy(f, pos, f.hardMargin)
    ensures Verdict(f, pos).Safe? <==> ClearBy(f, pos, f.hardMargin) && ClearBy(f, pos, f.softMargin)
  {
    if pos.x.Finite? && pos.y.Finite? && InAltitudeBand(f, pos) {
      var p := Vertex(pos.x.value, pos.y.value);
      if Inside(f.boundary, p) {
        MarginIsExact(Edges(f.boundary), p, f.hardMargin);
        MarginIsExact(Edges(f.boundary), p, f.softMargin);
      }
    }
  }

  ghost predicate OnBoundaryAt(edges: seq<Edge>, p: Vertex, squared: real) {
    exists e, t: real | e in edges && 0.0 <= t <= 1.0 :: DistanceSquared(p, Along(e, t)) == squared
  }

  /** A warning reports the distance of a boundary point, and no boundary point is nearer. */
  lemma WarningIsNearest(f: Fence, pos: Position)
    requires Verdict(f, pos).SoftWarning?
    ensures OnBoundaryAt(Edges(f.boundary), Vertex(pos.x.value, pos.y.value), Verdict(f, pos).distanceSquared)
    ensures Regular(Edges(f.boundary)) ==>
              forall e, t: real | e in Edges(f.boundary) && 0.0 <= t <= 1.0 ::
                Verdict(f, pos).distanceSquared <= DistanceSquared(Vertex(pos.x.value, pos.y.value), Along(e, t))
  {
    var p, edges := Vertex(pos.x.value, pos.y.value), Edges(f.boundary);
    var nearest := BoundaryDistanceAttained(edges, p);
    var s := MeasuredOnEdge(p, nearest);
    assert DistanceSquared(p, Along(nearest, s)) == Verdict(f, pos).distanceSquared;
    if Regular(edges) {
      forall e, t: real | e in edges && 0.0 <= t <= 1.0
        ensures Verdict(f, pos).distanceSquared <= DistanceSquared(p, Along(e, t))
      {
        BoundaryDistanceLeast(edges, p, e);
        MeasuredExactly(e);
      }
    }
  }

  /** Farther than the margin, or on a short edge next to a vertex that is. */
  ghost predicate Cleared(e: Edge, t: real, p: Vertex, margin: real) {
    || !Within(DistanceSquared(p, Along(e, t)), margin)
    || (Short(e) && DistanceSquared(e.a, Along(e, t)) <= LengthSquared(e) && !Within(DistanceSquared(p, e.a), margin))
  }

  lemma FractionOfLength(t: real, length: real)
    requires 0.0 <= t <= 1.0 && 0.0 <= length
    ensures Gain(length, 0.0, t) <= length
  {
    FractionOf(t, t);
    FractionOf(Square(t), length);
  }

  lemma WithinLength(e: Edge, t: real)
    requires 0.0 <= t <= 1.0
    ensures DistanceSquared(e.a, Along(e, t)) <= LengthSquared(e)
  {
    FractionOfLength(t, LengthSquared(e));
    DistanceAlong(e.a, e, t);
    assert Projection(e.a, e) == 0.0;
    assert DistanceSquared(e.a, e.a) == 0.0;
  }

  lemma BeyondMeansCleared(edges: seq<Edge>, p: Vertex, e: Edge, t: real, margin: real)
    requires e in edges && 0.0 <= t <= 1.0
    requires BoundaryDistance(edges, p).Some? && !Within(BoundaryDistance(edges, p).value, margin)
    ensures Cleared(e, t, p, margin)
  {
    BoundaryDistanceLeast(edges, p, e);
    if !Short(e) {
      SegmentDistanceLeast(p, e, t);
    } else {
      WithinLength(e, t);
    }
  }

  ghost predicate AllCleared(edges: seq<Edge>, p: Vertex, margin: real) {
    forall e, t: real | e in edges && 0.0 <= t <= 1.0 :: Cleared(e, t, p, margin)
  }

  /** On every fence: a verdict other than a hard breach means a known position in the band
      and the bounding box, clear of the boundary by the hard margin, and a safe one clear by
      the soft margin too; short edges are cleared to within a micrometre. */
  lemma VerdictSound(f: Fence, pos: Position)
    requires !Verdict(f, pos).HardBreach?
    ensures pos.x.Finite? && pos.y.Finite? && InAltitudeBand(f, pos)
    ensures InBoundingBox(f.boundary, Vertex(pos.x.value, pos.y.value))
    ensures AllCleared(Edges(f.boundary), Vertex(pos.x.value, pos.y.value), f.hardMargin)
    ensures Verdict(f, pos).Safe? ==>
              AllCleared(Edges(f.boundary), Vertex(pos.x.value, pos.y.value), f.softMargin)
  {
    var p, edges := Vertex(pos.x.value, pos.y.value), Edges(f.boundary);
    InsideIsInBox(f.boundary, p);
    var nearest := BoundaryDistanceAttained(edges, p);
    forall e, t: real | e in edges && 0.0 <= t <= 1.0
      ensures Cleared(e, t, p, f.hardMargin)
      ensures Verdict(f, pos).Safe? ==> Cleared(e, t, p, f.softMargin)
    {
      BeyondMeansCleared(edges, p, e, t, f.hardMargin);
      if Verdict(f, pos).Safe? {
        BeyondMeansCleared(edges, p, e, t, f.softMargin);
      }
    }
  }
}
