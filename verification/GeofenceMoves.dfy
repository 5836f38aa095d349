/** Straight moves: inside and outside of the geofence polygon (src/security/geofence.rs)
    change only where the boundary is met. */
module GeofenceMoves {
  import opened Foundation
  import opened Geofence

  /** The edge has no point in common with the segment from `p` to `q`. */
  ghost predicate Unmet(e: Edge, p: Vertex, q: Vertex) {
    forall t: real, u: real | 0.0 <= t <= 1.0 && 0.0 <= u <= 1.0 :: Along(e, t) != Along(Edge(p, q), u)
  }

  ghost predicate AllUnmet(edges: seq<Edge>, p: Vertex, q: Vertex) {
    forall e | e in edges :: Unmet(e, p, q)
  }

  // -------------------------------------------------------- the sides of a segment

  /** Positive to the right of the upward line from `p` to `q`, zero on it. */
  function Side(p: Vertex, q: Vertex, v: Vertex): real {
    Times(v.x - p.x, q.y - p.y) - Times(v.y - p.y, q.x - p.x)
  }

  lemma TimesToward(a: real, b: real, t: real, origin: real, c: real)
    ensures Times(Toward(a, b, t) - origin, c) == Toward(Times(a - origin, c), Times(b - origin, c), t)
  {
    TimesOfSum(a - origin, b - a, t, c);
    assert Toward(a, b, t) - origin == a - origin + Times(t, b - a);
    assert Times(b - origin, c) - Times(a - origin, c) == Times(b - a, c);
  }

  lemma TimesOfSum(x: real, d: real, t: real, c: real)
    ensures Times(x + Times(t, d), c) == Times(x, c) + Times(t, Times(d, c))
  {
  }

  lemma TowardOfDifference(a: real, b: real, c: real, d: real, t: real)
    ensures Toward(a - c, b - d, t) == Toward(a, b, t) - Toward(c, d, t)
  {
  }

  /** The side is linear along an edge. */
  lemma SideAlong(p: Vertex, q: Vertex, e: Edge, t: real)
    ensures Side(p, q, Along(e, t)) == Toward(Side(p, q, e.a), Side(p, q, e.b), t)
  {
    TimesToward(e.a.x, e.b.x, t, p.x, q.y - p.y);
    TimesToward(e.a.y, e.b.y, t, p.y, q.x - p.x);
    TowardOfDifference(Times(e.a.x - p.x, q.y - p.y), Times(e.b.x - p.x, q.y - p.y),
                       Times(e.a.y - p.y, q.x - p.x), Times(e.b.y - p.y, q.x - p.x), t);
  }

  lemma FractionBack(x: real, h: real)
    requires 0.0 < h && 0.0 <= x <= h
    ensures 0.0 <= x / h <= 1.0 && Times(x / h, h) == x
  {
    FractionInUnit(x, h);
  }

  lemma OffsetFromSide(w: real, h: real, k: real, x: real, y: real)
    requires 0.0 < h && Times(w, h) == y && Times(x, h) == Times(y, k)
    ensures x == Times(w, k)
  {
    assert x * h == (w * k) * h;
    Cancel(x, w * k, h);
  }

  /** A point on the line, between the ends in height, is on the segment. */
  lemma OnSegment(p: Vertex, q: Vertex, m: Vertex) returns (w: real)
    requires p.y < q.y && p.y <= m.y <= q.y && Side(p, q, m) == 0.0
    ensures 0.0 <= w <= 1.0 && Along(Edge(p, q), w) == m
  {
    w := (m.y - p.y) / (q.y - p.y);
    FractionBack(m.y - p.y, q.y - p.y);
    OffsetFromSide(w, q.y - p.y, q.x - p.x, m.x - p.x, m.y - p.y);
  }

  lemma TowardToward(a: real, b: real, s: real, t: real, r: real)
    ensures Toward(a, b, Toward(s, t, r)) == Toward(Toward(a, b, s), Toward(a, b, t), r)
  {
    assert Toward(a, b, t) - Toward(a, b, s) == Times(t - s, b - a);
    TimesOfSum(s, t - s, r, b - a);
  }

  /** Part of an edge is itself an edge. */
  lemma AlongPart(e: Edge, s: real, t: real, r: real)
    ensures Along(e, Toward(s, t, r)) == Along(Edge(Along(e, s), Along(e, t)), r)
  {
    TowardToward(e.a.x, e.b.x, s, t, r);
    TowardToward(e.a.y, e.b.y, s, t, r);
  }

  lemma ZeroBetween(f: real, g: real) returns (r: real)
    requires g <= 0.0 < f
    ensures 0.0 <= r <= 1.0 && Toward(f, g, r) == 0.0
  {
    r := f / (f - g);
    FractionBack(f, f - g);
    assert Times(r, g - f) == -Times(r, f - g);
  }

  lemma BetweenBounds(a: real, b: real, t: real, low: real, high: real)
    requires 0.0 <= t <= 1.0 && low <= a <= high && low <= b <= high
    ensures low <= Toward(a, b, t) <= high
  {
    Between(a, b, t);
  }

  /** A height of the band from `p` to `q`. */
  predicate InBand(p: Vertex, q: Vertex, v: Vertex) {
    p.y <= v.y <= q.y
  }

  /** Between a point on the right and one that is not, both in the band, the edge meets the
      segment. */
  lemma MeetsBetween(p: Vertex, q: Vertex, e: Edge, s: real, t: real)
    requires p.y < q.y && 0.0 <= s <= 1.0 && 0.0 <= t <= 1.0
    requires InBand(p, q, Along(e, s)) && InBand(p, q, Along(e, t))
    requires Side(p, q, Along(e, t)) <= 0.0 < Side(p, q, Along(e, s))
    ensures !Unmet(e, p, q)
  {
    var part := Edge(Along(e, s), Along(e, t));
    var r := ZeroBetween(Side(p, q, part.a), Side(p, q, part.b));
    SideAlong(p, q, part, r);
    BetweenBounds(part.a.y, part.b.y, r, p.y, q.y);
    BetweenBounds(s, t, r, 0.0, 1.0);
    AlongPart(e, s, t, r);
    var w := OnSegment(p, q, Along(part, r));
    assert Along(e, Toward(s, t, r)) == Along(Edge(p, q), w);
  }

  lemma SidesAgree(p: Vertex, q: Vertex, e: Edge, s: real, t: real)
    requires p.y < q.y && 0.0 <= s <= 1.0 && 0.0 <= t <= 1.0 && Unmet(e, p, q)
    requires InBand(p, q, Along(e, s)) && InBand(p, q, Along(e, t))
    ensures (Side(p, q, Along(e, s)) > 0.0) == (Side(p, q, Along(e, t)) > 0.0)
  {
    if Side(p, q, Along(e, t)) <= 0.0 < Side(p, q, Along(e, s)) {
      MeetsBetween(p, q, e, s, t);
    }
    if Side(p, q, Along(e, s)) <= 0.0 < Side(p, q, Along(e, t)) {
      MeetsBetween(p, q, e, t, s);
    }
  }

  // ------------------------------------------------------- parity of one edge

  lemma EdgeEnds(e: Edge)
    ensures Along(e, 0.0) == e.a && Along(e, 1.0) == e.b
  {
  }

  lemma PositiveFactor(x: real, h: real)
    requires 0.0 < h
    ensures Times(x, h) > 0.0 <==> x > 0.0
  {
    if x > 0.0 {
      TimesPositive(x, h);
    } else {
      MulNonNegative(-x, h);
      assert (-x) * h == -(x * h);
    }
  }

  /** At the height of `p`, right of the segment means right of `p`. */
  lemma SideAtStart(p: Vertex, q: Vertex, x: real)
    requires p.y < q.y
    ensures Side(p, q, Vertex(x, p.y)) > 0.0 <==> p.x < x
  {
    PositiveFactor(x - p.x, q.y - p.y);
    assert Times(0.0, q.x - p.x) == 0.0;
  }

  lemma SideAtEnd(p: Vertex, q: Vertex, x: real)
    requires p.y < q.y
    ensures Side(p, q, Vertex(x, q.y)) > 0.0 <==> q.x < x
  {
    PositiveFactor(x - q.x, q.y - p.y);
    assert Times(x - p.x, q.y - p.y) - Times(q.y - p.y, q.x - p.x) == Times(x - q.x, q.y - p.y);
  }

  /** A crossing of the ray from `p`, or from `q`, as a point of the edge right of the segment. */
  lemma CrossingAtStart(e: Edge, p: Vertex, q: Vertex)
    requires p.y < q.y && Straddles(e, p.y)
    ensures 0.0 <= CrossingFraction(e, p.y) <= 1.0 && InBand(p, q, Along(e, CrossingFraction(e, p.y)))
    ensures Crosses(e, p) <==> Side(p, q, Along(e, CrossingFraction(e, p.y))) > 0.0
  {
    CrossingOnEdge(e, p.y);
    SideAtStart(p, q, CrossingX(e, p.y));
  }

  lemma CrossingAtEnd(e: Edge, p: Vertex, q: Vertex)
    requires p.y < q.y && Straddles(e, q.y)
    ensures 0.0 <= CrossingFraction(e, q.y) <= 1.0 && InBand(p, q, Along(e, CrossingFraction(e, q.y)))
    ensures Crosses(e, q) <==> Side(p, q, Along(e, CrossingFraction(e, q.y))) > 0.0
  {
    CrossingOnEdge(e, q.y);
    SideAtEnd(p, q, CrossingX(e, q.y));
  }

  /** Above `p`, not above `q`, and right of the segment: the zone between the two rays. */
  predicate InZone(p: Vertex, q: Vertex, v: Vertex) {
    v.y > p.y && !(v.y > q.y) && Side(p, q, v) > 0.0
  }

  lemma NeitherRay(e: Edge, p: Vertex, q: Vertex)
    requires p.y < q.y && Unmet(e, p, q) && !Straddles(e, p.y) && !Straddles(e, q.y)
    ensures InZone(p, q, e.a) == InZone(p, q, e.b)
  {
    EdgeEnds(e);
    if e.a.y > p.y && !(e.a.y > q.y) {
      SidesAgree(p, q, e, 0.0, 1.0);
    }
  }

  lemma StartRayOnly(e: Edge, p: Vertex, q: Vertex)
    requires p.y < q.y && Unmet(e, p, q) && Straddles(e, p.y) && !Straddles(e, q.y)
    ensures Crosses(e, p) == (InZone(p, q, e.a) != InZone(p, q, e.b))
  {
    EdgeEnds(e);
    CrossingAtStart(e, p, q);
    SidesAgree(p, q, e, CrossingFraction(e, p.y), if e.a.y > p.y then 0.0 else 1.0);
  }

  lemma EndRayOnly(e: Edge, p: Vertex, q: Vertex)
    requires p.y < q.y && Unmet(e, p, q) && !Straddles(e, p.y) && Straddles(e, q.y)
    ensures Crosses(e, q) == (InZone(p, q, e.a) != InZone(p, q, e.b))
  {
    EdgeEnds(e);
    CrossingAtEnd(e, p, q);
    SidesAgree(p, q, e, CrossingFraction(e, q.y), if e.a.y > q.y then 1.0 else 0.0);
  }

  lemma BothRays(e: Edge, p: Vertex, q: Vertex)
    requires p.y < q.y && Unmet(e, p, q) && Straddles(e, p.y) && Straddles(e, q.y)
    ensures Crosses(e, p) == Crosses(e, q) && !InZone(p, q, e.a) && !InZone(p, q, e.b)
  {
    CrossingAtStart(e, p, q);
    CrossingAtEnd(e, p, q);
    SidesAgree(p, q, e, CrossingFraction(e, p.y), CrossingFraction(e, q.y));
  }

  /** An edge that does not meet the segment crosses just one of the two rays when just one of
      its ends is in the zone between them. */
  lemma EdgeParity(e: Edge, p: Vertex, q: Vertex)
    requires p.y < q.y && Unmet(e, p, q)
    ensures (Crosses(e, p) != Crosses(e, q)) == (InZone(p, q, e.a) != InZone(p, q, e.b))
  {
    if Straddles(e, p.y) {
      if Straddles(e, q.y) {
        BothRays(e, p, q);
      } else {
        StartRayOnly(e, p, q);
      }
    } else if Straddles(e, q.y) {
      EndRayOnly(e, p, q);
    } else {
      NeitherRay(e, p, q);
    }
  }

  function One(b: bool): nat {
    if b then 1 else 0
  }

  lemma OneMoreEdge(m: nat, n: nat, c: nat, left: bool, right: bool, changes: bool)
    requires (m + n + c) % 2 == 0 && (left != right) == changes
    ensures ((m + One(left)) + (n + One(right)) + (c + One(changes))) % 2 == 0
  {
  }

  /** The counts of a list in terms of those before its last edge. */
  lemma LastEdge(edges: seq<Edge>, p: Vertex, q: Vertex, zone: Vertex -> bool)
    requires edges != []
    ensures var before, last := edges[..|edges| - 1], edges[|edges| - 1];
            && Crossings(edges, p) == Crossings(before, p) + One(Crosses(last, p))
            && Crossings(edges, q) == Crossings(before, q) + One(Crosses(last, q))
            && ChangeCount(edges, zone) == ChangeCount(before, zone) + One(zone(last.a) != zone(last.b))
  {
  }

  lemma {:induction false} CrossingParity(edges: seq<Edge>, p: Vertex, q: Vertex, zone: Vertex -> bool)
    requires p.y < q.y && AllUnmet(edges, p, q) && forall v :: zone(v) == InZone(p, q, v)
    decreases |edges|
    ensures (Crossings(edges, p) + Crossings(edges, q) + ChangeCount(edges, zone)) % 2 == 0
  {
    if edges != [] {
      var before, last := edges[..|edges| - 1], edges[|edges| - 1];
      CrossingParity(before, p, q, zone);
      EdgeParity(last, p, q);
      LastEdge(edges, p, q, zone);
      OneMoreEdge(Crossings(before, p), Crossings(before, q), ChangeCount(before, zone),
                  Crosses(last, p), Crosses(last, q), zone(last.a) != zone(last.b));
    }
  }

  // -------------------------------------------------------------------- moves

  lemma UpwardMove(boundary: seq<Vertex>, p: Vertex, q: Vertex)
    requires p.y < q.y && AllUnmet(Edges(boundary), p, q)
    ensures Inside(boundary, p) == Inside(boundary, q)
  {
    var zone := (v: Vertex) => InZone(p, q, v);
    CrossingParity(Edges(boundary), p, q, zone);
    ChangesEven(boundary, zone);
    SameParity(Crossings(Edges(boundary), p), Crossings(Edges(boundary), q), ChangeCount(Edges(boundary), zone));
  }

  lemma SameParity(a: nat, b: nat, c: nat)
    requires (a + b + c) % 2 == 0 && c % 2 == 0
    ensures a % 2 == b % 2
  {
  }

  lemma UnmetBackward(edges: seq<Edge>, p: Vertex, q: Vertex)
    requires AllUnmet(edges, p, q)
    ensures AllUnmet(edges, q, p)
  {
    forall e, t: real, u: real | e in edges && 0.0 <= t <= 1.0 && 0.0 <= u <= 1.0
      ensures Along(e, t) != Along(Edge(q, p), u)
    {
      FromOtherEnd(q.x, p.x, u);
      FromOtherEnd(q.y, p.y, u);
      assert Unmet(e, p, q);
      assert Along(e, t) != Along(Edge(p, q), 1.0 - u);
    }
  }

  lemma FractionOfSpan(a: real, b: real, x: real) returns (u: real)
    requires a <= x <= b
    ensures 0.0 <= u <= 1.0 && Toward(a, b, u) == x
  {
    if a == b {
      u := 0.0;
    } else {
      u := (x - a) / (b - a);
      FractionBack(x - a, b - a);
    }
  }

  lemma LevelHit(e: Edge, p: Vertex, q: Vertex, t: real)
    requires p.y == q.y && 0.0 <= t <= 1.0
    requires Along(e, t).y == p.y && p.x <= Along(e, t).x <= q.x
    ensures !Unmet(e, p, q)
  {
    var u := FractionOfSpan(p.x, q.x, Along(e, t).x);
    assert Along(Edge(p, q), u) == Along(e, t);
  }

  lemma LevelMove(boundary: seq<Vertex>, p: Vertex, q: Vertex)
    requires p.y == q.y && p.x <= q.x && AllUnmet(Edges(boundary), p, q)
    ensures Inside(boundary, p) == Inside(boundary, q)
  {
    forall e, t: real | e in Edges(boundary) && 0.0 <= t <= 1.0
      ensures var v := Along(e, t); !(v.y == p.y && p.x <= v.x <= q.x)
    {
      var v := Along(e, t);
      assert Unmet(e, p, q);
      if v.y == p.y && p.x <= v.x <= q.x {
        LevelHit(e, p, q, t);
      }
    }
    HorizontalMove(boundary, p, q.x);
    assert Vertex(q.x, p.y) == q;
  }

  /** A straight move in any direction that meets no boundary point stays inside or stays
      outside. */
  lemma StraightMove(boundary: seq<Vertex>, p: Vertex, q: Vertex)
    requires AllUnmet(Edges(boundary), p, q)
    ensures Inside(boundary, p) == Inside(boundary, q)
  {
    UnmetBackward(Edges(boundary), p, q);
    if p.y < q.y {
      UpwardMove(boundary, p, q);
    } else if q.y < p.y {
      UpwardMove(boundary, q, p);
    } else if p.x <= q.x {
      LevelMove(boundary, p, q);
    } else {
      LevelMove(boundary, q, p);
    }
  }

  /** Every leg of the path misses the boundary. */
  ghost predicate PathUnmet(edges: seq<Edge>, path: seq<Vertex>) {
    forall i | 0 < i < |path| :: AllUnmet(edges, path[i - 1], path[i])
  }

  /** So does any flight along straight legs. */
  lemma {:induction false} PathMove(boundary: seq<Vertex>, path: seq<Vertex>)
    requires path != [] && PathUnmet(Edges(boundary), path)
    decreases |path|
    ensures Inside(boundary, path[0]) == Inside(boundary, path[|path| - 1])
  {
    if |path| != 1 {
      PathMove(boundary, path[..|path| - 1]);
      StraightMove(boundary, path[|path| - 2], path[|path| - 1]);
    }
  }

  /** From inside, no such flight ever leaves the fence's bounding box. */
  lemma NoWayOut(boundary: seq<Vertex>, path: seq<Vertex>)
    requires path != [] && PathUnmet(Edges(boundary), path) && Inside(boundary, path[0])
    ensures InBoundingBox(boundary, path[|path| - 1])
  {
    PathMove(boundary, path);
    InsideIsInBox(boundary, path[|path| - 1]);
  }
}
