/** Ground queries over the solid cells, and the player's spawn. */
module Ground {
  import opened Basics
  import opened GameConstants
  import opened Rects
  import opened Surfaces
  import opened CollisionRects

  function Distance(a: real, b: real): real {
    if a < b then b - a else a - b
  }

  lemma DistanceIsTheGap(a: real, b: real, gap: real)
    ensures Distance(a, b) <= gap <==> b - gap <= a <= b + gap
  {
  }

  predicate OverSpan(c: Cell, x0: real, x1: real) {
    c.x0 < x1 && c.x1 > x0
  }

  /** `t` is the top of a solid cell over the span. */
  ghost predicate SurfaceOver(q: SurfaceQuery, x0: real, x1: real, t: real) {
    exists i :: 0 <= i < |q.cells| && OverSpan(q.cells[i], x0, x1) && q.cells[i].top == t
  }

  /** The lowest cell top of the map; a map without cells keeps the default ground. */
  method FallbackPlaneY(q: SurfaceQuery) returns (y: real)
    ensures q.cells == [] ==> y == DEFAULT_GROUND_Y
    ensures q.cells != [] ==> exists i :: 0 <= i < |q.cells| && q.cells[i].top == y
    ensures forall i :: 0 <= i < |q.cells| ==> y <= q.cells[i].top
  {
    if q.cells == [] { return DEFAULT_GROUND_Y; }
    y := q.cells[0].top;
    for i := 1 to |q.cells|
      invariant exists j :: 0 <= j < i && q.cells[j].top == y
      invariant forall j :: 0 <= j < i ==> y <= q.cells[j].top
    {
      if q.cells[i].top < y { y := q.cells[i].top; }
    }
  }

  /** The highest surface over the span at or below the limit; the fallback plane when there is none. */
  method GroundY(q: SurfaceQuery, x0: real, x1: real, limit: real) returns (y: real)
    ensures (exists t :: SurfaceOver(q, x0, x1, t) && t <= limit) ==>
              SurfaceOver(q, x0, x1, y) && y <= limit
              && forall t :: SurfaceOver(q, x0, x1, t) && t <= limit ==> t <= y
    ensures !(exists t :: SurfaceOver(q, x0, x1, t) && t <= limit) ==>
              if q.cells == [] then y == DEFAULT_GROUND_Y
              else (exists i :: 0 <= i < |q.cells| && q.cells[i].top == y)
                   && forall i :: 0 <= i < |q.cells| ==> y <= q.cells[i].top
  {
    var best: Option<real> := None;
    for i := 0 to |q.cells|
      invariant best.None? ==> forall j :: 0 <= j < i ==> !(OverSpan(q.cells[j], x0, x1) && q.cells[j].top <= limit)
      invariant best.Some? ==> best.value <= limit && SurfaceOver(q, x0, x1, best.value)
      invariant best.Some? ==>
                  forall j :: 0 <= j < i && OverSpan(q.cells[j], x0, x1) && q.cells[j].top <= limit ==>
                    q.cells[j].top <= best.value
    {
      var cell := q.cells[i];
      if cell.top <= limit && OverSpan(cell, x0, x1) {
        if best.None? || cell.top > best.value { best := Some(cell.top); }
      }
    }
    if best.Some? { return best.value; }
    y := FallbackPlaneY(q);
  }

  ghost predicate Ascending(ts: seq<real>) {
    forall i, j :: 0 <= i < j < |ts| ==> ts[i] < ts[j]
  }

  /** Insertion into an ascending list. */
  function InsertAscending(t: real, ts: seq<real>): seq<real> {
    if ts == [] then [t]
    else if ts[|ts| - 1] < t then ts + [t]
    else InsertAscending(t, ts[..|ts| - 1]) + [ts[|ts| - 1]]
  }

  lemma {:induction false} InsertKeepsAscending(t: real, ts: seq<real>)
    requires Ascending(ts) && t !in ts
    ensures Ascending(InsertAscending(t, ts))
    ensures forall u :: u in InsertAscending(t, ts) <==> u == t || u in ts
  {
    if ts != [] && !(ts[|ts| - 1] < t) {
      var n := |ts| - 1;
      InsertKeepsAscending(t, ts[..n]);
      var shorter := InsertAscending(t, ts[..n]);
      forall i | 0 <= i < |shorter| ensures shorter[i] < ts[n] {
        assert shorter[i] in shorter;
      }
      assert ts == ts[..n] + [ts[n]];
    }
  }

  /** The tops over the span: ascending, without duplicates, and all of them. */
  method SurfaceTops(q: SurfaceQuery, x0: real, x1: real) returns (tops: seq<real>)
    ensures Ascending(tops)
    ensures forall t :: t in tops <==> SurfaceOver(q, x0, x1, t)
  {
    var found: seq<real> := [];
    tops := [];
    for i := 0 to |q.cells|
      invariant Ascending(tops)
      invariant forall t :: t in tops <==> t in found
      invariant forall t :: t in found ==> SurfaceOver(q, x0, x1, t)
      invariant forall j :: 0 <= j < i && OverSpan(q.cells[j], x0, x1) ==> q.cells[j].top in found
    {
      var cell := q.cells[i];
      if OverSpan(cell, x0, x1) && cell.top !in found {
        InsertKeepsAscending(cell.top, tops);
        found := found + [cell.top];
        tops := InsertAscending(cell.top, tops);
      }
    }
  }

  // The bounded nearest surface

  /** No surface over the body span reaches into a body standing on `top`. */
  ghost predicate Clear(q: SurfaceQuery, bodyX0: real, bodyX1: real, bodyHeight: real, top: real) {
    !exists t :: SurfaceOver(q, bodyX0, bodyX1, t) && t > top && t - q.tileHeight < top + bodyHeight
  }

  ghost predicate InWindow(q: SurfaceQuery, x0: real, x1: real, y: real, half: real, t: real) {
    SurfaceOver(q, x0, x1, t) && Distance(t, y) <= half
  }

  /** Nearer to `y`, the lower on ties. */
  predicate Better(t: real, u: real, y: real) {
    Distance(t, y) < Distance(u, y) || (Distance(t, y) == Distance(u, y) && t <= u)
  }

  /** A height is better than another if it lies between that one and its mirror image beyond `y`, or is that
      image and the lower of the two. */
  lemma BetterExactlyWhen(t: real, u: real, y: real)
    ensures var image := 2.0 * y - u;
            Better(t, u, y) <==> t == u || u < t < image || image < t < u || (t == image && t < u)
  {
  }

  predicate BlockedBy(bodyTops: seq<real>, top: real, tileHeight: real, bodyHeight: real) {
    exists i :: 0 <= i < |bodyTops| && bodyTops[i] > top && bodyTops[i] - tileHeight < top + bodyHeight
  }

  method BoundedSurfaceY(q: SurfaceQuery, x0: real, x1: real, y: real, half: real,
                         bodyX0: real, bodyX1: real, bodyHeight: real) returns (r: Option<real>)
    ensures r.None? <==> forall t :: !InWindow(q, x0, x1, y, half, t)
    ensures r.Some? ==> InWindow(q, x0, x1, y, half, r.value)
    ensures r.Some? && Clear(q, bodyX0, bodyX1, bodyHeight, r.value) ==>
              forall t :: InWindow(q, x0, x1, y, half, t) && Clear(q, bodyX0, bodyX1, bodyHeight, t) ==>
                Better(r.value, t, y)
    ensures r.Some? && !Clear(q, bodyX0, bodyX1, bodyHeight, r.value) ==>
              forall t :: InWindow(q, x0, x1, y, half, t) ==>
                !Clear(q, bodyX0, bodyX1, bodyHeight, t) && Better(r.value, t, y)
  {
    var bodyTops := SurfaceTops(q, bodyX0, bodyX1);
    var tops := SurfaceTops(q, x0, x1);
    var clearBest, anyBest := NearestTops(tops, bodyTops, y, half, q.tileHeight, bodyHeight);
    ClearOnesMeans(tops, bodyTops, q.tileHeight, bodyHeight);
    forall top ensures BlockedBy(bodyTops, top, q.tileHeight, bodyHeight)
                  <==> !Clear(q, bodyX0, bodyX1, bodyHeight, top)
    {
      BlockedMeansUnclear(q, bodyX0, bodyX1, bodyHeight, top, bodyTops);
    }
    hide SurfaceOver, Clear, BlockedBy, ClearOnes, Ascending;
    assert forall t :: InWindow(q, x0, x1, y, half, t) <==> t in tops && Distance(t, y) <= half;
    r := if clearBest.Some? then clearBest else anyBest;
  }

  lemma BlockedMeansUnclear(q: SurfaceQuery, bodyX0: real, bodyX1: real, bodyHeight: real, top: real,
                            bodyTops: seq<real>)
    requires forall t :: t in bodyTops <==> SurfaceOver(q, bodyX0, bodyX1, t)
    ensures BlockedBy(bodyTops, top, q.tileHeight, bodyHeight) <==> !Clear(q, bodyX0, bodyX1, bodyHeight, top)
  {
    hide SurfaceOver;
    if BlockedBy(bodyTops, top, q.tileHeight, bodyHeight) {
      var i :| 0 <= i < |bodyTops| && bodyTops[i] > top && bodyTops[i] - q.tileHeight < top + bodyHeight;
      assert bodyTops[i] in bodyTops;
    }
    if t :| SurfaceOver(q, bodyX0, bodyX1, t) && t > top && t - q.tileHeight < top + bodyHeight {
      assert t in bodyTops;
    }
  }

  /** A candidate at `top` replaces the best one so far: nearer, or as near and lower. */
  predicate Nearer(top: real, best: Option<real>, y: real) {
    || best.None? || Distance(top, y) < Distance(best.value, y)
    || (Distance(top, y) == Distance(best.value, y) && top < best.value)
  }

  lemma BestStep(best: Option<real>, candidates: seq<real>, top: real, y: real, half: real)
    requires Best(best, candidates, y, half)
    ensures var next := if Distance(top, y) <= half && Nearer(top, best, y) then Some(top) else best;
            Best(next, candidates + [top], y, half)
  {}

  /** The best candidates of an ascending list: among the clear ones, and among all. */
  method NearestTops(tops: seq<real>, bodyTops: seq<real>, y: real, half: real, tileHeight: real, bodyHeight: real)
    returns (clearBest: Option<real>, anyBest: Option<real>)
    ensures Best(anyBest, tops, y, half)
    ensures Best(clearBest, ClearOnes(tops, bodyTops, tileHeight, bodyHeight), y, half)
  {
    hide BlockedBy, Best, Distance;
    NothingIsBest(y, half);
    clearBest, anyBest := None, None;
    for i := 0 to |tops|
      invariant Best(anyBest, tops[..i], y, half)
      invariant Best(clearBest, ClearOnes(tops[..i], bodyTops, tileHeight, bodyHeight), y, half)
    {
      var top := tops[i];
      ghost var clear := ClearOnes(tops[..i], bodyTops, tileHeight, bodyHeight);
      assert tops[..i + 1] == tops[..i] + [top] && tops[..i + 1][..i] == tops[..i];
      BestStep(anyBest, tops[..i], top, y, half);
      BestStep(clearBest, clear, top, y, half);
      assert clear + [] == clear;
      if Distance(top, y) <= half {
        if anyBest.None? || Distance(top, y) < Distance(anyBest.value, y)
           || (Distance(top, y) == Distance(anyBest.value, y) && top < anyBest.value) {
          anyBest := Some(top);
        }
        if !BlockedBy(bodyTops, top, tileHeight, bodyHeight)
           && (clearBest.None? || Distance(top, y) < Distance(clearBest.value, y)
               || (Distance(top, y) == Distance(clearBest.value, y) && top < clearBest.value)) {
          clearBest := Some(top);
        }
      }
    }
    assert tops[..|tops|] == tops;
  }

  lemma NothingIsBest(y: real, half: real)
    ensures Best(None, [], y, half)
  {}

  function ClearOnes(tops: seq<real>, bodyTops: seq<real>, tileHeight: real, bodyHeight: real): seq<real> {
    if tops == [] then []
    else
      var n := |tops| - 1;
      ClearOnes(tops[..n], bodyTops, tileHeight, bodyHeight)
      + if BlockedBy(bodyTops, tops[n], tileHeight, bodyHeight) then [] else [tops[n]]
  }

  lemma {:induction false} ClearOnesMeans(tops: seq<real>, bodyTops: seq<real>, tileHeight: real, bodyHeight: real)
    ensures forall t :: t in ClearOnes(tops, bodyTops, tileHeight, bodyHeight)
                   <==> t in tops && !BlockedBy(bodyTops, t, tileHeight, bodyHeight)
  {
    if tops != [] {
      var n := |tops| - 1;
      ClearOnesMeans(tops[..n], bodyTops, tileHeight, bodyHeight);
      assert tops == tops[..n] + [tops[n]];
    }
  }

  /** The best in-window candidate of a list. */
  ghost predicate Best(best: Option<real>, candidates: seq<real>, y: real, half: real) {
    match best
    case None => forall t :: t in candidates ==> Distance(t, y) > half
    case Some(b) => b in candidates && Distance(b, y) <= half
                    && forall t :: t in candidates && Distance(t, y) <= half ==> Better(b, t, y)
  }

  // Clear, in terms of the merged rectangles

  function StandingBox(bodyX0: real, bodyX1: real, bodyHeight: real, top: real): Rect {
    Rect(bodyX0, top, bodyX1 - bodyX0, bodyHeight)
  }

  /** A body placed on `top` is clear exactly when it overlaps no collision rectangle. */
  lemma ClearMeansNoOverlap(q: SurfaceQuery, bodyX0: real, bodyX1: real, bodyHeight: real, top: real)
    requires GridCells(q) && bodyX0 < bodyX1 && bodyHeight > 0.0
    ensures Clear(q, bodyX0, bodyX1, bodyHeight, top)
       <==> forall r :: r in MergedRects(q) ==> !r.Overlaps(StandingBox(bodyX0, bodyX1, bodyHeight, top))
  {
    forall r | r in MergedRects(q) && r.Overlaps(StandingBox(bodyX0, bodyX1, bodyHeight, top))
      ensures !Clear(q, bodyX0, bodyX1, bodyHeight, top)
    {
      OverlapBlocks(q, bodyX0, bodyX1, bodyHeight, top, r);
    }
    if t :| SurfaceOver(q, bodyX0, bodyX1, t) && t > top && t - q.tileHeight < top + bodyHeight {
      BlockerOverlaps(q, bodyX0, bodyX1, bodyHeight, top, t);
    }
  }

  lemma OverlapBlocks(q: SurfaceQuery, bodyX0: real, bodyX1: real, bodyHeight: real, top: real, r: Rect)
    requires GridCells(q) && bodyX0 < bodyX1 && bodyHeight > 0.0
    requires r in MergedRects(q) && r.Overlaps(StandingBox(bodyX0, bodyX1, bodyHeight, top))
    ensures !Clear(q, bodyX0, bodyX1, bodyHeight, top)
  {
    hide MergedRects, GridCells, RowMajor, PairwiseApart;
    var x, y := Max(r.MinX(), bodyX0), Max(r.MinY(), top);
    MergedRectsAreExact(q, x, y);
    var k :| 0 <= k < |MergedRects(q)| && MergedRects(q)[k] == r;
    assert MergedRects(q)[k].Contains(x, y);
    var c :| c in q.cells && CellCovers(q, c, x, y);
    var i :| 0 <= i < |q.cells| && q.cells[i] == c;
    assert OverSpan(q.cells[i], bodyX0, bodyX1) && SurfaceOver(q, bodyX0, bodyX1, c.top);
    assert c.top > top && c.top - q.tileHeight < top + bodyHeight;
  }

  lemma BlockerOverlaps(q: SurfaceQuery, bodyX0: real, bodyX1: real, bodyHeight: real, top: real, t: real)
    requires GridCells(q) && bodyX0 < bodyX1 && bodyHeight > 0.0
    requires SurfaceOver(q, bodyX0, bodyX1, t) && t > top && t - q.tileHeight < top + bodyHeight
    ensures exists r :: r in MergedRects(q) && r.Overlaps(StandingBox(bodyX0, bodyX1, bodyHeight, top))
  {
    var i :| 0 <= i < |q.cells| && OverSpan(q.cells[i], bodyX0, bodyX1) && q.cells[i].top == t;
    var c := q.cells[i];
    var x, y := Max(c.x0, bodyX0), Max(t - q.tileHeight, top);
    assert CellCovers(q, c, x, y);
    hide MergedRects, RowMajor, PairwiseApart;
    MergedRectsAreExact(q, x, y);
    var k :| 0 <= k < |MergedRects(q)| && MergedRects(q)[k].Contains(x, y);
    assert MergedRects(q)[k].Overlaps(StandingBox(bodyX0, bodyX1, bodyHeight, top));
  }

  // The spawn

  function FindNamed(objects: seq<MapObject>, name: string): Option<MapObject> {
    if objects == [] then None
    else if objects[0].name == name then Some(objects[0])
    else FindNamed(objects[1..], name)
  }

  function ObjectNamed(groups: seq<seq<MapObject>>, name: string): Option<MapObject> {
    if groups == [] then None
    else match FindNamed(groups[0], name)
      case Some(o) => Some(o)
      case None => ObjectNamed(groups[1..], name)
  }

  /** The object at `i` of group `g` is the first of its name. */
  ghost predicate FirstNamed(groups: seq<seq<MapObject>>, name: string, g: nat, i: nat) {
    && g < |groups| && i < |groups[g]| && groups[g][i].name == name
    && (forall k :: 0 <= k < i ==> groups[g][k].name != name)
    && (forall m, k :: 0 <= m < g && 0 <= k < |groups[m]| ==> groups[m][k].name != name)
  }

  lemma {:induction false} FindNamedFinds(objects: seq<MapObject>, name: string)
    ensures var o := FindNamed(objects, name);
            && (o.None? ==> forall k :: 0 <= k < |objects| ==> objects[k].name != name)
            && (o.Some? ==>
                  exists i :: 0 <= i < |objects| && objects[i] == o.value && o.value.name == name
                    && forall k :: 0 <= k < i ==> objects[k].name != name)
  {
    if objects != [] && objects[0].name != name {
      FindNamedFinds(objects[1..], name);
      forall k | 0 < k < |objects| ensures objects[k] == objects[1..][k - 1] {}
      var o := FindNamed(objects[1..], name);
      if o.Some? {
        var i :| 0 <= i < |objects[1..]| && objects[1..][i] == o.value
          && forall k :: 0 <= k < i ==> objects[1..][k].name != name;
        assert objects[i + 1] == o.value;
      }
    }
  }

  /** The object found is the first of that name, group by group. */
  lemma {:induction false} ObjectNamedIsTheFirst(groups: seq<seq<MapObject>>, name: string)
    ensures var o := ObjectNamed(groups, name);
            && (o.None? ==> forall g, k :: 0 <= g < |groups| && 0 <= k < |groups[g]| ==> groups[g][k].name != name)
            && (o.Some? ==> exists g: nat, i: nat :: FirstNamed(groups, name, g, i) && groups[g][i] == o.value)
  {
    hide FindNamed;
    if groups != [] {
      FindNamedFinds(groups[0], name);
      var here := FindNamed(groups[0], name);
      if here.Some? {
        var i :| 0 <= i < |groups[0]| && groups[0][i] == here.value && here.value.name == name
          && forall k :: 0 <= k < i ==> groups[0][k].name != name;
        assert FirstNamed(groups, name, 0, i);
      } else {
        ObjectNamedIsTheFirst(groups[1..], name);
        forall g | 0 < g < |groups| ensures groups[g] == groups[1..][g - 1] {}
        var o := ObjectNamed(groups[1..], name);
        if o.Some? {
          var g: nat, i: nat :| FirstNamed(groups[1..], name, g, i) && groups[1..][g][i] == o.value;
          assert FirstNamed(groups, name, g + 1, i);
        }
      }
    }
  }

  /** Tile objects are anchored at the bottom, marked Tiled rectangles at the top. */
  function WorldBottomLeft(level: MapData, o: MapObject): (real, real) {
    var base := PixelHeight(level) as real - o.y;
    (o.x, if o.tiledRect then base - o.height else base)
  }

  /** In the downward coordinates of the map the lower edge of an object is `y`, or `y + height` for a
      marked rectangle; the world point is that edge, measured from the bottom of the map. */
  lemma WorldBottomLeftIsTheLowerEdge(level: MapData, o: MapObject)
    ensures var p := WorldBottomLeft(level, o);
            && p.0 == o.x
            && p.1 + o.y + (if o.tiledRect then o.height else 0.0) == (level.height * level.tileHeight) as real
  {
  }

  ghost predicate SpawnCandidate(q: SurfaceQuery, marker: (real, real), t: real) {
    var center := marker.0 + SPRITE_WIDTH * 0.5;
    var half := BODY_WIDTH * 0.5;
    InWindow(q, center - half + FOOT_INSET, center + half - FOOT_INSET, marker.1, q.tileHeight, t)
  }

  /** The player standing with his feet at `feet` touches no collision rectangle. */
  ghost predicate Free(q: SurfaceQuery, marker: (real, real), feet: real) {
    var center := marker.0 + SPRITE_WIDTH * 0.5;
    var box := Rect(center - BODY_WIDTH * 0.5, feet, BODY_WIDTH, STANDING_HEIGHT);
    forall r :: r in MergedRects(q) ==> !r.Overlaps(box)
  }

  /** The spawn moves by at most one tile, to the nearest in-window surface (the lower on ties), a
      surface on which the player stands free being preferred; without any it stays. */
  method ResolvedPlayerBottom(level: MapData, q: SurfaceQuery) returns (p: (real, real))
    requires GridCells(q)
    ensures var o := ObjectNamed(level.objectGroups, "vitorc");
            match o
            case None => p == (0.0, DEFAULT_GROUND_Y)
            case Some(player) =>
              var marker := WorldBottomLeft(level, player);
              && p.0 == marker.0 && Distance(p.1, marker.1) <= q.tileHeight
              && (p.1 == marker.1 || SpawnCandidate(q, marker, p.1))
              && ((forall t :: !SpawnCandidate(q, marker, t)) ==> p.1 == marker.1)
              && ((exists t :: SpawnCandidate(q, marker, t)) ==>
                    && SpawnCandidate(q, marker, p.1)
                    && (if Free(q, marker, p.1)
                        then forall t :: SpawnCandidate(q, marker, t) && Free(q, marker, t) ==> Better(p.1, t, marker.1)
                        else forall t :: SpawnCandidate(q, marker, t) ==>
                               !Free(q, marker, t) && Better(p.1, t, marker.1)))
  {
    var o := ObjectNamed(level.objectGroups, "vitorc");
    if o.None? { return (0.0, DEFAULT_GROUND_Y); }
    var marker := WorldBottomLeft(level, o.value);
    var center := marker.0 + SPRITE_WIDTH * 0.5;
    var half := BODY_WIDTH * 0.5;
    var feet := BoundedSurfaceY(q, center - half + FOOT_INSET, center + half - FOOT_INSET, marker.1, q.tileHeight,
                                center - half, center + half, STANDING_HEIGHT);
    forall t ensures Clear(q, center - half, center + half, STANDING_HEIGHT, t) <==> Free(q, marker, t) {
      ClearMeansNoOverlap(q, center - half, center + half, STANDING_HEIGHT, t);
      assert StandingBox(center - half, center + half, STANDING_HEIGHT, t)
          == Rect(center - BODY_WIDTH * 0.5, t, BODY_WIDTH, STANDING_HEIGHT);
    }
    return (marker.0, if feet.Some? then feet.value else marker.1);
  }
}
