/** Terrain of one level: the collision rectangles with the active exclusions cut out of them. */
module Terrain {
  import opened Rects

  /** The collision state of a level that `terrainRects` reads. */
  class LevelTerrain {
    const collisionRects: seq<Rect>
    var guidanceActive: seq<bool>
    var guidanceBases: seq<Rect>
    var changingRoomExclusions: seq<Rect>

    constructor (collisionRects: seq<Rect>)
      ensures this.collisionRects == collisionRects
      ensures guidanceActive == [] && guidanceBases == [] && changingRoomExclusions == []
    {
      this.collisionRects := collisionRects;
      guidanceActive, guidanceBases, changingRoomExclusions := [], [], [];
    }

    function Exclusions(): seq<Rect>
      reads this
    {
      ActiveExclusions(guidanceActive, guidanceBases, changingRoomExclusions)
    }

    method DestroyGuidance(index: nat)
      requires index < |guidanceActive|
      modifies `guidanceActive
      ensures guidanceActive == old(guidanceActive)[index := false]
    {
      guidanceActive := guidanceActive[index := false];
    }

    /** A point is solid exactly when a collision rectangle has it, no changing room does, and no base of a
        guidance that is gone: there were towers, and every one of them is destroyed. */
    method TerrainRects() returns (rects: seq<Rect>)
      ensures rects == CutAll(collisionRects, Exclusions())
      ensures AllPositive(collisionRects) ==> forall px: real, py: real ::
                Covers(rects, px, py) <==>
                  && Covers(collisionRects, px, py) && !Covers(changingRoomExclusions, px, py)
                  && !(guidanceActive != [] && true !in guidanceActive && Covers(guidanceBases, px, py))
    {
      hide SubtractAll, Covers, AllPositive;
      rects := collisionRects;
      var bases := if BasesOpen(guidanceActive) then guidanceBases else [];
      for i := 0 to |bases|
        invariant rects == CutAll(collisionRects, bases[..i])
      {
        assert bases[..i + 1][..i] == bases[..i];
        rects := SubtractAll(rects, bases[i]);
      }
      var rooms := changingRoomExclusions;
      assert bases[..|bases|] == bases == bases + rooms[..0];
      for i := 0 to |rooms|
        invariant rects == CutAll(collisionRects, bases + rooms[..i])
      {
        var longer := bases + rooms[..i + 1];
        assert longer[..|longer| - 1] == bases + rooms[..i];
        rects := SubtractAll(rects, rooms[i]);
      }
      assert rooms[..|rooms|] == rooms;
      forall px: real, py: real | AllPositive(collisionRects)
        ensures Covers(rects, px, py) <==>
                  && Covers(collisionRects, px, py) && !Covers(rooms, px, py)
                  && !(guidanceActive != [] && true !in guidanceActive && Covers(guidanceBases, px, py))
      {
        CutAllIsExact(collisionRects, bases + rooms, px, py);
        CoversConcat(bases, rooms, px, py);
        CoversNothing(px, py);
      }
    }
  }

  /** The bases are cut once there were guidance towers and none of them is left. */
  predicate BasesOpen(guidanceActive: seq<bool>) {
    guidanceActive != [] && forall i :: 0 <= i < |guidanceActive| ==> !guidanceActive[i]
  }

  function ActiveExclusions(guidanceActive: seq<bool>, bases: seq<Rect>, rooms: seq<Rect>): seq<Rect> {
    (if BasesOpen(guidanceActive) then bases else []) + rooms
  }

  function CutAll(rects: seq<Rect>, cuts: seq<Rect>): seq<Rect> {
    if cuts == [] then rects
    else SubtractAll(CutAll(rects, cuts[..|cuts| - 1]), cuts[|cuts| - 1])
  }

  /** Cutting every exclusion leaves exactly the points of the rectangles in none of them; the
      pieces have area, and do not overlap when the rectangles did not. */
  lemma {:induction false} CutAllIsExact(rects: seq<Rect>, cuts: seq<Rect>, px: real, py: real)
    requires AllPositive(rects)
    ensures Covers(CutAll(rects, cuts), px, py) <==> Covers(rects, px, py) && !Covers(cuts, px, py)
    ensures AllPositive(CutAll(rects, cuts)) && Shards(CutAll(rects, cuts), rects)
    ensures PairwiseApart(rects) ==> PairwiseApart(CutAll(rects, cuts))
  {
    hide SubtractAll, AllPositive, PairwiseApart, Shards, Covers;
    if cuts == [] {
      ShardsOfThemselves(rects);
      CoversNothing(px, py);
    } else {
      var n := |cuts| - 1;
      var earlier := CutAll(rects, cuts[..n]);
      CutAllIsExact(rects, cuts[..n], px, py);
      SubtractAllIsDifference(earlier, cuts[n], px, py);
      SubtractAllKeepsShape(earlier, cuts[n]);
      ShardsOfShards(SubtractAll(earlier, cuts[n]), earlier, rects);
      assert cuts == cuts[..n] + [cuts[n]];
      CoversConcat(cuts[..n], [cuts[n]], px, py);
      CoversOne(cuts[n], px, py);
    }
  }

  lemma ShardsOfThemselves(rects: seq<Rect>)
    ensures Shards(rects, rects)
  {
    forall i | 0 <= i < |rects| ensures Shard(rects[i], rects) {
      assert Within(rects[i], rects[i]);
    }
  }

  lemma CoversNothing(px: real, py: real)
    ensures !Covers([], px, py)
  {}

  lemma CoversOne(r: Rect, px: real, py: real)
    ensures Covers([r], px, py) <==> r.Contains(px, py)
  {
    assert [r][0] == r;
  }

  lemma ShardsOfShards(a: seq<Rect>, b: seq<Rect>, c: seq<Rect>)
    requires Shards(a, b) && Shards(b, c)
    ensures Shards(a, c)
  {
    forall i | 0 <= i < |a| ensures Shard(a[i], c) {
      assert Shard(a[i], b);
      var j :| 0 <= j < |b| && Within(a[i], b[j]);
      assert Shard(b[j], c);
      var k :| 0 <= k < |c| && Within(b[j], c[k]);
      assert Within(a[i], c[k]);
    }
  }

  /** The only tower left stands at `index`. */
  predicate LastTower(guidanceActive: seq<bool>, index: nat)
    requires index < |guidanceActive|
  {
    guidanceActive[index] && forall i :: 0 <= i < |guidanceActive| && i != index ==> !guidanceActive[i]
  }

  /** Destroying a guidance tower opens exactly the bases when it is the last one, and nothing
      otherwise; no point is ever closed. */
  lemma OpenedPoints(rects: seq<Rect>, active: seq<bool>, index: nat, bases: seq<Rect>, rooms: seq<Rect>,
                     px: real, py: real)
    requires AllPositive(rects) && index < |active|
    ensures var before := CutAll(rects, ActiveExclusions(active, bases, rooms));
            var after := CutAll(rects, ActiveExclusions(active[index := false], bases, rooms));
            Covers(after, px, py) <==>
              Covers(before, px, py) && !(LastTower(active, index) && Covers(bases, px, py))
  {
    hide Covers, AllPositive, CutAll;
    var after := active[index := false];
    CutAllIsExact(rects, ActiveExclusions(active, bases, rooms), px, py);
    CutAllIsExact(rects, ActiveExclusions(after, bases, rooms), px, py);
    CoversConcat(bases, rooms, px, py);
    assert [] + rooms == rooms;
    if BasesOpen(after) {
      assert forall i :: 0 <= i < |active| && i != index ==> active[i] == after[i];
    }
    if BasesOpen(active) { assert after == active; }
  }
}
