/** Axis-aligned rectangles of the scene, as half-open point sets, and the exact subtraction of one
    from another. */
module Rects {
  /** Sizes are non-negative in every rectangle the levels build. */
  datatype Rect = Rect(x: real, y: real, width: real, height: real) {
    function MinX(): real { x }
    function MinY(): real { y }
    function MaxX(): real { x + width }
    function MaxY(): real { y + height }

    predicate Positive() { width > 0.0 && height > 0.0 }

    predicate Contains(px: real, py: real) {
      MinX() <= px < MaxX() && MinY() <= py < MaxY()
    }

    /** The two boxes share interior points. */
    predicate Overlaps(r: Rect) {
      MinX() < r.MaxX() && r.MinX() < MaxX() && MinY() < r.MaxY() && r.MinY() < MaxY()
    }
  }

  function Max(a: real, b: real): real { if a < b then b else a }
  function Min(a: real, b: real): real { if a < b then a else b }

  /** The common part; its sizes are negative when there is none. */
  function Intersection(r: Rect, s: Rect): Rect {
    var x, y := Max(r.MinX(), s.MinX()), Max(r.MinY(), s.MinY());
    Rect(x, y, Min(r.MaxX(), s.MaxX()) - x, Min(r.MaxY(), s.MaxY()) - y)
  }

  ghost predicate Covers(rects: seq<Rect>, px: real, py: real) {
    exists i :: 0 <= i < |rects| && rects[i].Contains(px, py)
  }

  ghost predicate AllPositive(rects: seq<Rect>) {
    forall i :: 0 <= i < |rects| ==> rects[i].Positive()
  }

  ghost predicate PairwiseApart(rects: seq<Rect>) {
    forall i, j :: 0 <= i < j < |rects| ==> !rects[i].Overlaps(rects[j])
  }

  ghost predicate Within(r: Rect, s: Rect) {
    s.MinX() <= r.MinX() && r.MaxX() <= s.MaxX() && s.MinY() <= r.MinY() && r.MaxY() <= s.MaxY()
  }

  ghost predicate Inside(rects: seq<Rect>, r: Rect) {
    forall i :: 0 <= i < |rects| ==> Within(rects[i], r)
  }

  /** At most one piece: kept only when it has area. */
  function Piece(cond: bool, r: Rect): seq<Rect> {
    if cond && r.width > 0.0 && r.height > 0.0 then [r] else []
  }

  /** Below, above, left and right of the overlap, in that order. */
  function Subtract(rect: Rect, cut: Rect): seq<Rect> {
    var overlap := Intersection(rect, cut);
    if !(overlap.width > 0.0 && overlap.height > 0.0) then [rect]
    else
      var middleMinY := Max(rect.MinY(), overlap.MinY());
      var middleHeight := Min(rect.MaxY(), overlap.MaxY()) - middleMinY;
      Piece(overlap.MinY() > rect.MinY(),
            Rect(rect.MinX(), rect.MinY(), rect.width, overlap.MinY() - rect.MinY()))
      + Piece(overlap.MaxY() < rect.MaxY(),
              Rect(rect.MinX(), overlap.MaxY(), rect.width, rect.MaxY() - overlap.MaxY()))
      + Piece(middleHeight > 0.0 && overlap.MinX() > rect.MinX(),
              Rect(rect.MinX(), middleMinY, overlap.MinX() - rect.MinX(), middleHeight))
      + Piece(middleHeight > 0.0 && overlap.MaxX() < rect.MaxX(),
              Rect(overlap.MaxX(), middleMinY, rect.MaxX() - overlap.MaxX(), middleHeight))
  }

  lemma CoversConcat(a: seq<Rect>, b: seq<Rect>, px: real, py: real)
    ensures Covers(a + b, px, py) <==> Covers(a, px, py) || Covers(b, px, py)
  {
    if Covers(a, px, py) {
      var i :| 0 <= i < |a| && a[i].Contains(px, py);
      assert (a + b)[i].Contains(px, py);
    }
    if Covers(b, px, py) {
      var i :| 0 <= i < |b| && b[i].Contains(px, py);
      assert (a + b)[|a| + i].Contains(px, py);
    }
  }

  lemma CoversPiece(cond: bool, r: Rect, px: real, py: real)
    ensures Covers(Piece(cond, r), px, py) <==> cond && r.Contains(px, py)
  {
    if cond && r.width > 0.0 && r.height > 0.0 {
      assert Piece(cond, r)[0] == r;
    }
  }

  /** The pieces are exactly the points of the rectangle outside the cut. */
  lemma SubtractIsDifference(rect: Rect, cut: Rect, px: real, py: real)
    requires rect.width >= 0.0 && rect.height >= 0.0
    ensures Covers(Subtract(rect, cut), px, py) <==> rect.Contains(px, py) && !cut.Contains(px, py)
  {
    var overlap := Intersection(rect, cut);
    if !(overlap.width > 0.0 && overlap.height > 0.0) {
      assert Subtract(rect, cut)[0] == rect;
    } else {
      var middleMinY := Max(rect.MinY(), overlap.MinY());
      var middleHeight := Min(rect.MaxY(), overlap.MaxY()) - middleMinY;
      var c1, r1 := overlap.MinY() > rect.MinY(),
                    Rect(rect.MinX(), rect.MinY(), rect.width, overlap.MinY() - rect.MinY());
      var c2, r2 := overlap.MaxY() < rect.MaxY(),
                    Rect(rect.MinX(), overlap.MaxY(), rect.width, rect.MaxY() - overlap.MaxY());
      var c3, r3 := middleHeight > 0.0 && overlap.MinX() > rect.MinX(),
                    Rect(rect.MinX(), middleMinY, overlap.MinX() - rect.MinX(), middleHeight);
      var c4, r4 := middleHeight > 0.0 && overlap.MaxX() < rect.MaxX(),
                    Rect(overlap.MaxX(), middleMinY, rect.MaxX() - overlap.MaxX(), middleHeight);
      var p1, p2, p3, p4 := Piece(c1, r1), Piece(c2, r2), Piece(c3, r3), Piece(c4, r4);
      CoversPiece(c1, r1, px, py);
      CoversPiece(c2, r2, px, py);
      CoversPiece(c3, r3, px, py);
      CoversPiece(c4, r4, px, py);
      CoversConcat(p1, p2, px, py);
      CoversConcat(p1 + p2, p3, px, py);
      CoversConcat(p1 + p2 + p3, p4, px, py);
    }
  }

  ghost predicate Shaped(rects: seq<Rect>, r: Rect) {
    AllPositive(rects) && PairwiseApart(rects) && Inside(rects, r)
  }

  ghost predicate NoneOverlap(a: seq<Rect>, b: seq<Rect>) {
    forall i, j :: 0 <= i < |a| && 0 <= j < |b| ==> !a[i].Overlaps(b[j])
  }

  lemma ShapedConcat(a: seq<Rect>, b: seq<Rect>, r: Rect)
    requires Shaped(a, r) && Shaped(b, r) && NoneOverlap(a, b)
    ensures Shaped(a + b, r)
  {
  }

  lemma NoneOverlapConcat(a: seq<Rect>, b: seq<Rect>, c: seq<Rect>)
    requires NoneOverlap(a, c) && NoneOverlap(b, c)
    ensures NoneOverlap(a + b, c)
  {
  }

  lemma PieceIsShaped(cond: bool, r: Rect, whole: Rect)
    requires Within(r, whole)
    ensures Shaped(Piece(cond, r), whole)
  {
  }

  lemma PiecesApart(c: bool, r: Rect, d: bool, s: Rect)
    requires !r.Overlaps(s)
    ensures NoneOverlap(Piece(c, r), Piece(d, s))
  {
  }

  /** The pieces have area, lie in the rectangle and do not overlap each other. */
  lemma SubtractKeepsShape(rect: Rect, cut: Rect)
    requires rect.Positive()
    ensures Shaped(Subtract(rect, cut), rect)
  {
    var overlap := Intersection(rect, cut);
    if overlap.width > 0.0 && overlap.height > 0.0 {
      var middleMinY := Max(rect.MinY(), overlap.MinY());
      var middleHeight := Min(rect.MaxY(), overlap.MaxY()) - middleMinY;
      var c1, r1 := overlap.MinY() > rect.MinY(),
                    Rect(rect.MinX(), rect.MinY(), rect.width, overlap.MinY() - rect.MinY());
      var c2, r2 := overlap.MaxY() < rect.MaxY(),
                    Rect(rect.MinX(), overlap.MaxY(), rect.width, rect.MaxY() - overlap.MaxY());
      var c3, r3 := middleHeight > 0.0 && overlap.MinX() > rect.MinX(),
                    Rect(rect.MinX(), middleMinY, overlap.MinX() - rect.MinX(), middleHeight);
      var c4, r4 := middleHeight > 0.0 && overlap.MaxX() < rect.MaxX(),
                    Rect(overlap.MaxX(), middleMinY, rect.MaxX() - overlap.MaxX(), middleHeight);
      var p1, p2, p3, p4 := Piece(c1, r1), Piece(c2, r2), Piece(c3, r3), Piece(c4, r4);
      assert Subtract(rect, cut) == p1 + p2 + p3 + p4;
      hide Subtract, Piece, NoneOverlap, Shaped;
      PieceIsShaped(c1, r1, rect);
      PieceIsShaped(c2, r2, rect);
      PieceIsShaped(c3, r3, rect);
      PieceIsShaped(c4, r4, rect);
      PiecesApart(c1, r1, c2, r2);
      PiecesApart(c1, r1, c3, r3);
      PiecesApart(c2, r2, c3, r3);
      PiecesApart(c1, r1, c4, r4);
      PiecesApart(c2, r2, c4, r4);
      PiecesApart(c3, r3, c4, r4);
      ShapedConcat(p1, p2, rect);
      NoneOverlapConcat(p1, p2, p3);
      ShapedConcat(p1 + p2, p3, rect);
      NoneOverlapConcat(p1, p2, p4);
      NoneOverlapConcat(p1 + p2, p3, p4);
      ShapedConcat(p1 + p2 + p3, p4, rect);
    } else {
      WholeIsShaped(rect);
    }
  }

  /** Without an overlap the rectangle stays whole. Otherwise what lies below and above the overlap keeps the
      whole width, and only beside it the rectangle is split. */
  lemma SubtractSplitsBesideOnly(rect: Rect, cut: Rect)
    requires rect.Positive() && cut.Positive()
    ensures !rect.Overlaps(cut) ==> Subtract(rect, cut) == [rect]
    ensures rect.Overlaps(cut) ==>
              |Subtract(rect, cut)| <= 4 && forall k :: 0 <= k < |Subtract(rect, cut)| ==>
                var piece := Subtract(rect, cut)[k];
                || (piece.x == rect.x && piece.width == rect.width
                    && (piece.MaxY() == cut.MinY() || piece.MinY() == cut.MaxY()))
                || ((piece.MaxX() == cut.MinX() || piece.MinX() == cut.MaxX())
                    && piece.MinY() == Max(rect.MinY(), cut.MinY()) && piece.MaxY() == Min(rect.MaxY(), cut.MaxY()))
  {
  }

  lemma WholeIsShaped(r: Rect)
    requires r.Positive()
    ensures Shaped([r], r)
  {
  }

  /** `flatMap` of the subtraction over a list. */
  function SubtractAll(rects: seq<Rect>, cut: Rect): seq<Rect> {
    if rects == [] then []
    else SubtractAll(rects[..|rects| - 1], cut) + Subtract(rects[|rects| - 1], cut)
  }

  lemma {:induction false} SubtractAllIsDifference(rects: seq<Rect>, cut: Rect, px: real, py: real)
    requires AllPositive(rects)
    ensures Covers(SubtractAll(rects, cut), px, py) <==> Covers(rects, px, py) && !cut.Contains(px, py)
  {
    if rects != [] {
      var n := |rects| - 1;
      SubtractAllIsDifference(rects[..n], cut, px, py);
      SubtractIsDifference(rects[n], cut, px, py);
      CoversConcat(SubtractAll(rects[..n], cut), Subtract(rects[n], cut), px, py);
      CoversConcat(rects[..n], [rects[n]], px, py);
      assert rects == rects[..n] + [rects[n]];
      CoversPiece(true, rects[n], px, py);
    }
  }

  ghost predicate Shard(piece: Rect, rects: seq<Rect>) {
    exists j :: 0 <= j < |rects| && Within(piece, rects[j])
  }

  /** Every piece lies in one of the rectangles it came from. */
  ghost predicate Shards(pieces: seq<Rect>, rects: seq<Rect>) {
    forall i :: 0 <= i < |pieces| ==> Shard(pieces[i], rects)
  }

  lemma ApartFromShards(pieces: seq<Rect>, rects: seq<Rect>, more: seq<Rect>, r: Rect)
    requires Shards(pieces, rects) && Inside(more, r)
    requires forall j :: 0 <= j < |rects| ==> !rects[j].Overlaps(r)
    requires PairwiseApart(pieces) && PairwiseApart(more)
    ensures PairwiseApart(pieces + more)
  {
    forall i, k | 0 <= i < |pieces| && 0 <= k < |more|
      ensures !pieces[i].Overlaps(more[k])
    {
      assert Shard(pieces[i], rects);
      var j :| 0 <= j < |rects| && Within(pieces[i], rects[j]);
      assert !rects[j].Overlaps(r);
    }
  }

  lemma MoreShards(pieces: seq<Rect>, rects: seq<Rect>, more: seq<Rect>, r: Rect)
    requires Shards(pieces, rects) && Inside(more, r)
    ensures Shards(pieces + more, rects + [r])
  {
    var all, base := pieces + more, rects + [r];
    forall i | 0 <= i < |all| ensures Shard(all[i], base) {
      if i < |pieces| {
        assert Shard(pieces[i], rects);
        var j :| 0 <= j < |rects| && Within(pieces[i], rects[j]);
        assert Within(all[i], base[j]);
      } else {
        assert Within(all[i], base[|rects|]);
      }
    }
  }

  lemma {:induction false} SubtractAllKeepsShape(rects: seq<Rect>, cut: Rect)
    requires AllPositive(rects)
    ensures AllPositive(SubtractAll(rects, cut)) && Shards(SubtractAll(rects, cut), rects)
    ensures PairwiseApart(rects) ==> PairwiseApart(SubtractAll(rects, cut))
  {
    hide Subtract;
    if rects != [] {
      var n := |rects| - 1;
      var pieces, more := SubtractAll(rects[..n], cut), Subtract(rects[n], cut);
      SubtractAllKeepsShape(rects[..n], cut);
      SubtractKeepsShape(rects[n], cut);
      if PairwiseApart(rects) {
        ApartFromShards(pieces, rects[..n], more, rects[n]);
      }
      MoreShards(pieces, rects[..n], more, rects[n]);
      assert rects == rects[..n] + [rects[n]];
    }
  }
}
