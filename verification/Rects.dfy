/**
 Rectangle subtraction (src/gui/window.c).
 */
module Rects {

  datatype Rect = Rect(x: int, y: int, w: int, h: int)

  // The pixel lies in the rectangle (is_point_in_rect).
  predicate In(r: Rect, px: int, py: int) {
    r.x <= px < r.x + r.w && r.y <= py < r.y + r.h
  }

  predicate Solid(r: Rect) {
    r.w > 0 && r.h > 0
  }

  // rect_intersect.
  predicate Intersect(a: Rect, b: Rect) {
    !(a.x + a.w <= b.x || a.x >= b.x + b.w || a.y + a.h <= b.y || a.y >= b.y + b.h)
  }

  ghost predicate Apart(a: Rect, b: Rect) {
    forall px, py :: !(In(a, px, py) && In(b, px, py))
  }

  // rect_intersect holds exactly when the two share a pixel.
  lemma IntersectMeans(a: Rect, b: Rect)
    requires Solid(a) && Solid(b)
    ensures Intersect(a, b) <==> !Apart(a, b)
  {
    if Intersect(a, b) {
      var px, py := if a.x > b.x then a.x else b.x, if a.y > b.y then a.y else b.y;
      assert In(a, px, py) && In(b, px, py);
    }
  }

  // What is left of c, and the rest of r.
  predicate HasLeft(r: Rect, c: Rect) {
    c.x > r.x && c.x < r.x + r.w
  }

  function LeftPart(r: Rect, c: Rect): Rect {
    Rect(r.x, r.y, c.x - r.x, r.h)
  }

  function CutLeft(r: Rect, c: Rect): Rect {
    if HasLeft(r, c) then Rect(c.x, r.y, r.w - (c.x - r.x), r.h) else r
  }

  predicate HasRight(r: Rect, c: Rect) {
    c.x + c.w < r.x + r.w && c.x + c.w > r.x
  }

  function RightPart(r: Rect, c: Rect): Rect {
    Rect(c.x + c.w, r.y, r.x + r.w - (c.x + c.w), r.h)
  }

  function CutRight(r: Rect, c: Rect): Rect {
    if HasRight(r, c) then Rect(r.x, r.y, r.w - (r.x + r.w - (c.x + c.w)), r.h) else r
  }

  predicate HasTop(r: Rect, c: Rect) {
    c.y > r.y && c.y < r.y + r.h
  }

  function TopPart(r: Rect, c: Rect): Rect {
    Rect(r.x, r.y, r.w, c.y - r.y)
  }

  function CutTop(r: Rect, c: Rect): Rect {
    if HasTop(r, c) then Rect(r.x, c.y, r.w, r.h - (c.y - r.y)) else r
  }

  predicate HasBottom(r: Rect, c: Rect) {
    c.y + c.h < r.y + r.h && c.y + c.h > r.y
  }

  function BottomPart(r: Rect, c: Rect): Rect {
    Rect(r.x, c.y + c.h, r.w, r.y + r.h - (c.y + c.h))
  }

  // One more piece, if there is one.
  function With(ps: seq<Rect>, has: bool, p: Rect): seq<Rect> {
    if has then ps + [p] else ps
  }

  // The parts of r that clip_rect makes: left of c, right of it, above it and below it.
  function Pieces(r: Rect, c: Rect): seq<Rect> {
    if !Intersect(r, c) then [r]
    else
      var r1 := CutLeft(r, c);
      var r2 := CutRight(r1, c);
      var r3 := CutTop(r2, c);
      With(With(With(With([], HasLeft(r, c), LeftPart(r, c)), HasRight(r1, c), RightPart(r1, c)),
                HasTop(r2, c), TopPart(r2, c)), HasBottom(r3, c), BottomPart(r3, c))
  }

  ghost predicate Covered(rs: seq<Rect>, px: int, py: int) {
    exists i :: 0 <= i < |rs| && In(rs[i], px, py)
  }

  ghost predicate AllSolid(rs: seq<Rect>) {
    forall i :: 0 <= i < |rs| ==> Solid(rs[i])
  }

  ghost predicate Disjoint(rs: seq<Rect>) {
    forall i, j :: 0 <= i < j < |rs| ==> Apart(rs[i], rs[j])
  }

  // ps and rem divide r, and nothing of ps is in c.
  ghost predicate Divides(ps: seq<Rect>, rem: Rect, r: Rect, c: Rect) {
    && AllSolid(ps) && Disjoint(ps)
    && (forall px, py :: Covered(ps, px, py) ==> !In(rem, px, py) && !In(c, px, py))
    && (forall px, py :: In(r, px, py) <==> Covered(ps, px, py) || In(rem, px, py))
  }

  lemma CoveredWith(ps: seq<Rect>, p: Rect, px: int, py: int)
    ensures Covered(ps + [p], px, py) <==> Covered(ps, px, py) || In(p, px, py)
  {
    var qs := ps + [p];
    if Covered(ps, px, py) {
      var i :| 0 <= i < |ps| && In(ps[i], px, py);
      assert In(qs[i], px, py);
    }
    if In(p, px, py) { assert In(qs[|ps|], px, py); }
  }

  // Cutting p off the remainder.
  lemma DivideStep(ps: seq<Rect>, rem: Rect, p: Rect, rem': Rect, r: Rect, c: Rect)
    requires Divides(ps, rem, r, c) && Solid(p)
    requires forall px, py :: In(rem, px, py) <==> In(p, px, py) || In(rem', px, py)
    requires forall px, py :: In(p, px, py) ==> !In(rem', px, py) && !In(c, px, py)
    ensures Divides(ps + [p], rem', r, c)
  {
    forall px, py ensures Covered(ps + [p], px, py) <==> Covered(ps, px, py) || In(p, px, py) {
      CoveredWith(ps, p, px, py);
    }
    forall i | 0 <= i < |ps| ensures Apart(ps[i], p) {
      forall px, py ensures !(In(ps[i], px, py) && In(p, px, py)) {
        if In(ps[i], px, py) { assert Covered(ps, px, py); }
      }
    }
    hide Solid, Covered, Divides, In;
  }

  lemma LeftStep(ps: seq<Rect>, r0: Rect, r: Rect, c: Rect)
    requires Divides(ps, r, r0, c) && Solid(r)
    ensures Divides(With(ps, HasLeft(r, c), LeftPart(r, c)), CutLeft(r, c), r0, c) && Solid(CutLeft(r, c))
  {
    if HasLeft(r, c) { DivideStep(ps, r, LeftPart(r, c), CutLeft(r, c), r0, c); }
  }

  lemma RightStep(ps: seq<Rect>, r0: Rect, r: Rect, c: Rect)
    requires Divides(ps, r, r0, c) && Solid(r)
    ensures Divides(With(ps, HasRight(r, c), RightPart(r, c)), CutRight(r, c), r0, c) && Solid(CutRight(r, c))
  {
    if HasRight(r, c) { DivideStep(ps, r, RightPart(r, c), CutRight(r, c), r0, c); }
  }

  lemma TopStep(ps: seq<Rect>, r0: Rect, r: Rect, c: Rect)
    requires Divides(ps, r, r0, c) && Solid(r)
    ensures Divides(With(ps, HasTop(r, c), TopPart(r, c)), CutTop(r, c), r0, c) && Solid(CutTop(r, c))
  {
    if HasTop(r, c) { DivideStep(ps, r, TopPart(r, c), CutTop(r, c), r0, c); }
  }

  // What clip_rect drops at the end: the part of r inside c.
  function CutBottom(r: Rect, c: Rect): Rect {
    if HasBottom(r, c) then Rect(r.x, r.y, r.w, c.y + c.h - r.y) else r
  }

  lemma BottomStep(ps: seq<Rect>, r0: Rect, r: Rect, c: Rect)
    requires Divides(ps, r, r0, c) && Solid(r)
    ensures Divides(With(ps, HasBottom(r, c), BottomPart(r, c)), CutBottom(r, c), r0, c)
  {
    if HasBottom(r, c) { DivideStep(ps, r, BottomPart(r, c), CutBottom(r, c), r0, c); }
  }

  lemma CoreInside(r: Rect, c: Rect, px: int, py: int)
    requires Solid(r) && Solid(c) && Intersect(r, c)
    ensures In(CutBottom(CutTop(CutRight(CutLeft(r, c), c), c), c), px, py) ==> In(c, px, py)
  {
  }

  // The pieces are disjoint and cover exactly what is in r but not in c.
  lemma PiecesExact(r: Rect, c: Rect)
    requires Solid(r) && Solid(c)
    ensures AllSolid(Pieces(r, c)) && Disjoint(Pieces(r, c))
    ensures forall px, py :: Covered(Pieces(r, c), px, py) <==> In(r, px, py) && !In(c, px, py)
  {
    if !Intersect(r, c) {
      IntersectMeans(r, c);
      forall px, py ensures Covered([r], px, py) <==> In(r, px, py) && !In(c, px, py) {
        CoveredWith([], r, px, py);
        assert [] + [r] == [r];
      }
    } else {
      var r1 := CutLeft(r, c);
      var r2 := CutRight(r1, c);
      var r3 := CutTop(r2, c);
      var r4 := CutBottom(r3, c);
      assert Divides([], r, r, c);
      forall px, py ensures In(r4, px, py) ==> In(c, px, py) { CoreInside(r, c, px, py); }
      hide In, Intersect, Solid, HasLeft, HasRight, HasTop, HasBottom, LeftPart, RightPart, TopPart, BottomPart, With;
      hide CutLeft, CutRight, CutTop, CutBottom, Covered, AllSolid, Disjoint;
      LeftStep([], r, r, c);
      var p1 := With([], HasLeft(r, c), LeftPart(r, c));
      RightStep(p1, r, r1, c);
      var p2 := With(p1, HasRight(r1, c), RightPart(r1, c));
      TopStep(p2, r, r2, c);
      var p3 := With(p2, HasTop(r2, c), TopPart(r2, c));
      BottomStep(p3, r, r3, c);
    }
  }

  // A clipper without area that rect_intersect still takes for an overlap makes clip_rect lose pixels; it
  // computes the difference exactly when the clipper has an area or does not "intersect".
  lemma PiecesExactIff(r: Rect, c: Rect)
    requires Solid(r) && c.w >= 0 && c.h >= 0
    ensures (forall px, py :: Covered(Pieces(r, c), px, py) <==> In(r, px, py) && !In(c, px, py)) <==>
            (Solid(c) || !Intersect(r, c))
  {
    if Solid(c) {
      PiecesExact(r, c);
    } else if !Intersect(r, c) {
      assert Pieces(r, c)[0] == r;
      forall px, py ensures Covered(Pieces(r, c), px, py) <==> In(r, px, py) && !In(c, px, py) {
        assert Covered(Pieces(r, c), px, py) <==> In(Pieces(r, c)[0], px, py);
      }
    } else {
      var px, py := if c.x > r.x then c.x else r.x, if c.y > r.y then c.y else r.y;
      assert In(r, px, py) && !In(c, px, py);
      assert !Covered(Pieces(r, c), px, py);
    }
  }

  // A clipper of no width that crosses a rectangle takes all the pixels right of it; no window is so narrow.
  lemma FlatClipperLoses(r: Rect, c: Rect, px: int, py: int)
    requires Solid(r) && c.w == 0 && r.x < c.x && c.y <= r.y && r.y + r.h <= c.y + c.h && In(r, px, py) && c.x <= px
    ensures !In(c, px, py) && !Covered(Pieces(r, c), px, py)
  {
    assert Pieces(r, c) == [LeftPart(r, c)];
  }
}
