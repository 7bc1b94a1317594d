/**
 The editor's crop and black redaction on the content canvas. Coordinates are whole canvas pixels;
 the banner above the content is `banner` pixels high.
 */
module Raster {
  import opened Wrappers

  /** A pixel's colour; black is what redaction paints. */
  type Color = nat
  const BLACK: Color := 0

  datatype Rect = Rect(x: int, y: int, w: int, h: int) {
    /** Does the rectangle cover the pixel at (px, py)? */
    predicate Covers(px: int, py: int) {
      x <= px < x + w && y <= py < y + h
    }

    function MovedBy(dx: int, dy: int): Rect {
      Rect(x + dx, y + dy, w, h)
    }
  }

  datatype Image = Image(width: nat, height: nat, rows: seq<seq<Color>>) {
    ghost predicate Valid() {
      |rows| == height && forall y :: 0 <= y < height ==> |rows[y]| == width
    }

    predicate Has(px: int, py: int) {
      0 <= px < width && 0 <= py < height
    }

    function At(px: int, py: int): Color
      requires Valid() && Has(px, py)
    {
      rows[py][px]
    }
  }

  function Min(a: int, b: int): int { if a < b then a else b }

  function Max(a: int, b: int): int { if a < b then b else a }

  function Abs(a: int): nat { if a < 0 then -a else a }

  // ---- rectangles ---------------------------------------------------------------------------

  function RectFromPoints(ax: int, ay: int, cx: int, cy: int): Rect {
    Rect(Min(ax, cx), Min(ay, cy), Abs(cx - ax), Abs(cy - ay))
  }

  /** The dragged rectangle spans the two points whichever came first. */
  lemma RectSpansPoints(ax: int, ay: int, cx: int, cy: int, px: int, py: int)
    ensures RectFromPoints(ax, ay, cx, cy) == RectFromPoints(cx, cy, ax, ay)
    ensures RectFromPoints(ax, ay, cx, cy).Covers(px, py) <==>
      (ax <= px < cx || cx <= px < ax) && (ay <= py < cy || cy <= py < ay)
  {
  }

  function ToContentRect(r: Rect, banner: int, width: nat, height: nat): Option<Rect> {
    var x, y := Max(0, r.x), Max(0, r.y - banner);
    var right, bottom := Min(r.x + r.w, width), Min(r.y + r.h - banner, height);
    if right - x < 1 || bottom - y < 1 then None else Some(Rect(x, y, right - x, bottom - y))
  }

  /** The result is exactly the part of the content the selection lies over; no result means no such part. */
  lemma ContentRectIsIntersection(r: Rect, banner: int, width: nat, height: nat, px: int, py: int)
    ensures var c := ToContentRect(r, banner, width, height);
      (c.Some? && c.value.Covers(px, py)) <==> (0 <= px < width && 0 <= py < height && r.Covers(px, py + banner))
  {
  }

  /** And it is never empty: some pixel is covered whenever there is a result. */
  lemma ContentRectNotEmpty(r: Rect, banner: int, width: nat, height: nat)
    ensures var c := ToContentRect(r, banner, width, height);
      c.Some? ==> 0 <= c.value.x && 0 <= c.value.y && 1 <= c.value.w && 1 <= c.value.h
                  && c.value.x + c.value.w <= width && c.value.y + c.value.h <= height
  {
  }

  // ---- painting and cutting -------------------------------------------------------------------

  function Painted(img: Image, r: Rect): (out: Image)
    requires img.Valid()
    ensures out.Valid() && out.width == img.width && out.height == img.height
    ensures forall px, py :: out.Has(px, py) ==> out.At(px, py) == if r.Covers(px, py) then BLACK else img.At(px, py)
  {
    Image(img.width, img.height, seq(img.height, y requires 0 <= y < img.height =>
      seq(img.width, x requires 0 <= x < img.width => if r.Covers(x, y) then BLACK else img.rows[y][x])))
  }

  /** A rectangle inside the image. */
  predicate Inside(r: Rect, img: Image) {
    0 <= r.x && 0 <= r.y && 0 <= r.w && 0 <= r.h && r.x + r.w <= img.width && r.y + r.h <= img.height
  }

  function Cropped(img: Image, r: Rect): (out: Image)
    requires img.Valid() && Inside(r, img)
    ensures out.Valid() && out.width == r.w && out.height == r.h
    ensures forall px, py :: out.Has(px, py) ==> out.At(px, py) == img.At(px + r.x, py + r.y)
  {
    Image(r.w, r.h, seq(r.h, y requires 0 <= y < r.h => img.rows[r.y + y][r.x..r.x + r.w]))
  }

  /** Images are equal when they have the same size and the same pixels. */
  lemma SamePixels(a: Image, b: Image)
    requires a.Valid() && b.Valid() && a.width == b.width && a.height == b.height
    requires forall px, py :: a.Has(px, py) ==> a.At(px, py) == b.At(px, py)
    ensures a == b
  {
    forall y | 0 <= y < a.height ensures a.rows[y] == b.rows[y] {
      forall x | 0 <= x < a.width ensures a.rows[y][x] == b.rows[y][x] {
        assert a.At(x, y) == b.At(x, y);
      }
    }
  }

  function ContentRects(rects: seq<Rect>, banner: int, width: nat, height: nat): seq<Rect> {
    if rects == [] then []
    else
      var before := ContentRects(rects[..|rects| - 1], banner, width, height);
      match ToContentRect(rects[|rects| - 1], banner, width, height)
      case Some(r) => before + [r]
      case None => before
  }

  function PaintedAll(img: Image, rects: seq<Rect>): (out: Image)
    requires img.Valid()
    ensures out.Valid() && out.width == img.width && out.height == img.height
  {
    if rects == [] then img else Painted(PaintedAll(img, rects[..|rects| - 1]), rects[|rects| - 1])
  }

  ghost predicate Under(rects: seq<Rect>, px: int, py: int) {
    exists i :: 0 <= i < |rects| && rects[i].Covers(px, py)
  }

  /** The black redaction of the regions drawn on the composited canvas. */
  function Redacted(img: Image, rects: seq<Rect>, banner: int): (out: Image)
    requires img.Valid()
    ensures out.Valid() && out.width == img.width && out.height == img.height
  {
    PaintedAll(img, ContentRects(rects, banner, img.width, img.height))
  }

  // ---- the editor's canvas ------------------------------------------------------------------------

  datatype Outcome = Done | DragFirst | NoContent

  class ContentCanvas {
    var content: Image

    constructor (content: Image)
      requires content.Valid()
      ensures this.content == content
    {
      this.content := content;
    }

    method FillRect(r: Rect)
      requires content.Valid()
      modifies this
      ensures content == Painted(old(content), r)
    {
      content := Painted(content, r);
    }

    /** Paint every region that lies over content; refuse when none does. */
    method ApplyRedact(rects: seq<Rect>, banner: int) returns (out: Outcome)
      requires content.Valid()
      modifies this
      ensures out == (if rects == [] then DragFirst
                      else if ContentRects(rects, banner, old(content).width, old(content).height) == [] then NoContent else Done)
      ensures content == Redacted(old(content), rects, banner)
    {
      if rects == [] {
        return DragFirst;
      }
      var regions := [];
      for i := 0 to |rects|
        invariant regions == ContentRects(rects[..i], banner, content.width, content.height)
      {
        assert rects[..i + 1][..i] == rects[..i];
        match ToContentRect(rects[i], banner, content.width, content.height) {
          case Some(r) => regions := regions + [r];
          case None =>
        }
      }
      assert rects[..|rects|] == rects;
      if regions == [] {
        return NoContent;
      }
      for i := 0 to |regions|
        invariant content.Valid() && content == PaintedAll(old(content), regions[..i])
      {
        assert regions[..i + 1][..i] == regions[..i];
        FillRect(regions[i]);
      }
      assert regions[..|regions|] == regions;
      return Done;
    }

    /** Snapshot the selected content, resize the canvas, put the snapshot back at the origin. */
    method ApplyCrop(selection: Option<Rect>, banner: int) returns (out: Outcome)
      requires content.Valid()
      modifies this
      ensures content == CropOf(old(content), selection, banner).0 && out == CropOf(old(content), selection, banner).1
      ensures content.Valid()
    {
      if selection.None? || selection.value.w < 4 || selection.value.h < 4 {
        return DragFirst;
      }
      var r := ToContentRect(selection.value, banner, content.width, content.height);
      if r.None? || r.value.w < 4 || r.value.h < 4 {
        return NoContent;
      }
      ContentRectNotEmpty(selection.value, banner, content.width, content.height);
      var tmp := Cropped(content, r.value);
      content := tmp;
      return Done;
    }
  }

  function CropOf(img: Image, selection: Option<Rect>, banner: int): (Image, Outcome)
    requires img.Valid()
  {
    if selection.None? || selection.value.w < 4 || selection.value.h < 4 then (img, DragFirst)
    else
      match ToContentRect(selection.value, banner, img.width, img.height)
      case None => (img, NoContent)
      case Some(r) =>
        ContentRectNotEmpty(selection.value, banner, img.width, img.height);
        if r.w < 4 || r.h < 4 then (img, NoContent) else (Cropped(img, r), Done)
  }

  /**
   A crop works exactly on a selection of at least 4 by 4 pixels of which at least 4 by 4 lie over content; it
   then leaves those pixels and nothing else, and otherwise changes nothing.
   */
  lemma CropWorksIff(img: Image, selection: Option<Rect>, banner: int, px: int, py: int)
    requires img.Valid()
    ensures var out := CropOf(img, selection, banner);
      if selection == None || selection.value.w <= 3 || selection.value.h <= 3 then out == (img, DragFirst)
      else
        var s := selection.value;
        var left, top := if s.x < 0 then 0 else s.x, if s.y < banner then 0 else s.y - banner;
        var wide, high := Min(s.x + s.w, img.width) - left, Min(s.y + s.h - banner, img.height) - top;
        if wide <= 3 || high <= 3 then out == (img, NoContent)
        else
          && out.1 == Done && out.0.Valid() && out.0.width == wide && out.0.height == high
          && (out.0.Has(px, py) ==> img.Has(px + left, py + top) && out.0.At(px, py) == img.At(px + left, py + top))
  {
    if selection.Some? {
      ContentRectNotEmpty(selection.value, banner, img.width, img.height);
    }
  }

  // ---- what redaction does to a pixel ----------------------------------------------------------------

  lemma {:induction false} PaintedAllAt(img: Image, rects: seq<Rect>, px: int, py: int)
    requires img.Valid() && img.Has(px, py)
    ensures PaintedAll(img, rects).At(px, py) == if Under(rects, px, py) then BLACK else img.At(px, py)
  {
    if rects == [] {
    } else {
      var n := |rects| - 1;
      PaintedAllAt(img, rects[..n], px, py);
      if Under(rects[..n], px, py) {
        var i :| 0 <= i < n && rects[..n][i].Covers(px, py);
        assert rects[i].Covers(px, py);
      }
      if Under(rects, px, py) && !rects[n].Covers(px, py) {
        var i :| 0 <= i < |rects| && rects[i].Covers(px, py);
        assert rects[..n][i].Covers(px, py);
      }
    }
  }

  lemma {:induction false} UnderContent(rects: seq<Rect>, banner: int, width: nat, height: nat, px: int, py: int)
    requires 0 <= px < width && 0 <= py < height
    ensures Under(ContentRects(rects, banner, width, height), px, py) <==> Under(rects, px, py + banner)
  {
    if rects == [] {
    } else {
      var n := |rects| - 1;
      var before, after := ContentRects(rects[..n], banner, width, height), ContentRects(rects, banner, width, height);
      UnderContent(rects[..n], banner, width, height, px, py);
      ContentRectIsIntersection(rects[n], banner, width, height, px, py);
      UnderSnoc(rects[..n], rects[n], px, py + banner);
      assert rects == rects[..n] + [rects[n]];
      var c := ToContentRect(rects[n], banner, width, height);
      if c.Some? {
        UnderSnoc(before, c.value, px, py);
      }
    }
  }

  lemma UnderSnoc(rects: seq<Rect>, r: Rect, px: int, py: int)
    ensures Under(rects + [r], px, py) <==> Under(rects, px, py) || r.Covers(px, py)
  {
    var all := rects + [r];
    if Under(rects, px, py) {
      var i :| 0 <= i < |rects| && rects[i].Covers(px, py);
      assert all[i].Covers(px, py);
    }
    assert all[|rects|] == r;
  }

  /** After a black redaction a content pixel is black exactly if it was, or lay under a drawn region. */
  lemma BlackIffCovered(img: Image, rects: seq<Rect>, banner: int, px: int, py: int)
    requires img.Valid() && img.Has(px, py)
    ensures Redacted(img, rects, banner).At(px, py) == BLACK <==>
      img.At(px, py) == BLACK || Under(rects, px, py + banner)
    ensures !Under(rects, px, py + banner) ==> Redacted(img, rects, banner).At(px, py) == img.At(px, py)
  {
    PaintedAllAt(img, ContentRects(rects, banner, img.width, img.height), px, py);
    UnderContent(rects, banner, img.width, img.height, px, py);
  }

  // ---- crops and redactions together ---------------------------------------------------------------------

  /** Two crops are one crop at the summed offset. */
  lemma CropOfCrop(img: Image, r: Rect, q: Rect)
    requires img.Valid() && Inside(r, img) && Inside(q, Cropped(img, r))
    ensures Inside(q.MovedBy(r.x, r.y), img)
    ensures Cropped(Cropped(img, r), q) == Cropped(img, q.MovedBy(r.x, r.y))
  {
    var once, twice := Cropped(img, q.MovedBy(r.x, r.y)), Cropped(Cropped(img, r), q);
    forall px, py | twice.Has(px, py) ensures twice.At(px, py) == once.At(px, py) {
      assert Cropped(img, r).Has(px + q.x, py + q.y);
    }
    SamePixels(twice, once);
  }

  function Moved(rects: seq<Rect>, dx: int, dy: int): (out: seq<Rect>)
    ensures |out| == |rects| && forall i :: 0 <= i < |rects| ==> out[i] == rects[i].MovedBy(dx, dy)
  {
    seq(|rects|, i requires 0 <= i < |rects| => rects[i].MovedBy(dx, dy))
  }

  lemma UnderMoved(rects: seq<Rect>, dx: int, dy: int, px: int, py: int)
    ensures Under(Moved(rects, dx, dy), px, py) <==> Under(rects, px - dx, py - dy)
  {
    if Under(Moved(rects, dx, dy), px, py) {
      var i :| 0 <= i < |rects| && Moved(rects, dx, dy)[i].Covers(px, py);
      assert rects[i].Covers(px - dx, py - dy);
    }
    if Under(rects, px - dx, py - dy) {
      var i :| 0 <= i < |rects| && rects[i].Covers(px - dx, py - dy);
      assert Moved(rects, dx, dy)[i].Covers(px, py);
    }
  }

  /** Redacting and then cropping is cropping and then redacting the regions moved along. */
  lemma RedactCommutesWithCrop(img: Image, rects: seq<Rect>, banner: int, r: Rect)
    requires img.Valid() && Inside(r, img)
    ensures Cropped(Redacted(img, rects, banner), r) == Redacted(Cropped(img, r), Moved(rects, -r.x, -r.y), banner)
  {
    var a := Cropped(Redacted(img, rects, banner), r);
    var moved := Moved(rects, -r.x, -r.y);
    var b := Redacted(Cropped(img, r), moved, banner);
    forall px, py | a.Has(px, py) ensures a.At(px, py) == b.At(px, py) {
      UnderMoved(rects, -r.x, -r.y, px, py + banner);
      BlackIffCovered(img, rects, banner, px + r.x, py + r.y);
      BlackIffCovered(Cropped(img, r), moved, banner, px, py);
      assert img.Has(px + r.x, py + r.y);
    }
    SamePixels(a, b);
  }
}
