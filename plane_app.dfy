/** The click logic of the plane application (examples/templates/plane-app.js):
    VR "press on a quad, release on the same quad", the mouse click, the two
    squares of the plane, and the cell grid of the plane's canvas. */
module PlaneApps {
  import opened Common
  import opened Events
  import opened Threelets

  /** The plane coordinates of a hit point (`isec.point.x`, `isec.point.y`). */
  datatype Point = Point(x: real, y: real)

  /** What the plane raycast (`vrcontrollerToPlaneIntersect`,
      `mouseToPlaneIntersect`) reports; `None` when the ray misses. */
  datatype PlaneHit = PlaneHit(faceIndex: nat, point: Point)

  /** The plane spans x in (-2, 2), y in (0, 2); its left half is the open
      square with corners (-2, 0) and (0, 2). */
  predicate IsPointOnLeftSquare(p: Point) {
    p.x < 0.0 && p.x > -2.0 && p.y > 0.0 && p.y < 2.0
  }

  /** The right half: the open square with corners (0, 0) and (2, 2). */
  predicate IsPointOnRightSquare(p: Point) {
    p.x > 0.0 && p.x < 2.0 && p.y > 0.0 && p.y < 2.0
  }

  /** The two squares are open, disjoint, and mirror images across x = 0,
      which belongs to neither. */
  lemma SquaresAreMirroredAndDisjoint(p: Point)
    ensures !(IsPointOnLeftSquare(p) && IsPointOnRightSquare(p))
    ensures p.x == 0.0 ==> !IsPointOnLeftSquare(p) && !IsPointOnRightSquare(p)
    ensures IsPointOnLeftSquare(p) <==> IsPointOnRightSquare(Point(-p.x, p.y))
    ensures IsPointOnLeftSquare(p) ==> -2.0 < p.x < 0.0 && 0.0 < p.y < 2.0
  {
  }

  /** The other triangle of the quad that triangle `f` belongs to. */
  function QuadPartner(f: nat): nat {
    if f % 2 == 0 then f + 1 else f - 1
  }

  /** `Math.floor(a/2) === Math.floor(b/2)` on face indices: the same
      two-triangle quad. */
  predicate SameQuad(a: nat, b: nat) {
    a / 2 == b / 2
  }

  /** Two faces are on the same quad exactly when they are the same triangle
      or the two triangles of one quad. */
  lemma SameQuadIsTrianglePair(a: nat, b: nat)
    ensures SameQuad(a, b) <==> a == b || a == QuadPartner(b)
  {
  }

  /** The face a press-start records: the hit face, or -1 on a miss. */
  function StartFace(hit: Option<PlaneHit>): int {
    if hit.Some? then hit.value.faceIndex else -1
  }

  /** The face `onLeftPlaneClicked` is called with at a press-end whose
      recorded start face is `start`, if it is called at all. */
  function PressEndClick(start: int, hit: Option<PlaneHit>): Option<nat> {
    if start < 0 then None
    else if hit.Some? && SameQuad(hit.value.faceIndex, start) && IsPointOnLeftSquare(hit.value.point)
    then Some(hit.value.faceIndex)
    else None
  }

  /** A VR click on face `f` happens exactly when a press started on the plane,
      the release ray hits face `f`, on the same quad as the start face, at a
      point of the left square. */
  lemma PressEndClickIff(start: int, hit: Option<PlaneHit>, f: nat)
    ensures PressEndClick(start, hit) == Some(f) <==>
              && start >= 0
              && hit.Some? && hit.value.faceIndex == f
              && (f == start || f == QuadPartner(start))
              && IsPointOnLeftSquare(hit.value.point)
  {
    if start >= 0 {
      SameQuadIsTrianglePair(f, start);
    }
  }

  /** The mouse `onClick` callback: the hit face when the hit is on the left square. */
  function MouseClick(hit: Option<PlaneHit>): Option<nat> {
    if hit.Some? && IsPointOnLeftSquare(hit.value.point) then Some(hit.value.faceIndex) else None
  }

  /** The VR click is the mouse click narrowed to releases on the start
      face's quad: whenever a press-end reports a face, a mouse click on the
      same hit reports that face, and a mouse click on face `f` is also the
      press-end click of a press that started on `f` or on its partner. */
  lemma PressEndClickNarrowsMouseClick(start: int, hit: Option<PlaneHit>)
    ensures PressEndClick(start, hit).Some? ==> MouseClick(hit) == PressEndClick(start, hit)
    ensures MouseClick(hit).Some? ==>
              && PressEndClick(MouseClick(hit).value, hit) == MouseClick(hit)
              && PressEndClick(QuadPartner(MouseClick(hit).value), hit) == MouseClick(hit)
    ensures MouseClick(hit).None? ==> PressEndClick(start, hit).None?
  {
    if MouseClick(hit).Some? {
      var f := MouseClick(hit).value;
      SameQuadIsTrianglePair(f, QuadPartner(f));
    }
  }

  /** The application registers its press handlers under `xr-` names, which the
      listener names of `on` do not contain: `on` leaves both tables as they were. */
  lemma XrNamesAreNotRegistered(main: Table, vr: Table, f: Listener)
    ensures Register(main, vr, "xr-trigger-press-start", f) == (main, vr)
    ensures Register(main, vr, "xr-trigger-press-end", f) == (main, vr)
  {
    assert "xr-trigger-press-start" !in EventListenerNames by {
      forall n | n in EventListenerNames ensures n != "xr-trigger-press-start" {
        assert n[0] == 'm' || n[0] == 'v';
      }
    }
    assert "xr-trigger-press-end" !in EventListenerNames by {
      forall n | n in EventListenerNames ensures n != "xr-trigger-press-end" {
        assert n[0] == 'm' || n[0] == 'v';
      }
    }
  }

  // ---------------------------------------------------------------------
  // The application object

  class PlaneApp {
    /** `this._vrPressPlaneStart`: start face per controller, -1 when none. */
    var pressStart: seq<int>
    /** The face indices `onLeftPlaneClicked` has been called with, oldest first. */
    var clicks: seq<nat>

    ghost predicate Valid()
      reads this
    {
      |pressStart| == 2 && forall k :: 0 <= k < 2 ==> pressStart[k] >= -1
    }

    constructor ()
      ensures Valid() && pressStart == [-1, -1] && clicks == []
    {
      pressStart := [-1, -1];
      clicks := [];
    }

    /** The trigger press-start handler for controller `i`, given what the
        controller's ray hits on the plane. */
    method OnTriggerPressStart(i: nat, hit: Option<PlaneHit>)
      requires Valid() && i < 2
      modifies this`pressStart
      ensures Valid() && pressStart == old(pressStart)[i := StartFace(hit)]
    {
      if hit.Some? {
        pressStart := pressStart[i := hit.value.faceIndex];
      } else {
        pressStart := pressStart[i := -1];
      }
    }

    /** The trigger press-end handler for controller `i`, given what the
        controller's ray hits on the plane. With no recorded start it does
        nothing; otherwise it forgets the start and reports a click on the
        same quad of the left square. */
    method OnTriggerPressEnd(i: nat, hit: Option<PlaneHit>)
      requires Valid() && i < 2
      modifies this`pressStart, this`clicks
      ensures Valid() && pressStart[i] == -1
      ensures old(pressStart[i]) < 0 ==> pressStart == old(pressStart) && clicks == old(clicks)
      ensures old(pressStart[i]) >= 0 ==> pressStart == old(pressStart)[i := -1]
      ensures clicks == old(clicks) + (var c := PressEndClick(old(pressStart[i]), hit); if c.Some? then [c.value] else [])
    {
      if pressStart[i] < 0 {
        return;
      }
      var lastFaceIndex := pressStart[i];
      pressStart := pressStart[i := -1];
      // a click needs the release on the start triangle's quad, on the left square
      if hit.Some? {
        var faceIndex := hit.value.faceIndex;
        if faceIndex / 2 == lastFaceIndex / 2 {
          if IsPointOnLeftSquare(hit.value.point) {
            clicks := clicks + [faceIndex];
          }
        }
      }
    }

    /** The mouse `onClick` callback, given what the mouse ray hits on the plane. */
    method OnClick(hit: Option<PlaneHit>)
      modifies this`clicks
      ensures clicks == old(clicks) + (var c := MouseClick(hit); if c.Some? then [c.value] else [])
    {
      if hit.Some? && IsPointOnLeftSquare(hit.value.point) {
        clicks := clicks + [hit.value.faceIndex];
      }
    }
  }

  // ---------------------------------------------------------------------
  // The cell grid of the plane's canvas: cells 64 wide and 32 high

  /** A canvas 2D context call. */
  datatype DrawOp =
    | SetFillStyle(style: string)
    | SetFont(font: string)
    | FillRect(x: int, y: int, w: int, h: int)
    | FillText(text: string, x: int, y: int)

  const CellWidth := 64
  const CellHeight := 32

  /** `boxRect(ctx, row, col, width)` */
  function BoxRect(row: int, col: int, width: int): DrawOp {
    FillRect(col * 64, row * 32, 64 * width, 32)
  }

  /** `boxText(ctx, row, col, str)` */
  function BoxText(row: int, col: int, str: string): DrawOp {
    FillText(str, col * 64 + 8, row * 32 + 20)
  }

  /** `boxRect` covers `width` whole cells of one row, and two boxes side by
      side on a row make up the box of their joint width. */
  lemma BoxRectTiles(row: int, col: int, w1: int, w2: int)
    ensures var a := BoxRect(row, col, w1);
            var b := BoxRect(row, col + w1, w2);
            var ab := BoxRect(row, col, w1 + w2);
            && a.x == col * CellWidth && a.y == row * CellHeight && a.h == CellHeight
            && a.x + a.w == b.x && a.y == b.y
            && ab.x == a.x && ab.w == a.w + b.w && ab.y == a.y && ab.h == a.h
  {
    assert (col + w1) * 64 == col * 64 + 64 * w1;
    assert 64 * (w1 + w2) == 64 * w1 + 64 * w2;
  }

  /** The text of `boxText` is anchored strictly inside the cell of `boxRect`
      with the same row and column. */
  lemma BoxTextInsideCell(row: int, col: int, str: string)
    ensures var r := BoxRect(row, col, 1);
            var t := BoxText(row, col, str);
            r.x < t.x < r.x + r.w && r.y < t.y < r.y + r.h
  {
  }

  /** `drawInfo(ctx, lines)`: the style and font, then line k (0-based) written
      in column 0 of row 3 + k. */
  method DrawInfo(lines: seq<string>) returns (ops: seq<DrawOp>)
    ensures |ops| == |lines| + 2
    ensures ops[0] == SetFillStyle("#cccccc") && ops[1] == SetFont("13px monospace")
    ensures forall k :: 0 <= k < |lines| ==> ops[k + 2] == BoxText(3 + k, 0, lines[k])
  {
    ops := [SetFillStyle("#cccccc"), SetFont("13px monospace")];
    var offset := 3;
    for k := 0 to |lines|
      invariant offset == 3 + k
      invariant |ops| == k + 2
      invariant ops[0] == SetFillStyle("#cccccc") && ops[1] == SetFont("13px monospace")
      invariant forall j :: 0 <= j < k ==> ops[j + 2] == BoxText(3 + j, 0, lines[j])
    {
      ops := ops + [BoxText(offset, 0, lines[k])];
      offset := offset + 1;
    }
  }
}
