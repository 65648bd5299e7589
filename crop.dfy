/** The crop tool's drag protocol: a press on the crop box records where in
    the box the pointer is, moves anywhere in the window reposition the box
    while the drag is on, a release anywhere ends it. Only the box's origin
    ever moves; its size stays what it was. */
module Crop {

  /** The crop rectangle, in the viewer's CSS pixels. */
  datatype Rect = Rect(x: real, y: real, w: real, h: real)

  /** `crop`, `dragging`, `offsetX` and `offsetY`. */
  datatype DragState = DragState(crop: Rect, dragging: bool, offsetX: real, offsetY: real)

  /** The state at page load: a 200 by 200 box at (120, 90), no drag. */
  const Initial := DragState(Rect(120.0, 90.0, 200.0, 200.0), false, 0.0, 0.0)

  datatype Mouse =
    | Press(offsetX: real, offsetY: real)                     // mousedown on the box, at this point inside it
    | Move(clientX: real, clientY: real, left: real, top: real) // mousemove; `left`/`top` of the canvas's bounding box
    | Release                                                  // mouseup

  function Handle(d: DragState, m: Mouse): DragState
  {
    match m
    case Press(ox, oy) => d.(dragging := true, offsetX := ox, offsetY := oy)
    case Move(cx, cy, left, top) =>
      if !d.dragging then d
      else d.(crop := d.crop.(x := cx - left - d.offsetX, y := cy - top - d.offsetY))
    case Release => d.(dragging := false)
  }

  function HandleAll(d: DragState, ms: seq<Mouse>): DragState
    decreases |ms|
  {
    if ms == [] then d else HandleAll(Handle(d, ms[0]), ms[1..])
  }

  /** While the drag is on, a move puts the box where the pointer keeps its
      grip: the pointer is at the same point inside the box as when it was
      pressed. Nothing else changes. */
  lemma MoveKeepsGrip(d: DragState, cx: real, cy: real, left: real, top: real)
    requires d.dragging
    ensures var r := Handle(d, Move(cx, cy, left, top));
      && left + r.crop.x + d.offsetX == cx
      && top + r.crop.y + d.offsetY == cy
      && r.crop.w == d.crop.w && r.crop.h == d.crop.h
      && r.dragging && r.offsetX == d.offsetX && r.offsetY == d.offsetY
  {
  }

  /** Without a drag, a move changes nothing. */
  lemma MoveWithoutDragIsIgnored(d: DragState, cx: real, cy: real, left: real, top: real)
    requires !d.dragging
    ensures Handle(d, Move(cx, cy, left, top)) == d
  {
  }

  /** Within one drag, the box follows the pointer: two moves over the same
      canvas position shift the box by exactly the pointer's displacement. */
  lemma BoxFollowsPointer(d: DragState, cx1: real, cy1: real, cx2: real, cy2: real, left: real, top: real)
    requires d.dragging
    ensures var r1 := Handle(d, Move(cx1, cy1, left, top));
      var r2 := Handle(r1, Move(cx2, cy2, left, top));
      r2.crop.x - r1.crop.x == cx2 - cx1 && r2.crop.y - r1.crop.y == cy2 - cy1
  {
  }

  /** No sequence of mouse events changes the box's size. */
  lemma {:induction false} SizeNeverChanges(d: DragState, ms: seq<Mouse>)
    ensures HandleAll(d, ms).crop.w == d.crop.w
    ensures HandleAll(d, ms).crop.h == d.crop.h
    decreases |ms|
  {
    if ms != [] {
      SizeNeverChanges(Handle(d, ms[0]), ms[1..]);
    }
  }

  /** After a release, and until the next press, the box stays where it is:
      any mix of moves and releases leaves the whole state as it was. */
  lemma {:induction false} ReleasedBoxStays(d: DragState, ms: seq<Mouse>)
    requires !d.dragging
    requires forall k :: 0 <= k < |ms| ==> !ms[k].Press?
    ensures HandleAll(d, ms) == d
    decreases |ms|
  {
    if ms != [] {
      assert Handle(d, ms[0]) == d;
      ReleasedBoxStays(d, ms[1..]);
    }
  }

  /** A press, any number of moves, and a release leave the box where the
      last move put it (or where it was, if there was no move), with the drag
      ended. */
  lemma {:induction false} DragEndsAtLastMove(d: DragState, ox: real, oy: real, moves: seq<Mouse>)
    requires forall k :: 0 <= k < |moves| ==> moves[k].Move?
    ensures var r := HandleAll(d, [Press(ox, oy)] + moves + [Release]);
      && !r.dragging
      && (moves == [] ==> r.crop == d.crop)
      && (moves != [] ==>
            var m := moves[|moves| - 1];
            r.crop == d.crop.(x := m.clientX - m.left - ox, y := m.clientY - m.top - oy))
  {
    var pressed := Handle(d, Press(ox, oy));
    var ms := [Press(ox, oy)] + moves + [Release];
    assert ms[0] == Press(ox, oy) && ms[1..] == moves + [Release];
    MovesWhileDragging(pressed, moves);
    HandleAllAppend(pressed, moves, [Release]);
    assert [Release][1..] == [];
  }

  /** The moves of a drag: the drag stays on with the same offsets, and the
      box ends where the last move put it. */
  lemma {:induction false} MovesWhileDragging(d: DragState, moves: seq<Mouse>)
    requires d.dragging
    requires forall k :: 0 <= k < |moves| ==> moves[k].Move?
    ensures var r := HandleAll(d, moves);
      && r.dragging && r.offsetX == d.offsetX && r.offsetY == d.offsetY
      && (moves == [] ==> r.crop == d.crop)
      && (moves != [] ==>
            var m := moves[|moves| - 1];
            r.crop == d.crop.(x := m.clientX - m.left - d.offsetX, y := m.clientY - m.top - d.offsetY))
    decreases |moves|
  {
    if moves != [] {
      MovesWhileDragging(Handle(d, moves[0]), moves[1..]);
    }
  }

  lemma {:induction false} HandleAllAppend(d: DragState, a: seq<Mouse>, b: seq<Mouse>)
    ensures HandleAll(d, a + b) == HandleAll(HandleAll(d, a), b)
    decreases |a|
  {
    if a == [] {
      assert a + b == b;
    } else {
      assert (a + b)[0] == a[0] && (a + b)[1..] == a[1..] + b;
      HandleAllAppend(Handle(d, a[0]), a[1..], b);
    }
  }

  /** The crop tool's state as the page holds it. */
  class CropTool {
    var x: real
    var y: real
    var w: real
    var h: real
    var dragging: bool
    var offsetX: real
    var offsetY: real

    ghost function State(): DragState
      reads this
    {
      DragState(Rect(x, y, w, h), dragging, offsetX, offsetY)
    }

    constructor ()
      ensures State() == Initial
    {
      x, y, w, h := 120.0, 90.0, 200.0, 200.0;
      dragging := false;
      offsetX, offsetY := 0.0, 0.0;
    }

    /** mousedown on the crop box. */
    method MouseDown(ox: real, oy: real)
      modifies this
      ensures State() == Handle(old(State()), Press(ox, oy))
      ensures dragging && offsetX == ox && offsetY == oy
      ensures x == old(x) && y == old(y) && w == old(w) && h == old(h)
    {
      dragging := true;
      offsetX := ox;
      offsetY := oy;
    }

    /** mousemove anywhere in the window. */
    method MouseMove(clientX: real, clientY: real, left: real, top: real)
      modifies this
      ensures State() == Handle(old(State()), Move(clientX, clientY, left, top))
      ensures !old(dragging) ==> State() == old(State())
      ensures old(dragging) ==> x == clientX - left - offsetX && y == clientY - top - offsetY
      ensures w == old(w) && h == old(h) && dragging == old(dragging)
      ensures offsetX == old(offsetX) && offsetY == old(offsetY)
    {
      if !dragging {
        return;
      }
      x := clientX - left - offsetX;
      y := clientY - top - offsetY;
    }

    /** mouseup anywhere in the window. */
    method MouseUp()
      modifies this
      ensures State() == Handle(old(State()), Release)
      ensures !dragging
      ensures x == old(x) && y == old(y) && w == old(w) && h == old(h)
    {
      dragging := false;
    }
  }
}
