/**
 * The draggable, resizable window frame. A drag session starts on mouse-down on the title
 * bar and a resize session on mouse-down on the corner handle; a global mouse-up ends both.
 * Every move writes the new geometry through to the browser's key-value store under the
 * window title followed by "-pos" or "-size".
 */
module WindowGeometry {

  datatype Point = Point(x: int, y: int)
  datatype Dim = Dim(width: int, height: int)

  /** The JSON value stored under a key: a position `{x, y}` or a size `{width, height}`. */
  datatype Stored = StoredPoint(point: Point) | StoredDim(dim: Dim)

  /** What `startResize` records: the size and the pointer at mouse-down. */
  datatype ResizeStart = ResizeStart(w: int, h: int, x: int, y: int)

  const MinWidth: int := 260
  const MinHeight: int := 220
  const DefaultX: int := 40
  /** The default top edge is this far above the bottom of the viewport. */
  const DefaultRise: int := 420
  const DefaultSize: Dim := Dim(360, 380)

  function PosKey(title: string): string { title + "-pos" }
  function SizeKey(title: string): string { title + "-size" }

  /** A position key never collides with a size key, whatever the two titles. */
  lemma PosKeyIsNotSizeKey(t1: string, t2: string)
    ensures PosKey(t1) != SizeKey(t2)
  {
    var a, b := PosKey(t1), SizeKey(t2);
    assert a[|a| - 1] == 's' && b[|b| - 1] == 'e';
  }

  // ---------------------------------------------------------------------------
  // Geometry arithmetic
  // ---------------------------------------------------------------------------

  /** Where the pointer is relative to the window's top-left corner. */
  function Offset(origin: Point, pointer: Point): Point {
    Point(pointer.x - origin.x, pointer.y - origin.y)
  }

  /** The new top-left corner while dragging: pointer minus recorded offset, unclamped. */
  function DragTarget(offset: Point, pointer: Point): (p: Point)
    ensures Offset(p, pointer) == offset
  {
    Point(pointer.x - offset.x, pointer.y - offset.y)
  }

  /** A move at the press point leaves the window where it was. */
  lemma DragAtPressPoint(origin: Point, press: Point)
    ensures DragTarget(Offset(origin, press), press) == origin
  {
  }

  /** The new size while resizing: recorded size plus pointer delta, clamped below. */
  function Resized(start: ResizeStart, pointer: Point): (d: Dim)
    ensures d.width >= MinWidth && d.height >= MinHeight
    ensures d.width >= start.w + (pointer.x - start.x) && d.height >= start.h + (pointer.y - start.y)
    ensures d.width == MinWidth || d.width == start.w + (pointer.x - start.x)
    ensures d.height == MinHeight || d.height == start.h + (pointer.y - start.y)
  {
    var w := start.w + (pointer.x - start.x);
    var h := start.h + (pointer.y - start.y);
    Dim(if w > MinWidth then w else MinWidth, if h > MinHeight then h else MinHeight)
  }

  /** The position after a drag session's moves, one `handleDrag` per pointer. */
  function ReplayDrag(pos: Point, offset: Point, pointers: seq<Point>): (p: Point)
    ensures pointers == [] ==> p == pos
    ensures pointers != [] ==> p == DragTarget(offset, pointers[|pointers| - 1])
    decreases |pointers|
  {
    if pointers == [] then pos
    else ReplayDrag(DragTarget(offset, pointers[0]), offset, pointers[1..])
  }

  /** The size after a resize session's moves, one `handleResize` per pointer. */
  function ReplayResize(size: Dim, start: ResizeStart, pointers: seq<Point>): (d: Dim)
    ensures pointers == [] ==> d == size
    ensures pointers != [] ==> d == Resized(start, pointers[|pointers| - 1])
    decreases |pointers|
  {
    if pointers == [] then size
    else ReplayResize(Resized(start, pointers[0]), start, pointers[1..])
  }

  /** Intermediate moves do not matter: two sessions ending at the same pointer agree. */
  lemma DragOnlyLastPointerMatters(pos: Point, offset: Point, a: seq<Point>, b: seq<Point>)
    requires a != [] && b != [] && a[|a| - 1] == b[|b| - 1]
    ensures ReplayDrag(pos, offset, a) == ReplayDrag(pos, offset, b)
  {
  }

  // ---------------------------------------------------------------------------
  // Loading the initial geometry
  // ---------------------------------------------------------------------------

  /** `JSON.parse(localStorage.getItem(title + "-pos")) || { x: 40, y: innerHeight - 420 }`. */
  function InitialPos(items: map<string, Stored>, title: string, innerHeight: int): (p: Point)
    ensures PosKey(title) in items && items[PosKey(title)].StoredPoint? ==> p == items[PosKey(title)].point
    ensures PosKey(title) !in items ==> p == Point(DefaultX, innerHeight - DefaultRise)
  {
    var key := PosKey(title);
    if key in items && items[key].StoredPoint? then items[key].point
    else Point(DefaultX, innerHeight - DefaultRise)
  }

  /** `JSON.parse(localStorage.getItem(title + "-size")) || { width: 360, height: 380 }`. */
  function InitialSize(items: map<string, Stored>, title: string): (d: Dim)
    ensures SizeKey(title) in items && items[SizeKey(title)].StoredDim? ==> d == items[SizeKey(title)].dim
    ensures SizeKey(title) !in items ==> d == DefaultSize
  {
    var key := SizeKey(title);
    if key in items && items[key].StoredDim? then items[key].dim else DefaultSize
  }

  /** A geometry saved under a title is the geometry a new window with that title opens with. */
  lemma SavedGeometryReloads(items: map<string, Stored>, title: string, p: Point, d: Dim, innerHeight: int)
    ensures var saved := items[PosKey(title) := StoredPoint(p)][SizeKey(title) := StoredDim(d)];
            InitialPos(saved, title, innerHeight) == p && InitialSize(saved, title) == d
  {
    PosKeyIsNotSizeKey(title, title);
  }

  // ---------------------------------------------------------------------------
  // The stateful component
  // ---------------------------------------------------------------------------

  /** The browser's `localStorage`, shared by every window. */
  class LocalStorage {
    var items: map<string, Stored>

    constructor(items: map<string, Stored>)
      ensures this.items == items
    {
      this.items := items;
    }
  }

  /** One window: its geometry state and the two sessions' refs. */
  class Window {
    const title: string
    const storage: LocalStorage
    var pos: Point
    var size: Dim
    var dragging: bool
    var dragOffset: Point
    var resizing: bool
    var resizeStart: ResizeStart

    /** Mount: geometry is read back from storage or falls back to the defaults. */
    constructor(title: string, storage: LocalStorage, innerHeight: int)
      ensures this.title == title && this.storage == storage
      ensures pos == InitialPos(storage.items, title, innerHeight)
      ensures size == InitialSize(storage.items, title)
      ensures !dragging && !resizing
      ensures dragOffset == Point(0, 0) && resizeStart == ResizeStart(0, 0, 0, 0)
    {
      this.title := title;
      this.storage := storage;
      pos := InitialPos(storage.items, title, innerHeight);
      size := InitialSize(storage.items, title);
      dragging := false;
      dragOffset := Point(0, 0);
      resizing := false;
      resizeStart := ResizeStart(0, 0, 0, 0);
    }

    /** Mouse-down on the title bar. */
    method StartDrag(pointer: Point)
      modifies this
      ensures dragging && dragOffset == Offset(pos, pointer)
      ensures pos == old(pos) && size == old(size)
      ensures resizing == old(resizing) && resizeStart == old(resizeStart)
    {
      dragging := true;
      dragOffset := Offset(pos, pointer);
    }

    /** Mouse-move, drag listener: moves and persists only while a drag is active. */
    method HandleDrag(pointer: Point)
      modifies this, storage
      ensures old(dragging) ==> pos == DragTarget(dragOffset, pointer)
      ensures old(dragging) ==> storage.items == old(storage.items)[PosKey(title) := StoredPoint(pos)]
      ensures !old(dragging) ==> pos == old(pos) && storage.items == old(storage.items)
      ensures size == old(size) && dragging == old(dragging) && dragOffset == old(dragOffset)
      ensures resizing == old(resizing) && resizeStart == old(resizeStart)
    {
      if !dragging {
        return;
      }
      var p := DragTarget(dragOffset, pointer);
      pos := p;
      storage.items := storage.items[PosKey(title) := StoredPoint(p)];
    }

    method StopDrag()
      modifies this
      ensures !dragging
      ensures pos == old(pos) && size == old(size) && dragOffset == old(dragOffset)
      ensures resizing == old(resizing) && resizeStart == old(resizeStart)
    {
      dragging := false;
    }

    /** Mouse-down on the resize handle (the event does not reach the title bar). */
    method StartResize(pointer: Point)
      modifies this
      ensures resizing && resizeStart == ResizeStart(size.width, size.height, pointer.x, pointer.y)
      ensures pos == old(pos) && size == old(size)
      ensures dragging == old(dragging) && dragOffset == old(dragOffset)
    {
      resizing := true;
      resizeStart := ResizeStart(size.width, size.height, pointer.x, pointer.y);
    }

    /** Mouse-move, resize listener: resizes and persists only while a resize is active. */
    method HandleResize(pointer: Point)
      modifies this, storage
      ensures old(resizing) ==> size == Resized(resizeStart, pointer)
      ensures old(resizing) ==> size.width >= MinWidth && size.height >= MinHeight
      ensures old(resizing) ==> storage.items == old(storage.items)[SizeKey(title) := StoredDim(size)]
      ensures !old(resizing) ==> size == old(size) && storage.items == old(storage.items)
      ensures pos == old(pos) && dragging == old(dragging) && dragOffset == old(dragOffset)
      ensures resizing == old(resizing) && resizeStart == old(resizeStart)
    {
      if !resizing {
        return;
      }
      var d := Resized(resizeStart, pointer);
      size := d;
      storage.items := storage.items[SizeKey(title) := StoredDim(d)];
    }

    method StopResize()
      modifies this
      ensures !resizing
      ensures pos == old(pos) && size == old(size) && resizeStart == old(resizeStart)
      ensures dragging == old(dragging) && dragOffset == old(dragOffset)
    {
      resizing := false;
    }

    /** A global mouse-move reaches both listeners, drag first. */
    method MouseMove(pointer: Point)
      modifies this, storage
      ensures old(dragging) ==> pos == DragTarget(old(dragOffset), pointer)
      ensures !old(dragging) ==> pos == old(pos)
      ensures old(resizing) ==> size == Resized(old(resizeStart), pointer)
      ensures !old(resizing) ==> size == old(size)
      ensures storage.items ==
        var afterDrag := if old(dragging) then old(storage.items)[PosKey(title) := StoredPoint(pos)] else old(storage.items);
        if old(resizing) then afterDrag[SizeKey(title) := StoredDim(size)] else afterDrag
      ensures old(dragging) ==> forall h :: InitialPos(storage.items, title, h) == pos
      ensures old(resizing) ==> InitialSize(storage.items, title) == size
      ensures dragging == old(dragging) && resizing == old(resizing)
      ensures dragOffset == old(dragOffset) && resizeStart == old(resizeStart)
    {
      HandleDrag(pointer);
      HandleResize(pointer);
      PosKeyIsNotSizeKey(title, title);
    }

    /** A global mouse-up ends both sessions. */
    method MouseUp()
      modifies this
      ensures !dragging && !resizing
      ensures pos == old(pos) && size == old(size)
      ensures dragOffset == old(dragOffset) && resizeStart == old(resizeStart)
    {
      StopDrag();
      StopResize();
    }
  }
}
