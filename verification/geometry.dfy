/** The reference surface: the usable lid area of a 14" MacBook Pro, in inches. */
module Lid {
  /** Lid width; both the visualizer and the draggable sticker declare 12.3. */
  const Width: real := 12.3
  /** Lid height; both the visualizer and the draggable sticker declare 8.5. */
  const Height: real := 8.5
}

/**
 * The draggable sticker's geometry: the inches-to-pixels scale, the display
 * rectangle, the drag bounds handed to the drag library, and the commit of a
 * drag event into local state and into the parent's position callback.
 */
module Geometry {
  import Lid
  import opened Wrappers

  /** A physical size in inches, or a display size in pixels. */
  datatype Size = Size(width: real, height: real)

  /** Top-left pixel offset of a sticker inside the container. */
  datatype Position = Position(x: real, y: real)

  /** The bounds object passed to the drag library. */
  datatype Bounds = Bounds(left: real, top: real, right: real, bottom: real)

  function Min(a: real, b: real): real {
    if a <= b then a else b
  }

  /** Pixels per inch: the smaller of the two axis scales, so the lid fits the container. */
  function Scale(containerWidth: real, containerHeight: real): (r: real)
    ensures r <= containerWidth / Lid.Width && r <= containerHeight / Lid.Height
    ensures r == containerWidth / Lid.Width || r == containerHeight / Lid.Height
  {
    Min(containerWidth / Lid.Width, containerHeight / Lid.Height)
  }

  /**
   * The on-screen size of a sticker: both sides multiplied by one shared
   * scale (see AspectRatioPreserved and SharedScale), so a sticker no larger
   * than the lid fits inside a container of non-negative size.
   */
  function DisplaySize(size: Size, containerWidth: real, containerHeight: real): (r: Size)
    ensures 0.0 <= containerWidth && 0.0 <= containerHeight && size.width <= Lid.Width
            ==> r.width <= containerWidth
    ensures 0.0 <= containerWidth && 0.0 <= containerHeight && size.height <= Lid.Height
            ==> r.height <= containerHeight
  {
    var s := Scale(containerWidth, containerHeight);
    var r := Size(size.width * s, size.height * s);
    assert 0.0 <= containerWidth && 0.0 <= containerHeight && size.width <= Lid.Width
           ==> r.width <= containerWidth by {
      if 0.0 <= containerWidth && 0.0 <= containerHeight && size.width <= Lid.Width {
        assert 0.0 <= s;
        assert size.width * s <= Lid.Width * s;
        assert Lid.Width * s <= Lid.Width * (containerWidth / Lid.Width);
      }
    }
    assert 0.0 <= containerWidth && 0.0 <= containerHeight && size.height <= Lid.Height
           ==> r.height <= containerHeight by {
      if 0.0 <= containerWidth && 0.0 <= containerHeight && size.height <= Lid.Height {
        assert 0.0 <= s;
        assert size.height * s <= Lid.Height * s;
        assert Lid.Height * s <= Lid.Height * (containerHeight / Lid.Height);
      }
    }
    r
  }

  /**
   * The drag bounds: left and top are 0, right and bottom leave room for the
   * display rectangle. Nothing clamps right or bottom at 0, so they go negative
   * for a sticker larger than the lid; a sticker no larger than the lid gets
   * non-negative right and bottom in a non-negative container.
   */
  function DragBounds(size: Size, containerWidth: real, containerHeight: real): (b: Bounds)
    ensures b.left == 0.0 && b.top == 0.0
    ensures b.right + DisplaySize(size, containerWidth, containerHeight).width == containerWidth
    ensures b.bottom + DisplaySize(size, containerWidth, containerHeight).height == containerHeight
    ensures 0.0 <= containerWidth && 0.0 <= containerHeight && size.width <= Lid.Width ==> 0.0 <= b.right
    ensures 0.0 <= containerWidth && 0.0 <= containerHeight && size.height <= Lid.Height ==> 0.0 <= b.bottom
  {
    var d := DisplaySize(size, containerWidth, containerHeight);
    Bounds(0.0, 0.0, containerWidth - d.width, containerHeight - d.height)
  }

  /** The display rectangle has the sticker's own aspect ratio: dw * h == dh * w. */
  lemma AspectRatioPreserved(size: Size, containerWidth: real, containerHeight: real)
    ensures DisplaySize(size, containerWidth, containerHeight).width * size.height
         == DisplaySize(size, containerWidth, containerHeight).height * size.width
  {
    var s := Scale(containerWidth, containerHeight);
    assert size.width * s * size.height == size.height * s * size.width;
  }

  /** Every sticker on the same container shares one pixels-per-inch ratio. */
  lemma SharedScale(a: Size, b: Size, containerWidth: real, containerHeight: real)
    ensures DisplaySize(a, containerWidth, containerHeight).width * b.width
         == DisplaySize(b, containerWidth, containerHeight).width * a.width
    ensures DisplaySize(a, containerWidth, containerHeight).height * b.height
         == DisplaySize(b, containerWidth, containerHeight).height * a.height
  {
    var s := Scale(containerWidth, containerHeight);
    assert a.width * s * b.width == b.width * s * a.width;
    assert a.height * s * b.height == b.height * s * a.height;
  }

  /**
   * The lid itself is drawn as large as the container allows: within it on
   * both axes and filling it on at least one. With SharedScale this fixes
   * every sticker's display size: its sides are its inches times the lid's
   * drawn width over 12.3.
   */
  lemma LidFillsContainer(containerWidth: real, containerHeight: real)
    ensures DisplaySize(Size(Lid.Width, Lid.Height), containerWidth, containerHeight).width <= containerWidth
    ensures DisplaySize(Size(Lid.Width, Lid.Height), containerWidth, containerHeight).height <= containerHeight
    ensures DisplaySize(Size(Lid.Width, Lid.Height), containerWidth, containerHeight).width == containerWidth
         || DisplaySize(Size(Lid.Width, Lid.Height), containerWidth, containerHeight).height == containerHeight
  {
    var s := Scale(containerWidth, containerHeight);
    assert Lid.Width * (containerWidth / Lid.Width) == containerWidth;
    assert Lid.Height * (containerHeight / Lid.Height) == containerHeight;
    ScaledLe(Lid.Width, s, containerWidth / Lid.Width, Lid.Width * s, containerWidth);
    ScaledLe(Lid.Height, s, containerHeight / Lid.Height, Lid.Height * s, containerHeight);
  }

  /** Growing the container never lowers the scale. */
  lemma ScaleMonotone(cw: real, ch: real, cw': real, ch': real)
    requires cw <= cw' && ch <= ch'
    ensures Scale(cw, ch) <= Scale(cw', ch')
  {
  }

  /** Growing the container never shrinks a sticker of non-negative size. */
  lemma DisplaySizeMonotone(size: Size, cw: real, ch: real, cw': real, ch': real)
    requires 0.0 <= size.width && 0.0 <= size.height
    requires cw <= cw' && ch <= ch'
    ensures DisplaySize(size, cw, ch).width <= DisplaySize(size, cw', ch').width
    ensures DisplaySize(size, cw, ch).height <= DisplaySize(size, cw', ch').height
  {
    ScaleMonotone(cw, ch, cw', ch');
    var s, s' := Scale(cw, ch), Scale(cw', ch');
    var d, d' := DisplaySize(size, cw, ch), DisplaySize(size, cw', ch');
    ScaledLe(size.width, s, s', d.width, d'.width);
    ScaledLe(size.height, s, s', d.height, d'.height);
  }

  /** `a * x <= a * y` for a non-negative `a`, stated about named products. */
  lemma ScaledLe(a: real, x: real, y: real, p: real, q: real)
    requires 0.0 <= a && x <= y
    requires p == a * x && q == a * y
    ensures p <= q
  {
    var d := y - x;
    assert 0.0 <= a * d;
    assert a * y == a * x + a * d;
  }

  /** A 3 x 2 inch sticker on a 1230 x 850 pixel container is drawn 300 x 200 pixels. */
  lemma DisplaySizeExample()
    ensures Scale(1230.0, 850.0) == 100.0
    ensures DisplaySize(Size(3.0, 2.0), 1230.0, 850.0) == Size(300.0, 200.0)
    ensures DragBounds(Size(3.0, 2.0), 1230.0, 850.0) == Bounds(0.0, 0.0, 930.0, 650.0)
  {
  }

  // ---------------------------------------------------------------------------
  // Drag commit

  /**
   * One sticker's local drag state: its id and its local position, a copy of
   * the initial position it was mounted with (absent when the parent had no
   * position recorded for it).
   */
  datatype DragState = DragState(id: string, position: Option<Position>)

  /** The parent's position callback invocation: `onPositionChange(id, x, y)`. */
  datatype PositionReport = PositionReport(id: string, x: real, y: real)

  function Mount(id: string, initialPosition: Option<Position>): (st: DragState)
    ensures st.id == id && st.position == initialPosition
  {
    DragState(id, initialPosition)
  }

  /**
   * A drag event at (x, y) as reported by the drag library: the local
   * position becomes exactly (x, y) and, when a callback is present, it is
   * told the same coordinates tagged with this sticker's id.
   */
  function HandleDrag(st: DragState, x: real, y: real, hasCallback: bool): (r: (DragState, Option<PositionReport>))
    ensures r.0.id == st.id && r.0.position == Some(Position(x, y))
    ensures r.1.Some? <==> hasCallback
    ensures r.1.Some? ==> r.1.value.id == st.id
    ensures r.1.Some? ==> Position(r.1.value.x, r.1.value.y) == r.0.position.value
  {
    var p := Position(x, y);
    (DragState(st.id, Some(p)), if hasCallback then Some(PositionReport(st.id, p.x, p.y)) else None)
  }
}
