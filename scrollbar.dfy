/**
 * The custom scroll viewport: a scroll container whose native scrollbar is hidden
 * and replaced by a drawn track and thumb.
 *
 * Geometry is stated over `real`; the browser's floating-point arithmetic (and the
 * NaN/Infinity it yields on a division by zero) is not modelled, so the cases that
 * would divide by zero are excluded by preconditions instead.
 */
module CustomScrollbar {

  /** Smallest height, in pixels, at which the thumb is drawn. */
  const MinThumbHeight: real := 20.0

  /** One reading of the container: its scroll offset, content height and visible height. */
  datatype Measurements = Measurements(scrollTop: real, scrollHeight: real, clientHeight: real)

  // ---------------------------------------------------------------------------
  // Derived thumb geometry
  // ---------------------------------------------------------------------------

  /** Largest scroll offset the content admits. */
  function MaxScrollTop(scrollHeight: real, clientHeight: real): real {
    scrollHeight - clientHeight
  }

  /** The track and thumb are drawn exactly when the content leaves a positive range to scroll. */
  predicate ShowScrollbar(scrollHeight: real, clientHeight: real): (shown: bool)
    ensures shown <==> MaxScrollTop(scrollHeight, clientHeight) > 0.0
  {
    scrollHeight > clientHeight
  }

  /**
   * Proportional thumb height: the visible fraction of the content, applied to the
   * container height. A zero (or not yet measured) content height gives 0.
   */
  function ThumbHeight(scrollHeight: real, clientHeight: real): (h: real)
    ensures scrollHeight <= 0.0 ==> h == 0.0
    ensures scrollHeight > 0.0 ==> h * scrollHeight == clientHeight * clientHeight
    ensures 0.0 <= clientHeight <= scrollHeight ==> 0.0 <= h <= clientHeight
    ensures 0.0 < clientHeight < scrollHeight ==> h < clientHeight
  {
    if scrollHeight > 0.0 then
      var h := (clientHeight / scrollHeight) * clientHeight;
      ThumbHeightBounds(scrollHeight, clientHeight);
      h
    else 0.0
  }

  lemma ThumbHeightBounds(scrollHeight: real, clientHeight: real)
    requires scrollHeight > 0.0
    ensures (clientHeight / scrollHeight) * clientHeight * scrollHeight == clientHeight * clientHeight
    ensures 0.0 <= clientHeight <= scrollHeight ==>
              0.0 <= (clientHeight / scrollHeight) * clientHeight <= clientHeight
    ensures 0.0 < clientHeight < scrollHeight ==> (clientHeight / scrollHeight) * clientHeight < clientHeight
  {
    var q := clientHeight / scrollHeight;
    assert q * scrollHeight == clientHeight;
    if 0.0 <= clientHeight <= scrollHeight {
      assert 0.0 <= q;
      UnitFraction(clientHeight, scrollHeight);
      assert q * clientHeight <= 1.0 * clientHeight;
    }
    if 0.0 < clientHeight < scrollHeight {
      assert (1.0 - q) * scrollHeight == scrollHeight - clientHeight;
      assert q < 1.0;
      assert (1.0 - q) * clientHeight > 0.0;
    }
  }

  /** A part over a positive whole is a fraction between 0 and 1. */
  lemma UnitFraction(part: real, whole: real)
    requires whole > 0.0 && 0.0 <= part <= whole
    ensures 0.0 <= part / whole <= 1.0
  {
    var f := part / whole;
    assert f * whole == part;
    assert (1.0 - f) * whole == whole - part;
  }

  /** The thumb height actually drawn: never less than MinThumbHeight. */
  function RenderedThumbHeight(scrollHeight: real, clientHeight: real): (h: real)
    ensures h >= MinThumbHeight && h >= ThumbHeight(scrollHeight, clientHeight)
    ensures h == MinThumbHeight || h == ThumbHeight(scrollHeight, clientHeight)
  {
    var t := ThumbHeight(scrollHeight, clientHeight);
    if t > MinThumbHeight then t else MinThumbHeight
  }

  /**
   * Distance of the thumb from the top of the track: the scrolled fraction of the
   * overflow, applied to the room the (unclamped) thumb leaves in the track.
   * Without overflow the thumb sits at 0.
   */
  function ThumbTop(scrollTop: real, scrollHeight: real, clientHeight: real): (t: real)
    ensures !ShowScrollbar(scrollHeight, clientHeight) ==> t == 0.0
  {
    if scrollHeight > clientHeight then
      (scrollTop / (scrollHeight - clientHeight)) * (clientHeight - ThumbHeight(scrollHeight, clientHeight))
    else 0.0
  }

  /**
   * The room left to the thumb in the track, as the drag handler computes it: its
   * thumb height is the same quotient as the rendered one but without the guard
   * against a zero content height, so it is defined only for positive content.
   */
  function MaxThumbTop(scrollHeight: real, clientHeight: real): (room: real)
    requires scrollHeight > 0.0
    ensures room == clientHeight - ThumbHeight(scrollHeight, clientHeight)
    ensures 0.0 <= clientHeight <= scrollHeight ==> 0.0 <= room <= clientHeight
    ensures 0.0 < clientHeight < scrollHeight ==> room > 0.0
  {
    clientHeight - (clientHeight / scrollHeight) * clientHeight
  }

  /**
   * How many pixels of content one pixel of thumb movement scrolls: moving the
   * thumb through all of its room scrolls through the whole overflow.
   */
  function DragRatio(scrollHeight: real, clientHeight: real): (ratio: real)
    requires scrollHeight > 0.0 && MaxThumbTop(scrollHeight, clientHeight) != 0.0
    ensures ratio * MaxThumbTop(scrollHeight, clientHeight) == MaxScrollTop(scrollHeight, clientHeight)
  {
    (scrollHeight - clientHeight) / MaxThumbTop(scrollHeight, clientHeight)
  }

  /** Scroll offset a click at `clickY` pixels below the top of a track `trackHeight` tall asks for. */
  function TrackClickTarget(clickY: real, trackHeight: real, scrollHeight: real, clientHeight: real): (r: real)
    requires trackHeight > 0.0
    ensures r * trackHeight == clickY * MaxScrollTop(scrollHeight, clientHeight)
  {
    (clickY / trackHeight) * (scrollHeight - clientHeight)
  }

  // ---------------------------------------------------------------------------
  // Properties of the geometry
  // ---------------------------------------------------------------------------

  /** With overflow, the thumb stays inside the track for every offset the content admits. */
  lemma ThumbTopWithinTrack(scrollTop: real, scrollHeight: real, clientHeight: real)
    requires ShowScrollbar(scrollHeight, clientHeight) && clientHeight >= 0.0
    requires 0.0 <= scrollTop <= MaxScrollTop(scrollHeight, clientHeight)
    ensures 0.0 <= ThumbTop(scrollTop, scrollHeight, clientHeight) <= MaxThumbTop(scrollHeight, clientHeight)
  {
    var room := MaxThumbTop(scrollHeight, clientHeight);
    assert room >= 0.0;
    var f := scrollTop / (scrollHeight - clientHeight);
    assert f * (scrollHeight - clientHeight) == scrollTop;
    UnitFraction(scrollTop, scrollHeight - clientHeight);
    assert f * room <= 1.0 * room;
  }

  /** The thumb moves down as the content scrolls down. */
  lemma ThumbTopMonotone(top1: real, top2: real, scrollHeight: real, clientHeight: real)
    requires ShowScrollbar(scrollHeight, clientHeight) && clientHeight >= 0.0
    requires top1 <= top2
    ensures ThumbTop(top1, scrollHeight, clientHeight) <= ThumbTop(top2, scrollHeight, clientHeight)
  {
    var room := MaxThumbTop(scrollHeight, clientHeight);
    assert room >= 0.0;
    var f1 := top1 / (scrollHeight - clientHeight);
    var f2 := top2 / (scrollHeight - clientHeight);
    assert f1 <= f2;
    assert (f2 - f1) * room >= 0.0;
  }

  /** At the top of the content the thumb is at the top of the track; at the bottom it fills the track's end. */
  lemma ThumbTopAtEnds(scrollHeight: real, clientHeight: real)
    requires ShowScrollbar(scrollHeight, clientHeight) && clientHeight >= 0.0
    ensures ThumbTop(0.0, scrollHeight, clientHeight) == 0.0
    ensures ThumbTop(MaxScrollTop(scrollHeight, clientHeight), scrollHeight, clientHeight)
            == MaxThumbTop(scrollHeight, clientHeight)
  {
    var d := scrollHeight - clientHeight;
    assert d / d == 1.0 by {
      SelfQuotient(d);
    }
  }

  /** Any non-zero quantity divided by itself is 1. */
  lemma SelfQuotient(d: real)
    requires d != 0.0
    ensures d / d == 1.0
  {
  }

  /**
   * The drawn thumb is clamped to MinThumbHeight but its position is computed from
   * the unclamped height, so at the bottom of long content the drawn thumb runs past
   * the end of the track by exactly the amount the clamp added.
   */
  lemma RenderedThumbOverflowsAtBottom(scrollHeight: real, clientHeight: real)
    requires ShowScrollbar(scrollHeight, clientHeight) && clientHeight >= 0.0
    requires ThumbHeight(scrollHeight, clientHeight) < MinThumbHeight
    ensures ThumbTop(MaxScrollTop(scrollHeight, clientHeight), scrollHeight, clientHeight)
              + RenderedThumbHeight(scrollHeight, clientHeight)
            == clientHeight + (MinThumbHeight - ThumbHeight(scrollHeight, clientHeight))
    ensures ThumbTop(MaxScrollTop(scrollHeight, clientHeight), scrollHeight, clientHeight)
              + RenderedThumbHeight(scrollHeight, clientHeight) > clientHeight
  {
    ThumbTopAtEnds(scrollHeight, clientHeight);
  }

  /**
   * A click maps the track linearly onto the scroll range: its top to 0, its bottom to
   * the largest offset, and every click inside the track to an offset inside the range.
   */
  lemma TrackClickEnds(trackHeight: real, scrollHeight: real, clientHeight: real)
    requires trackHeight > 0.0
    ensures TrackClickTarget(0.0, trackHeight, scrollHeight, clientHeight) == 0.0
    ensures TrackClickTarget(trackHeight, trackHeight, scrollHeight, clientHeight)
            == MaxScrollTop(scrollHeight, clientHeight)
  {
    assert trackHeight / trackHeight == 1.0;
  }

  lemma TrackClickWithinRange(clickY: real, trackHeight: real, scrollHeight: real, clientHeight: real)
    requires trackHeight > 0.0 && 0.0 <= clickY <= trackHeight
    requires ShowScrollbar(scrollHeight, clientHeight)
    ensures 0.0 <= TrackClickTarget(clickY, trackHeight, scrollHeight, clientHeight)
                <= MaxScrollTop(scrollHeight, clientHeight)
  {
    var f := clickY / trackHeight;
    var d := scrollHeight - clientHeight;
    assert f * trackHeight == clickY;
    UnitFraction(clickY, trackHeight);
    assert f * d <= 1.0 * d;
  }

  /**
   * When the content overflows a non-empty container, the thumb leaves room in the
   * track and the drag ratio is simply content height over container height.
   */
  lemma DragRatioSimplifies(scrollHeight: real, clientHeight: real)
    requires scrollHeight > clientHeight > 0.0
    ensures MaxThumbTop(scrollHeight, clientHeight) > 0.0
    ensures DragRatio(scrollHeight, clientHeight) == scrollHeight / clientHeight
  {
    var sh, ch := scrollHeight, clientHeight;
    var th := ThumbHeight(sh, ch);
    assert th * sh == ch * ch;
    var room := ch - th;
    assert room * sh == ch * (sh - ch);
    assert room > 0.0 by {
      assert ch * (sh - ch) > 0.0;
    }
    var r := (sh - ch) / room;
    assert r * room == sh - ch;
    assert r * ch * (sh - ch) == (sh - ch) * sh by {
      calc {
        r * ch * (sh - ch);
        r * (room * sh);
        (r * room) * sh;
        (sh - ch) * sh;
      }
    }
    assert r * ch == sh;
  }

  /** A container of height 0 leaves the thumb no room: the drag ratio would divide by zero. */
  lemma NoThumbRoomInEmptyContainer(scrollHeight: real)
    requires scrollHeight > 0.0
    ensures MaxThumbTop(scrollHeight, 0.0) == 0.0
  {
  }

  /** An example: 1000 px of content in a 400 px container. */
  lemma ExampleGeometry()
    ensures ThumbHeight(1000.0, 400.0) == 160.0
    ensures MaxThumbTop(1000.0, 400.0) == 240.0
    ensures DragRatio(1000.0, 400.0) == 2.5
    ensures TrackClickTarget(200.0, 400.0, 1000.0, 400.0) == 300.0
    ensures ThumbTop(300.0, 1000.0, 400.0) == 120.0
  {
    DragRatioSimplifies(1000.0, 400.0);
  }

  // ---------------------------------------------------------------------------
  // Drag sessions
  // ---------------------------------------------------------------------------

  /**
   * What one mousedown on the thumb captures: the pointer position, the container's
   * scroll offset, and the content and container heights of the render it happened in.
   */
  datatype DragSession = DragSession(startY: real, startScrollTop: real, scrollHeight: real, clientHeight: real)
  {
    /** The captured heights overflow and the container is not empty, so the ratio is defined. */
    predicate Valid() {
      scrollHeight > clientHeight > 0.0
    }

    /**
     * The offset a mousemove to `y` assigns: the start offset, moved by the total
     * pointer displacement since mousedown scaled by content over container height.
     */
    function Target(y: real): (r: real)
      requires Valid()
      ensures r - startScrollTop == (y - startY) * (scrollHeight / clientHeight)
    {
      DragRatioSimplifies(scrollHeight, clientHeight);
      startScrollTop + (y - startY) * DragRatio(scrollHeight, clientHeight)
    }
  }

  /** Each move is measured from the mousedown point: returning to it restores the start offset. */
  lemma DragReturnsToStart(s: DragSession)
    requires s.Valid()
    ensures s.Target(s.startY) == s.startScrollTop
  {
  }

  /** Between any two pointer positions the target moves by their distance times content over container height. */
  lemma DragMoveScalesByRatio(s: DragSession, y: real, delta: real)
    requires s.Valid()
    ensures s.Target(y + delta) - s.Target(y) == delta * (s.scrollHeight / s.clientHeight)
  {
    DragRatioSimplifies(s.scrollHeight, s.clientHeight);
    var r := DragRatio(s.scrollHeight, s.clientHeight);
    assert (y + delta - s.startY) * r - (y - s.startY) * r == delta * r;
  }

  /**
   * While the container keeps the heights the drag started with, the thumb drawn at
   * the assigned offset lies exactly `y - startY` below where it was drawn at the
   * start: the thumb follows the pointer.
   */
  lemma ThumbFollowsPointer(s: DragSession, y: real)
    requires s.Valid()
    ensures ThumbTop(s.Target(y), s.scrollHeight, s.clientHeight)
            == ThumbTop(s.startScrollTop, s.scrollHeight, s.clientHeight) + (y - s.startY)
  {
    var sh, ch := s.scrollHeight, s.clientHeight;
    DragRatioSimplifies(sh, ch);
    var room := MaxThumbTop(sh, ch);
    var d := sh - ch;
    var r := DragRatio(sh, ch);
    assert r * room == d;
    var k := room / d;
    assert r * k == 1.0;
    forall x: real
      ensures ThumbTop(x, sh, ch) == x * k
    {
      assert (x / d) * room == x * (room / d);
    }
    var dy := y - s.startY;
    calc {
      ThumbTop(s.Target(y), sh, ch);
      (s.startScrollTop + dy * r) * k;
      s.startScrollTop * k + dy * (r * k);
      ThumbTop(s.startScrollTop, sh, ch) + dy;
    }
  }

  // ---------------------------------------------------------------------------
  // The viewport component
  // ---------------------------------------------------------------------------

  /**
   * One mounted viewport. `scrollTop`, `scrollHeight` and `clientHeight` are the
   * component's state, from which the thumb is drawn; `containerScrollTop` is the
   * scroll offset of the container element itself, which the track click and the
   * drag assign and which the next measurement reads back. `dragSessions` holds
   * the sessions whose mousemove/mouseup listeners are registered on the document,
   * in registration order.
   */
  class Viewport {
    var scrollTop: real
    var scrollHeight: real
    var clientHeight: real
    var containerScrollTop: real
    var dragSessions: seq<DragSession>

    /** Every registered session captured heights for which the drag ratio is defined. */
    ghost predicate Valid()
      reads this
    {
      forall i :: 0 <= i < |dragSessions| ==> dragSessions[i].Valid()
    }

    /** The state the thumb is drawn from. */
    function State(): Measurements
      reads this
    {
      Measurements(scrollTop, scrollHeight, clientHeight)
    }

    /** Idle unless a drag session is registered. */
    predicate Dragging()
      reads this
    {
      |dragSessions| > 0
    }

    /** All three state values start at 0, before the first measurement. */
    constructor ()
      ensures Valid() && !Dragging()
      ensures State() == Measurements(0.0, 0.0, 0.0) && containerScrollTop == 0.0
      ensures !ShowScrollbar(scrollHeight, clientHeight)
    {
      scrollTop, scrollHeight, clientHeight := 0.0, 0.0, 0.0;
      containerScrollTop := 0.0;
      dragSessions := [];
    }

    /**
     * A scroll event or a resize of the container or its content: the state takes
     * the container's current readings. The browser keeps the container's own
     * offset within its range, so `m.scrollTop` is whatever offset it settled on.
     */
    method UpdateScroll(m: Measurements)
      requires Valid()
      modifies this
      ensures Valid() && State() == m && containerScrollTop == m.scrollTop
      ensures dragSessions == old(dragSessions)
    {
      scrollTop, scrollHeight, clientHeight := m.scrollTop, m.scrollHeight, m.clientHeight;
      containerScrollTop := m.scrollTop;
    }

    /** A click on the track jumps the container to the offset proportional to the click position. */
    method TrackClick(clickY: real, trackHeight: real)
      requires Valid() && trackHeight > 0.0
      modifies this`containerScrollTop
      ensures Valid()
      ensures containerScrollTop == TrackClickTarget(clickY, trackHeight, scrollHeight, clientHeight)
    {
      var percentage := clickY / trackHeight;
      containerScrollTop := percentage * (scrollHeight - clientHeight);
    }

    /**
     * A mousedown on the thumb (drawn only when the content overflows) registers a
     * new session capturing the pointer, the container offset and the current heights.
     */
    method MouseDown(y: real)
      requires Valid() && scrollHeight > clientHeight > 0.0
      modifies this`dragSessions
      ensures Valid() && Dragging()
      ensures dragSessions
              == old(dragSessions) + [DragSession(y, containerScrollTop, scrollHeight, clientHeight)]
    {
      var session := DragSession(y, containerScrollTop, scrollHeight, clientHeight);
      dragSessions := dragSessions + [session];
    }

    /**
     * A mousemove anywhere in the document runs every registered move listener in
     * registration order; each assigns its own target, so the last one's stands.
     * With no session registered nothing happens.
     */
    method MouseMove(y: real)
      requires Valid()
      modifies this`containerScrollTop
      ensures Valid()
      ensures !Dragging() ==> containerScrollTop == old(containerScrollTop)
      ensures Dragging() ==> containerScrollTop == dragSessions[|dragSessions| - 1].Target(y)
    {
      if |dragSessions| > 0 {
        var session := dragSessions[|dragSessions| - 1];
        containerScrollTop := session.Target(y);
      }
    }

    /** A mouseup anywhere in the document makes every session unregister both its listeners. */
    method MouseUp()
      requires Valid()
      modifies this`dragSessions
      ensures Valid() && !Dragging()
    {
      dragSessions := [];
    }
  }

  /**
   * The 1000/400 example driven through the component: a click half-way down the
   * track, a drag of 80 px, a release, and a further move after the release.
   */
  method ExampleSession() returns (afterClick: real, afterDrag: real, afterRelease: real)
    ensures afterClick == 300.0 && afterDrag == 500.0 && afterRelease == 500.0
  {
    var v := new Viewport();
    v.UpdateScroll(Measurements(0.0, 1000.0, 400.0));
    ExampleGeometry();
    v.TrackClick(200.0, 400.0);
    afterClick := v.containerScrollTop;
    v.UpdateScroll(Measurements(afterClick, 1000.0, 400.0));
    v.MouseDown(50.0);
    v.MouseMove(130.0);
    afterDrag := v.containerScrollTop;
    v.MouseUp();
    v.MouseMove(10.0);
    afterRelease := v.containerScrollTop;
  }
}
