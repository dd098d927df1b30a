/** The frame buffer: which bytes the drawing operations change, and to what. */
module Raster {
  import opened Common
  import opened Circle

  datatype Color = Color(r: Byte, g: Byte, b: Byte)

  datatype Pixel = Pixel(x: int, y: int)

  /** Width and height in pixels; stride is the length of a line in bytes. */
  datatype Screen = Screen(width: nat, height: nat, stride: nat) {
    /** Lines hold their pixels, and no byte offset on the screen reaches the end of a 32-bit word. */
    ghost predicate Valid() {
      width < U32 && height < U32 && 4 * width <= stride && height * stride <= U32
    }

    predicate Shows(p: Pixel) { 0 <= p.x < width && 0 <= p.y < height }

    /** Whether byte k of the buffer belongs to a pixel, and to which. */
    predicate Visible(k: nat) {
      stride > 0 && k / stride < height && k % stride < 4 * width
    }

    function Owner(k: nat): Pixel
      requires stride > 0
    {
      Pixel(k % stride / 4, k / stride)
    }
  }

  /** The four bytes of a pixel, in memory order. */
  function Channel(c: Color, j: nat): Byte {
    if j == 0 then c.b else if j == 1 then c.g else if j == 2 then c.r else 0xFF
  }

  /** A buffer in which exactly the visible pixels of the set have been given the colour. */
  ghost function Painted(sc: Screen, s: seq<Byte>, ps: iset<Pixel>, c: Color): (r: seq<Byte>)
    ensures |r| == |s|
  {
    seq(|s|, k requires 0 <= k < |s| =>
      if sc.Visible(k) && sc.Owner(k) in ps then Channel(c, k % sc.stride % 4) else s[k])
  }

  lemma PaintedTwice(sc: Screen, s: seq<Byte>, a: iset<Pixel>, b: iset<Pixel>, c: Color)
    ensures Painted(sc, Painted(sc, s, a, c), b, c) == Painted(sc, s, a + b, c)
  {}

  lemma PaintedNone(sc: Screen, s: seq<Byte>, c: Color)
    ensures Painted(sc, s, iset{}, c) == s
  {}

  // ---------------------------------------------------------------------------------------------
  // Offsets
  // ---------------------------------------------------------------------------------------------

  function Offset(sc: Screen, x: nat, y: nat): nat { y * sc.stride + x * 4 }

  lemma {:induction false} DivModUnique(k: nat, d: nat, q: nat, m: nat)
    requires k == q * d + m && m < d
    ensures k / d == q && k % d == m
  {
    var p := k / d;
    assert k == p * d + k % d;
    assert (p + 1) * d == p * d + d && (q + 1) * d == q * d + d;
    if p < q {
      MulLe(p + 1, q, d);
    } else if p > q {
      MulLe(q + 1, p, d);
    }
  }

  /** The bytes that belong to a pixel are the four from its offset on. */
  lemma {:induction false} OwnedBytes(sc: Screen, x: nat, y: nat, k: nat)
    requires sc.Valid() && sc.Shows(Pixel(x, y))
    ensures sc.stride > 0
    ensures sc.Visible(k) && sc.Owner(k) == Pixel(x, y) <==> Offset(sc, x, y) <= k < Offset(sc, x, y) + 4
    ensures Offset(sc, x, y) <= k < Offset(sc, x, y) + 4 ==> k % sc.stride % 4 == k - Offset(sc, x, y)
  {
    assert k == k / sc.stride * sc.stride + k % sc.stride;
    if Offset(sc, x, y) <= k < Offset(sc, x, y) + 4 {
      DivModUnique(k, sc.stride, y, k - y * sc.stride);
    }
  }

  /** No pixel on the screen wraps around the 32-bit offset or leaves the buffer. */
  lemma {:induction false} OffsetInside(sc: Screen, x: nat, y: nat)
    requires sc.Valid() && sc.Shows(Pixel(x, y))
    ensures Offset(sc, x, y) + 4 <= sc.height * sc.stride
  {
    MulLe(y + 1, sc.height, sc.stride);
    assert (y + 1) * sc.stride == y * sc.stride + sc.stride;
  }

  /** Distinct pixels have disjoint bytes; a byte keeps its value unless it belongs to a pixel of the set. */
  lemma {:induction false} PaintedBytes(sc: Screen, s: seq<Byte>, ps: iset<Pixel>, c: Color, x: nat, y: nat, j: nat)
    requires sc.Valid() && sc.Shows(Pixel(x, y)) && j < 4 && sc.height * sc.stride <= |s|
    ensures Offset(sc, x, y) + j < |s|
    ensures Painted(sc, s, ps, c)[Offset(sc, x, y) + j] ==
            if Pixel(x, y) in ps then Channel(c, j) else s[Offset(sc, x, y) + j]
  {
    OffsetInside(sc, x, y);
    OwnedBytes(sc, x, y, Offset(sc, x, y) + j);
  }

  /** A painted pixel is blue, green, red and full alpha, in this order from y lines and x pixels on. */
  lemma {:induction false} PixelBytes(sc: Screen, s: seq<Byte>, ps: iset<Pixel>, c: Color, x: nat, y: nat)
    requires sc.Valid() && x < sc.width && y < sc.height && sc.height * sc.stride <= |s|
    ensures var k := y * sc.stride + 4 * x; var after := Painted(sc, s, ps, c);
      && k + 4 <= |s|
      && (Pixel(x, y) in ps ==> after[k..k + 4] == [c.b, c.g, c.r, 255])
      && (Pixel(x, y) !in ps ==> after[k..k + 4] == s[k..k + 4])
  {
    var k, after := Offset(sc, x, y), Painted(sc, s, ps, c);
    OffsetInside(sc, x, y);
    PaintedBytes(sc, s, ps, c, x, y, 0);
    PaintedBytes(sc, s, ps, c, x, y, 1);
    PaintedBytes(sc, s, ps, c, x, y, 2);
    PaintedBytes(sc, s, ps, c, x, y, 3);
    hide Painted;
    assert k == y * sc.stride + 4 * x;
    assert after[k..k + 4] == [after[k + 0], after[k + 1], after[k + 2], after[k + 3]];
    assert s[k..k + 4] == [s[k + 0], s[k + 1], s[k + 2], s[k + 3]];
  }

  /** What lies right of the pixels of a line or below the last line is never painted. */
  lemma {:induction false} MarginsKept(sc: Screen, s: seq<Byte>, ps: iset<Pixel>, c: Color, k: nat)
    requires sc.Valid() && sc.stride > 0 && k < |s|
    requires k % sc.stride >= 4 * sc.width || k >= sc.height * sc.stride
    ensures Painted(sc, s, ps, c)[k] == s[k]
  {
    if k / sc.stride < sc.height {
      LineAbove(sc, k);
    }
  }

  lemma LineAbove(sc: Screen, k: nat)
    requires sc.stride > 0 && k / sc.stride < sc.height
    ensures k < sc.height * sc.stride
  {
    MulLe(k / sc.stride + 1, sc.height, sc.stride);
    assert (k / sc.stride + 1) * sc.stride == k / sc.stride * sc.stride + sc.stride;
    assert k == k / sc.stride * sc.stride + k % sc.stride;
  }

  // ---------------------------------------------------------------------------------------------
  // Pixel sets
  // ---------------------------------------------------------------------------------------------

  /** Addition and subtraction of 32-bit words, with wrap-around. */
  function Plus(a: nat, b: nat): nat { if a + b < U32 then a + b else a + b - U32 }
  function Minus(a: nat, b: nat): int { if a >= b then a - b else U32 + a - b }

  /** v is one of start, start + 1, ... for len numbers, counted around the 32-bit word. */
  predicate InRange(v: int, start: nat, len: nat) {
    (start <= v < start + len && v < U32) || (0 <= v && v + U32 < start + len)
  }

  ghost function RectPixels(x: nat, y: nat, width: nat, height: nat): iset<Pixel> {
    iset p: Pixel | InRange(p.x, x, width) && InRange(p.y, y, height)
  }

  lemma RangeFurther(start: nat, n: nat)
    requires start < U32 && n + 1 < U32
    ensures forall v :: InRange(v, start, n + 1) <==> InRange(v, start, n) || v == Plus(start, n)
  {
    forall v
      ensures InRange(v, start, n + 1) <==> InRange(v, start, n) || v == Plus(start, n)
    {
      RangeEnd(start, n, v);
    }
  }

  lemma RangeEnd(start: nat, n: nat, v: int)
    requires start < U32 && n + 1 < U32
    ensures InRange(v, start, n + 1) <==> InRange(v, start, n) || v == Plus(start, n)
  {
    if start + n < U32 {
      assert Plus(start, n) == start + n;
    } else {
      assert Plus(start, n) == start + n - U32;
    }
  }

  /** The points plotted for one point of the octant. */
  ghost function Eight(cx: nat, cy: nat, x: nat, y: nat): iset<Pixel> {
    iset{Pixel(Plus(cx, x), Plus(cy, y)), Pixel(Minus(cx, x), Plus(cy, y)),
         Pixel(Plus(cx, x), Minus(cy, y)), Pixel(Minus(cx, x), Minus(cy, y)),
         Pixel(Plus(cx, y), Plus(cy, x)), Pixel(Minus(cx, y), Plus(cy, x)),
         Pixel(Plus(cx, y), Minus(cy, x)), Pixel(Minus(cx, y), Minus(cy, x))}
  }

  /** p is plotted for a point of the octant with x below k. */
  ghost predicate Plotted(p: Pixel, cx: nat, cy: nat, r: nat, k: nat) {
    exists x: nat, y: nat :: x < k && InOctant(r, x, y) && p in Eight(cx, cy, x, y)
  }

  ghost predicate OnCircle(p: Pixel, cx: nat, cy: nat, r: nat) {
    exists x: nat, y: nat :: InOctant(r, x, y) && p in Eight(cx, cy, x, y)
  }

  /** The circle of radius r, as far as x runs below k, and all of it. */
  ghost function CircleUpTo(cx: nat, cy: nat, r: nat, k: nat): iset<Pixel> {
    iset p | Plotted(p, cx, cy, r, k)
  }

  ghost function CirclePixels(cx: nat, cy: nat, r: nat): iset<Pixel> {
    iset p | OnCircle(p, cx, cy, r)
  }

  /** What `draw_circle` draws: a radius of 2^31 or more counts as negative, and draws nothing. */
  ghost function Drawn(cx: nat, cy: nat, radius: nat): iset<Pixel> {
    if AsI32(radius) < 0 then iset{} else CirclePixels(cx, cy, radius)
  }

  lemma CircleNone(cx: nat, cy: nat, r: nat)
    ensures CircleUpTo(cx, cy, r, 0) == iset{}
  {}

  lemma {:induction false} CircleFurther(cx: nat, cy: nat, r: nat, k: nat, y: nat)
    requires InOctant(r, k, y)
    ensures CircleUpTo(cx, cy, r, k + 1) == CircleUpTo(cx, cy, r, k) + Eight(cx, cy, k, y)
  {
    forall p: Pixel
      ensures p in CircleUpTo(cx, cy, r, k + 1) <==> p in CircleUpTo(cx, cy, r, k) + Eight(cx, cy, k, y)
    {
      if p in CircleUpTo(cx, cy, r, k + 1) {
        var x': nat, y': nat :| x' < k + 1 && InOctant(r, x', y') && p in Eight(cx, cy, x', y');
        if x' == k {
          HeightUnique(r, k, y, y');
        }
      }
    }
  }

  lemma {:induction false} CircleComplete(cx: nat, cy: nat, r: nat, k: nat, y: int)
    requires Tracks(r, k, y) && y < k
    ensures CircleUpTo(cx, cy, r, k) == CirclePixels(cx, cy, r)
  {
    forall x: nat, y': nat | InOctant(r, x, y')
      ensures x < k
    {
      if x >= k {
        OctantOver(r, k, y, x, y');
      }
    }
  }

  class Framebuffer {
    const screen: Screen
    const buffer: array<Byte>

    ghost predicate Valid() {
      screen.Valid() && screen.height * screen.stride <= buffer.Length
    }

    constructor (screen: Screen, buffer: array<Byte>)
      ensures this.screen == screen && this.buffer == buffer
    {
      this.screen, this.buffer := screen, buffer;
    }

    method SetPixel(x: nat, y: nat, color: Color)
      requires Valid() && x < U32 && y < U32
      modifies buffer
      ensures buffer[..] == Painted(screen, old(buffer[..]), iset{Pixel(x, y)}, color)
    {
      if x >= screen.width || y >= screen.height {
        OffScreen(screen, x, y);
        return;
      }
      OffsetInside(screen, x, y);
      var offset := (y * screen.stride + x * 4) % U32;
      assert offset == Offset(screen, x, y);
      buffer[offset] := color.b;
      buffer[offset + 1] := color.g;
      buffer[offset + 2] := color.r;
      buffer[offset + 3] := 0xFF;
      forall k: nat | k < buffer.Length
        ensures buffer[..][k] == Painted(screen, old(buffer[..]), iset{Pixel(x, y)}, color)[k]
      {
        OwnedBytes(screen, x, y, k);
      }
    }

    method DrawHline(x: nat, y: nat, length: nat, color: Color)
      requires Valid() && x < U32 && y < U32 && length < U32
      modifies buffer
      ensures buffer[..] == Painted(screen, old(buffer[..]), RectPixels(x, y, length, 1), color)
    {
      assert RectPixels(x, y, 0, 1) == iset{};
      for dx := 0 to length
        invariant buffer[..] == Painted(screen, old(buffer[..]), RectPixels(x, y, dx, 1), color)
      {
        SetPixel(Plus(x, dx), y, color);
        PaintedTwice(screen, old(buffer[..]), RectPixels(x, y, dx, 1), iset{Pixel(Plus(x, dx), y)}, color);
        RangeFurther(x, dx);
        assert RectPixels(x, y, dx + 1, 1) == RectPixels(x, y, dx, 1) + iset{Pixel(Plus(x, dx), y)};
      }
    }

    method DrawVline(x: nat, y: nat, length: nat, color: Color)
      requires Valid() && x < U32 && y < U32 && length < U32
      modifies buffer
      ensures buffer[..] == Painted(screen, old(buffer[..]), RectPixels(x, y, 1, length), color)
    {
      assert RectPixels(x, y, 1, 0) == iset{};
      for dy := 0 to length
        invariant buffer[..] == Painted(screen, old(buffer[..]), RectPixels(x, y, 1, dy), color)
      {
        SetPixel(x, Plus(y, dy), color);
        PaintedTwice(screen, old(buffer[..]), RectPixels(x, y, 1, dy), iset{Pixel(x, Plus(y, dy))}, color);
        RangeFurther(y, dy);
        assert RectPixels(x, y, 1, dy + 1) == RectPixels(x, y, 1, dy) + iset{Pixel(x, Plus(y, dy))};
      }
    }

    method PlotCirclePoints(cx: nat, cy: nat, x: nat, y: nat, color: Color)
      requires Valid() && cx < U32 && cy < U32 && x < U32 && y < U32
      modifies buffer
      ensures buffer[..] == Painted(screen, old(buffer[..]), Eight(cx, cy, x, y), color)
    {
      ghost var b, done := buffer[..], iset{};
      PaintedNone(screen, b, color);
      done := PlotPoint(b, done, Plus(cx, x), Plus(cy, y), color);
      done := PlotPoint(b, done, Minus(cx, x), Plus(cy, y), color);
      done := PlotPoint(b, done, Plus(cx, x), Minus(cy, y), color);
      done := PlotPoint(b, done, Minus(cx, x), Minus(cy, y), color);
      done := PlotPoint(b, done, Plus(cx, y), Plus(cy, x), color);
      done := PlotPoint(b, done, Minus(cx, y), Plus(cy, x), color);
      done := PlotPoint(b, done, Plus(cx, y), Minus(cy, x), color);
      done := PlotPoint(b, done, Minus(cx, y), Minus(cy, x), color);
      assert done == Eight(cx, cy, x, y);
    }

    /** `set_pixel`, keeping account of what has been painted since the buffer was b. */
    method PlotPoint(ghost b: seq<Byte>, ghost done: iset<Pixel>, x: nat, y: nat, color: Color)
      returns (ghost now: iset<Pixel>)
      requires Valid() && x < U32 && y < U32
      requires buffer[..] == Painted(screen, b, done, color)
      modifies buffer
      ensures now == done + iset{Pixel(x, y)}
      ensures buffer[..] == Painted(screen, b, now, color)
    {
      SetPixel(x, y, color);
      now := done + iset{Pixel(x, y)};
      PaintedTwice(screen, b, done, iset{Pixel(x, y)}, color);
    }

    /**
     * Paints exactly the rounded circle. `fits` is false if an i32 operation overflows, which stops the
     * kernel part of the way along the octant.
     */
    method DrawCircle(cx: nat, cy: nat, radius: nat, color: Color) returns (fits: bool)
      requires Valid() && cx < U32 && cy < U32 && radius < U32
      modifies buffer
      ensures fits <==> RadiusFits(radius)
      ensures fits ==> buffer[..] == Painted(screen, old(buffer[..]), Drawn(cx, cy, radius), color)
      ensures !fits ==> exists k :: buffer[..] == Painted(screen, old(buffer[..]), CircleUpTo(cx, cy, radius, k), color)
    {
      hide Tracks, Decision, Painted, Plotted, OnCircle, InOctant;
      ghost var b := buffer[..];
      PaintedNone(screen, b, color);
      CircleNone(cx, cy, radius);
      var x, y := 0, AsI32(radius);
      if !StartFits(y) {
        return false;
      }
      var d := 3 - 2 * y;
      if y < 0 {
        return true;
      }
      TracksStart(radius);
      while y >= x
        invariant 0 <= x && Tracks(radius, x, y) && d == Decision(radius, x, y)
        invariant radius < 0x4000_0000 && (radius > 536894082 ==> y == radius)
        invariant buffer[..] == Painted(screen, b, CircleUpTo(cx, cy, radius, x), color)
        decreases y - x
      {
        TracksHeight(radius, x, y);
        PlotCirclePoints(cx, cy, x, y, color);
        PaintedTwice(screen, b, CircleUpTo(cx, cy, radius, x), Eight(cx, cy, x, y), color);
        CircleFurther(cx, cy, radius, x, y);
        if radius <= 536894082 {
          RoundsFit(radius, x, y);
        } else if d > 0 {
          DropOverflows(radius, x);
        }
        if !RoundFits(x, y, d) {
          return false;
        }
        if d > 0 {
          TracksDown(radius, x, y);
          d := d + (4 * (x - y) + 10);
          y := y - 1;
        } else {
          TracksRight(radius, x, y);
          d := d + (4 * x + 6);
        }
        x := x + 1;
      }
      TracksEnd(radius, x, y);
      CircleComplete(cx, cy, radius, x, y);
      fits := true;
    }

    method DrawRect(x: nat, y: nat, width: nat, height: nat, color: Color)
      requires Valid() && x < U32 && y < U32 && width < U32 && height < U32
      modifies buffer
      ensures buffer[..] == Painted(screen, old(buffer[..]), RectPixels(x, y, width, height), color)
    {
      assert RectPixels(x, y, width, 0) == iset{};
      for dy := 0 to height
        invariant buffer[..] == Painted(screen, old(buffer[..]), RectPixels(x, y, width, dy), color)
      {
        var row := Plus(y, dy);
        ghost var above := buffer[..];
        assert RectPixels(x, row, 0, 1) == iset{};
        for dx := 0 to width
          invariant buffer[..] == Painted(screen, above, RectPixels(x, row, dx, 1), color)
        {
          SetPixel(Plus(x, dx), row, color);
          PaintedTwice(screen, above, RectPixels(x, row, dx, 1), iset{Pixel(Plus(x, dx), row)}, color);
          RangeFurther(x, dx);
          assert RectPixels(x, row, dx + 1, 1) == RectPixels(x, row, dx, 1) + iset{Pixel(Plus(x, dx), row)};
        }
        PaintedTwice(screen, old(buffer[..]), RectPixels(x, y, width, dy), RectPixels(x, row, width, 1), color);
        RangeFurther(y, dy);
        assert RectPixels(x, y, width, dy + 1) == RectPixels(x, y, width, dy) + RectPixels(x, row, width, 1);
      }
    }
  }

  lemma OffScreen(sc: Screen, x: nat, y: nat)
    requires !sc.Shows(Pixel(x, y))
    ensures forall k: nat :: sc.Visible(k) ==> sc.Owner(k) != Pixel(x, y)
  {}

  // ---------------------------------------------------------------------------------------------
  // Clipping
  // ---------------------------------------------------------------------------------------------

  /** p is in the rectangle as a caller means it, without wrap-around. */
  predicate InRect(p: Pixel, x: nat, y: nat, width: nat, height: nat) {
    x <= p.x < x + width && y <= p.y < y + height
  }

  /** The interval of len from start reaches the first `size` coordinates, or wraps around to them. */
  predicate Touches(start: nat, len: nat, size: nat) {
    len > 0 && size > 0 && (start < size || start + len > U32)
  }

  /**
   * `draw_rect` paints exactly the rectangle clipped to the screen, unless the rectangle runs past the end
   * of the 32-bit range and touches the screen; then it always paints pixels that are not in it.
   */
  lemma {:induction false} RectClippedExactly(sc: Screen, x: nat, y: nat, width: nat, height: nat)
    requires sc.Valid() && x < U32 && y < U32 && width < U32 && height < U32
    ensures (forall p :: sc.Shows(p) ==> (p in RectPixels(x, y, width, height) <==> InRect(p, x, y, width, height)))
       <==> (x + width <= U32 && y + height <= U32) || !Touches(x, width, sc.width) || !Touches(y, height, sc.height)
  {
    if (x + width > U32 || y + height > U32) && Touches(x, width, sc.width) && Touches(y, height, sc.height) {
      var p := Pixel(if x + width > U32 then 0 else x, if y + height > U32 then 0 else y);
      assert sc.Shows(p) && p in RectPixels(x, y, width, height) && !InRect(p, x, y, width, height);
    }
  }

  /** It happens: a rectangle at the right end of the 32-bit range paints the left edge of the screen. */
  lemma {:induction false} RectWrapsAround(sc: Screen, height: nat)
    requires sc.Valid() && sc.width > 0 && sc.height > 0 && 0 < height < U32
    ensures sc.Shows(Pixel(0, 0)) && Pixel(0, 0) in RectPixels(0xFFFF_FFFF, 0, 2, height)
    ensures !InRect(Pixel(0, 0), 0xFFFF_FFFF, 0, 2, height)
  {
    assert InRange(0, U32 - 1, 2) && InRange(0, 0, height);
  }

  function Distance(a: int, b: int): nat { if a < b then b - a else a - b }

  /**
   * On the screen the circle is the set of pixels whose larger distance from the centre is the rounded height
   * over the smaller one: the wrap-around of the reflections shows nowhere, given that centre plus radius
   * stay in the 32-bit range and the screen ends a radius before it.
   */
  lemma {:induction false} CircleOnScreen(sc: Screen, cx: nat, cy: nat, r: nat, p: Pixel)
    requires cx + r < U32 && cy + r < U32 && sc.width + r <= U32 && sc.height + r <= U32 && sc.Shows(p)
    ensures var dx, dy := Distance(p.x, cx), Distance(p.y, cy);
      p in CirclePixels(cx, cy, r) <==> if dx <= dy then InOctant(r, dx, dy) else InOctant(r, dy, dx)
  {
    var dx, dy := Distance(p.x, cx), Distance(p.y, cy);
    if p in CirclePixels(cx, cy, r) {
      var x: nat, y: nat :| InOctant(r, x, y) && p in Eight(cx, cy, x, y);
      HeightsShrink(r, x, y, x, y);
      Reflected(sc, cx, cy, r, x, y, p);
    } else {
      assert p in Eight(cx, cy, dx, dy) && p in Eight(cx, cy, dy, dx);
    }
  }

  lemma {:induction false} Reflected(sc: Screen, cx: nat, cy: nat, r: nat, x: nat, y: nat, p: Pixel)
    requires cx + r < U32 && cy + r < U32 && sc.width + r <= U32 && sc.height + r <= U32 && sc.Shows(p)
    requires x <= r && y <= r && p in Eight(cx, cy, x, y)
    ensures (Distance(p.x, cx) == x && Distance(p.y, cy) == y) || (Distance(p.x, cx) == y && Distance(p.y, cy) == x)
  {
    assert forall c: nat, a: nat :: c + r < U32 && a <= r ==> Plus(c, a) == c + a;
    assert forall c: nat, a: nat :: a <= r && c < a ==> Minus(c, a) >= U32 - r;
  }
}
