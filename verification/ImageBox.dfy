/** What a reported box says about the image. */
module ImageBox {
  import opened Suppression

  ghost predicate Whole(x: real) { x.Floor as real == x }

  /** p lies in the r-th interval of the given length. */
  ghost predicate Interval(r: int, p: real, scale: PositiveReal) {
    r as real * scale <= p < (r as real + 1.0) * scale
  }

  lemma IntervalsOrdered(r: int, r': int, p: real, p': real, scale: PositiveReal)
    requires Interval(r, p, scale) && Interval(r', p', scale) && p <= p'
    ensures r <= r'
  {
    if r' < r { IntervalsApart(r', r, p', p, scale); }
  }

  lemma IntervalsApart(r: int, r': int, p: real, p': real, scale: PositiveReal)
    requires Interval(r, p, scale) && Interval(r', p', scale) && r < r'
    ensures p < p'
  {
    var a, b := r as real + 1.0, r' as real;
    Grows(a, b, scale);
    assert p < a * scale && b * scale <= p';
  }

  lemma IntervalOf(k: int, scale: PositiveReal)
    ensures Interval(k, k as real * scale, scale)
  {
    GrowsStrictly(k as real, k as real + 1.0, scale);
  }

  lemma IntervalBelow(r: int, k: int, p: real, v: real, scale: PositiveReal)
    requires Interval(r, p, scale) && v == k as real * scale && p <= v < p + 1.0
    ensures r <= k && (r == k <==> p == v) && (k - r) as real * scale < scale + 1.0
  {
    IntervalOf(k, scale);
    IntervalsOrdered(r, k, p, v, scale);
    assert (k - r) as real * scale == v - r as real * scale;
    assert (r as real + 1.0) * scale == r as real * scale + scale;
    if p == v { IntervalsOrdered(k, r, v, p, scale); }
  }

  /** An image coordinate mapped into the model frame comes back exactly if its model position is
      a whole pixel. Otherwise it comes back smaller, by less than 1 + 1 / scale. */
  lemma CornerBackIff(r: int, k: int, v: real, max: nat, scale: PositiveReal)
    requires Corner(r, v, max, scale) && v == k as real * scale && 0.0 <= v <= max as real
    ensures r == k <==> Whole(v)
    ensures r <= k && (k - r) as real * scale < scale + 1.0
  {
    var p :| Pixel(p, v, max) && r as real * scale <= p as real < (r as real + 1.0) * scale;
    PixelWithin(p, v, max);
    IntervalBelow(r, k, p as real, v, scale);
  }

  lemma PixelWithin(p: int, v: real, max: nat)
    requires Pixel(p, v, max) && 0.0 <= v <= max as real
    ensures p as real <= v < p as real + 1.0 && (p as real == v <==> Whole(v))
  {
    assert p as real <= v < p as real + 1.0;
    FloorIs(p, v);
  }

  lemma FloorIs(p: int, v: real)
    requires p as real <= v < p as real + 1.0
    ensures v.Floor == p
  {
  }

  lemma CornersOrdered(r: int, r': int, v: real, v': real, max: nat, scale: PositiveReal)
    requires Corner(r, v, max, scale) && Corner(r', v', max, scale) && v <= v'
    ensures 0 <= r <= r' && r' as real * scale <= max as real
  {
    var p :| Pixel(p, v, max) && r as real * scale <= p as real < (r as real + 1.0) * scale;
    var p' :| Pixel(p', v', max) && r' as real * scale <= p' as real < (r' as real + 1.0) * scale;
    PixelsOrdered(p, p', v, v', max);
    IntervalsOrdered(r, r', p as real, p' as real, scale);
    IntervalsOrdered(0, r, 0.0, p as real, scale);
  }

  lemma PixelsOrdered(p: int, p': int, v: real, v': real, max: nat)
    requires Pixel(p, v, max) && Pixel(p', v', max) && v <= v'
    ensures 0 <= p <= p' <= max
  {
  }

  /** At or before the frame's edge the corner is 0; at or behind its other edge it is the last one. */
  lemma CornerAtEdge(r: int, v: real, max: nat, scale: PositiveReal)
    requires Corner(r, v, max, scale)
    ensures v <= 0.0 ==> r == 0
    ensures v >= max as real ==> Interval(r, max as real, scale)
  {
    var p :| Pixel(p, v, max) && r as real * scale <= p as real < (r as real + 1.0) * scale;
    if v <= 0.0 {
      IntervalsOrdered(0, r, 0.0, p as real, scale);
      IntervalsOrdered(r, 0, p as real, 0.0, scale);
    }
  }

  /** Where an image coordinate lies in the model frame, before padding. */
  function InModel(k: int, scale: PositiveReal): real { k as real * scale }

  /** The candidate box of an image box. */
  function ToModel(left: int, top: int, right: int, bottom: int, v: View): Box {
    var x, y := InModel(left, v.scaleW), InModel(top, v.scaleH);
    Box(x + v.left, y + v.top, InModel(right, v.scaleW) - x, InModel(bottom, v.scaleH) - y)
  }

  ghost predicate Inside(a: int, b: int, max: nat, scale: PositiveReal) {
    0 <= a <= b && InModel(b, scale) <= max as real
  }

  lemma InModelOrdered(a: int, b: int, scale: PositiveReal)
    requires 0 <= a <= b
    ensures 0.0 <= InModel(a, scale) <= InModel(b, scale)
  {
    Grows(a as real, b as real, scale);
    Grows(0.0, a as real, scale);
  }

  lemma InsideAt(r: int, k: int, v: real, max: nat, scale: PositiveReal)
    requires Corner(r, v, max, scale) && v == InModel(k, scale) && 0.0 <= v <= max as real
    ensures (r == k <==> Whole(v)) && r <= k
  {
    CornerBackIff(r, k, v, max, scale);
  }

  lemma InsideCorner(r: int, r': int, a: int, b: int, x: real, w: real, pad: real, max: nat, scale: PositiveReal)
    requires Inside(a, b, max, scale) && x == InModel(a, scale) + pad && w == InModel(b, scale) - InModel(a, scale)
    requires Corner(r, x - pad, max, scale) && Corner(r', x + w - pad, max, scale)
    ensures (r == a <==> Whole(InModel(a, scale))) && r <= a && (r' == b <==> Whole(InModel(b, scale))) && r' <= b
  {
    InModelOrdered(a, b, scale);
    var v, v' := x - pad, x + w - pad;
    assert v == InModel(a, scale) && v' == InModel(b, scale);
    InsideAt(r, a, v, max, scale);
    InsideAt(r', b, v', max, scale);
  }

  lemma Modelled(left: int, top: int, right: int, bottom: int, v: View, b: Box, r: Result)
    requires b == ToModel(left, top, right, bottom, v) && Placed(r, b, v)
    ensures b.x == InModel(left, v.scaleW) + v.left && b.w == InModel(right, v.scaleW) - InModel(left, v.scaleW)
    ensures b.y == InModel(top, v.scaleH) + v.top && b.h == InModel(bottom, v.scaleH) - InModel(top, v.scaleH)
    ensures Corner(r.left, b.x - v.left, v.width, v.scaleW) && Corner(r.right, b.x + b.w - v.left, v.width, v.scaleW)
    ensures Corner(r.top, b.y - v.top, v.height, v.scaleH) && Corner(r.bottom, b.y + b.h - v.top, v.height, v.scaleH)
  {
  }

  /** A box of the image that the network sees whole is reported in its place if and only if the
      scale takes its corners to whole model pixels, and never to the right of it or below. */
  lemma RoundTripIff(left: int, top: int, right: int, bottom: int, v: View, r: Result)
    requires Inside(left, right, v.width, v.scaleW) && Inside(top, bottom, v.height, v.scaleH)
    requires Placed(r, ToModel(left, top, right, bottom, v), v)
    ensures (r.left == left && r.top == top && r.right == right && r.bottom == bottom)
            <==> (Whole(InModel(left, v.scaleW)) && Whole(InModel(right, v.scaleW))
                  && Whole(InModel(top, v.scaleH)) && Whole(InModel(bottom, v.scaleH)))
    ensures r.left <= left && r.top <= top && r.right <= right && r.bottom <= bottom
  {
    var b := ToModel(left, top, right, bottom, v);
    Modelled(left, top, right, bottom, v, b, r);
    InsideCorner(r.left, r.right, left, right, b.x, b.w, v.left, v.width, v.scaleW);
    InsideCorner(r.top, r.bottom, top, bottom, b.y, b.h, v.top, v.height, v.scaleH);
  }

  lemma AxisInImage(r: int, r': int, v: real, v': real, max: nat, scale: PositiveReal)
    requires Corner(r, v, max, scale) && Corner(r', v', max, scale) && v <= v'
    ensures 0 <= r <= r' && InModel(r', scale) <= max as real
    ensures v <= 0.0 ==> r == 0
    ensures v' >= max as real ==> Interval(r', max as real, scale)
  {
    CornersOrdered(r, r', v, v', max, scale);
    CornerAtEdge(r, v, max, scale);
    CornerAtEdge(r', v', max, scale);
  }

  /** Any reported box of non-negative size lies in the image, its corners in order; corners outside
      the frame are reported at its edges. */
  lemma PlacedInImage(b: Box, v: View, r: Result)
    requires Placed(r, b, v) && b.w >= 0.0 && b.h >= 0.0
    ensures 0 <= r.left <= r.right && InModel(r.right, v.scaleW) <= v.width as real
    ensures 0 <= r.top <= r.bottom && InModel(r.bottom, v.scaleH) <= v.height as real
    ensures (b.x <= v.left ==> r.left == 0) && (b.y <= v.top ==> r.top == 0)
    ensures b.x + b.w - v.left >= v.width as real ==> Interval(r.right, v.width as real, v.scaleW)
    ensures b.y + b.h - v.top >= v.height as real ==> Interval(r.bottom, v.height as real, v.scaleH)
  {
    AxisInImage(r.left, r.right, b.x - v.left, b.x + b.w - v.left, v.width, v.scaleW);
    AxisInImage(r.top, r.bottom, b.y - v.top, b.y + b.h - v.top, v.height, v.scaleH);
  }

  /** Below scale one the round trip fails: the image coordinate 3 at half size is reported as 2. */
  lemma RoundTripWitness(r: int)
    requires Corner(r, 3.0 * 0.5, 640, 0.5)
    ensures r == 2
  {
    var p :| Pixel(p, 3.0 * 0.5, 640) && r as real * 0.5 <= p as real < (r as real + 1.0) * 0.5;
    assert p == 1;
  }

  // ---- what the overlap measures ---------------------------------------------------------------

  /** The pixels of a rectangle, both corners included. */
  function Rect(x0: int, y0: int, x1: int, y1: int): set<(int, int)> {
    set i, j | x0 <= i <= x1 && y0 <= j <= y1 :: (i, j)
  }

  function Span(a: int, b: int): nat { if a <= b then b - a + 1 else 0 }

  lemma {:induction false} ColumnSize(x: int, y0: int, y1: int)
    ensures |Rect(x, y0, x, y1)| == Span(y0, y1)
    decreases Span(y0, y1)
  {
    if y0 <= y1 {
      ColumnSize(x, y0, y1 - 1);
      assert Rect(x, y0, x, y1) == Rect(x, y0, x, y1 - 1) + {(x, y1)};
    } else {
      assert Rect(x, y0, x, y1) == {};
    }
  }

  lemma {:induction false} RectSize(x0: int, y0: int, x1: int, y1: int)
    ensures |Rect(x0, y0, x1, y1)| == Span(x0, x1) * Span(y0, y1)
    decreases Span(x0, x1)
  {
    if x0 <= x1 {
      RectSize(x0, y0, x1 - 1, y1);
      ColumnSize(x1, y0, y1);
      RectGrows(x0, y0, x1, y1);
      OneMore(Span(x0, x1 - 1), Span(y0, y1));
    } else {
      assert Rect(x0, y0, x1, y1) == {};
    }
  }

  lemma RectGrows(x0: int, y0: int, x1: int, y1: int)
    requires x0 <= x1
    ensures |Rect(x0, y0, x1, y1)| == |Rect(x0, y0, x1 - 1, y1)| + |Rect(x1, y0, x1, y1)|
  {
    assert Rect(x0, y0, x1, y1) == Rect(x0, y0, x1 - 1, y1) + Rect(x1, y0, x1, y1);
    assert Rect(x0, y0, x1 - 1, y1) !! Rect(x1, y0, x1, y1);
  }

  lemma OneMore(a: nat, b: nat)
    ensures (a + 1) * b == a * b + b
  {
  }

  function Larger(a: int, b: int): int { if a >= b then a else b }

  function Smaller(a: int, b: int): int { if a <= b then a else b }

  /** The candidate box with these whole corners. */
  function Cornered(x0: int, y0: int, x1: int, y1: int): Box {
    Box(x0 as real, y0 as real, (x1 - x0) as real, (y1 - y0) as real)
  }

  /** Boxes with whole corners overlap by the pixels they share, over the pixels either has. */
  lemma OverlapCountsPixels(a0: int, b0: int, a1: int, b1: int, c0: int, d0: int, c1: int, d1: int)
    requires a0 <= a1 && b0 <= b1 && c0 <= c1 && d0 <= d1
    ensures var p, q := Rect(a0, b0, a1, b1), Rect(c0, d0, c1, d1);
            |p + q| > 0
            && Overlap(Cornered(a0, b0, a1, b1), Cornered(c0, d0, c1, d1)) == |p * q| as real / |p + q| as real
  {
    var p, q := Rect(a0, b0, a1, b1), Rect(c0, d0, c1, d1);
    var x0, y0, x1, y1 := Larger(a0, c0), Larger(b0, d0), Smaller(a1, c1), Smaller(b1, d1);
    assert p * q == Rect(x0, y0, x1, y1);
    RectSize(x0, y0, x1, y1);
    RectSize(a0, b0, a1, b1);
    RectSize(c0, d0, c1, d1);
    assert |p + q| == |p| + |q| - |p * q|;
    assert (a0, b0) in p + q;
    Measures(a0, b0, a1, b1, c0, d0, c1, d1, Span(x0, x1), Span(y0, y1), |p|, |q|);
  }

  lemma Measures(a0: int, b0: int, a1: int, b1: int, c0: int, d0: int, c1: int, d1: int, w: nat, h: nat, p: nat, q: nat)
    requires a0 <= a1 && b0 <= b1 && c0 <= c1 && d0 <= d1
    requires w == Span(Larger(a0, c0), Smaller(a1, c1)) && h == Span(Larger(b0, d0), Smaller(b1, d1))
    requires p == Span(a0, a1) * Span(b0, b1) && q == Span(c0, c1) * Span(d0, d1) && p + q - w * h > 0
    ensures Overlap(Cornered(a0, b0, a1, b1), Cornered(c0, d0, c1, d1)) == (w * h) as real / (p + q - w * h) as real
  {
    var s, t := Cornered(a0, b0, a1, b1), Cornered(c0, d0, c1, d1);
    assert Extent(s.x, s.w, t.x, t.w) == w as real && Extent(s.y, s.h, t.y, t.h) == h as real;
    AreaOf(s, Span(a0, a1), Span(b0, b1));
    AreaOf(t, Span(c0, c1), Span(d0, d1));
    assert Overlap(s, t) == OverlapOf(w as real, h as real, p as real, q as real);
    Quotients(w, h, p, q);
  }

  lemma AreaOf(b: Box, w: nat, h: nat)
    requires b.w + 1.0 == w as real && b.h + 1.0 == h as real
    ensures Area(b) == (w * h) as real
  {
    Product(w, h);
  }

  lemma Quotients(w: nat, h: nat, p: nat, q: nat)
    requires p + q - w * h > 0
    ensures OverlapOf(w as real, h as real, p as real, q as real) == (w * h) as real / (p + q - w * h) as real
  {
    var i := w * h;
    Product(w, h);
    assert p as real + q as real - i as real == (p + q - i) as real;
  }

  lemma Product(a: nat, b: nat)
    ensures (a * b) as real == a as real * b as real
  {
  }
}
