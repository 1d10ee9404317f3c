/**
 Focal-point crop: scale an image so that it covers the target, then cut the target out of it around the
 focal point. Arithmetic is over exact reals; `Math.round` rounds halves up.
 */
module FocalCrop {

  datatype Dimensions = Dimensions(w: nat, h: nat)
  datatype Point = Point(x: real, y: real)
  datatype Region = Region(left: int, top: int, width: nat, height: nat)
  datatype Intermediate = Intermediate(width: int, height: int, factor: real)

  predicate Positive(d: Dimensions) {
    d.w > 0 && d.h > 0
  }

  predicate InImage(p: Point, d: Dimensions) {
    0.0 <= p.x <= d.w as real && 0.0 <= p.y <= d.h as real
  }

  function Round(x: real): int {
    (x + 0.5).Floor
  }

  function Clamp(min: int, max: int, input: int): int {
    var low := if min > input then min else input;
    if low < max then low else max
  }

  /** The original is relatively wider than the target, so its height decides the scale. */
  predicate Wider(original: Dimensions, target: Dimensions)
    requires Positive(original) && Positive(target)
  {
    original.h as real / target.h as real < original.w as real / target.w as real
  }

  function Factor(original: Dimensions, target: Dimensions): (f: real)
    requires Positive(original) && Positive(target)
    ensures f > 0.0
  {
    if Wider(original, target) then original.h as real / target.h as real else original.w as real / target.w as real
  }

  function IntermediateOf(original: Dimensions, target: Dimensions): Intermediate
    requires Positive(original) && Positive(target)
  {
    var f := Factor(original, target);
    if Wider(original, target) then Intermediate(Round(original.w as real / f), Round(target.h as real), f)
    else Intermediate(Round(target.w as real), Round(original.h as real / f), f)
  }

  /** The branch that moves the region sideways; the other one moves it up and down. */
  predicate MovesSideways(original: Dimensions, target: Dimensions)
    requires Positive(original) && Positive(target)
  {
    IntermediateOf(original, target).height < IntermediateOf(original, target).width
  }

  function RegionOf(original: Dimensions, target: Dimensions, focal: Point): Region
    requires Positive(original) && Positive(target)
  {
    var i := IntermediateOf(original, target);
    if MovesSideways(original, target)
    then Region(Clamp(0, i.width - target.w, Round(focal.x / i.factor - target.w as real / 2.0)), 0, target.w, target.h)
    else
      Region(0, Clamp(0, i.height - target.h, Round(focal.y / i.factor - target.h as real / 2.0)), target.w, target.h)
  }

  method GetIntermediateDimensions(original: Dimensions, target: Dimensions) returns (r: Intermediate)
    requires Positive(original) && Positive(target)
    ensures r == IntermediateOf(original, target)
  {
    var hRatio := original.h as real / target.h as real;
    var wRatio := original.w as real / target.w as real;
    var factor: real;
    var width: int;
    var height: int;
    if hRatio < wRatio {
      factor := hRatio;
      height := Round(target.h as real);
      width := Round(original.w as real / factor);
    } else {
      factor := wRatio;
      width := Round(target.w as real);
      height := Round(original.h as real / factor);
    }
    r := Intermediate(width, height, factor);
  }

  /** `resizeToFocalPoint`: a region of the target's size that lies inside an image covering the target. */
  method ResizeToFocalPoint(original: Dimensions, target: Dimensions, focal: Point)
    returns (i: Intermediate, region: Region)
    requires Positive(original) && Positive(target)
    ensures i == IntermediateOf(original, target) && region == RegionOf(original, target, focal)
    ensures region.width == target.w && region.height == target.h
    ensures 0 <= region.left && region.left + target.w <= i.width
    ensures 0 <= region.top && region.top + target.h <= i.height
  {
    CoversTarget(original, target);
    i := GetIntermediateDimensions(original, target);
    var newXCenter := focal.x / i.factor;
    var newYCenter := focal.y / i.factor;
    region := Region(0, 0, target.w, target.h);
    if i.height < i.width {
      region := region.(left := Clamp(0, i.width - target.w, Round(newXCenter - target.w as real / 2.0)));
    } else {
      region := region.(top := Clamp(0, i.height - target.h, Round(newYCenter - target.h as real / 2.0)));
    }
  }

  lemma QuotientOrder(a: real, b: real, f: real)
    requires a <= b && f > 0.0
    ensures a / f <= b / f
  {
    assert (a / f) * f == a && (b / f) * f == b;
  }

  /** What the original is scaled to before rounding: exact on one side, no smaller on the other. */
  lemma ScaledSize(original: Dimensions, target: Dimensions)
    requires Positive(original) && Positive(target)
    ensures var f := Factor(original, target);
      if Wider(original, target)
      then original.h as real / f == target.h as real && original.w as real / f > target.w as real
      else original.w as real / f == target.w as real && original.h as real / f >= target.h as real
  {
    var f := Factor(original, target);
    var ow, oh, tw, th := original.w as real, original.h as real, target.w as real, target.h as real;
    if Wider(original, target) {
      assert f * th == oh && (ow / tw) * tw == ow;
      assert oh / f == th by { assert (oh / f) * f == th * f; }
      assert ow > f * tw;
      assert (ow / f) * f > tw * f;
    } else {
      assert f * tw == ow && (oh / th) * th == oh;
      assert ow / f == tw by { assert (ow / f) * f == tw * f; }
      assert oh >= f * th;
      assert (oh / f) * f >= th * f;
    }
  }

  /** The intermediate image covers the target, and one of its sides is exactly the target's. */
  lemma CoversTarget(original: Dimensions, target: Dimensions)
    requires Positive(original) && Positive(target)
    ensures var i := IntermediateOf(original, target);
      && i.width >= target.w && i.height >= target.h
      && (i.width == target.w || i.height == target.h)
  {
    ScaledSize(original, target);
  }

  /** Along one axis, point `x` is in the cut of `size` pixels that starts at `start`, up to half a pixel. */
  predicate Within(x: real, start: int, size: nat) {
    start as real - 0.5 <= x <= (start + size) as real + 0.5
  }

  /** The scaled focal point is in the region, up to half a pixel. */
  predicate KeepsFocal(original: Dimensions, target: Dimensions, focal: Point)
    requires Positive(original) && Positive(target)
  {
    var region := RegionOf(original, target, focal);
    && Within(focal.x / Factor(original, target), region.left, region.width)
    && Within(focal.y / Factor(original, target), region.top, region.height)
  }

  /**
   The moved axis, for a point `x` of a scaled side that rounds to `side`: the cut contains it, and is
   centred on it to half a pixel unless the image's edge stopped it.
   */
  lemma MovedAxisKeeps(x: real, side: int, size: nat)
    requires 0 < size <= side && 0.0 <= x <= side as real + 0.5
    ensures var start := Clamp(0, side - size, Round(x - size as real / 2.0));
      && Within(x, start, size)
      && (0 < start < side - size ==> -0.5 <= start as real + size as real / 2.0 - x <= 0.5)
  {
  }

  /**
   The slack axis is the one the region moves along, or the slack is at most half a pixel. It fails for a
   portrait crop of a relatively wider portrait image, and for a landscape crop of a relatively taller
   landscape one: there the code moves the region along the side that has no room.
   */
  predicate MovesAlongSlack(original: Dimensions, target: Dimensions)
    requires Positive(original) && Positive(target)
  {
    var f := Factor(original, target);
    if MovesSideways(original, target) then original.h as real / f <= target.h as real + 0.5
    else original.w as real / f <= target.w as real + 0.5
  }

  lemma FocalKept(original: Dimensions, target: Dimensions, focal: Point)
    requires Positive(original) && Positive(target) && InImage(focal, original)
    requires MovesAlongSlack(original, target)
    ensures KeepsFocal(original, target, focal)
  {
    hide Clamp;
    var f, i := Factor(original, target), IntermediateOf(original, target);
    CoversTarget(original, target);
    ScaledSize(original, target);
    QuotientOrder(0.0, focal.x, f);
    QuotientOrder(0.0, focal.y, f);
    QuotientOrder(focal.x, original.w as real, f);
    QuotientOrder(focal.y, original.h as real, f);
    if MovesSideways(original, target) {
      MovedAxisKeeps(focal.x / f, i.width, target.w);
    } else {
      MovedAxisKeeps(focal.y / f, i.height, target.h);
    }
  }

  /** The crop keeps every focal point of the image exactly when the region moves along the slack axis. */
  lemma FocalKeptIff(original: Dimensions, target: Dimensions)
    requires Positive(original) && Positive(target)
    ensures (forall focal :: InImage(focal, original) ==> KeepsFocal(original, target, focal))
            <==> MovesAlongSlack(original, target)
  {
    if MovesAlongSlack(original, target) {
      forall focal | InImage(focal, original) ensures KeepsFocal(original, target, focal) {
        FocalKept(original, target, focal);
      }
    } else {
      var corner := Point(original.w as real, original.h as real);
      assert InImage(corner, original) && !KeepsFocal(original, target, corner);
    }
  }

  /** A 300x400 image cropped to 100x200: the focal point at x = 290 falls 45 pixels outside the region. */
  lemma FocalPointLost()
    ensures var o, t, p := Dimensions(300, 400), Dimensions(100, 200), Point(290.0, 200.0);
      && InImage(p, o) && RegionOf(o, t, p) == Region(0, 0, 100, 200)
      && p.x / Factor(o, t) == 145.0 && !KeepsFocal(o, t, p)
  {
    var o, t, p := Dimensions(300, 400), Dimensions(100, 200), Point(290.0, 200.0);
    assert 400.0 / 200.0 == 2.0 && 300.0 / 100.0 == 3.0;
    assert Wider(o, t) && Factor(o, t) == 2.0;
    assert IntermediateOf(o, t) == Intermediate(150, 200, 2.0);
  }
}
