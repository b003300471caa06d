/**
 * Heading normalisation and the smoothing window (`getScreenRotationDeg` and
 * `handleOrientation` in script.js).  A raw device-orientation event becomes
 * a compass heading, is shifted by the declination, enters a FIFO of the six
 * newest samples, and the smoothed heading is the circular mean of that FIFO.
 */
module Heading {
  import opened Wrappers
  import opened JsNumber

  /** Size of the smoothing window (`HEADING_SMOOTH`). */
  const HEADING_SMOOTH: nat := 6
  /** Magnetic declination added to every heading (`DECLINATION_DEG`). */
  const DECLINATION_DEG: real := 0.0

  /** A property of an event object, as `typeof x === "number"` sees it. */
  datatype Field = NotNumber | Number(n: Num)

  /** The two fields of a `deviceorientation` event the app reads. */
  datatype OrientationEvent = OrientationEvent(webkitCompassHeading: Field, alpha: Field)

  /**
   * What the screen reports about its rotation: `screen.orientation.angle`
   * (NotNumber also when `screen.orientation` is missing) and the legacy
   * `window.orientation`.
   */
  datatype ScreenInfo = ScreenInfo(orientationAngle: Field, windowOrientation: Field)

  /** The angle `getScreenRotationDeg` starts from, falling back to 0. */
  function RawScreenAngle(screen: ScreenInfo): (r: Num)
    ensures screen.orientationAngle.Number? ==> r == screen.orientationAngle.n
    ensures screen.orientationAngle.NotNumber? && screen.windowOrientation.Number? ==> r == screen.windowOrientation.n
    ensures screen.orientationAngle.NotNumber? && screen.windowOrientation.NotNumber? ==> r == Finite(0.0)
  {
    if screen.orientationAngle.Number? then screen.orientationAngle.n
    else if screen.windowOrientation.Number? then screen.windowOrientation.n
    else Finite(0.0)
  }

  /** `((a % 360) + 360) % 360` on a finite angle. */
  function WrapDegrees(a: real): (r: real)
    ensures 0.0 <= r < 360.0
    ensures Congruent(r, a, 360.0)
  {
    var once := Rem(a, 360.0);
    CongruentMultiple(once, a, 360.0);
    CongruentByMultiple(once + 360.0, a, 360.0, ((once - a) / 360.0).Floor + 1);
    CongruentTrans(Rem(once + 360.0, 360.0), once + 360.0, a, 360.0);
    Rem(once + 360.0, 360.0)
  }

  /** `getScreenRotationDeg`: the screen rotation folded into [0,360). */
  function ScreenRotationDeg(screen: ScreenInfo): (r: Num)
    ensures r.Finite? <==> RawScreenAngle(screen).Finite?
    ensures r.Finite? ==> 0.0 <= r.v < 360.0 && Congruent(r.v, RawScreenAngle(screen).v, 360.0)
    ensures r.Finite? ==> r.v == WrapDegrees(RawScreenAngle(screen).v)
  {
    var a := RawScreenAngle(screen);
    var r := RemBy(Add(RemBy(a, 360.0), Finite(360.0)), 360.0);
    assert a.Finite? ==> r == Finite(WrapDegrees(a.v));
    r
  }

  /** `(360 - ((alpha + rot) % 360)) % 360` on finite operands. */
  function AlphaHeading(alpha: real, rot: real): (h: real)
    ensures 0.0 <= h < 360.0
    ensures Congruent(h, -(alpha + rot), 360.0)
  {
    var s := alpha + rot;
    var inner := Rem(s, 360.0);
    CongruentMultiple(inner, s, 360.0);
    CongruentByMultiple(360.0 - inner, -s, 360.0, 1 - ((inner - s) / 360.0).Floor);
    CongruentTrans(Rem(360.0 - inner, 360.0), 360.0 - inner, -s, 360.0);
    Rem(360.0 - inner, 360.0)
  }

  /** The alpha-path heading on doubles: NaN unless alpha and the rotation are finite. */
  function AlphaPath(alpha: Num, rot: Num): (h: Num)
    ensures h.Finite? <==> alpha.Finite? && rot.Finite?
    ensures h.Finite? ==> h.v == AlphaHeading(alpha.v, rot.v)
  {
    RemBy(Sub(Finite(360.0), RemBy(Add(alpha, rot), 360.0)), 360.0)
  }

  /**
   * The `heading` variable before the `isNaN` guard: the iOS compass field
   * when it is a number, otherwise the rotation-corrected and inverted
   * alpha, otherwise nothing (`null`).
   */
  function EventHeading(e: OrientationEvent, screen: ScreenInfo): (r: Option<Num>)
    ensures r.None? <==> e.webkitCompassHeading.NotNumber? && e.alpha.NotNumber?
    ensures e.webkitCompassHeading.Number? ==> r == Some(e.webkitCompassHeading.n)
  {
    if e.webkitCompassHeading.Number? then Some(e.webkitCompassHeading.n)
    else if e.alpha.Number? then Some(AlphaPath(e.alpha.n, ScreenRotationDeg(screen)))
    else None
  }

  /** `(heading + DECLINATION_DEG + 360) % 360` on finite operands. */
  function DeclinationStep(h: real, decl: real): (r: real)
    ensures -360.0 < r < 360.0
    ensures Congruent(r, h + decl, 360.0)
    ensures h + decl + 360.0 >= 0.0 ==> 0.0 <= r < 360.0
    ensures h + decl + 360.0 < 0.0 ==> -360.0 < r <= 0.0
  {
    CongruentByMultiple(h + decl + 360.0, h + decl, 360.0, 1);
    CongruentTrans(Rem(h + decl + 360.0, 360.0), h + decl + 360.0, h + decl, 360.0);
    Rem(h + decl + 360.0, 360.0)
  }

  /**
   * The sample `handleOrientation` pushes, exactly as written: an event
   * without a numeric field, or whose heading is NaN, is dropped; every
   * other heading, infinite ones included, goes through the declination
   * step.
   */
  function NormaliseAsWritten(e: OrientationEvent, screen: ScreenInfo, decl: real): (r: Option<Num>)
    ensures r.Some? <==> EventHeading(e, screen).Some? && !EventHeading(e, screen).value.NaN?
    ensures r.Some? ==> (r.value.NaN? <==> EventHeading(e, screen).value.Infinite?)
    ensures r.Some? && r.value.Finite? ==> -360.0 < r.value.v < 360.0
  {
    match EventHeading(e, screen)
    case None => None
    case Some(h) =>
      if h.NaN? then None
      else Some(RemBy(Add(Add(h, Finite(decl)), Finite(360.0)), 360.0))
  }

  /**
   * The sample with the evidently intended guard: only a finite heading is
   * accepted, so the window never holds NaN.
   */
  function Normalise(e: OrientationEvent, screen: ScreenInfo, decl: real): (r: Option<real>)
    ensures e.webkitCompassHeading.NotNumber? && e.alpha.NotNumber? ==> r.None?
    ensures r.Some? ==> -360.0 < r.value < 360.0
  {
    match EventHeading(e, screen)
    case Some(Finite(h)) => Some(DeclinationStep(h, decl))
    case _ => None
  }

  /**
   * The iOS field, when it is a number, decides alone: a finite value is
   * shifted by the declination, lands in [0,360) when it is not below
   * -360 - decl, and anything else is dropped.
   */
  lemma NormaliseCompassPath(e: OrientationEvent, screen: ScreenInfo, decl: real)
    requires e.webkitCompassHeading.Number?
    ensures var r := Normalise(e, screen, decl);
      && (r.Some? <==> e.webkitCompassHeading.n.Finite?)
      && (r.Some? ==> Congruent(r.value, e.webkitCompassHeading.n.v + decl, 360.0))
      && (r.Some? && e.webkitCompassHeading.n.v + decl + 360.0 >= 0.0 ==> 0.0 <= r.value < 360.0)
  {
  }

  /**
   * The alpha-path sample on exact reals: alpha corrected for the screen
   * rotation and inverted, then shifted by the declination.  It is
   * congruent to decl - alpha - raw modulo 360 and, for any declination
   * from -360 up, lies in [0,360).
   */
  function AlphaSample(alpha: real, raw: real, decl: real): (r: real)
    ensures Congruent(r, decl - alpha - raw, 360.0)
    ensures decl >= -360.0 ==> 0.0 <= r < 360.0
  {
    var rot := WrapDegrees(raw);
    var h := AlphaHeading(alpha, rot);
    AlphaSampleCongruent(alpha, raw, rot, h, decl, decl - alpha - raw);
    DeclinationStep(h, decl)
  }

  lemma AlphaSampleCongruent(alpha: real, raw: real, rot: real, h: real, decl: real, target: real)
    requires Congruent(rot, raw, 360.0) && Congruent(h, -(alpha + rot), 360.0)
    requires target == decl - alpha - raw
    ensures Congruent(DeclinationStep(h, decl), target, 360.0)
  {
    CongruentMultiple(rot, raw, 360.0);
    CongruentMultiple(h, -(alpha + rot), 360.0);
    CongruentByMultiple(h + decl, target, 360.0,
      ((h - -(alpha + rot)) / 360.0).Floor - ((rot - raw) / 360.0).Floor);
    CongruentTrans(DeclinationStep(h, decl), h + decl, target, 360.0);
  }

  /**
   * Without the iOS field the sample is dropped exactly when alpha or the
   * screen angle is not finite, and is otherwise the alpha-path sample.
   */
  lemma NormaliseAlphaPath(e: OrientationEvent, screen: ScreenInfo, decl: real)
    requires e.webkitCompassHeading.NotNumber? && e.alpha.Number?
    ensures var r := Normalise(e, screen, decl);
      && (r.Some? <==> e.alpha.n.Finite? && RawScreenAngle(screen).Finite?)
      && (r.Some? && e.alpha.n.Finite? && RawScreenAngle(screen).Finite? ==>
            r.value == AlphaSample(e.alpha.n.v, RawScreenAngle(screen).v, decl))
  {
    var h := AlphaPath(e.alpha.n, ScreenRotationDeg(screen));
    assert EventHeading(e, screen) == Some(h);
  }

  /**
   * The two guards agree on every event except one whose iOS heading is
   * infinite: that one is accepted as written and becomes a NaN sample.
   */
  lemma NormaliseAgreesWhenFinite(e: OrientationEvent, screen: ScreenInfo, decl: real)
    ensures Normalise(e, screen, decl).Some? ==>
      NormaliseAsWritten(e, screen, decl) == Some(Finite(Normalise(e, screen, decl).value))
    ensures Normalise(e, screen, decl).None? && NormaliseAsWritten(e, screen, decl).Some? ==>
      && NormaliseAsWritten(e, screen, decl) == Some(NaN)
      && e.webkitCompassHeading.Number? && e.webkitCompassHeading.n.Infinite?
  {
    if e.webkitCompassHeading.NotNumber? && e.alpha.Number? {
      var h := AlphaPath(e.alpha.n, ScreenRotationDeg(screen));
      assert EventHeading(e, screen) == Some(h);
    }
  }

  /** An iOS event reporting an infinite heading pushes NaN into the window as written. */
  lemma InfiniteCompassHeadingBecomesNaN(screen: ScreenInfo)
    ensures NormaliseAsWritten(OrientationEvent(Number(Infinite(false)), NotNumber), screen, DECLINATION_DEG) == Some(NaN)
    ensures Normalise(OrientationEvent(Number(Infinite(false)), NotNumber), screen, DECLINATION_DEG) == None
  {
  }

  // ---------- the smoothing window ----------

  /** `headingSamples.push(h); if (length > HEADING_SMOOTH) headingSamples.shift();` */
  function Slide(w: seq<real>, x: real): (r: seq<real>)
    ensures |w| <= HEADING_SMOOTH ==> |r| <= HEADING_SMOOTH
    ensures |r| > 0 && r[|r| - 1] == x
    ensures forall k :: 0 <= k < |r| - 1 ==> r[k] in w
    ensures |w| <= HEADING_SMOOTH ==> r == LastN(w + [x], HEADING_SMOOTH)
  {
    var pushed := w + [x];
    if |pushed| > HEADING_SMOOTH then pushed[1..] else pushed
  }

  lemma SlideInRange(w: seq<real>, x: real)
    requires forall k :: 0 <= k < |w| ==> -360.0 < w[k] < 360.0
    requires -360.0 < x < 360.0
    ensures forall k :: 0 <= k < |Slide(w, x)| ==> -360.0 < Slide(w, x)[k] < 360.0
  {
  }

  /** The window after the accepted samples, oldest first, have all been pushed into an empty one. */
  function WindowOf(accepted: seq<real>): seq<real> {
    if accepted == [] then []
    else Slide(WindowOf(accepted[..|accepted| - 1]), accepted[|accepted| - 1])
  }

  /** The last min(|s|, n) elements of s, in order. */
  function LastN<T>(s: seq<T>, n: nat): seq<T> {
    if |s| <= n then s else s[|s| - n..]
  }

  /**
   * After any sequence of accepted samples the window holds exactly the
   * newest six of them in arrival order (all of them while there are fewer).
   */
  lemma {:induction false} WindowIsLastSix(accepted: seq<real>)
    ensures WindowOf(accepted) == LastN(accepted, HEADING_SMOOTH)
    ensures |WindowOf(accepted)| <= HEADING_SMOOTH
    ensures accepted != [] ==> WindowOf(accepted)[|WindowOf(accepted)| - 1] == accepted[|accepted| - 1]
  {
    if accepted != [] {
      var prefix := accepted[..|accepted| - 1];
      var x := accepted[|accepted| - 1];
      WindowIsLastSix(prefix);
      assert prefix + [x] == accepted;
      if |accepted| > HEADING_SMOOTH {
        if |prefix| > HEADING_SMOOTH {
          assert (LastN(prefix, HEADING_SMOOTH) + [x])[1..] == accepted[|accepted| - HEADING_SMOOTH..];
        } else {
          assert (prefix + [x])[1..] == accepted[|accepted| - HEADING_SMOOTH..];
        }
      }
    }
  }

  // ---------- the circular mean ----------

  /**
   * `Math.atan2(y, x) * 180 / Math.PI`; its value lies in [-180,180].  The
   * trigonometry itself is not modelled.
   */
  type Atan2Deg = f: (real, real) -> real | forall y: real, x: real :: -180.0 <= f(y, x) <= 180.0
    witness (y: real, x: real) => 0.0

  /** The trigonometric functions the mean uses, taking degrees. */
  datatype Trig = Trig(cosDeg: real -> real, sinDeg: real -> real, atan2Deg: Atan2Deg)

  /** The sum of cos over the window, accumulated oldest first. */
  function SumCos(w: seq<real>, cosDeg: real -> real): real {
    if w == [] then 0.0 else SumCos(w[..|w| - 1], cosDeg) + cosDeg(w[|w| - 1])
  }

  /** The sum of sin over the window, accumulated oldest first. */
  function SumSin(w: seq<real>, sinDeg: real -> real): real {
    if w == [] then 0.0 else SumSin(w[..|w| - 1], sinDeg) + sinDeg(w[|w| - 1])
  }

  /** The `for (const h of headingSamples)` loop: the summed unit vectors of the window. */
  method SumVectors(w: seq<real>, trig: Trig) returns (x: real, y: real)
    ensures x == SumCos(w, trig.cosDeg) && y == SumSin(w, trig.sinDeg)
  {
    x, y := 0.0, 0.0;
    var i := 0;
    while i < |w|
      invariant 0 <= i <= |w|
      invariant x == SumCos(w[..i], trig.cosDeg) && y == SumSin(w[..i], trig.sinDeg)
    {
      assert w[..i + 1][..i] == w[..i];
      x := x + trig.cosDeg(w[i]);
      y := y + trig.sinDeg(w[i]);
      i := i + 1;
    }
    assert w[..|w|] == w;
  }

  /** `(atan2(y, x) * 180 / PI + 360) % 360` over the summed vectors: a heading in [0,360). */
  function CircularMean(w: seq<real>, trig: Trig): (r: real)
    ensures 0.0 <= r < 360.0
    ensures Congruent(r, trig.atan2Deg(SumSin(w, trig.sinDeg), SumCos(w, trig.cosDeg)), 360.0)
  {
    var deg := trig.atan2Deg(SumSin(w, trig.sinDeg), SumCos(w, trig.cosDeg));
    CongruentByMultiple(deg + 360.0, deg, 360.0, 1);
    CongruentTrans(Rem(deg + 360.0, 360.0), deg + 360.0, deg, 360.0);
    Rem(deg + 360.0, 360.0)
  }

  /**
   * The orientation state of the app: `headingSamples` and
   * `smoothedHeading`.  `accepted` is the ghost history of every sample
   * that entered the window.
   */
  class HeadingFilter {
    var headingSamples: seq<real>
    var smoothedHeading: real
    ghost var accepted: seq<real>
    const trig: Trig

    ghost predicate Valid()
      reads this
    {
      && headingSamples == WindowOf(accepted)
      && (forall k :: 0 <= k < |headingSamples| ==> -360.0 < headingSamples[k] < 360.0)
      && 0.0 <= smoothedHeading < 360.0
    }

    /** The start state: an empty window and a smoothed heading of 0. */
    constructor (trig: Trig)
      ensures Valid()
      ensures headingSamples == [] && smoothedHeading == 0.0 && accepted == [] && this.trig == trig
    {
      headingSamples := [];
      smoothedHeading := 0.0;
      accepted := [];
      this.trig := trig;
    }

    /**
     * `handleOrientation`: a usable event slides its heading into the
     * window and recomputes the smoothed heading; any other event changes
     * nothing.
     */
    method HandleOrientation(e: OrientationEvent, screen: ScreenInfo)
      requires Valid()
      modifies this
      ensures Valid()
      ensures Normalise(e, screen, DECLINATION_DEG).None? ==>
        && headingSamples == old(headingSamples)
        && smoothedHeading == old(smoothedHeading)
        && accepted == old(accepted)
      ensures Normalise(e, screen, DECLINATION_DEG).Some? ==>
        && accepted == old(accepted) + [Normalise(e, screen, DECLINATION_DEG).value]
        && headingSamples == Slide(old(headingSamples), Normalise(e, screen, DECLINATION_DEG).value)
        && smoothedHeading == CircularMean(headingSamples, trig)
    {
      var heading := Normalise(e, screen, DECLINATION_DEG);
      if heading.None? {
        return;
      }
      var h := heading.value;
      ghost var before := headingSamples;
      headingSamples := headingSamples + [h];
      if |headingSamples| > HEADING_SMOOTH {
        headingSamples := headingSamples[1..];
      }
      assert headingSamples == Slide(before, h);
      SlideInRange(before, h);
      assert (accepted + [h])[..|accepted|] == accepted;
      accepted := accepted + [h];
      var x, y := SumVectors(headingSamples, trig);
      smoothedHeading := Rem(trig.atan2Deg(y, x) + 360.0, 360.0);
    }
  }
}
