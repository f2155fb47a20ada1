/**
 * The setback envelope ("miolo") of a rectangular lot: `envelope_area`
 * (core/app_main.py). The lot's frontage and depth are reduced by the front,
 * rear and lateral setbacks under one of three regimes; a negative width or
 * depth is clamped to zero, so an over-constrained lot has no buildable core.
 */
module Envelope {

  /** The regime tag `esquina_modelo`. */
  datatype Regime = MidBlock | CornerTwoFronts | CornerOneFront

  /** Usable width, usable depth, core area and regime. */
  datatype Core = Core(usableWidth: real, usableDepth: real, area: real, regime: Regime)

  /** Python's `max(x, 0.0)`. */
  function ClampZero(x: real): (r: real)
    ensures r >= 0.0 && r >= x
    ensures r == x || r == 0.0
  {
    if x >= 0.0 then x else 0.0
  }

  /**
   * `envelope_area(testada, profundidade, rec_fr, rec_fun, rec_lat, esquina,
   * corner_two_fronts, attach_one_side)`.
   */
  function EnvelopeArea(frontage: real, depth: real, front: real, rear: real, lateral: real,
                        corner: bool, twoFronts: bool, attachOneSide: bool): (e: Core)
    ensures e.usableWidth >= 0.0 && e.usableDepth >= 0.0
    ensures e.area == e.usableWidth * e.usableDepth && e.area >= 0.0
    ensures e.regime == MidBlock <==> !corner
    ensures e.regime == CornerTwoFronts <==> corner && twoFronts
    ensures e.usableDepth == ClampZero(depth - front - rear)
  {
    var internal := if attachOneSide then 0.0 else lateral;
    var depthUtil := ClampZero(depth - front - rear);
    if !corner then
      var w := ClampZero(frontage - (internal + lateral));
      Core(w, depthUtil, w * depthUtil, MidBlock)
    else if twoFronts then
      var w := ClampZero(frontage - (internal + front));
      Core(w, depthUtil, w * depthUtil, CornerTwoFronts)
    else
      var w := ClampZero(frontage - (internal + lateral));
      Core(w, depthUtil, w * depthUtil, CornerOneFront)
  }

  /** Mid-block and "corner without two fronts" differ only in the regime tag. */
  lemma {:induction false} OneFrontCornerIsMidBlock(frontage: real, depth: real, front: real, rear: real,
                                                   lateral: real, attachOneSide: bool)
    ensures var m := EnvelopeArea(frontage, depth, front, rear, lateral, false, false, attachOneSide);
            var c := EnvelopeArea(frontage, depth, front, rear, lateral, true, false, attachOneSide);
            m.usableWidth == c.usableWidth && m.usableDepth == c.usableDepth && m.area == c.area
            && m.regime == MidBlock && c.regime == CornerOneFront
            && m.usableWidth == ClampZero(frontage - (if attachOneSide then lateral else 2.0 * lateral))
  {
  }

  /**
   * On a two-front corner the secondary frontage keeps the front setback and
   * `attach_one_side` drops only the remaining lateral setback.
   */
  lemma TwoFrontsWidth(frontage: real, depth: real, front: real, rear: real, lateral: real, attachOneSide: bool)
    ensures EnvelopeArea(frontage, depth, front, rear, lateral, true, true, attachOneSide).usableWidth
         == ClampZero(frontage - front - (if attachOneSide then 0.0 else lateral))
  {
  }

  /** Product of non-negative factors is monotone in both. */
  lemma MulMonotone(a: real, b: real, c: real, d: real)
    requires 0.0 <= a <= c && 0.0 <= b <= d
    ensures a * b <= c * d
  {
    calc {
      a * b;
    <= { assert a * (d - b) >= 0.0; }
      a * d;
    <= { assert (c - a) * d >= 0.0; }
      c * d;
    }
  }

  /** When the lateral setbacks consume the frontage, or front and rear consume the depth, nothing is buildable. */
  lemma {:induction false} OverconstrainedIsEmpty(frontage: real, depth: real, front: real, rear: real, lateral: real,
                                                 corner: bool, twoFronts: bool, attachOneSide: bool)
    requires front + rear >= depth
          || (corner && twoFronts && (if attachOneSide then 0.0 else lateral) + front >= frontage)
          || (!(corner && twoFronts) && (if attachOneSide then lateral else 2.0 * lateral) >= frontage)
    ensures EnvelopeArea(frontage, depth, front, rear, lateral, corner, twoFronts, attachOneSide).area == 0.0
  {
    var e := EnvelopeArea(frontage, depth, front, rear, lateral, corner, twoFronts, attachOneSide);
    if front + rear >= depth {
      assert e.usableDepth == 0.0;
    } else {
      assert e.usableWidth == 0.0;
    }
  }

  /**
   * Larger setbacks never enlarge the core: with every setback of `e2` at least
   * the corresponding one of `e1`, the core area of `e2` is at most that of `e1`.
   */
  lemma {:induction false} SetbacksShrinkCore(frontage: real, depth: real,
                                             front1: real, rear1: real, lateral1: real,
                                             front2: real, rear2: real, lateral2: real,
                                             corner: bool, twoFronts: bool, attachOneSide: bool)
    requires front1 <= front2 && rear1 <= rear2 && lateral1 <= lateral2
    ensures var e1 := EnvelopeArea(frontage, depth, front1, rear1, lateral1, corner, twoFronts, attachOneSide);
            var e2 := EnvelopeArea(frontage, depth, front2, rear2, lateral2, corner, twoFronts, attachOneSide);
            e2.usableWidth <= e1.usableWidth && e2.usableDepth <= e1.usableDepth && e2.area <= e1.area
  {
    var e1 := EnvelopeArea(frontage, depth, front1, rear1, lateral1, corner, twoFronts, attachOneSide);
    var e2 := EnvelopeArea(frontage, depth, front2, rear2, lateral2, corner, twoFronts, attachOneSide);
    assert e2.usableWidth <= e1.usableWidth;
    MulMonotone(e2.usableWidth, e2.usableDepth, e1.usableWidth, e1.usableDepth);
  }

  /** The 10 m x 30 m mid-block lot with setbacks 5 / 1.5 / 3 has a 7 m x 22 m core of 154 m². */
  lemma MidBlockExample()
    ensures EnvelopeArea(10.0, 30.0, 5.0, 3.0, 1.5, false, false, false) == Core(7.0, 22.0, 154.0, MidBlock)
  {
  }
}
