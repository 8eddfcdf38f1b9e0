/**
 The screen geometry engine: turning a diagonal and an aspect ratio into the
 physical sides of a screen, and finding the largest rectangle of a target
 aspect ratio that fits inside such a screen.

 Lengths are modelled as mathematical reals rather than IEEE doubles, so the
 equalities below are exact where the program's are only approximate.
 */
module Geometry {

  /** The physical sides of a screen, in inches. */
  datatype ScreenSize = ScreenSize(longSide: real, shortSide: real)

  /** A rectangle placed inside a screen, with its area. */
  datatype Fit = Fit(width: real, height: real, area: real)

  /** `root` is the non-negative square root of `x`. */
  ghost predicate IsSqrt(root: real, x: real) {
    root >= 0.0 && root * root == x
  }

  /** The quantity whose square root is the short side: diagonal squared over
      the squared ratio plus one. */
  function Radicand(diagonal: real, ratioLong: real, ratioShort: real): (q: real)
    requires ratioShort != 0.0
    ensures q >= 0.0
    ensures q * ((ratioLong / ratioShort) * (ratioLong / ratioShort) + 1.0) == diagonal * diagonal
  {
    var r := ratioLong / ratioShort;
    assert r * r + 1.0 > 0.0;
    diagonal * diagonal / (r * r + 1.0)
  }

  /** A rectangle of `width` by `height` has the shape `ratioLong : ratioShort`
      and fits inside a screen of `longSide` by `shortSide`. */
  ghost predicate Inscribed(longSide: real, shortSide: real, ratioLong: real, ratioShort: real,
                            width: real, height: real)
  {
    && width > 0.0 && height > 0.0
    && width * ratioShort == height * ratioLong
    && width <= longSide && height <= shortSide
  }

  /**
   Physical sides of a screen with the given diagonal and aspect ratio. The
   program takes the square root with the runtime's `Math.sqrt`; here the
   caller supplies that root, `root`, which the precondition pins down to the
   unique non-negative square root of the radicand.
   */
  function CalculateSides(diagonal: real, ratioLong: real, ratioShort: real, root: real): (s: ScreenSize)
    requires ratioShort != 0.0
    requires IsSqrt(root, Radicand(diagonal, ratioLong, ratioShort))
    ensures s.shortSide >= 0.0
    ensures s.longSide * ratioShort == s.shortSide * ratioLong
    ensures s.longSide * s.longSide + s.shortSide * s.shortSide == diagonal * diagonal
  {
    var r := ratioLong / ratioShort;
    var shortSide := root;
    var longSide := r * shortSide;
    calc {
      longSide * longSide + shortSide * shortSide;
      (r * r + 1.0) * (root * root);
      (r * r + 1.0) * Radicand(diagonal, ratioLong, ratioShort);
      diagonal * diagonal;
    }
    ScreenSize(longSide, shortSide)
  }

  /** The converse of CalculateSides' contract: the non-negative short side, the
      ratio and the diagonal together determine both sides, so CalculateSides
      is the only answer with those three properties. */
  lemma SidesDetermined(diagonal: real, ratioLong: real, ratioShort: real, root: real,
                        longSide: real, shortSide: real)
    requires ratioShort != 0.0
    requires IsSqrt(root, Radicand(diagonal, ratioLong, ratioShort))
    requires shortSide >= 0.0
    requires longSide * ratioShort == shortSide * ratioLong
    requires longSide * longSide + shortSide * shortSide == diagonal * diagonal
    ensures CalculateSides(diagonal, ratioLong, ratioShort, root) == ScreenSize(longSide, shortSide)
  {
    var r := ratioLong / ratioShort;
    assert longSide == r * shortSide;
    var q := Radicand(diagonal, ratioLong, ratioShort);
    assert (r * r + 1.0) * (shortSide * shortSide) == diagonal * diagonal;
    assert (r * r + 1.0) * q == diagonal * diagonal;
    assert shortSide * shortSide == q by {
      assert (r * r + 1.0) * (shortSide * shortSide) == (r * r + 1.0) * q;
    }
    SqrtUnique(shortSide, root, q);
  }

  /** A larger diagonal, at the same positive aspect ratio, gives a screen
      that is strictly longer and strictly wider. */
  lemma SidesStrictlyMonotone(d1: real, d2: real, ratioLong: real, ratioShort: real,
                              root1: real, root2: real)
    requires 0.0 <= d1 < d2
    requires ratioLong > 0.0 && ratioShort > 0.0
    requires IsSqrt(root1, Radicand(d1, ratioLong, ratioShort))
    requires IsSqrt(root2, Radicand(d2, ratioLong, ratioShort))
    ensures CalculateSides(d1, ratioLong, ratioShort, root1).shortSide
          < CalculateSides(d2, ratioLong, ratioShort, root2).shortSide
    ensures CalculateSides(d1, ratioLong, ratioShort, root1).longSide
          < CalculateSides(d2, ratioLong, ratioShort, root2).longSide
  {
    var r := ratioLong / ratioShort;
    var k := r * r + 1.0;
    SquareStrictlyMonotone(d1, d2);
    var q1 := Radicand(d1, ratioLong, ratioShort);
    var q2 := Radicand(d2, ratioLong, ratioShort);
    assert q1 < q2 by {
      assert q1 * k == d1 * d1 && q2 * k == d2 * d2;
      if q2 <= q1 {
        MulMonotone(q2, q1, k);
      }
    }
    SqrtStrictlyMonotone(root1, root2, q1, q2);
    assert r > 0.0;
    assert r * root1 < r * root2;
  }

  /**
   The largest rectangle of shape `ratioLong : ratioShort` inside a screen of
   `longSide` by `shortSide`. When the screen is at least as elongated as the
   target (ties included) the rectangle takes the full short side; otherwise it
   takes the full long side.
   */
  function MaxAreaAspectRatio(longSide: real, shortSide: real, ratioLong: real, ratioShort: real): (f: Fit)
    requires longSide > 0.0 && shortSide > 0.0
    requires ratioLong > 0.0 && ratioShort > 0.0
    ensures Inscribed(longSide, shortSide, ratioLong, ratioShort, f.width, f.height)
    ensures f.area == f.width * f.height
    ensures f.height == shortSide || f.width == longSide
  {
    if longSide / shortSide >= ratioLong / ratioShort then
      var height := shortSide;
      var width := (ratioLong / ratioShort) * height;
      FullShortSideFits(longSide, shortSide, ratioLong, ratioShort);
      Fit(width, height, width * height)
    else
      var width := longSide;
      var height := (ratioShort / ratioLong) * width;
      FullLongSideFits(longSide, shortSide, ratioLong, ratioShort);
      Fit(width, height, width * height)
  }

  /** The program's comparison of quotients is the comparison of the
      cross-products: the full short side is used exactly when
      `longSide * ratioShort >= shortSide * ratioLong`, and the full long side
      otherwise. */
  lemma MaxAreaBranch(longSide: real, shortSide: real, ratioLong: real, ratioShort: real)
    requires longSide > 0.0 && shortSide > 0.0
    requires ratioLong > 0.0 && ratioShort > 0.0
    ensures longSide * ratioShort >= shortSide * ratioLong ==>
              MaxAreaAspectRatio(longSide, shortSide, ratioLong, ratioShort).height == shortSide
    ensures longSide * ratioShort < shortSide * ratioLong ==>
              MaxAreaAspectRatio(longSide, shortSide, ratioLong, ratioShort).width == longSide
  {
    QuotientOrder(longSide, shortSide, ratioLong, ratioShort);
  }

  /** When the screen already has the target shape the answer is the whole
      screen. */
  lemma MaxAreaTie(longSide: real, shortSide: real, ratioLong: real, ratioShort: real)
    requires longSide > 0.0 && shortSide > 0.0
    requires ratioLong > 0.0 && ratioShort > 0.0
    requires longSide * ratioShort == shortSide * ratioLong
    ensures MaxAreaAspectRatio(longSide, shortSide, ratioLong, ratioShort)
         == Fit(longSide, shortSide, longSide * shortSide)
  {
    QuotientOrder(longSide, shortSide, ratioLong, ratioShort);
    var f := MaxAreaAspectRatio(longSide, shortSide, ratioLong, ratioShort);
    assert f.height == shortSide;
    assert f.width * ratioShort == longSide * ratioShort;
    CancelRight(f.width, longSide, ratioShort);
  }

  /** No rectangle of the target shape that fits in the screen has a larger
      area than the one MaxAreaAspectRatio picks. */
  lemma MaxAreaIsMaximal(longSide: real, shortSide: real, ratioLong: real, ratioShort: real,
                         width: real, height: real)
    requires longSide > 0.0 && shortSide > 0.0
    requires ratioLong > 0.0 && ratioShort > 0.0
    requires Inscribed(longSide, shortSide, ratioLong, ratioShort, width, height)
    ensures width * height <= MaxAreaAspectRatio(longSide, shortSide, ratioLong, ratioShort).area
  {
    var f := MaxAreaAspectRatio(longSide, shortSide, ratioLong, ratioShort);
    SameShapeAreas(ratioLong, ratioShort, width, height, f.width, f.height);
    if f.height == shortSide {
      SquareMonotone(height, shortSide);
    } else {
      SquareMonotone(width, longSide);
    }
  }

  /** The maximum is attained only by MaxAreaAspectRatio's rectangle: a
      fitting rectangle of the target shape with the same area is that
      rectangle. */
  lemma MaxAreaIsUnique(longSide: real, shortSide: real, ratioLong: real, ratioShort: real,
                        width: real, height: real)
    requires longSide > 0.0 && shortSide > 0.0
    requires ratioLong > 0.0 && ratioShort > 0.0
    requires Inscribed(longSide, shortSide, ratioLong, ratioShort, width, height)
    requires width * height == MaxAreaAspectRatio(longSide, shortSide, ratioLong, ratioShort).area
    ensures width == MaxAreaAspectRatio(longSide, shortSide, ratioLong, ratioShort).width
    ensures height == MaxAreaAspectRatio(longSide, shortSide, ratioLong, ratioShort).height
  {
    var f := MaxAreaAspectRatio(longSide, shortSide, ratioLong, ratioShort);
    SameShapeAreas(ratioLong, ratioShort, width, height, f.width, f.height);
    SquareInjective(height, f.height);
    SquareInjective(width, f.width);
  }

  /** A screen that is strictly larger in both directions holds a strictly
      larger rectangle of every target shape. */
  lemma MaxAreaStrictlyMonotone(long1: real, short1: real, long2: real, short2: real,
                                ratioLong: real, ratioShort: real)
    requires 0.0 < long1 < long2 && 0.0 < short1 < short2
    requires ratioLong > 0.0 && ratioShort > 0.0
    ensures MaxAreaAspectRatio(long1, short1, ratioLong, ratioShort).area
          < MaxAreaAspectRatio(long2, short2, ratioLong, ratioShort).area
  {
    var f1 := MaxAreaAspectRatio(long1, short1, ratioLong, ratioShort);
    var f2 := MaxAreaAspectRatio(long2, short2, ratioLong, ratioShort);
    MaxAreaIsMaximal(long2, short2, ratioLong, ratioShort, f1.width, f1.height);
    if f1.area == f2.area {
      MaxAreaIsUnique(long2, short2, ratioLong, ratioShort, f1.width, f1.height);
      assert false;
    }
  }

  // Arithmetic facts used by the proofs above.

  lemma MulStrict(a: real, b: real, c: real)
    requires c > 0.0 && a < b
    ensures c * a < c * b
  {
  }

  lemma MulMonotone(a: real, b: real, c: real)
    requires c >= 0.0 && a <= b
    ensures c * a <= c * b
  {
  }

  lemma CancelRight(a: real, b: real, c: real)
    requires c != 0.0 && a * c == b * c
    ensures a == b
  {
    assert a == (a * c) / c;
  }

  lemma SquareMonotone(a: real, b: real)
    requires 0.0 <= a <= b
    ensures a * a <= b * b
  {
    calc {
      a * a;
      <= { MulMonotone(a, b, a); }
      a * b;
      <= { MulMonotone(a, b, b); }
      b * b;
    }
  }

  lemma SquareStrictlyMonotone(a: real, b: real)
    requires 0.0 <= a < b
    ensures a * a < b * b
  {
    calc {
      a * a;
      <= { MulMonotone(a, b, a); }
      a * b;
      < { MulStrict(a, b, b); }
      b * b;
    }
  }

  lemma SquareInjective(a: real, b: real)
    requires 0.0 <= a && 0.0 <= b && a * a == b * b
    ensures a == b
  {
    if a < b {
      SquareStrictlyMonotone(a, b);
    } else if b < a {
      SquareStrictlyMonotone(b, a);
    }
  }

  /** Two non-negative square roots of the same number are equal. */
  lemma SqrtUnique(a: real, b: real, x: real)
    requires IsSqrt(a, x) && IsSqrt(b, x)
    ensures a == b
  {
    SquareInjective(a, b);
  }

  /** Square roots grow with their argument. */
  lemma SqrtStrictlyMonotone(a: real, b: real, x: real, y: real)
    requires IsSqrt(a, x) && IsSqrt(b, y) && x < y
    ensures a < b
  {
    if b <= a {
      SquareMonotone(b, a);
    }
  }

  /** For positive denominators, quotients compare as cross-products. */
  lemma QuotientOrder(a: real, b: real, c: real, d: real)
    requires b > 0.0 && d > 0.0
    ensures a / b >= c / d <==> a * d >= c * b
    ensures a / b == c / d <==> a * d == c * b
  {
  }

  lemma FullShortSideFits(longSide: real, shortSide: real, ratioLong: real, ratioShort: real)
    requires longSide > 0.0 && shortSide > 0.0 && ratioLong > 0.0 && ratioShort > 0.0
    requires longSide / shortSide >= ratioLong / ratioShort
    ensures (ratioLong / ratioShort) * shortSide <= longSide
    ensures (ratioLong / ratioShort) * shortSide * ratioShort == shortSide * ratioLong
  {
    QuotientOrder(longSide, shortSide, ratioLong, ratioShort);
  }

  lemma FullLongSideFits(longSide: real, shortSide: real, ratioLong: real, ratioShort: real)
    requires longSide > 0.0 && shortSide > 0.0 && ratioLong > 0.0 && ratioShort > 0.0
    requires longSide / shortSide < ratioLong / ratioShort
    ensures (ratioShort / ratioLong) * longSide < shortSide
    ensures longSide * ratioShort == (ratioShort / ratioLong) * longSide * ratioLong
  {
    QuotientOrder(longSide, shortSide, ratioLong, ratioShort);
  }

  /** For rectangles of one shape, comparing areas is comparing heights (or
      widths) squared: the area is the height squared times the ratio. */
  lemma SameShapeAreas(ratioLong: real, ratioShort: real, w1: real, h1: real, w2: real, h2: real)
    requires ratioLong > 0.0 && ratioShort > 0.0
    requires w1 * ratioShort == h1 * ratioLong && w2 * ratioShort == h2 * ratioLong
    ensures w1 * h1 == (ratioLong / ratioShort) * (h1 * h1)
    ensures w2 * h2 == (ratioLong / ratioShort) * (h2 * h2)
    ensures w1 * h1 == (ratioShort / ratioLong) * (w1 * w1)
    ensures w2 * h2 == (ratioShort / ratioLong) * (w2 * w2)
  {
  }
}
