/**
 The per-device layout computation: the screen's sides from its diagonal and
 aspect ratio, then the largest rectangle of each catalog ratio on that
 screen, in catalog order.
 */
module Layouts {
  import opened Geometry

  /** A target shape, `long : short`. */
  datatype TargetRatio = TargetRatio(long: real, short: real)

  /** A catalog entry: a target shape and the label it is shown under. The
      program's field is `label`, a reserved word in Dafny, hence `name`. */
  datatype LayoutRatio = LayoutRatio(name: string, ratio: TargetRatio)

  /** A catalog entry together with the rectangle it gets on one screen. */
  datatype Layout = Layout(name: string, ratio: TargetRatio, width: real, height: real, area: real)

  /** The screen and its layouts, as the program hands them to the display. */
  datatype DeviceLayouts = DeviceLayouts(screen: ScreenSize, layouts: seq<Layout>)

  predicate PositiveRatio(r: TargetRatio) {
    r.long > 0.0 && r.short > 0.0
  }

  predicate PositiveScreen(s: ScreenSize) {
    s.longSide > 0.0 && s.shortSide > 0.0
  }

  /** The fixed catalog of target shapes, in display order. The A4 entry is
      written portrait (21 across, 29.7 down), so its "long" component is the
      smaller one. */
  const LayoutRatios: seq<LayoutRatio> := [
    LayoutRatio("4:3", TargetRatio(4.0, 3.0)),
    LayoutRatio("35mm Film", TargetRatio(3.0, 2.0)),
    LayoutRatio("16:9", TargetRatio(16.0, 9.0)),
    LayoutRatio("Cinemascope", TargetRatio(2.39, 1.0)),
    LayoutRatio("A4", TargetRatio(21.0, 29.7))
  ]

  lemma {:induction false} CatalogPositive()
    ensures forall i :: 0 <= i < |LayoutRatios| ==> LayoutRatios[i].ratio.long > 0.0 && LayoutRatios[i].ratio.short > 0.0
  {
  }

  function FitOf(layout: Layout): Fit {
    Fit(layout.width, layout.height, layout.area)
  }

  /** The catalog entry extended with its largest rectangle on `screen`. */
  function LayoutFor(screen: ScreenSize, entry: LayoutRatio): (layout: Layout)
    requires PositiveScreen(screen) && PositiveRatio(entry.ratio)
    ensures layout.name == entry.name && layout.ratio == entry.ratio
    ensures Inscribed(screen.longSide, screen.shortSide, entry.ratio.long, entry.ratio.short, layout.width, layout.height)
    ensures layout.area == layout.width * layout.height
    ensures FitOf(layout) == MaxAreaAspectRatio(screen.longSide, screen.shortSide, entry.ratio.long, entry.ratio.short)
  {
    var fit := MaxAreaAspectRatio(screen.longSide, screen.shortSide, entry.ratio.long, entry.ratio.short);
    Layout(entry.name, entry.ratio, fit.width, fit.height, fit.area)
  }

  /** The catalog mapped through MaxAreaAspectRatio for one screen: same
      length, same order, each entry keeping its label and ratio. */
  function CalculateLayouts(screen: ScreenSize, catalog: seq<LayoutRatio>): (layouts: seq<Layout>)
    requires PositiveScreen(screen)
    requires forall i :: 0 <= i < |catalog| ==> catalog[i].ratio.long > 0.0 && catalog[i].ratio.short > 0.0
    ensures |layouts| == |catalog|
    ensures forall i :: 0 <= i < |catalog| ==>
              layouts[i].name == catalog[i].name && layouts[i].ratio == catalog[i].ratio
    ensures forall i :: 0 <= i < |catalog| ==>
              FitOf(layouts[i]) == MaxAreaAspectRatio(screen.longSide, screen.shortSide,
                                                      catalog[i].ratio.long, catalog[i].ratio.short)
  {
    if catalog == [] then []
    else [LayoutFor(screen, catalog[0])] + CalculateLayouts(screen, catalog[1..])
  }

  /** No rectangle of an entry's shape that fits the screen is larger than
      that entry's layout. */
  lemma {:induction false} LayoutsAreLargest(screen: ScreenSize, catalog: seq<LayoutRatio>, i: nat,
                                             width: real, height: real)
    requires PositiveScreen(screen)
    requires forall j :: 0 <= j < |catalog| ==> catalog[j].ratio.long > 0.0 && catalog[j].ratio.short > 0.0
    requires i < |catalog|
    requires Inscribed(screen.longSide, screen.shortSide, catalog[i].ratio.long, catalog[i].ratio.short, width, height)
    ensures width * height <= CalculateLayouts(screen, catalog)[i].area
  {
    MaxAreaIsMaximal(screen.longSide, screen.shortSide, catalog[i].ratio.long, catalog[i].ratio.short, width, height);
  }

  /**
   One device: its physical screen from the diagonal and aspect ratio, then
   the fixed catalog laid out on that screen. `root` is the square root the
   program obtains from `Math.sqrt`.
   */
  function CalculateDeviceLayouts(diagonal: real, ratioLong: real, ratioShort: real, root: real): (d: DeviceLayouts)
    requires diagonal > 0.0
    requires ratioLong > 0.0 && ratioShort > 0.0
    requires IsSqrt(root, Radicand(diagonal, ratioLong, ratioShort))
    ensures d.screen.longSide > 0.0 && d.screen.shortSide > 0.0
    ensures d.screen.longSide * ratioShort == d.screen.shortSide * ratioLong
    ensures d.screen.longSide * d.screen.longSide + d.screen.shortSide * d.screen.shortSide == diagonal * diagonal
    ensures |d.layouts| == |LayoutRatios|
    ensures forall i :: 0 <= i < |d.layouts| ==>
              && d.layouts[i].name == LayoutRatios[i].name
              && d.layouts[i].ratio == LayoutRatios[i].ratio
              && FitOf(d.layouts[i]) == MaxAreaAspectRatio(d.screen.longSide, d.screen.shortSide,
                                                           LayoutRatios[i].ratio.long, LayoutRatios[i].ratio.short)
  {
    var screen := CalculateSides(diagonal, ratioLong, ratioShort, root);
    PositiveSides(diagonal, ratioLong, ratioShort, root);
    CatalogPositive();
    var layouts := CalculateLayouts(screen, LayoutRatios);
    DeviceLayouts(screen, layouts)
  }

  /** A positive diagonal and positive ratio give a screen with positive
      sides. */
  lemma {:induction false} PositiveSides(diagonal: real, ratioLong: real, ratioShort: real, root: real)
    requires diagonal > 0.0
    requires ratioLong > 0.0 && ratioShort > 0.0
    requires IsSqrt(root, Radicand(diagonal, ratioLong, ratioShort))
    ensures PositiveScreen(CalculateSides(diagonal, ratioLong, ratioShort, root))
  {
    SidesStrictlyMonotone(0.0, diagonal, ratioLong, ratioShort, 0.0, root);
  }

  /** A larger diagonal at the same aspect ratio gives every catalog entry a
      strictly larger area. */
  lemma {:induction false} DeviceLayoutsMonotone(d1: real, d2: real, ratioLong: real, ratioShort: real,
                              root1: real, root2: real, i: nat)
    requires 0.0 < d1 < d2
    requires ratioLong > 0.0 && ratioShort > 0.0
    requires IsSqrt(root1, Radicand(d1, ratioLong, ratioShort))
    requires IsSqrt(root2, Radicand(d2, ratioLong, ratioShort))
    requires i < |LayoutRatios|
    ensures CalculateDeviceLayouts(d1, ratioLong, ratioShort, root1).layouts[i].area
          < CalculateDeviceLayouts(d2, ratioLong, ratioShort, root2).layouts[i].area
  {
    var s1 := CalculateSides(d1, ratioLong, ratioShort, root1);
    var s2 := CalculateSides(d2, ratioLong, ratioShort, root2);
    SidesStrictlyMonotone(d1, d2, ratioLong, ratioShort, root1, root2);
    PositiveSides(d1, ratioLong, ratioShort, root1);
    var r := LayoutRatios[i].ratio;
    MaxAreaStrictlyMonotone(s1.longSide, s1.shortSide, s2.longSide, s2.shortSide, r.long, r.short);
  }
}
