/**
 Worked examples on concrete screens and ratios, each proved as a lemma.
 */
module Scenarios {
  import opened Geometry
  import opened Layouts

  /** A 5-inch diagonal at `3:4` has sides 3 and 4: the radicand is 16 and its
      square root 4. */
  lemma {:induction false} FiveInchThreeByFour()
    ensures Radicand(5.0, 3.0, 4.0) == 16.0
    ensures CalculateSides(5.0, 3.0, 4.0, 4.0) == ScreenSize(3.0, 4.0)
  {
    var q := Radicand(5.0, 3.0, 4.0);
    assert q * (0.75 * 0.75 + 1.0) == 25.0;
  }

  /** A 4 by 3 screen is less elongated than 16:9, so the 16:9 rectangle takes
      the full long side: 4 by 2.25, area 9. */
  lemma {:induction false} WideTargetOnFourByThree()
    ensures MaxAreaAspectRatio(4.0, 3.0, 16.0, 9.0) == Fit(4.0, 2.25, 9.0)
  {
    MaxAreaBranch(4.0, 3.0, 16.0, 9.0);
  }

  /** A 4 by 3 screen holds a 4:3 rectangle exactly: the whole screen. */
  lemma {:induction false} SameShapeOnFourByThree()
    ensures MaxAreaAspectRatio(4.0, 3.0, 4.0, 3.0) == Fit(4.0, 3.0, 12.0)
  {
    MaxAreaTie(4.0, 3.0, 4.0, 3.0);
  }

  /** The portrait A4 entry on a 4 by 3 screen takes the full short side:
      about 2.12 by 3, with area 630/99. */
  lemma {:induction false} PortraitTargetOnFourByThree()
    ensures MaxAreaAspectRatio(4.0, 3.0, 21.0, 29.7).height == 3.0
    ensures MaxAreaAspectRatio(4.0, 3.0, 21.0, 29.7).width == 210.0 / 99.0
  {
    MaxAreaBranch(4.0, 3.0, 21.0, 29.7);
  }
}
