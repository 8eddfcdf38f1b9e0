# Screen layout calculator: geometry engine

A Dafny model of the computational core of a screen layout calculator. The
calculator takes a device's diagonal and aspect ratio (text such as `16:9`),
works out the physical sides of its screen, and then finds, for each entry of a
fixed catalog of target aspect ratios, the largest rectangle of that ratio that
fits on the screen.

The model has five files:

- `text.dfy`: module `Optional` (a `None | Some` datatype) and module `Text`.
  `Text` models `split(':')` over `seq<char>`, and `Number` restricted to
  unsigned decimal literals.
- `aspect.dfy`: module `AspectRatio`, the parser from ratio text to a
  `(long, short)` pair. Each component is `None` where the program would hold
  `NaN` or `undefined`.
- `geometry.dfy`: module `Geometry`. It turns a diagonal and a ratio into
  screen sides (`CalculateSides`) and finds the largest rectangle of a target
  shape on a screen (`MaxAreaAspectRatio`). Lengths are mathematical reals, not
  IEEE doubles.
- `layouts.dfy`: module `Layouts`. It holds the five-entry catalog, the
  per-screen map over it (`CalculateLayouts`) and the per-device composition
  (`CalculateDeviceLayouts`).
- `scenarios.dfy`: module `Scenarios`, worked numeric examples (a 5-inch `3:4`
  screen, and the 16:9, 4:3 and A4 targets on a 4 by 3 screen).

The program takes square roots with `Math.sqrt`, which is a call into the
runtime. The model does not compute it. `CalculateSides` receives the root as
a parameter `root`, and its precondition `IsSqrt(root, Radicand(...))` pins
`root` down to the unique non-negative square root
(`Geometry.SqrtUnique`).

Text with more than one `:` is not rejected. `split(':')` followed by
two-element destructuring (src/App.js:12) keeps the first two fields, so
`16:9:4` parses as 16 and 9 (`AspectRatio.ParseFirstTwoFields`). Among the
ways to have the wrong number of `:`, only text with no `:` at all leaves the
short component missing (the first ensures of `AspectRatio.ParseAspectRatio`). A short field
that is not a number, as in `16:abc`, gives `None` (the program's `NaN`), and
an empty one, as in `16:`, gives 0 because `Number("")` is 0
(`AspectRatio.ParseEmptyShortField`).

The catalog's A4 entry is written `21 : 29.7`, so its "long" component is the
smaller one. The algorithm needs only positive components. The A4 rectangle
simply comes out portrait (`Scenarios.PortraitTargetOnFourByThree`).

## Model

| member | source | states |
|---|---|---|
| Text.Split | src/App.js:12 | `split(':')` always yields at least one field, no field contains the separator, and joining the fields with the separator gives the text back |
| Text.SplitUnique | src/App.js:12 | the split is the only list of separator-free fields that joins back to the text, which is the converse of Split's contract |
| Text.SplitFirst | src/App.js:12 | splitting `first + ':' + tail` (with `first` free of `:`) gives `first` followed by the split of `tail` |
| Text.ToNumber | src/App.js:12 | `Number` on a field gives a non-negative value only for text made of digits and points; a digit string converts to its decimal value |
| Text.ToNumberRoundTrip | src/App.js:12 | writing a whole number in decimal and converting it back gives the number |
| Text.ToNumberDecimal | src/App.js:12 | a decimal fraction `w.f` converts to `w` plus the digits of `f` scaled down by their count |
| AspectRatio.ParseAspectRatio | src/App.js:11-14 | text without `:` gives `Number(text)` as the long component and no short component; otherwise the long component is `Number` of the text before the first `:`. ParseFirstTwoFields pins down the short component |
| AspectRatio.ParseFirstTwoFields | src/App.js:11-14 | the long component is the text before the first `:`, the short component is the text up to the second `:` or the end, and later fields are ignored |
| AspectRatio.ParseEmptyShortField | src/App.js:11-14 | text ending in its first `:` has short component 0, not a missing one, since `Number("")` is 0 |
| AspectRatio.ParseRoundTrip | src/App.js:11-14 | `a:b` written from whole numbers parses back to exactly `(a, b)` |
| AspectRatio.ParseDecimalRoundTrip | src/App.js:11-14 | `w1.f1:w2.f2` written from decimal literals (such as `2.39:1.0`) parses back to the two decimal values |
| Geometry.Radicand | src/App.js:17 | the radicand is non-negative, and times `r² + 1` it gives the squared diagonal |
| Geometry.CalculateSides | src/App.js:16-20 | the short side is non-negative, the sides have the ratio's proportion (`long * ratioShort == short * ratioLong`), and `long² + short² == diagonal²` |
| Geometry.SidesDetermined | src/App.js:16-19 | any pair with a non-negative short side, the ratio's proportion and the Pythagorean identity equals CalculateSides' result, so the sides are uniquely determined |
| Geometry.SidesStrictlyMonotone | src/App.js:16-19 | at a fixed positive ratio, a larger diagonal gives strictly larger long and short sides |
| Geometry.MaxAreaAspectRatio | src/App.js:22-32 | the rectangle is positive, fits (`width <= longSide`, `height <= shortSide`), has the target shape (`width * ratioShort == height * ratioLong`), has `area == width * height`, and touches a bounding edge |
| Geometry.MaxAreaBranch | src/App.js:23-29 | the full short side is used exactly when `longSide * ratioShort >= shortSide * ratioLong`, and the full long side otherwise |
| Geometry.MaxAreaTie | src/App.js:23-26 | when the screen has the target ratio the result is the whole screen, `(longSide, shortSide)` with area `longSide * shortSide` |
| Geometry.MaxAreaIsMaximal | src/App.js:22-31 | every positive rectangle of the target shape that fits in the screen has area at most the result's |
| Geometry.MaxAreaIsUnique | src/App.js:22-31 | a fitting rectangle of the target shape with the maximal area is the result's rectangle |
| Geometry.MaxAreaStrictlyMonotone | src/App.js:22-31 | a screen strictly larger in both sides gets a strictly larger rectangle of every target shape |
| Layouts.CatalogPositive | src/App.js:58-84 | every ratio of the catalog constant `Layouts.LayoutRatios` has positive components; that constant holds the five entries in source order with their labels and ratios, image URLs dropped |
| Layouts.LayoutFor | src/App.js:86-89 | one entry keeps its label and ratio and gets width, height and area equal to MaxAreaAspectRatio on the screen; the rectangle fits, has the entry's shape and its area is width times height |
| Layouts.CalculateLayouts | src/App.js:86-89 | the map over the catalog has the catalog's length and order; entry `i` keeps label (the field `name`; `label` is a reserved word in Dafny) and ratio `i`, and its width, height and area are MaxAreaAspectRatio of the screen and ratio `i` |
| Layouts.LayoutsAreLargest | src/App.js:86-89 | no fitting rectangle of entry `i`'s shape is larger than layout `i` |
| Layouts.CalculateDeviceLayouts | src/App.js:52-91 | the screen has positive sides in the ratio's proportion with the diagonal as hypotenuse, and there are five layouts in catalog order, each being MaxAreaAspectRatio for its entry on that screen |
| Layouts.PositiveSides | src/App.js:16-19 | a positive diagonal and a positive ratio give a screen with both sides positive |
| Layouts.DeviceLayoutsMonotone | src/App.js:52-91 | at a fixed ratio, a larger diagonal strictly increases the area of every catalog layout |
| Scenarios.FiveInchThreeByFour | src/App.js:16-20 | a 5-inch `3:4` screen has radicand 16 and sides 3 and 4 |
| Scenarios.WideTargetOnFourByThree | src/App.js:22-32 | 16:9 on a 4 by 3 screen is 4 by 2.25, area 9 |
| Scenarios.SameShapeOnFourByThree | src/App.js:22-32 | 4:3 on a 4 by 3 screen is the whole screen, area 12 |
| Scenarios.PortraitTargetOnFourByThree | src/App.js:22-32 | the A4 entry on a 4 by 3 screen uses the full height 3 and width 210/99 |

## Left out

- Floating point: the model computes over exact reals. It does not model rounding in `/`, `*`, `**` or `Math.sqrt`, nor `NaN` or `Infinity`.
- Geometry.CalculateSides: requires a non-zero `ratioShort` and is given the square root as a parameter. The program divides by zero into `NaN`/`Infinity`, and it calls `Math.sqrt` itself.
- Geometry.MaxAreaAspectRatio: requires all four inputs to be positive. The program does not reject other inputs. Most zero or negative inputs give degenerate rectangles: `ratioShort = 0` with a positive screen gives width `longSide`, height 0 and area 0, and a negative ratio gives a negative width. Some give non-finite results: `shortSide = 0` together with `ratioShort = 0` gives `NaN`, a negative `ratioLong` with `ratioShort = 0` gives width `-Infinity`, and a `0:0` ratio or `NaN` inputs give `NaN`.
- Layouts.CalculateLayouts: requires a positive screen and positive catalog ratios, because it applies MaxAreaAspectRatio to each entry. The degenerate and non-finite results described above are not modelled.
- Layouts.CalculateDeviceLayouts: takes the diagonal and the two ratio components as positive reals, not as the device's text fields. The parse step can yield a missing component (the program's `NaN`), which an exact-real screen cannot carry. `Number(diagonal)` is not modelled.
- Text.ToNumber: models JavaScript's `Number` only for unsigned decimal literals, plus the empty string as 0. Whitespace trimming, signs, exponents, hexadecimal, `Infinity` and the exact rounding to a double are not modelled. Such text maps to `None`.
- Image URLs of the catalog entries are dropped. The program copies them through unchanged with the object spread.
- The scale-factor effect and its window resize listener are not modelled. They depend on the browser window and React state.
- The form's state handling (`handleSubmit`, `setScreenSize`, `setDevice1/2`) is not modelled.
- All JSX rendering and the `toFixed(2)` display formatting are not modelled.
