# GeoGebra front-door and layout rules, modelled in Dafny

This project models the small, sequential decision and arithmetic rules of five
parts of GeoGebra:

- **Step-by-step transformation front door** (`StepTree`, `step_tree.dfy`). This covers the
  expression tree with a highlight colour on every node, and `setColor` / `cleanColors`.
  It covers how the regroup, expand, factor and differentiate entry points pass the
  solution builder (or null) to their rewrite pipelines. It covers the adaptive choice
  among fraction-conversion-then-regroup, decimal regroup and default regroup. It covers
  the header record (SIMPLIFY, EXPAND, FACTOR, DIFFERENTIATE) each narrated `*Output`
  entry point puts on the trail before delegating.
  The rewrite pipelines and the `maxDecimal` / `containsFractions` queries are
  parameters of an `Engine`. A pipeline is a total function from the tree and the
  builder it is handed to the rewritten tree and the steps it records. The entry
  points append those steps when a builder is present and drop them when it is null.
  So a pipeline can only append to the trail.
- **Table of values** (`TableValues`, `table_values.dfy`). This covers the preferred column
  width with its margin, x-column padding and minimum, and the sizing of value and
  header cells. It covers the empty-string fallback of `RowData.getValue`, the row
  wrappers `fillValuesTable` builds, and the header-cell-to-column mapping of the
  header context menu.
- **Colour chooser** (`ColorChooser`, `color_chooser.dfy`). This covers the table size
  formula, the row-major palette lookup with its white default, and the swatch
  geometry of `draw` as a nested loop. It covers the placement of the four tables
  the chooser builds. The left table's palette has 18 entries, but only 16 are
  painted (2 x 8). The main table's palette has 72 entries, but only 64 are
  painted (8 x 8).
- **3D renderer bookkeeping** (`Renderer`, `renderer.dfy`). This covers the view
  rectangle in Java `int` arithmetic (wrap-around and truncating `/ 2` written out),
  and the width, height and visible depth derived from it. It covers the perspective
  near/far planes over `real`, clipping a line's parameter interval against one pair
  of frustum planes, the picking hit list, and the counter of drawables to pick.
- **Key-event wrapper pool** (`KeyEventPool`, `key_event.dfy`). This is the LIFO pool of
  released wrappers that `wrapEvent` reuses before allocating a new one.

`JavaLang` (`java_lang.dfy`) holds the Java value semantics the others share:
`Int32` with `Wrap`, Java's `a / 2`, `Nullable` references and `Completion`
(normal or exceptional).

## Model

| member | source | states |
|---|---|---|
| StepTree.SetColor | common/src/main/java/org/geogebra/common/kernel/stepbystep/steptree/StepTransformable.java:142-148 | After `setColor(c)` every node of the tree has colour c, and tags and child structure are unchanged |
| StepTree.CleanColors | common/src/main/java/org/geogebra/common/kernel/stepbystep/steptree/StepTransformable.java:150-155 | After `cleanColors` every node has colour 0, and the structure is unchanged |
| StepTree.SetColorFixesColored | common/src/main/java/org/geogebra/common/kernel/stepbystep/steptree/StepTransformable.java:142-148 | Stamping a tree with the colour it already has everywhere returns it unchanged |
| StepTree.SetColorLastWins | common/src/main/java/org/geogebra/common/kernel/stepbystep/steptree/StepTransformable.java:142-148 | Two stampings in a row equal the last one alone, so `setColor` is idempotent |
| StepTree.SetColorKeepsContains | common/src/main/java/org/geogebra/common/kernel/stepbystep/steptree/StepTransformable.java:14-148 | Colouring never changes whether a tree contains a given operation tag |
| StepTree.IsOperationImpliesContains | common/src/main/java/org/geogebra/common/kernel/stepbystep/steptree/StepTransformable.java:14-21 | A node whose own tag is op contains op |
| StepTree.Run | common/src/main/java/org/geogebra/common/kernel/stepbystep/steptree/StepTransformable.java:33-53 | A pipeline call returns the pipeline's tree. It appends exactly the pipeline's steps to a present builder and keeps a null builder null |
| StepTree.WithHeader | common/src/main/java/org/geogebra/common/kernel/stepbystep/steptree/StepTransformable.java:73 | `sb.add(kind, this)` keeps the old trail as a prefix and appends exactly one record, holding the kind and the untransformed tree |
| StepTree.Regroup | common/src/main/java/org/geogebra/common/kernel/stepbystep/steptree/StepTransformable.java:33-35 | `regroup(sb)` returns defaultRegroup's tree on the same builder. A present builder gets exactly defaultRegroup's steps appended, and a null builder stays null |
| StepTree.NumericRegroup | common/src/main/java/org/geogebra/common/kernel/stepbystep/steptree/StepTransformable.java:47-49 | `numericRegroup(sb)` returns decimalRegroup's tree on the same builder. A present builder gets exactly decimalRegroup's steps appended, and a null builder stays null |
| StepTree.ConvertToFractions | common/src/main/java/org/geogebra/common/kernel/stepbystep/steptree/StepTransformable.java:51-53 | `convertToFractions(sb)` returns convertToFraction's tree on the same builder. A present builder gets exactly convertToFraction's steps appended, and a null builder stays null |
| StepTree.ChooseRoute | common/src/main/java/org/geogebra/common/kernel/stepbystep/steptree/StepTransformable.java:59-70 | Fraction path iff 1..4 decimal digits and fractions present. Decimal path iff 5+ digits, or 1+ digits without fractions. Default path iff no decimal digits. Exactly one path is chosen |
| StepTree.AdaptiveRegroup | common/src/main/java/org/geogebra/common/kernel/stepbystep/steptree/StepTransformable.java:59-70 | Whichever path is taken, including the two-stage one, the builder is only appended to |
| StepTree.AdaptiveFractionPath | common/src/main/java/org/geogebra/common/kernel/stepbystep/steptree/StepTransformable.java:60-63 | For 0 < maxDecimal < 5 with fractions: the converted tree is regrouped on the same builder. The trail is the conversion steps followed by the regroup steps |
| StepTree.AdaptiveDecimalPath | common/src/main/java/org/geogebra/common/kernel/stepbystep/steptree/StepTransformable.java:65-67 | For maxDecimal > 0 when the first guard fails: the decimal regroup alone, on the same builder |
| StepTree.AdaptiveDefaultPath | common/src/main/java/org/geogebra/common/kernel/stepbystep/steptree/StepTransformable.java:59-70 | For maxDecimal <= 0: the default regroup, whether or not fractions are present |
| StepTree.AdaptiveDependsOnlyOnQueries | common/src/main/java/org/geogebra/common/kernel/stepbystep/steptree/StepTransformable.java:59-70 | Two engines that agree on maxDecimal and containsFractions at the tree, and on the conversion, default regroup and decimal regroup pipelines, give the same `adaptiveRegroup` outcome. No other pipeline and nothing else of the tree matters |
| StepTree.RegroupOutput | common/src/main/java/org/geogebra/common/kernel/stepbystep/steptree/StepTransformable.java:72-75 | Requires a builder. The record right after the old trail is SIMPLIFY with the untransformed tree. The tree and the trail are those of `adaptiveRegroup` run on the builder that already holds that header |
| StepTree.ExpandWith | common/src/main/java/org/geogebra/common/kernel/stepbystep/steptree/StepTransformable.java:88-90 | `expand(sb)` returns defaultExpand's tree on the same builder. A present builder gets exactly defaultExpand's steps appended, and a null builder stays null |
| StepTree.ExpandOutput | common/src/main/java/org/geogebra/common/kernel/stepbystep/steptree/StepTransformable.java:92-95 | Requires a builder. The result is defaultExpand's tree, run on the builder holding the header. The trail is the old trail, then EXPAND with the untransformed tree, then exactly the expansion's steps |
| StepTree.FactorWith | common/src/main/java/org/geogebra/common/kernel/stepbystep/steptree/StepTransformable.java:108-110 | `factor(sb)` returns defaultFactor's tree on the same builder. A present builder gets exactly defaultFactor's steps appended, and a null builder stays null |
| StepTree.WeakFactor | common/src/main/java/org/geogebra/common/kernel/stepbystep/steptree/StepTransformable.java:112-114 | `weakFactor(sb)` returns weakFactor's tree on the same builder. A present builder gets exactly weakFactor's steps appended, and a null builder stays null |
| StepTree.FactorOutput | common/src/main/java/org/geogebra/common/kernel/stepbystep/steptree/StepTransformable.java:116-119 | Requires a builder. The result is defaultFactor's tree, run on the builder holding the header. The trail is the old trail, then FACTOR with the untransformed tree, then exactly the factoring's steps |
| StepTree.DifferentiateWith | common/src/main/java/org/geogebra/common/kernel/stepbystep/steptree/StepTransformable.java:125-127 | `differentiate(sb)` returns defaultDifferentiate's tree on the same builder. A present builder gets exactly defaultDifferentiate's steps appended, and a null builder stays null |
| StepTree.DifferentiateOutput | common/src/main/java/org/geogebra/common/kernel/stepbystep/steptree/StepTransformable.java:129-132 | Requires a builder. The result is defaultDifferentiate's tree, run on the builder holding the header. The trail is the old trail, then DIFFERENTIATE with the untransformed tree, then exactly the derivative's steps |
| StepTree.RegroupNoArg | common/src/main/java/org/geogebra/common/kernel/stepbystep/steptree/StepTransformable.java:23-25 | `regroup()` is defaultRegroup's tree, with the pipeline handed a null builder |
| StepTree.WeakRegroup | common/src/main/java/org/geogebra/common/kernel/stepbystep/steptree/StepTransformable.java:37-39 | `weakRegroup()` is the weakRegroup pipeline's tree, with the pipeline handed a null builder |
| StepTree.AdaptiveRegroupNoArg | common/src/main/java/org/geogebra/common/kernel/stepbystep/steptree/StepTransformable.java:55-70 | `adaptiveRegroup()` with a null builder. On the fraction route it is defaultRegroup of the converted tree. On the decimal route it is decimalRegroup's tree. Otherwise it is defaultRegroup's tree. Every pipeline is handed null |
| StepTree.ExpandNoArg | common/src/main/java/org/geogebra/common/kernel/stepbystep/steptree/StepTransformable.java:80-82 | `expand()` is defaultExpand's tree, with the pipeline handed a fresh, empty builder rather than null |
| StepTree.FactorNoArg | common/src/main/java/org/geogebra/common/kernel/stepbystep/steptree/StepTransformable.java:100-102 | `factor()` is defaultFactor's tree (not weakFactor's), with the pipeline handed a null builder |
| StepTree.DifferentiateNoArg | common/src/main/java/org/geogebra/common/kernel/stepbystep/steptree/StepTransformable.java:121-123 | `differentiate()` is defaultDifferentiate's tree, with the pipeline handed a null builder |
| TableValues.ColumnWidth | web/src/main/java/org/geogebra/web/full/gui/toolbarpanel/TableValuesPanel.java:446-453 | The width is the larger of 88 and max(content, header) + 36 (+16 for column 0): at least both, and equal to one of them |
| TableValues.ColumnWidthMonotone | web/src/main/java/org/geogebra/web/full/gui/toolbarpanel/TableValuesPanel.java:447-452 | Wider content or a wider header never gives a narrower column |
| TableValues.XColumnIsWider | web/src/main/java/org/geogebra/web/full/gui/toolbarpanel/TableValuesPanel.java:449-452 | With equal measurements, column 0 is between 0 and 16 wider than another column, and exactly 16 wider once the minimum does not apply |
| TableValues.GetValue | web/src/main/java/org/geogebra/web/full/gui/toolbarpanel/TableValuesPanel.java:131-137 | The model's cell when row < rowCount and col < columnCount, otherwise "" |
| TableValues.ValueCell | web/src/main/java/org/geogebra/web/full/gui/toolbarpanel/TableValuesPanel.java:358-366 | A value cell is 0x0 exactly when its text is empty. Otherwise it is the column width by 40 |
| TableValues.HeaderCell | web/src/main/java/org/geogebra/web/full/gui/toolbarpanel/TableValuesPanel.java:427-435 | A header cell holds the column's header text. Its width is exactly the column's `getColumnWidth`, so at least 88, and its height is 40 |
| TableValues.ValueCellsAlignWithHeader | web/src/main/java/org/geogebra/web/full/gui/toolbarpanel/TableValuesPanel.java:353-370 | Every non-empty value cell has exactly the width and height of its column's header cell |
| TableValues.FillValuesTable | web/src/main/java/org/geogebra/web/full/gui/toolbarpanel/TableValuesPanel.java:286-296 | One row wrapper per model row (none for a non-positive count), and the i-th wrapper is for row i |
| TableValues.FilledRowsReadTheModel | web/src/main/java/org/geogebra/web/full/gui/toolbarpanel/TableValuesPanel.java:131-137 | For rows built by fillValuesTable and any model column, getValue returns the model's cell, never the "" fallback |
| TableValues.HeaderMenu | web/src/main/java/org/geogebra/web/full/gui/toolbarpanel/TableValuesPanel.java:418-419 | Header cell i maps to column i - 1. It has the geo of column i - 1 when i > 0 and no geo for cell 0 |
| TableValues.ToggleButtonClick | web/src/main/java/org/geogebra/web/full/gui/toolbarpanel/TableValuesPanel.java:405-425 | One menu per header cell equal to the clicked one, in header order, each for that cell's column |
| TableValues.DistinctHeadersOpenOneMenu | web/src/main/java/org/geogebra/web/full/gui/toolbarpanel/TableValuesPanel.java:413-423 | With distinct header cells, clicking cell i opens exactly one menu, for column i - 1 |
| ColorChooser.NewColorTable | web/src/geogebra/html5/gui/util/ColorChooserW.java:34-44 | A table keeps its origin, shape and palette. Width = cols * (icon width + padding) and height = rows * (icon height + padding) |
| ColorChooser.GetColorAt | web/src/geogebra/html5/gui/util/ColorChooserW.java:74-77 | The palette entry at row * maxCol + col if there is a palette and the index is inside it, otherwise "#ffffff" |
| ColorChooser.NullPaletteIsWhite | web/src/geogebra/html5/gui/util/ColorChooserW.java:74-77 | A table without a palette shows only white |
| ColorChooser.PaletteIndexBelowArea | web/src/geogebra/html5/gui/util/ColorChooserW.java:55-75 | Inside the grid, the row-major index is below maxCol * maxRow |
| ColorChooser.PaletteIndexInjective | web/src/geogebra/html5/gui/util/ColorChooserW.java:55-75 | No two swatches of the grid read the same palette entry |
| ColorChooser.Draw | web/src/geogebra/html5/gui/util/ColorChooserW.java:46-72 | maxRow rows of maxCol swatches. Swatch (col,row) is at (2p + col*w, 2p + row*h), is (w - p) by (h - p), and is filled with getColorAt(col,row) |
| ColorChooser.SwatchesInsideBorder | web/src/geogebra/html5/gui/util/ColorChooserW.java:41-68 | With 0 <= padding <= icon size, every painted swatch lies inside the (0, 0, width, height) border the table strokes |
| ColorChooser.NewColorChooser | web/src/geogebra/html5/gui/util/ColorChooserW.java:95-132 | The left table starts at the 5-pixel margin. The main table starts 5 pixels past the left table's right edge, at the same height. The recent and other tables have no palette |
| ColorChooser.LeftTableShowsSixteen | web/src/geogebra/html5/gui/util/ColorChooserW.java:104-116 | The 2 x 8 left table paints palette entries 0..15 only, so black and magenta (entries 16, 17) never appear |
| ColorChooser.MainTableShowsSixtyFour | web/src/geogebra/html5/gui/util/ColorChooserW.java:118-129 | The 8 x 8 main table paints palette entries 0..63 only, so the last palette row never appears |
| ColorChooser.PalettelessTablesAreWhite | web/src/geogebra/html5/gui/util/ColorChooserW.java:130-131 | The recent-colour and other-colour tables are all white |
| Renderer.InitialView | desktop/geogebra3D/euclidian3D/opengl/Renderer.java:1112-1264 | A new renderer has the 640 x 480 rectangle at the origin, eye-to-screen distance 0, the near plane at the minimum 10 and the far plane at 0 |
| Renderer.NewRendererPlanesBeforeSetView | desktop/geogebra3D/euclidian3D/opengl/Renderer.java:1249-1264 | A new renderer in perspective reports eye distance 0 and has far (0) in front of near (10). After the first setView with a width in [0, 2^30), far is no longer in front of near |
| Renderer.Width | desktop/geogebra3D/euclidian3D/opengl/Renderer.java:1120 | `getWidth` is right - left when that fits in an `int`, and always agrees with it modulo 2^32 |
| Renderer.Height | desktop/geogebra3D/euclidian3D/opengl/Renderer.java:1123 | `getHeight` is top - bottom when that fits in an `int`, and always agrees with it modulo 2^32 |
| Renderer.VisibleDepth | desktop/geogebra3D/euclidian3D/opengl/Renderer.java:1125 | `getVisibleDepth` is twice the width when that fits in an `int`, and always agrees with it modulo 2^32 |
| Renderer.InitialDimensions | desktop/geogebra3D/euclidian3D/opengl/Renderer.java:1112-1125 | The initial rectangle is 640 wide and 480 high, with visible depth 1280 |
| Renderer.CenteredFrame | desktop/geogebra3D/euclidian3D/opengl/Renderer.java:1385-1389 | After setView(x,y,w,h) the width is w and the height is h, even when the `int` fields wrap. When x - w/2 fits in an `int`, left is exactly x - w/2 with Java's truncating division, and likewise bottom is y - h/2. Without overflow, the rectangle is centred on (x,y) to within one pixel |
| Renderer.VisibleDepthIsTwiceWidth | desktop/geogebra3D/euclidian3D/opengl/Renderer.java:1125 | The visible depth is twice the width while that fits in an `int` |
| Renderer.UpdatePerspValues | desktop/geogebra3D/euclidian3D/opengl/Renderer.java:1269-1290 | near = max(eye distance - visibleDepth/2, 10) and far = near + visibleDepth |
| Renderer.SetView | desktop/geogebra3D/euclidian3D/opengl/Renderer.java:1385-1412 | The frame becomes the centred rectangle of (x, y, w, h), with width w and height h. In perspective and glasses projection the planes are `updatePerspValues` of the new frame and the stored eye distance, so near >= 10. In the other projections the perspective values are untouched |
| Renderer.PerspectivePlanesAfterSetView | desktop/geogebra3D/euclidian3D/opengl/Renderer.java:1385-1400 | In perspective or glasses projection, after setView with a width that fits: near = max(eye - w, 10) and far = near + 2w |
| Renderer.SetNear | desktop/geogebra3D/euclidian3D/opengl/Renderer.java:1252-1255 | setNear stores the distance and, in any projection, sets the planes to `updatePerspValues` of the current frame and the new distance: near = max(eye - depth/2, 10), far = near + depth |
| Renderer.EyeToScreenDistance | desktop/geogebra3D/euclidian3D/opengl/Renderer.java:1453-1459 | Finite, equal to the stored distance, exactly in perspective and glasses projection. Positive infinity otherwise |
| Renderer.UpdateIntervalInFrustum | desktop/geogebra3D/euclidian3D/opengl/Renderer.java:1162-1176 | The result is a sub-interval of the input. A point is in the result iff it is in the input and between v1 and v2 |
| Renderer.UpdateIntervalSymmetric | desktop/geogebra3D/euclidian3D/opengl/Renderer.java:1164-1168 | The result does not depend on the order of v1 and v2 |
| Renderer.UpdateIntervalIdempotent | desktop/geogebra3D/euclidian3D/opengl/Renderer.java:1170-1174 | Clipping again against the same pair changes nothing |
| Renderer.UpdateIntervalCommutes | desktop/geogebra3D/euclidian3D/opengl/Renderer.java:1136-1151 | The three plane pairs getIntervalInFrustum applies may be applied in any order |
| Renderer.RecordHit | desktop/geogebra3D/euclidian3D/opengl/Renderer.java:979-992 | A hit is stored at drawHits[pickingLoop] and pickingLoop grows by one, with every other slot kept. No hit changes nothing. A non-null hit on a full list throws ArrayIndexOutOfBounds |
| Renderer.Pick | desktop/geogebra3D/euclidian3D/opengl/Renderer.java:973-984 | The drawable's non-null answer is stored in the next slot and the slot advances, with every other slot kept. A null answer changes nothing. A non-null answer on a full list throws ArrayIndexOutOfBounds |
| Renderer.PickLabel | desktop/geogebra3D/euclidian3D/opengl/Renderer.java:986-993 | On a label hit the drawable itself is stored in the next slot and the slot advances, with every other slot kept, or ArrayIndexOutOfBounds is thrown when the list is full. Without a label hit nothing changes |
| Renderer.PickAllRecordsHits | desktop/geogebra3D/euclidian3D/opengl/Renderer.java:973-993 | With room in the list, a picking pass stores exactly the non-null answers, in order, from the current slot on, and leaves every other slot alone |
| Renderer.AddOneGeoToPick | desktop/geogebra3D/euclidian3D/opengl/Renderer.java:911-913 | The count goes up by one, wrapping at the `int` maximum |
| Renderer.RemoveOneGeoToPick | desktop/geogebra3D/euclidian3D/opengl/Renderer.java:916-923 | The count goes down by one with no lower-bound check, wrapping at the `int` minimum |
| Renderer.AddRemoveCancel | desktop/geogebra3D/euclidian3D/opengl/Renderer.java:911-923 | Adding and removing one drawable cancel, in either order and at every value |
| Renderer.RemoveFromZero | desktop/geogebra3D/euclidian3D/opengl/Renderer.java:916-923 | Removing from zero gives -1 |
| KeyEventPool.WrapEvent | desktop/geogebra/awt/event/KeyEvent.java:17-25 | On a non-empty pool: the last pooled wrapper, pointed at e, with the earlier entries kept. On an empty pool: a fresh wrapper and the pool stays empty. Other wrappers are untouched |
| KeyEventPool.Release | desktop/geogebra/awt/event/KeyEvent.java:27-29 | The wrapper is appended to the pool, with no duplicate check |
| KeyEventPool.GetKeyChar | desktop/geogebra/awt/event/KeyEvent.java:31-34 | The key character of the platform event the wrapper points at now. Together with WrappedKeyChar, this is the event most recently given to wrapEvent for that wrapper |
| KeyEventPool.WrappedKeyChar | desktop/geogebra/awt/event/KeyEvent.java:17-34 | The wrapper wrapEvent(e) returns reports e's key character |
| KeyEventPool.ReleaseThenWrap | desktop/geogebra/awt/event/KeyEvent.java:17-29 | release followed by wrapEvent returns the same wrapper and restores the pool (LIFO) |
| KeyEventPool.DoubleReleaseAliases | desktop/geogebra/awt/event/KeyEvent.java:27-29 | A wrapper released twice is handed out twice. The second wrapEvent redirects the wrapper the first caller still holds |
| KeyEventPool.ReleaseAllAppends | desktop/geogebra/awt/event/KeyEvent.java:27-29 | A sequence of releases appends the wrappers to the pool in release order |
| KeyEventPool.LastReleasedIsReusedFirst | desktop/geogebra/awt/event/KeyEvent.java:18-29 | After a batch of releases, the next wrapEvent reuses the wrapper released last |

## Left out

- The rewrite pipelines (default, weak and decimal regroup, conversion to fractions, expand, factor, weak factor, differentiate) are `Engine` parameters, not definitions. Nothing is claimed about their termination, idempotence or preservation of meaning. The solution-builder and regroup-tracker classes are not part of this model.
- `maxDecimal` and `containsFractions` are `Engine` parameters, because they are abstract in `StepTransformable`. `contains` and `isOperation` are given the meaning their names and uses imply.
- `iterateThrough`, `toSolvable` and `getColorHex` are abstract or depend on classes that are not part of this model.
- StepTree.SetColor and StepTree.CleanColors return a recoloured copy, but `setColor` and `cleanColors` recolour the nodes in place. The narrated entry points put `this` itself on the trail, and `Step` holds a snapshot of the tree. So a later recolouring of the same tree does not recolour a record already on the trail, while in the source it does unless `SolutionBuilder.add` copies its argument. That class is not part of this model.
- StepTree.RegroupOutput, StepTree.ExpandOutput, StepTree.FactorOutput and StepTree.DifferentiateOutput take `requires sb.Ref?`. The source dereferences the builder unguarded and would throw a NullPointerException, which is not modelled.
- Table of values: scrolling, header-size syncing, CSS transitions, column deletion, the empty view and GWT cell widgets are left out. So are the DOM null guards at the top of `toggleButtonClick` and the `getGeoAt` lookup (the model records the column index passed to it).
- TableValues.ColumnWidth uses unbounded integers. Pixel widths never come near the Java `int` limit, so the overflow of `max + 36` is not modelled.
- ColorChooser.NewColorTable and ColorChooser.Draw use unbounded integers. The Java `int` products `col * (iconWidth + padding)` and the running `x += w`, `y += h` do not wrap in the model. Icon sizes and grid shapes are small constants, so those values stay far below the `int` limit.
- Colour chooser: canvas sizing, `Context2d` calls (scale, line width, stroke, save/restore) and `update` are left out. `Draw` returns the swatches it would paint instead.
- Renderer: all OpenGL state and calls are left out (culling, blending, clip planes, lights, textures, draw passes, export, select buffers, `glLoadName`). So are `getDepth`, `getScreenZFromPickingDepth`, the oblique and glasses projection values, and the perspective frustum ratios (`perspDistratio`, `perspLeft`..`perspTop`, `perspFocus`, `perspEye`). These divide by run-time values or depend on view state that is not part of this model.
- Renderer.UpdateIntervalInFrustum works over `real`: no NaN, infinities or rounding. `getIntervalInFrustum`, which divides by the direction's components, is left out.
- Renderer.UpdatePerspValues computes with `real`, not `double`. The integer visible depth and its truncating halving are modelled exactly.
- The projection mode is a field of the modelled state, because it is read from the 3D view, which is not part of this model. So is the initial `geoToPickSize` (`DRAWABLES_NB`), which is the caller's input.
- The key-event pool is one sequential state. The thread-safety of the static list and the "possible missing release()" debug message are left out.
