# Box/glue layout kernel

This is a Dafny model of the layout kernel of a TeX-style typesetting
prototype. A formula is a tree of nodes: characters, horizontal and vertical
boxes, rules, kerns, glue, penalties and specials. The kernel has three parts,
and the model keeps them as three groups of modules.

- **Measurement.** `MeasureUtils` models `src/layout/measure-utils.js`, and
  `LayoutUtils` models the earlier copy in `src/layout-utils.js`.
  - Each module gives a node its `width`, `vwidth` (width inside a vertical
    list), `height` and `depth`.
  - Characters are measured through glyph metrics. `MeasureUtils` scales them
    by the style: 0.7 for script, 0.5 for script-script. `LayoutUtils`
    applies no scaling.
- **Box constructors.** `MakeUtils` models `src/layout/make-utils.js`, and
  `IR` models the helper copy in `src/ir.js`.
  - An HBox freezes its height and depth as the maximum over its content.
  - A VBox stacks an up-list, a reference node and a down-list. It freezes
    its height and depth from the reference node plus the `vsize` sums of
    the two lists.
  - Plain constructors build kerns, rules and glue, with the `hfil`, `hfill`
    and `hfilll` stretch helpers.
- **Layout transformer.** `Process` models `src/process.js`. It walks a box
  tree with a two-element pen array that is updated in place, and emits a
  paint tree of `g`, `text` and `rect` records. These are the `Paint`
  datatype.
  - In an HBox it finds the highest stretch order at which any glue
    stretches. When the box is narrower than its parent, it shares the
    surplus among the glue in proportion to their stretch.
  - In a VBox it stacks children downwards and draws each finite rule across
    the VBox's vertical width.
  - `process` lays out the root against width 0 and moves it down by its
    height.

## How the source is represented

- **Types** (`Types`).
  - `Node` has the seven variants of `src/types.js`.
  - A rule dimension is `Inf` (the source's `'*'`) or `Fin(x)`.
  - A stretch or shrink capacity is a length-4 sequence, as the code uses it.
  - `Style` has an extra `Unset` value for the characters `src/ir.js`
    builds without a style.
- **Metrics.**
  - `MeasureUtils` looks the first character of a string up in a
    `map<char, Entry>` table. The table stands for the Main-Regular font
    metrics. Its entries keep the table's own field order: depth, height,
    italic, skew, width.
  - `src/layout-utils.js` and `src/ir.js` import their lookup from a module
    that is not part of this model. There the lookup is a `Provider`
    parameter of type `string -> Option<Metric>`.
  - `SameMetrics` ties a provider to a table, so the copies can be compared
    with the main versions.
- **Errors.** A missing glyph throws in the source: an explicit `Error` in
  the measures, or a `TypeError` when `getMetrics` destructures a missing
  entry. The model turns this into `Err(MetricsNotFound(ch))`. The leftmost
  failure wins, as in `Array.prototype.map`.
- **Empty maximum.** `Math.max(...[])` is `-Infinity`. The model excludes
  that case by requiring it away:
  - the HBox constructors require non-empty content;
  - `Width`/`VWidth` require every VBox in the tree to have children
    (`NoEmptyVBox`). The VBox constructors always produce such boxes.
- **Imperative parts.** `process.js` becomes methods:
  - `CollectGlues`, `FindOrder`, `SumStretch`, `ResolveStretch`: the glue
    collection, the nested order scan and the total-stretch reduction;
  - `HPass`, `VPass`: the two `for…of` loops, which move a
    `pen: array<real>` in place;
  - `ProcessBox`, `Process`: `_process` and `process`.

  Each method is proved equal to a specification function: `Glues`,
  `StretchOrder`, `TotalStretch`, `HStretch`, `HRun`, `VRun`, `Layout` and
  `LayoutRoot`. The properties of the layout are proved about those
  functions in `ProcessProperties`.

### Behaviour of the code worth noting

The model follows `src/process.js` in each of these points.

- **Nested box in an HBox** (`src/process.js:51-57`). The child is laid out
  against the enclosing HBox's natural width, not its own. The pen then
  advances by `32·width(child)`, and the child's group is raised by
  `32·shift` above the pen.
- **Rule in a VBox** (`src/process.js:113-126`). It is drawn whenever its
  height and depth are finite, whatever its width. The rectangle is always as
  wide as the VBox's `vwidth`.
- **No centering.** VBox children are not centred horizontally. The pen's
  x never changes (`src/process.js:84-130`).
- **Characters in a VBox** are drawn, and stack by their unscaled glyph
  height plus depth (`src/process.js:98-109`).
- **Character advance in an HBox** is the unscaled glyph width, not the
  style-scaled `width` (`src/process.js:67-68`). `HCharAdvance` states this.
- **Rules in an HBox** are neither drawn nor advanced over, although `width`
  counts their width (`src/process.js:50-80`). `HRuleIsSkipped` states this.
- **Rule as a VBox's reference node.** The pass moves the pen up by the
  rule's height before drawing it (`src/process.js:115`), so the rectangle
  sits one rule height above the room `makeVBox` reserved for it. The VBox's
  pass then ends `h` short of its depth. `RuleReferenceVBox` states this.

### Lemmas that spell out definitions

`GetMetricsOfEntry`, `CharMeasures`, `WidthOfLeaves`, `HeightDepthOfLeaves`,
`VSizeOfLeaves`, both `CharConstructors`, `GlueConstructors`,
`HRuleIsSkipped`, `HCharAdvance` and `VBoxContentSplit` state the
definitions case by case, in the terms of the source. They make each case
visible; the properties proved beyond the definitions are the other lemmas.

## Model

| member | source | states |
|---|---|---|
| Types.MapAll | src/layout/make-utils.js:50-51 | mapping a measure over a list succeeds exactly when it succeeds on every element, and then holds each element's measure in order |
| Types.MaxNat | src/process.js:35 | `Math.max(index, i)` on two indices is at least both and equal to one of them |
| Types.Max | src/layout/make-utils.js:50-51 | the `Math.max` of a non-empty list is at least every element and equal to one of them |
| MeasureUtils.GetMetrics | src/layout/measure-utils.js:50-55 | the lookup succeeds exactly when the string is non-empty and the table has an entry for its first character |
| MeasureUtils.GetMetricsOfEntry | src/layout/measure-utils.js:53-54 | a found entry, stored depth first, comes back as height, depth and width |
| MeasureUtils.GetMetricsFirstCode | src/layout/measure-utils.js:51 | only the first character code of the string is looked up |
| MeasureUtils.Sum | src/layout/measure-utils.js:58-60 | the sum of no values is the fold's seed 0, and the sum of one value is that value |
| MeasureUtils.SumAppend | src/layout/measure-utils.js:58-60 | the left-fold sum is additive over concatenation |
| MeasureUtils.Multiplier | src/layout/measure-utils.js:67-72 | the style multiplier is 1 exactly for styles other than script and script-script |
| MeasureUtils.CharWidth | src/layout/measure-utils.js:62-74 | a character's width succeeds exactly when its glyph has metrics |
| MeasureUtils.CharHeight | src/layout/measure-utils.js:102-114 | a character's height succeeds exactly when its glyph has metrics |
| MeasureUtils.CharDepth | src/layout/measure-utils.js:116-128 | a character's depth succeeds exactly when its glyph has metrics |
| MeasureUtils.CharMeasures | src/layout/measure-utils.js:62-128 | width, height and depth are the metric times 0.7 for style S, 0.5 for SS and 1.0 otherwise; without metrics all three fail with the same error |
| MeasureUtils.BoxWidth | src/layout/measure-utils.js:80-82 | a box's width succeeds exactly when every character in it has metrics |
| MeasureUtils.Width | src/layout/measure-utils.js:76-88 | `width` of any node succeeds exactly when every character in the tree has metrics |
| MeasureUtils.VWidth | src/layout/measure-utils.js:90-100 | `vwidth` of any node succeeds exactly when every character in the tree has metrics |
| MeasureUtils.MapWidth | src/layout/measure-utils.js:82 | `content.map(width)` succeeds exactly when every child measures, and its i-th value is the i-th child's width |
| MeasureUtils.MapVWidth | src/layout/measure-utils.js:81 | `content.map(vwidth)` succeeds exactly when every child measures, and its i-th value is the i-th child's vwidth |
| MeasureUtils.Height | src/layout/measure-utils.js:131-143 | `height` fails exactly on a character without metrics |
| MeasureUtils.Depth | src/layout/measure-utils.js:146-158 | `depth` fails exactly on a character without metrics |
| MeasureUtils.WidthOfLeaves | src/layout/measure-utils.js:83-87 | a kern's width is its amount, a glue's its size, a rule's its width or 0 for `'*'`; penalties and specials have width 0 |
| MeasureUtils.VWidthAgreesWithWidth | src/layout/measure-utils.js:90-100 | `vwidth` equals `width` except on kerns and glue, where it is 0 |
| MeasureUtils.MapWidthAppend | src/layout/measure-utils.js:82 | mapping `width` over a concatenation concatenates the two maps |
| MeasureUtils.HBoxWidthAdditive | src/layout/measure-utils.js:80-82 | an HBox's width over `c1 + c2` succeeds iff both parts do, and is the sum of the parts' widths |
| MeasureUtils.HBoxWidthSmall | src/layout/measure-utils.js:80-82 | an empty HBox has width 0; a one-child HBox is as wide as its child |
| MeasureUtils.VBoxWidthIsMax | src/layout/measure-utils.js:80-81 | a VBox's width is at least every child's vwidth and equal to one of them |
| MeasureUtils.BoxExtentShift | src/layout/measure-utils.js:134-150 | a box's height is `height + shift` and its depth `depth - shift`, so height plus depth does not depend on the shift |
| MeasureUtils.HeightDepthOfLeaves | src/layout/measure-utils.js:136-156 | a `'*'` rule dimension measures 0, a finite one its value; kerns, glue, penalties and specials have height and depth 0 |
| MakeUtils.MakeChar | src/layout/make-utils.js:26-33 | a character record with the given font, style and character; `CharConstructors` states its helpers |
| MakeUtils.MainRegularChar | src/layout/make-utils.js:35-37 | a `Main_Regular` character, style T by default; stated by `CharConstructors` |
| MakeUtils.MathRegularChar | src/layout/make-utils.js:39-41 | a `Math_Regular` character, style T by default; stated by `CharConstructors` |
| MakeUtils.MakeKern | src/layout/make-utils.js:43-48 | a kern of the given amount |
| MakeUtils.CharConstructors | src/layout/make-utils.js:26-41 | `mainRegularChar` and `mathRegularChar` build a Char in font `Main_Regular` / `Math_Regular`, with style T unless another style is given |
| MakeUtils.HListHeight | src/layout/make-utils.js:50 | the height of an hlist is at least every child's height and equal to one of them; it fails exactly when some character lacks metrics |
| MakeUtils.HListDepth | src/layout/make-utils.js:51 | the depth of an hlist is at least every child's depth and equal to one of them; it fails exactly when some character lacks metrics |
| MakeUtils.MakeHBox | src/layout/make-utils.js:50-62 | the HBox keeps its content and shift unchanged, and its height and depth are the maxima of the children's shift-adjusted height and depth |
| MakeUtils.VSize | src/layout/make-utils.js:64-73 | `vsize` fails exactly on a character without metrics; for a character, box or rule it is height plus depth, and for a box that is the stored height plus depth, the shift cancelling |
| MakeUtils.VSizeOfLeaves | src/layout/make-utils.js:68-71 | a rule's vsize is its finite height plus depth (`'*'` counting 0); a glue's is its size, a kern's its amount, anything else 0 |
| MakeUtils.VListSize | src/layout/make-utils.js:79-81 | `vlistSize` fails exactly when some character of the list lacks metrics |
| MakeUtils.VListSizeAppend | src/layout/make-utils.js:75-81 | `vlistSize` of the empty list is 0, and of a concatenation the sum of the parts' sizes; it fails iff a part does |
| MakeUtils.VListSizeSingleton | src/layout/make-utils.js:79-81 | the size of a one-node list is that node's vsize |
| MakeUtils.MakeVBox | src/layout/make-utils.js:83-92 | the content is exactly `upList ++ [node] ++ dnList`; the height is `height(node) + vlistSize(upList)` and the depth `depth(node) + vlistSize(dnList)`; it fails exactly when a character lacks metrics |
| MakeUtils.ConstructedBoxesAreMeasurable | src/layout/make-utils.js:53-92 | boxes built by the constructors from measurable children have no empty VBox, so their width is defined |
| MakeUtils.FractionExtent | src/layout/make-utils.js:83-92 | a fraction stacked around a finite rule has height `h + size(num) + kern` and depth `d + kern + size(den)` |
| MakeUtils.VListSizePair | src/layout/make-utils.js:79-81 | the size of a two-node list is the sum of the two nodes' sizes |
| MakeUtils.MakeRule | src/layout/make-utils.js:94-101 | a rule with the given height, depth and width, each a number or `'*'` |
| MakeUtils.MakeGlue | src/layout/make-utils.js:103-114 | a glue of the given size, stretch and shrink; `GlueConstructors` states its defaults |
| MakeUtils.HFil | src/layout/make-utils.js:116 | a stretch capacity holding its value at index 1; stated by `GlueConstructors` |
| MakeUtils.HFill | src/layout/make-utils.js:117 | a stretch capacity holding its value at index 2; stated by `GlueConstructors` |
| MakeUtils.HFilll | src/layout/make-utils.js:118 | a stretch capacity holding its value at index 3; stated by `GlueConstructors` |
| MakeUtils.GlueConstructors | src/layout/make-utils.js:103-118 | `makeGlue` defaults stretch and shrink to zeros; `hfil`/`hfill`/`hfilll` put their value, default 1, at index 1, 2 or 3 and 0 elsewhere |
| LayoutUtils.CharWidth | src/layout-utils.js:10-16 | a character's width is defined exactly when the provider has metrics for it |
| LayoutUtils.CharHeight | src/layout-utils.js:44-50 | a character's height is defined exactly when the provider has metrics for it |
| LayoutUtils.CharDepth | src/layout-utils.js:52-58 | a character's depth is defined exactly when the provider has metrics for it |
| LayoutUtils.BoxWidth | src/layout-utils.js:22-24 | a box's width succeeds exactly when every character in it has metrics |
| LayoutUtils.Width | src/layout-utils.js:18-30 | `width` succeeds exactly when every character in the tree has metrics |
| LayoutUtils.VWidth | src/layout-utils.js:32-42 | `vwidth` succeeds exactly when every character in the tree has metrics |
| LayoutUtils.MapWidth | src/layout-utils.js:24 | `content.map(width)` succeeds exactly when every child measures, and holds each child's width |
| LayoutUtils.MapVWidth | src/layout-utils.js:23 | `content.map(vwidth)` succeeds exactly when every child measures, and holds each child's vwidth |
| LayoutUtils.Height | src/layout-utils.js:61-73 | `height` fails exactly on a character without metrics |
| LayoutUtils.Depth | src/layout-utils.js:76-88 | `depth` fails exactly on a character without metrics |
| LayoutUtils.CharMeasuresScaled | src/layout-utils.js:10-58 | on the same metrics the earlier measures return the raw metric, and the newer ones return it times the style multiplier; both fail together |
| LayoutUtils.AgreesWithMeasureUtils | src/layout-utils.js:18-88 | without script-size characters, the earlier `width`, `vwidth`, `height` and `depth` equal the newer ones on every tree, errors included |
| LayoutUtils.ListsAgree | src/layout-utils.js:23-24 | the same agreement for the mapped widths of a list of children |
| LayoutUtils.StyleBlind | src/layout-utils.js:18-42 | the earlier `width` and `vwidth` never read a character's style: setting every character in text style changes neither, errors included |
| LayoutUtils.StyleBlindAll | src/layout-utils.js:23-24 | the same for the mapped widths of a list of children |
| LayoutUtils.StyleBlindExtent | src/layout-utils.js:61-88 | nor do the earlier `height` and `depth` read a style |
| LayoutUtils.AgreesOnErased | src/layout-utils.js:18-88 | for every tree, script-size characters included, the earlier `width`, `vwidth`, `height` and `depth` equal the newer ones on the tree set in text style, errors included; so the earlier copy also keeps the sum, max, leaf and ±shift laws proved for the newer one |
| IR.MakeChar | src/ir.js:25-31 | a character record with a font and a character and no style; stated by `IR.CharConstructors` |
| IR.MainRegularChar | src/ir.js:33 | `makeChar` bound to the family `Main-Regular`; stated by `IR.CharConstructors` |
| IR.MakeKern | src/ir.js:35-40 | a kern of the given amount; `IR.SnapshotConstructors` ties it to the constructor module's |
| IR.CharConstructors | src/ir.js:25-33 | the helper copy's characters carry no style, and `mainRegularChar` uses the family `Main-Regular` |
| IR.SnapshotConstructors | src/ir.js:166-178 | the helper copy's kern, rule, glue and `hfil`/`hfill`/`hfilll` constructors equal the constructor module's, with the same defaults and index placement |
| IR.MakeRule | src/ir.js:166-172 | a rule with the given height, depth and width; stated by `IR.SnapshotConstructors` |
| IR.MakeGlue | src/ir.js:174-178 | a glue, stretch and shrink defaulting to zeros; stated by `IR.SnapshotConstructors` |
| IR.HFil | src/ir.js:207 | a stretch capacity holding its value at index 1; stated by `IR.SnapshotConstructors` |
| IR.HFill | src/ir.js:208 | a stretch capacity holding its value at index 2; stated by `IR.SnapshotConstructors` |
| IR.HFilll | src/ir.js:209 | a stretch capacity holding its value at index 3; stated by `IR.SnapshotConstructors` |
| IR.Height | src/ir.js:58-86 | `height` fails exactly on a character without metrics; its character measure is the earlier engine's `charHeight`, which the copy repeats word for word |
| IR.Depth | src/ir.js:66-100 | `depth` fails exactly on a character without metrics; its character measure is the earlier engine's `charDepth`, which the copy repeats word for word |
| IR.HeightDepthIgnoreShift | src/ir.js:74-100 | a box's height and depth are its stored fields, unlike the engine's shift-adjusted ones; a `'*'` rule dimension gives 0; characters give their raw metrics or fail |
| IR.HListHeight | src/ir.js:102 | the height of an hlist is the maximum of its children's heights |
| IR.HListDepth | src/ir.js:103 | the depth of an hlist is the maximum of its children's depths |
| IR.MakeHBox | src/ir.js:105-114 | the HBox keeps content and shift, and takes the maximum unshifted height and depth of its children |
| IR.VSize | src/ir.js:120-136 | `vsize` fails exactly on a character without metrics; for a character, box or rule it is height plus depth, and for a box these are its stored fields |
| IR.VListSize | src/ir.js:142 | `vlistSize` fails exactly when some character of the list lacks metrics |
| IR.MakeVBox | src/ir.js:144-152 | the content is `upList ++ [node] ++ dnList`, with the reference node's height and depth plus the up- and down-list sizes |
| IR.VSizeAgrees | src/ir.js:120-136 | on the same metrics and away from script-size characters, the copy's `vsize` equals the constructor module's |
| IR.VListSizeAgrees | src/ir.js:138-142 | on the same metrics and away from script-size characters, the copy's `vlistSize` equals the constructor module's, errors included |
| IR.SameMeasures | src/ir.js:74-100 | for an unshifted node that is not script-size, the copy's height and depth equal the engine's |
| IR.MakeHBoxAgrees | src/ir.js:105-114 | without shifted boxes or script-size characters, the copy's `makeHBox` builds the same box as the constructor module's |
| IR.MakeVBoxAgrees | src/ir.js:144-152 | with an unshifted reference node and no script-size characters, the copy's `makeVBox` builds the same box as the constructor module's |
| Process.Glues | src/process.js:22-27 | the collected glue is glue from the content, and every glue node of the content is among it |
| Process.Highest | src/process.js:33-37 | the highest index holding a nonzero value, or 0 when there is none |
| Process.StretchOrder | src/process.js:31-40 | the order is below 4; no glue stretches above it; if it is positive, some glue stretches at it |
| Process.HStretch | src/process.js:16-47 | the resolved order is a valid index into a stretch capacity |
| Process.TotalStretch | src/process.js:42-44 | the reduction over no glue starts from 0 |
| Process.TotalStretchZero | src/process.js:42-44 | the total is 0 when no glue stretches at the order |
| Process.GlueAdvance | src/process.js:73-79 | a glue advances by its size alone when the total is 0 or it does not stretch at the order; with a positive total, a nonnegative surplus and a nonnegative stretch it advances at least its size |
| Process.Moved | src/process.js:52-55 | overwriting a laid-out paint's pen changes the pen only: a group stays a group with the same width and children |
| Process.HStep | src/process.js:50-80 | one iteration of the horizontal loop keeps the pen on its row |
| Process.HRun | src/process.js:49-81 | in an HBox the pen's y never changes |
| Process.VStep | src/process.js:90-129 | one iteration of the vertical loop keeps the pen's x |
| Process.VRun | src/process.js:89-130 | in a VBox the pen's x never changes |
| Process.Draw | src/process.js:4-134 | a laid-out box is a group at pen (0, 0) whose width is the box's width |
| Process.Layout | src/process.js:4-134 | `_process` fails exactly when some character of the tree has no metrics |
| Process.LayoutRoot | src/process.js:136-141 | `process` fails exactly when a character lacks metrics; otherwise it returns a group as wide as the root, at x = 0 and y = 32·height(root) |
| Process.CollectGlues | src/process.js:22-27 | the `glues.push` loop collects exactly the glue of the content, in order |
| Process.FindOrder | src/process.js:31-40 | the nested scan yields the stretch order of the glue |
| Process.SumStretch | src/process.js:42-44 | the reduction yields the total stretch of all glue at the order |
| Process.ResolveStretch | src/process.js:16-47 | the glue setup yields the resolved stretch: order, total and surplus only when the box is narrower than its parent, zeros otherwise |
| Process.HPass | src/process.js:49-81 | the horizontal loop leaves the pen array and the children exactly as the horizontal pass function gives them |
| Process.VPass | src/process.js:85-130 | the vertical loop leaves the pen array and the children exactly as the vertical pass function gives them |
| Process.ProcessBox | src/process.js:4-134 | `_process` equals the layout function, error included |
| Process.Process | src/process.js:136-141 | `process` equals the root layout function |
| ProcessProperties.HRunPen | src/process.js:49-81 | for any content the pen stays on its row and moves right by 32 times the per-node advances: a box's width, a character's unscaled glyph width, a kern's amount, a glue's size plus its share, nothing for other nodes |
| ProcessProperties.HAdvancesAreWidths | src/process.js:49-81 | for nodes whose advance is their measured width, the advances are the sum of the widths plus the extra width of the glue |
| ProcessProperties.HRunPrefix | src/process.js:49-81 | the children emitted for a prefix of the content stay, in order, at the front of the children |
| ProcessProperties.HRunCount | src/process.js:49-81 | an HBox emits exactly one child per box and character, in content order |
| ProcessProperties.HRunLast | src/process.js:51-69 | the last box or character of the content emits the last child, at the pen left by the nodes before it |
| ProcessProperties.MeasurablePrefix | src/process.js:49-130 | every prefix of a content whose characters all have metrics has that property too |
| ProcessProperties.HPlacement | src/process.js:51-69 | for any content, a box or character's child follows the children of the nodes before it, at pen (32·advances of those nodes, y). A character is `text` in `Main_Regular` at size 32; a box is its group raised by 32·shift |
| ProcessProperties.StretchOfGlues | src/process.js:22-44 | the total stretch of the collected glue equals the stretch of the content's glue, where other nodes contribute 0 |
| ProcessProperties.GlueExtrasScale | src/process.js:73-79 | the glue of any node list receives, in all, its stretch divided by the total times the surplus |
| ProcessProperties.GlueSharesSumToSurplus | src/process.js:42-79 | when the total stretch is nonzero, the extra width given to all glue sums exactly to the surplus |
| ProcessProperties.NoTotalNoExtras | src/process.js:74-78 | with total stretch 0 no glue gets any extra width |
| ProcessProperties.WinningOrder | src/process.js:21-47 | an HBox narrower than its parent resolves to the highest order at which some glue stretches (0 if none); the surplus is parent width minus natural width and the total is the glue's stretch there. A box at least as wide as its parent stretches nothing |
| ProcessProperties.OrderDominance | src/process.js:73-79 | a glue with zero stretch at the winning order advances by its size alone, whatever it stretches at lower orders; otherwise it gets its proportional share |
| ProcessProperties.HBoxEndsAtResolvedWidth | src/process.js:16-81 | an HBox whose glue stretches is narrower than its parent and ends its pass at 32·parentWidth; otherwise it ends at 32·natural width |
| ProcessProperties.HRuleIsSkipped | src/process.js:50-80 | a rule in an HBox emits nothing and leaves the pen unmoved, while `width` counts its width |
| ProcessProperties.HCharAdvance | src/process.js:58-69 | a character advances the pen by 32 times its unscaled glyph width, while `width` scales it by the style multiplier |
| ProcessProperties.VRunPen | src/process.js:89-130 | in a VBox the pen's x never changes and its y grows by 32 times the per-node advances |
| ProcessProperties.VRunPrefix | src/process.js:89-130 | the children emitted for a prefix of the content stay, in order, at the front of the children |
| ProcessProperties.VRunCount | src/process.js:89-130 | a VBox emits exactly one child per box, character and rule with finite height and depth |
| ProcessProperties.VPlacement | src/process.js:91-126 | a box, character or finite rule's child follows the children of the nodes before it, with the pen at the advances of those nodes. A box's group sits 32·height below the pen, a character's text at the pen, and a rule's rect 32·h above it, with width 32·natural (Draw passes vwidth) and height 32·(h + d) |
| ProcessProperties.VRunLast | src/process.js:91-126 | the last box, character or finite rule of the content emits the last child, at the pen left by the nodes before it |
| ProcessProperties.VAdvancesAreVListSize | src/process.js:91-112 | for lists without glue, rules or script-size characters, the pen advance equals `vlistSize` |
| ProcessProperties.VAdvanceIsVSize | src/process.js:91-112 | a node other than glue, a rule or a script-size character moves the pen down by exactly its `vsize` |
| ProcessProperties.VAdvancesAppend | src/process.js:89-130 | the pen advance over a concatenation is the sum of the advances over the parts |
| ProcessProperties.VBoxContentSplit | src/layout/make-utils.js:87 | in the concatenation `upList + [node] + dnList`, the up-list is the prefix and the reference node comes right after it |
| ProcessProperties.StackedVBoxEnd | src/process.js:84-112 | a VBox built around a box or text-size character from stackable lists starts at −32·height and ends its pass at 32·depth |
| ProcessProperties.StackedAdvances | src/process.js:89-112 | around a stackable node, the pen advance over `upList + [node] + dnList` is the up-list's size, the node's size and the down-list's size |
| ProcessProperties.ReferenceOnBaseline | src/process.js:85-97 | the reference box of such a VBox is placed on the VBox's baseline, raised by its own shift |
| ProcessProperties.StackedBoxPlaced | src/process.js:89-97 | from pen height y0 over a stackable up-list, a box's group is placed at y0 + 32·size(up) + 32·height, its stored height |
| ProcessProperties.RuleReferenceVBox | src/process.js:85-126 | with a finite rule `h`/`d` as reference node, the rect is drawn at −32·2h with width 32·natural (Draw passes vwidth) and height 32·(h + d), and the pass ends at 32·(depth − h) |
| ProcessProperties.RuleStackEnd | src/process.js:89-126 | from pen height y0, the pass over stackable lists around a finite rule ends at y0 + 32·(size(up) + d + size(dn)) |
| ProcessProperties.RuleStackBar | src/process.js:113-125 | in that pass the rule's rect is drawn from y0 + 32·(size(up) − h), 32·natural wide and 32·(h + d) high |
| ProcessProperties.StackParts | src/layout/make-utils.js:87 | the up- and down-lists of a VBox content whose characters have metrics have that property too |
| ProcessProperties.RuleStackAdvances | src/process.js:89-126 | around a finite rule the pen advance is the up-list's size, the rule's depth and the down-list's size |

## Left out

- The font-metrics tables and the symbol data. `MeasureUtils` takes the
  Main-Regular table as a `Table` parameter. The `./metrics` lookup used by
  `src/layout-utils.js` and `src/ir.js` is not part of this model; it is a
  `Provider` parameter.
- The unused `fontMap` of `src/layout/measure-utils.js`. It is data only.
- The renderers (canvas, SVG, React components, HTML/DOM), the DOM helpers,
  the entry module and the bundler configuration. All of this is display
  I/O.
- The demo code of `src/ir.js`: the module-level `content` array built by
  `push`, the sample boxes, the font-loading callback and the `sigmas`
  constant table.
- The `console.log` for unhandled VBox nodes: output only. The node is
  skipped, as in the source.
- The empty branch for boxes wider than their parent. Shrink is never
  applied, so nothing happens there.
- JavaScript floating point. Dimensions are exact `real`s, so IEEE rounding
  is not modelled. The `NaN` code of an empty string is not represented
  either, but the lookup it leads to still fails in `GetMetrics`, as in the
  source.
- `-Infinity` from a maximum over an empty list is not modelled; the
  functions that would produce it require non-empty input.
- The explicit `Error` and the `TypeError` from destructuring a missing
  metrics entry are not distinguished. Both are `MetricsNotFound`.
- UTF-16 code units. `getMetrics` keys the table by `charCodeAt(0)`, the
  first UTF-16 code unit of the string. The model keys it by the first
  character of a `seq<char>`, a Unicode scalar value. For characters outside
  the Basic Multilingual Plane, which `charCodeAt(0)` reduces to their
  leading surrogate, the two lookups differ.
- Paint records are values. The overwrite of `g.pen` after the recursive
  call, and `result.pen[1] +=` in `process`, are modelled as copies with a
  new pen (`Moved`). The input tree is a value, so it is never mutated.
- ProcessProperties.HAdvancesAreWidths: stated only for nodes where the pen
  advance is the measured width. That means no script-size characters and no
  rules of nonzero width. `HCharAdvance` and `HRuleIsSkipped` state what
  happens otherwise; `HRunPen` and `HPlacement` hold for every content.
- ProcessProperties.HBoxEndsAtResolvedWidth: stated under the same
  restriction as `HAdvancesAreWidths`.
- ProcessProperties.StackedVBoxEnd: stated only for stackable lists: no
  glue (measured by `vsize` but not advanced), no rules (drawn `h` higher),
  and no script-size characters (stacked unscaled). The reference node must
  be a box or a text-size character. `RuleReferenceVBox` covers a rule
  reference.
- ProcessProperties.ReferenceOnBaseline: stated only for a stackable
  up-list. `StackedBoxPlaced` carries the same restriction.
- ProcessProperties.RuleReferenceVBox: stated only for stackable lists
  around the rule, as for `StackedVBoxEnd`. `RuleStackEnd` and
  `RuleStackBar` carry the same restriction.
