/** What the layout transformer guarantees: where each glyph and box is
    placed, how the surplus width of an HBox is shared among its glue, and
    where the stacking of a VBox ends. */
module ProcessProperties {
  import opened Types
  import opened MeasureUtils
  import opened Process
  import MakeUtils

  // ----- Horizontal boxes -----

  /** The extra width a glue receives beyond its natural size. */
  function GlueExtra(s: Stretch, n: Node): real
    requires s.order < 4
  {
    if n.Glue? && s.total != 0.0 then n.stretch[s.order] / s.total * s.diff else 0.0
  }

  function GlueExtras(s: Stretch, nodes: seq<Node>): real
    requires s.order < 4
  {
    if |nodes| == 0 then 0.0 else GlueExtras(s, nodes[..|nodes| - 1]) + GlueExtra(s, nodes[|nodes| - 1])
  }

  /** A node whose pen advance in an HBox is its measured width: no
      script-size character (the pen moves by the unscaled glyph width) and
      no rule of nonzero width (the pen does not move over a rule). */
  predicate Advancing(n: Node) {
    !Scripted(n) && (n.Rule? && n.ruleWidth.Fin? ==> n.ruleWidth.value == 0.0)
  }

  /** How far a node moves the pen right in an HBox: a box its measured
      width, a character its unscaled glyph width, a kern its amount, a glue
      its size plus its share of the surplus; rules, penalties and specials
      do not move it. */
  function HAdvance(t: Table, s: Stretch, n: Node): real
    requires s.order < 4 && NoEmptyVBox(n) && HasMetrics(t, n)
  {
    match n
    case Box(_, _, _, _, _, _) => Width(t, n).value
    case Char(_, ch, _) => GetMetrics(t, ch).value.width
    case Kern(amount) => amount
    case Glue(_, _, _) => GlueAdvance(s, n)
    case _ => 0.0
  }

  function HAdvances(t: Table, s: Stretch, nodes: seq<Node>): real
    requires s.order < 4 && Measurable(t, nodes)
  {
    if |nodes| == 0 then 0.0 else HAdvances(t, s, nodes[..|nodes| - 1]) + HAdvance(t, s, nodes[|nodes| - 1])
  }

  /** In an HBox the pen never leaves its row, and moves right by the
      advances of the nodes passed. */
  lemma {:induction false} HRunPen(t: Table, s: Stretch, natural: real, run0: Run, nodes: seq<Node>)
    requires s.order < 4 && Measurable(t, nodes)
    ensures HRun(t, s, natural, run0, nodes).pen == Pen(run0.pen.x + FontSize * HAdvances(t, s, nodes), run0.pen.y)
  {
    if |nodes| > 0 {
      HRunPen(t, s, natural, run0, nodes[..|nodes| - 1]);
    }
  }

  /** For advancing nodes the advances are the measured widths plus the
      extra width of the glue. */
  lemma {:induction false} HAdvancesAreWidths(t: Table, s: Stretch, nodes: seq<Node>)
    requires s.order < 4 && Measurable(t, nodes)
    requires forall i | 0 <= i < |nodes| :: Advancing(nodes[i])
    ensures MapWidth(t, nodes).Ok?
    ensures HAdvances(t, s, nodes) == Sum(MapWidth(t, nodes).value) + GlueExtras(s, nodes)
  {
    if |nodes| > 0 {
      var pre, n := nodes[..|nodes| - 1], nodes[|nodes| - 1];
      HAdvancesAreWidths(t, s, pre);
      var ws, w := MapWidth(t, pre).value, Width(t, n).value;
      assert MapWidth(t, nodes).value == ws + [w];
      assert (ws + [w])[..|ws|] == ws;
      assert Sum(ws + [w]) == Sum(ws) + w;
      if n.Char? {
        CharMeasures(t, n);
      }
    }
  }

  /** The children emitted for a prefix of the content stay, in order, at the
      front of the children of the whole content. */
  lemma {:induction false} HRunPrefix(t: Table, s: Stretch, natural: real, run0: Run, nodes: seq<Node>, k: nat)
    requires s.order < 4 && Measurable(t, nodes) && k <= |nodes|
    ensures Measurable(t, nodes[..k])
    ensures
      var part, all := HRun(t, s, natural, run0, nodes[..k]), HRun(t, s, natural, run0, nodes);
      |part.children| <= |all.children| && all.children[..|part.children|] == part.children
  {
    if k < |nodes| {
      var pre := nodes[..|nodes| - 1];
      assert pre[..k] == nodes[..k];
      HRunPrefix(t, s, natural, run0, pre, k);
    } else {
      assert nodes[..k] == nodes;
    }
  }

  /** Boxes and characters are the nodes an HBox emits a child for. */
  function HEmitted(nodes: seq<Node>): nat {
    if |nodes| == 0 then 0
    else HEmitted(nodes[..|nodes| - 1]) + if nodes[|nodes| - 1].Box? || nodes[|nodes| - 1].Char? then 1 else 0
  }

  /** An HBox emits exactly one child per box and character of its content. */
  lemma {:induction false} HRunCount(t: Table, s: Stretch, natural: real, run0: Run, nodes: seq<Node>)
    requires s.order < 4 && Measurable(t, nodes)
    ensures |HRun(t, s, natural, run0, nodes).children| == |run0.children| + HEmitted(nodes)
  {
    if |nodes| > 0 {
      HRunCount(t, s, natural, run0, nodes[..|nodes| - 1]);
    }
  }

  /** The child emitted for the box or character `nodes[i]` follows the
      children of the nodes before it, and is drawn with the pen at the
      advances of the nodes before `i`. */
  lemma HPlacement(t: Table, s: Stretch, natural: real, run0: Run, nodes: seq<Node>, i: nat)
    requires s.order < 4 && Measurable(t, nodes) && i < |nodes|
    requires nodes[i].Box? || nodes[i].Char?
    ensures Measurable(t, nodes[..i])
    ensures
      var before, all := HRun(t, s, natural, run0, nodes[..i]), HRun(t, s, natural, run0, nodes);
      var x := run0.pen.x + FontSize * HAdvances(t, s, nodes[..i]);
      |before.children| < |all.children| &&
      all.children[|before.children|] == HChild(t, natural, Pen(x, run0.pen.y), nodes[i])
  {
    var pre, upto := nodes[..i], nodes[..i + 1];
    assert upto[..i] == pre;
    assert upto[i] == nodes[i];
    HRunPrefix(t, s, natural, run0, nodes, i + 1);
    HRunPen(t, s, natural, run0, pre);
    HRunLast(t, s, natural, run0, upto);
  }

  /** The last box or character of the content emits the last child. */
  lemma HRunLast(t: Table, s: Stretch, natural: real, run0: Run, nodes: seq<Node>)
    requires s.order < 4 && Measurable(t, nodes) && |nodes| > 0
    requires nodes[|nodes| - 1].Box? || nodes[|nodes| - 1].Char?
    ensures Measurable(t, nodes[..|nodes| - 1])
    ensures
      var before := HRun(t, s, natural, run0, nodes[..|nodes| - 1]);
      HRun(t, s, natural, run0, nodes).children == before.children + [HChild(t, natural, before.pen, nodes[|nodes| - 1])]
  {
    var pre, n := nodes[..|nodes| - 1], nodes[|nodes| - 1];
    MeasurablePrefix(t, nodes, |nodes| - 1);
    var before := HRun(t, s, natural, run0, pre);
    var p := before.pen;
    if n.Box? {
      assert HRun(t, s, natural, run0, nodes).children ==
        before.children + [Moved(Draw(t, n, natural), Pen(p.x, p.y - FontSize * n.shift))];
    } else {
      assert HRun(t, s, natural, run0, nodes).children ==
        before.children + [Text(p, "Main_Regular", FontSize, n.ch)];
    }
  }

  /** Every prefix of a measurable list is measurable. */
  lemma MeasurablePrefix(t: Table, nodes: seq<Node>, k: nat)
    requires Measurable(t, nodes) && k <= |nodes|
    ensures Measurable(t, nodes[..k])
  {
    assert forall i | 0 <= i < k :: nodes[..k][i] == nodes[i];
  }

  /** The child an HBox emits at pen `p`: a character is drawn as
      Main_Regular text of size 32 at the pen; a box is laid out against the
      natural width of the HBox and placed at the pen, raised by its shift. */
  function HChild(t: Table, natural: real, p: Pen, n: Node): Paint
    requires n.Box? || n.Char?
    requires NoEmptyVBox(n) && HasMetrics(t, n)
  {
    if n.Box? then Moved(Draw(t, n, natural), Pen(p.x, p.y - FontSize * n.shift))
    else Text(p, "Main_Regular", FontSize, n.ch)
  }

  /** The stretch at order `o` of the glue among `nodes`, summed from the left. */
  function StretchOf(nodes: seq<Node>, o: nat): real
    requires o < 4
  {
    if |nodes| == 0 then 0.0
    else
      var n := nodes[|nodes| - 1];
      StretchOf(nodes[..|nodes| - 1], o) + if n.Glue? then n.stretch[o] else 0.0
  }

  lemma {:induction false} StretchOfGlues(nodes: seq<Node>, o: nat)
    requires o < 4
    ensures StretchOf(nodes, o) == TotalStretch(Glues(nodes), o)
  {
    if |nodes| > 0 {
      var pre, n := nodes[..|nodes| - 1], nodes[|nodes| - 1];
      StretchOfGlues(pre, o);
      var gs := Glues(pre);
      if n.Glue? {
        assert Glues(nodes) == gs + [n];
        assert (gs + [n])[..|gs|] == gs;
      } else {
        assert Glues(nodes) == gs;
      }
    }
  }

  /** Sharing `diff` in proportion to each glue's stretch hands out, in all,
      the total stretch's proportion of it. */
  lemma {:induction false} GlueExtrasScale(s: Stretch, nodes: seq<Node>)
    requires s.order < 4 && s.total != 0.0
    ensures GlueExtras(s, nodes) == StretchOf(nodes, s.order) / s.total * s.diff
  {
    if |nodes| == 0 {
      ZeroShare(s.total, s.diff);
    } else {
      var pre, n := nodes[..|nodes| - 1], nodes[|nodes| - 1];
      GlueExtrasScale(s, pre);
      var st := if n.Glue? then n.stretch[s.order] else 0.0;
      ShareStep(StretchOf(pre, s.order), st, s.total, s.diff);
    }
  }

  lemma ZeroShare(total: real, diff: real)
    requires total != 0.0
    ensures 0.0 / total * diff == 0.0
  {
  }

  /** Proportional shares are additive. */
  lemma ShareStep(stretched: real, st: real, total: real, diff: real)
    requires total != 0.0
    ensures stretched / total * diff + st / total * diff == (stretched + st) / total * diff
  {
    assert stretched / total + st / total == (stretched + st) / total;
  }

  /** When the total stretch at the winning order is nonzero, the glue
      shares add up to exactly the surplus width. */
  lemma GlueSharesSumToSurplus(s: Stretch, nodes: seq<Node>)
    requires s.order < 4 && s.total != 0.0 && s.total == TotalStretch(Glues(nodes), s.order)
    ensures GlueExtras(s, nodes) == s.diff
  {
    GlueExtrasScale(s, nodes);
    StretchOfGlues(nodes, s.order);
    WholeShare(s.total, s.diff);
  }

  lemma WholeShare(total: real, diff: real)
    requires total != 0.0
    ensures total / total * diff == diff
  {
  }

  /** Without a nonzero total stretch no glue gets any extra width. */
  lemma {:induction false} NoTotalNoExtras(s: Stretch, nodes: seq<Node>)
    requires s.order < 4 && s.total == 0.0
    ensures GlueExtras(s, nodes) == 0.0
  {
    if |nodes| > 0 {
      NoTotalNoExtras(s, nodes[..|nodes| - 1]);
    }
  }

  /** The winning stretch order of an HBox narrower than its parent is the
      highest order at which some glue of its content stretches (0 when none
      does), the surplus is the parent's width minus the natural width, and
      the total is the stretch of all its glue at that order. An HBox at
      least as wide as its parent stretches nothing. */
  lemma WinningOrder(content: seq<Node>, natural: real, parentWidth: real)
    ensures
      var s := HStretch(content, natural, parentWidth);
      natural < parentWidth ==>
        (forall i, j | 0 <= i < |content| && s.order < j < 4 :: content[i].Glue? ==> content[i].stretch[j] == 0.0) &&
        (s.order > 0 ==> exists i | 0 <= i < |content| :: content[i].Glue? && content[i].stretch[s.order] != 0.0) &&
        s.diff == parentWidth - natural && s.total == TotalStretch(Glues(content), s.order)
    ensures natural >= parentWidth ==> HStretch(content, natural, parentWidth) == Stretch(0, 0.0, 0.0)
  {
    if natural < parentWidth {
      var gs := Glues(content);
      var s := HStretch(content, natural, parentWidth);
      forall i, j | 0 <= i < |content| && s.order < j < 4 && content[i].Glue?
        ensures content[i].stretch[j] == 0.0
      {
        assert content[i] in gs;
        var k :| 0 <= k < |gs| && gs[k] == content[i];
        assert gs[k].stretch[j] == 0.0;
      }
      if s.order > 0 {
        var k :| 0 <= k < |gs| && gs[k].stretch[s.order] != 0.0;
        assert gs[k] in content;
        var i :| 0 <= i < |content| && content[i] == gs[k];
        assert content[i].Glue? && content[i].stretch[s.order] != 0.0;
      }
    }
  }

  /** A glue with no stretch at the winning order keeps its natural size,
      whatever it stretches at lower orders; one with stretch there gets its
      proportional share of the surplus. */
  lemma OrderDominance(s: Stretch, n: Node)
    requires n.Glue? && s.order < 4
    ensures n.stretch[s.order] == 0.0 ==> GlueAdvance(s, n) == n.size
    ensures GlueAdvance(s, n) == n.size + GlueExtra(s, n)
    ensures s.total != 0.0 ==> GlueExtra(s, n) == n.stretch[s.order] / s.total * s.diff
  {
  }

  /** An HBox ends its pass at its parent's width when its glue can stretch
      and at its natural width otherwise; its glue stretches only when it is
      narrower than its parent. */
  lemma HBoxEndsAtResolvedWidth(t: Table, b: Node, parentWidth: real)
    requires b.Box? && b.kind == HBox && NoEmptyVBox(b) && HasMetrics(t, b)
    requires forall i | 0 <= i < |b.content| :: Advancing(b.content[i])
    ensures
      var w := Width(t, b).value;
      var s := HStretch(b.content, w, parentWidth);
      (s.total != 0.0 ==> w < parentWidth) &&
      HRun(t, s, w, Run(Pen(0.0, 0.0), []), b.content).pen ==
        Pen(FontSize * (if s.total != 0.0 then parentWidth else w), 0.0)
  {
    var w := Width(t, b).value;
    var s := HStretch(b.content, w, parentWidth);
    HRunPen(t, s, w, Run(Pen(0.0, 0.0), []), b.content);
    HAdvancesAreWidths(t, s, b.content);
    assert w == Sum(MapWidth(t, b.content).value);
    if s.total != 0.0 {
      WinningOrder(b.content, w, parentWidth);
      GlueSharesSumToSurplus(s, b.content);
    } else {
      NoTotalNoExtras(s, b.content);
    }
  }

  /** A rule in an HBox emits nothing and does not move the pen, although
      `width` counts its width. */
  lemma HRuleIsSkipped(t: Table, s: Stretch, natural: real, run0: Run, h: RuleDim, d: RuleDim, w: RuleDim)
    requires s.order < 4
    ensures HRun(t, s, natural, run0, [Rule(h, d, w)]) == run0
    ensures Width(t, Rule(h, d, w)) == Ok(if w.Fin? then w.value else 0.0)
  {
    assert [Rule(h, d, w)][..0] == [];
  }

  /** A character advances the pen by its unscaled glyph width, while
      `width` scales it by the style multiplier. */
  lemma HCharAdvance(t: Table, s: Stretch, natural: real, run0: Run, n: Node)
    requires s.order < 4 && n.Char? && GetMetrics(t, n.ch).Some?
    ensures Measurable(t, [n])
    ensures HRun(t, s, natural, run0, [n]).pen ==
      Pen(run0.pen.x + FontSize * GetMetrics(t, n.ch).value.width, run0.pen.y)
    ensures Width(t, n).value == Multiplier(n.style) * GetMetrics(t, n.ch).value.width
  {
    assert [n][..0] == [];
  }

  // ----- Vertical boxes -----

  /** How far a node moves the pen down in a VBox: a box its stored height
      plus depth, a character its unscaled glyph height plus depth, a kern
      its amount, a rule with finite height and depth only its depth (the pen
      first goes up by the height, then down by height plus depth), anything
      else nothing. */
  function VAdvance(t: Table, n: Node): real
    requires GlyphKnown(t, n)
  {
    match n
    case Box(_, height, depth, _, _, _) => height + depth
    case Char(_, ch, _) => GetMetrics(t, ch).value.height + GetMetrics(t, ch).value.depth
    case Kern(amount) => amount
    case Rule(h, d, _) => if h.Fin? && d.Fin? then d.value else 0.0
    case _ => 0.0
  }

  function VAdvances(t: Table, nodes: seq<Node>): real
    requires forall i | 0 <= i < |nodes| :: GlyphKnown(t, nodes[i])
  {
    if |nodes| == 0 then 0.0 else VAdvances(t, nodes[..|nodes| - 1]) + VAdvance(t, nodes[|nodes| - 1])
  }

  /** In a VBox the pen never leaves its column, and moves down by the
      advances of the nodes passed. */
  lemma {:induction false} VRunPen(t: Table, natural: real, run0: Run, nodes: seq<Node>)
    requires Measurable(t, nodes)
    ensures forall i | 0 <= i < |nodes| :: GlyphKnown(t, nodes[i])
    ensures VRun(t, natural, run0, nodes).pen == Pen(run0.pen.x, run0.pen.y + FontSize * VAdvances(t, nodes))
  {
    if |nodes| > 0 {
      VRunPen(t, natural, run0, nodes[..|nodes| - 1]);
    }
  }

  lemma {:induction false} VRunPrefix(t: Table, natural: real, run0: Run, nodes: seq<Node>, k: nat)
    requires Measurable(t, nodes) && k <= |nodes|
    ensures Measurable(t, nodes[..k])
    ensures
      var part, all := VRun(t, natural, run0, nodes[..k]), VRun(t, natural, run0, nodes);
      |part.children| <= |all.children| && all.children[..|part.children|] == part.children
  {
    if k < |nodes| {
      var pre := nodes[..|nodes| - 1];
      assert pre[..k] == nodes[..k];
      VRunPrefix(t, natural, run0, pre, k);
    } else {
      assert nodes[..k] == nodes;
    }
  }

  /** Boxes, characters and rules of finite height and depth are the nodes
      a VBox emits a child for. */
  function VEmitted(nodes: seq<Node>): nat {
    if |nodes| == 0 then 0
    else
      var n := nodes[|nodes| - 1];
      VEmitted(nodes[..|nodes| - 1]) +
        if Drawn(n) then 1 else 0
  }

  /** A VBox emits exactly one child per box, character and finite rule. */
  lemma {:induction false} VRunCount(t: Table, natural: real, run0: Run, nodes: seq<Node>)
    requires Measurable(t, nodes)
    ensures |VRun(t, natural, run0, nodes).children| == |run0.children| + VEmitted(nodes)
  {
    if |nodes| > 0 {
      VRunCount(t, natural, run0, nodes[..|nodes| - 1]);
    }
  }

  /** The child emitted for `nodes[i]` follows the children of the nodes
      before it, in the pen's column, with the pen at the advances of those
      nodes. */
  lemma VPlacement(t: Table, natural: real, run0: Run, nodes: seq<Node>, i: nat)
    requires Measurable(t, nodes) && i < |nodes|
    requires Drawn(nodes[i])
    ensures Measurable(t, nodes[..i])
    ensures forall j | 0 <= j < i :: GlyphKnown(t, nodes[..i][j])
    ensures
      var before, all := VRun(t, natural, run0, nodes[..i]), VRun(t, natural, run0, nodes);
      var y := run0.pen.y + FontSize * VAdvances(t, nodes[..i]);
      |before.children| < |all.children| &&
      all.children[|before.children|] == VChild(t, natural, Pen(run0.pen.x, y), nodes[i])
  {
    var pre, upto := nodes[..i], nodes[..i + 1];
    assert upto[..i] == pre;
    assert upto[i] == nodes[i];
    VRunPrefix(t, natural, run0, nodes, i + 1);
    VRunPen(t, natural, run0, pre);
    VRunLast(t, natural, run0, upto);
  }

  /** The nodes a VBox draws: boxes, characters and rules of finite height
      and depth. */
  predicate Drawn(n: Node) {
    n.Box? || n.Char? || (n.Rule? && n.ruleHeight.Fin? && n.ruleDepth.Fin?)
  }

  /** The last drawn node of the content emits the last child. */
  lemma VRunLast(t: Table, natural: real, run0: Run, nodes: seq<Node>)
    requires Measurable(t, nodes) && |nodes| > 0 && Drawn(nodes[|nodes| - 1])
    ensures Measurable(t, nodes[..|nodes| - 1])
    ensures
      var before := VRun(t, natural, run0, nodes[..|nodes| - 1]);
      VRun(t, natural, run0, nodes).children == before.children + [VChild(t, natural, before.pen, nodes[|nodes| - 1])]
  {
    MeasurablePrefix(t, nodes, |nodes| - 1);
  }

  /** The child a VBox emits at pen `p`: a box is laid out against the
      VBox's vertical width and put on its baseline, the pen plus its stored
      height; a character is drawn at the pen; a finite rule is drawn as a
      black rectangle as wide as the VBox, from the pen minus its height,
      for its height plus depth. */
  function VChild(t: Table, natural: real, p: Pen, n: Node): Paint
    requires Drawn(n) && NoEmptyVBox(n) && HasMetrics(t, n)
  {
    if n.Box? then Moved(Draw(t, n, natural), Pen(p.x, p.y + FontSize * n.height))
    else if n.Char? then Text(p, "Main_Regular", FontSize, n.ch)
    else Rect(Pen(p.x, p.y - FontSize * n.ruleHeight.value), FontSize * natural,
              FontSize * (n.ruleHeight.value + n.ruleDepth.value), "black")
  }

  /** A node a VBox stacks by exactly its `vsize`: no glue (measured but not
      stacked), no rule (stacked by its depth alone) and no script-size
      character (stacked unscaled). */
  predicate Stackable(n: Node) {
    !Scripted(n) && !n.Glue? && !n.Rule?
  }

  /** For stackable nodes the pen moves down by exactly the `vlistSize`
      the VBox constructor reserved for them. */
  lemma {:induction false} VAdvancesAreVListSize(t: Table, nodes: seq<Node>)
    requires forall i | 0 <= i < |nodes| :: GlyphKnown(t, nodes[i]) && Stackable(nodes[i])
    ensures MakeUtils.VListSize(t, nodes).Ok?
    ensures VAdvances(t, nodes) == MakeUtils.VListSize(t, nodes).value
  {
    if |nodes| > 0 {
      var pre, n := nodes[..|nodes| - 1], nodes[|nodes| - 1];
      VAdvancesAreVListSize(t, pre);
      VAdvanceIsVSize(t, n);
      assert nodes == pre + [n];
      MakeUtils.VListSizeAppend(t, pre, [n]);
      MakeUtils.VListSizeSingleton(t, n);
    }
  }

  /** A stackable node moves the pen down by exactly its `vsize`. */
  lemma VAdvanceIsVSize(t: Table, n: Node)
    requires GlyphKnown(t, n) && Stackable(n)
    ensures MakeUtils.VSize(t, n).Ok? && VAdvance(t, n) == MakeUtils.VSize(t, n).value
  {
    if n.Char? {
      CharMeasures(t, n);
    }
  }

  /** The contents of a box built by `makeVBox`, in stacking order. */
  lemma VBoxContentSplit(node: Node, upList: seq<Node>, dnList: seq<Node>)
    ensures var c := upList + [node] + dnList;
      c[..|upList|] == upList && c[|upList|] == node && c[..|upList| + 1] == upList + [node]
  {
  }

  /** A VBox built from stackable nodes around a box or character of
      text size ends its pass at the VBox's depth. */
  lemma StackedVBoxEnd(t: Table, node: Node, upList: seq<Node>, dnList: seq<Node>, shift: real, natural: real)
    requires MakeUtils.MakeVBox(t, node, upList, dnList, shift).Ok?
    requires Measurable(t, upList + [node] + dnList)
    requires (node.Box? || node.Char?) && !Scripted(node)
    requires forall i | 0 <= i < |upList| :: Stackable(upList[i])
    requires forall i | 0 <= i < |dnList| :: Stackable(dnList[i])
    ensures
      var b := MakeUtils.MakeVBox(t, node, upList, dnList, shift).value;
      VRun(t, natural, Run(Pen(0.0, 0.0 - FontSize * b.height), []), b.content).pen == Pen(0.0, FontSize * b.depth)
  {
    var b := MakeUtils.MakeVBox(t, node, upList, dnList, shift).value;
    var run0 := Run(Pen(0.0, 0.0 - FontSize * b.height), []);
    StackedAdvances(t, node, upList, dnList);
    VRunPen(t, natural, run0, b.content);
  }

  /** Stacking stackable lists around a stackable node advances the pen by
      the up-list's size, the node's size and the down-list's size. */
  lemma StackedAdvances(t: Table, node: Node, upList: seq<Node>, dnList: seq<Node>)
    requires var c := upList + [node] + dnList;
      forall i | 0 <= i < |c| :: GlyphKnown(t, c[i]) && Stackable(c[i])
    ensures var c := upList + [node] + dnList;
      MakeUtils.VListSize(t, upList).Ok? && MakeUtils.VSize(t, node).Ok? && MakeUtils.VListSize(t, dnList).Ok? &&
      VAdvances(t, c) ==
        MakeUtils.VListSize(t, upList).value + MakeUtils.VSize(t, node).value + MakeUtils.VListSize(t, dnList).value
  {
    var c := upList + [node] + dnList;
    VAdvancesAreVListSize(t, c);
    MakeUtils.VListSizeAppend(t, upList + [node], dnList);
    MakeUtils.VListSizeAppend(t, upList, [node]);
    MakeUtils.VListSizeSingleton(t, node);
  }

  /** The reference box of a VBox sits on the VBox's baseline, raised by
      its own shift, when the up-list is stackable. */
  lemma ReferenceOnBaseline(t: Table, node: Node, upList: seq<Node>, dnList: seq<Node>, shift: real, natural: real)
    requires MakeUtils.MakeVBox(t, node, upList, dnList, shift).Ok?
    requires Measurable(t, upList + [node] + dnList)
    requires node.Box?
    requires forall i | 0 <= i < |upList| :: Stackable(upList[i])
    ensures
      var b := MakeUtils.MakeVBox(t, node, upList, dnList, shift).value;
      var run0 := Run(Pen(0.0, 0.0 - FontSize * b.height), []);
      var all := VRun(t, natural, run0, b.content);
      var k := |VRun(t, natural, run0, b.content[..|upList|]).children|;
      k < |all.children| && all.children[k].pen == Pen(0.0, 0.0 - FontSize * node.shift)
  {
    var b := MakeUtils.MakeVBox(t, node, upList, dnList, shift).value;
    StackedBoxPlaced(t, node, upList, dnList, 0.0 - FontSize * b.height, natural);
    var up := MakeUtils.VListSize(t, upList).value;
    assert b.height == node.height + node.shift + up;
  }

  /** In a pass from height `y0` over a stackable up-list, a box and any
      down-list, the box's group is placed at the pen after the up-list plus
      the box's stored height. */
  lemma StackedBoxPlaced(t: Table, node: Node, upList: seq<Node>, dnList: seq<Node>, y0: real, natural: real)
    requires node.Box?
    requires Measurable(t, upList + [node] + dnList)
    requires forall i | 0 <= i < |upList| :: Stackable(upList[i])
    ensures MakeUtils.VListSize(t, upList).Ok?
    ensures
      var c, run0 := upList + [node] + dnList, Run(Pen(0.0, y0), []);
      var all := VRun(t, natural, run0, c);
      var k := |VRun(t, natural, run0, c[..|upList|]).children|;
      k < |all.children| &&
      all.children[k].pen == Pen(0.0, y0 + FontSize * MakeUtils.VListSize(t, upList).value + FontSize * node.height)
  {
    var c := upList + [node] + dnList;
    StackParts(t, upList, node, dnList);
    VBoxContentSplit(node, upList, dnList);
    VAdvancesAreVListSize(t, upList);
    VPlacement(t, natural, Run(Pen(0.0, y0), []), c, |upList|);
  }

  /** A VBox whose reference node is a rule of finite height `h` and depth
      `d`, with stackable lists around it (a fraction bar): the rule is
      drawn from `2h` above the baseline, one rule height higher than the
      room the constructor reserved for it, and the pass ends `h` short of
      the VBox's depth. */
  lemma RuleReferenceVBox(t: Table, h: real, d: real, w: RuleDim, upList: seq<Node>, dnList: seq<Node>, shift: real, natural: real)
    requires MakeUtils.MakeVBox(t, Rule(Fin(h), Fin(d), w), upList, dnList, shift).Ok?
    requires Measurable(t, upList + [Rule(Fin(h), Fin(d), w)] + dnList)
    requires forall i | 0 <= i < |upList| :: Stackable(upList[i])
    requires forall i | 0 <= i < |dnList| :: Stackable(dnList[i])
    ensures
      var b := MakeUtils.MakeVBox(t, Rule(Fin(h), Fin(d), w), upList, dnList, shift).value;
      var run0 := Run(Pen(0.0, 0.0 - FontSize * b.height), []);
      var all := VRun(t, natural, run0, b.content);
      var k := |VRun(t, natural, run0, b.content[..|upList|]).children|;
      all.pen == Pen(0.0, FontSize * (b.depth - h)) &&
      k < |all.children| &&
      all.children[k] == Rect(Pen(0.0, 0.0 - FontSize * (h + h)), FontSize * natural, FontSize * (h + d), "black")
  {
    var node := Rule(Fin(h), Fin(d), w);
    var b := MakeUtils.MakeVBox(t, node, upList, dnList, shift).value;
    RuleStackAdvances(t, node, upList, dnList);
    RuleStackEnd(t, node, upList, dnList, 0.0 - FontSize * b.height, natural);
    RuleStackBar(t, node, upList, dnList, 0.0 - FontSize * b.height, natural);
  }

  /** The pass over stackable lists around a finite rule, from height `y0`,
      ends the lists' sizes and the rule's depth below `y0`. */
  lemma RuleStackEnd(t: Table, node: Node, upList: seq<Node>, dnList: seq<Node>, y0: real, natural: real)
    requires node.Rule? && node.ruleHeight.Fin? && node.ruleDepth.Fin?
    requires Measurable(t, upList + [node] + dnList)
    requires forall i | 0 <= i < |upList| :: Stackable(upList[i])
    requires forall i | 0 <= i < |dnList| :: Stackable(dnList[i])
    ensures MakeUtils.VListSize(t, upList).Ok? && MakeUtils.VListSize(t, dnList).Ok?
    ensures
      var up, dn := MakeUtils.VListSize(t, upList).value, MakeUtils.VListSize(t, dnList).value;
      VRun(t, natural, Run(Pen(0.0, y0), []), upList + [node] + dnList).pen ==
        Pen(0.0, y0 + FontSize * (up + node.ruleDepth.value + dn))
  {
    var c := upList + [node] + dnList;
    StackParts(t, upList, node, dnList);
    RuleStackAdvances(t, node, upList, dnList);
    VRunPen(t, natural, Run(Pen(0.0, y0), []), c);
  }

  /** In the same pass the rule is drawn from the pen after the up-list
      minus the rule's height. */
  lemma RuleStackBar(t: Table, node: Node, upList: seq<Node>, dnList: seq<Node>, y0: real, natural: real)
    requires node.Rule? && node.ruleHeight.Fin? && node.ruleDepth.Fin?
    requires Measurable(t, upList + [node] + dnList)
    requires forall i | 0 <= i < |upList| :: Stackable(upList[i])
    ensures MakeUtils.VListSize(t, upList).Ok?
    ensures
      var c, run0 := upList + [node] + dnList, Run(Pen(0.0, y0), []);
      var up, h, d := MakeUtils.VListSize(t, upList).value, node.ruleHeight.value, node.ruleDepth.value;
      var all := VRun(t, natural, run0, c);
      var k := |VRun(t, natural, run0, c[..|upList|]).children|;
      k < |all.children| &&
      all.children[k] == Rect(Pen(0.0, y0 + FontSize * up - FontSize * h), FontSize * natural, FontSize * (h + d), "black")
  {
    var c := upList + [node] + dnList;
    StackParts(t, upList, node, dnList);
    VBoxContentSplit(node, upList, dnList);
    VAdvancesAreVListSize(t, upList);
    VPlacement(t, natural, Run(Pen(0.0, y0), []), c, |upList|);
  }

  /** The up- and down-lists of a measurable VBox content are measurable. */
  lemma StackParts(t: Table, upList: seq<Node>, node: Node, dnList: seq<Node>)
    requires Measurable(t, upList + [node] + dnList)
    ensures forall i | 0 <= i < |upList| :: GlyphKnown(t, upList[i])
    ensures forall i | 0 <= i < |dnList| :: GlyphKnown(t, dnList[i])
  {
    var c := upList + [node] + dnList;
    assert forall i | 0 <= i < |upList| :: c[i] == upList[i];
    assert forall i | 0 <= i < |dnList| :: c[|upList| + 1 + i] == dnList[i];
  }

  /** Stacking stackable lists around a finite rule advances the pen by the
      up-list's size, the rule's depth and the down-list's size. */
  lemma RuleStackAdvances(t: Table, node: Node, upList: seq<Node>, dnList: seq<Node>)
    requires node.Rule? && node.ruleHeight.Fin? && node.ruleDepth.Fin?
    requires forall i | 0 <= i < |upList| :: GlyphKnown(t, upList[i]) && Stackable(upList[i])
    requires forall i | 0 <= i < |dnList| :: GlyphKnown(t, dnList[i]) && Stackable(dnList[i])
    ensures MakeUtils.VListSize(t, upList).Ok? && MakeUtils.VListSize(t, dnList).Ok?
    ensures forall i | 0 <= i < |upList + [node] + dnList| :: GlyphKnown(t, (upList + [node] + dnList)[i])
    ensures VAdvances(t, upList) == MakeUtils.VListSize(t, upList).value
    ensures VAdvances(t, upList + [node] + dnList) ==
      MakeUtils.VListSize(t, upList).value + node.ruleDepth.value + MakeUtils.VListSize(t, dnList).value
  {
    VAdvancesAreVListSize(t, upList);
    VAdvancesAreVListSize(t, dnList);
    assert [node][..0] == [];
    assert VAdvances(t, [node]) == node.ruleDepth.value;
    VAdvancesAppend(t, upList, [node]);
    assert VAdvances(t, upList + [node]) == VAdvances(t, upList) + node.ruleDepth.value;
    VAdvancesAppend(t, upList + [node], dnList);
  }

  lemma {:induction false} VAdvancesAppend(t: Table, a: seq<Node>, b: seq<Node>)
    requires forall i | 0 <= i < |a| :: GlyphKnown(t, a[i])
    requires forall i | 0 <= i < |b| :: GlyphKnown(t, b[i])
    ensures forall i | 0 <= i < |a + b| :: GlyphKnown(t, (a + b)[i])
    ensures VAdvances(t, a + b) == VAdvances(t, a) + VAdvances(t, b)
  {
    if |b| > 0 {
      assert (a + b)[..|a + b| - 1] == a + b[..|b| - 1];
      VAdvancesAppend(t, a, b[..|b| - 1]);
    } else {
      assert a + b == a;
    }
  }
}
