/** The layout transformer: walks a box tree with a pen and emits a paint
    tree of groups, text runs and rectangles, resolving glue stretch in
    horizontal boxes and stacking children in vertical boxes. Pen
    coordinates grow rightwards and downwards, in pixels. */
module Process {
  import opened Types
  import opened MeasureUtils

  /** Pixels per unit of the font size. */
  const FontSize: real := 32.0

  datatype Pen = Pen(x: real, y: real)

  /** The records handed to the renderers: `g`, `text` and `rect`. */
  datatype Paint =
    | Group(pen: Pen, width: real, children: seq<Paint>)
    | Text(pen: Pen, fontFamily: string, fontSize: real, text: string)
    | Rect(pen: Pen, width: real, height: real, fill: string)

  /** The state of one pass over a box's content: the pen and the children
      emitted so far. */
  datatype Run = Run(pen: Pen, children: seq<Paint>)

  /** The glue resolution of an HBox: the winning stretch order, the total
      stretch at that order and the surplus width to distribute. */
  datatype Stretch = Stretch(order: nat, total: real, diff: real)

  /** The record `g` with its pen overwritten by `p`. */
  function Moved(g: Paint, p: Pen): (r: Paint)
    ensures r.pen == p
    ensures r.Group? <==> g.Group?
    ensures r.Group? ==> r.width == g.width && r.children == g.children
  {
    match g
    case Group(_, w, cs) => Group(p, w, cs)
    case Text(_, f, size, text) => Text(p, f, size, text)
    case Rect(_, w, h, fill) => Rect(p, w, h, fill)
  }

  /** Every node can be measured: no empty VBox and no character without metrics. */
  predicate Measurable(t: Table, nodes: seq<Node>) {
    forall i | 0 <= i < |nodes| :: NoEmptyVBox(nodes[i]) && HasMetrics(t, nodes[i])
  }

  /** The glue nodes of a list, in order. */
  function Glues(nodes: seq<Node>): (gs: seq<Node>)
    ensures |gs| <= |nodes|
    ensures forall i | 0 <= i < |gs| :: gs[i].Glue? && gs[i] in nodes
    ensures forall i | 0 <= i < |nodes| :: nodes[i].Glue? ==> nodes[i] in gs
  {
    if |nodes| == 0 then []
    else
      var last := nodes[|nodes| - 1];
      Glues(nodes[..|nodes| - 1]) + if last.Glue? then [last] else []
  }

  /** The largest index holding a nonzero value, or 0 when there is none. */
  function Highest(s: seq<real>): (k: nat)
    ensures |s| == 0 ==> k == 0
    ensures |s| > 0 ==> k < |s|
    ensures k > 0 ==> k < |s| && s[k] != 0.0
    ensures forall i | k < i < |s| :: s[i] == 0.0
  {
    if |s| == 0 then 0
    else if s[|s| - 1] != 0.0 then |s| - 1
    else Highest(s[..|s| - 1])
  }

  /** The stretch order of a list of glue: the highest order at which any of
      them stretches, 0 when none does. */
  function StretchOrder(gs: seq<Node>): (o: nat)
    requires forall i | 0 <= i < |gs| :: gs[i].Glue?
    ensures o < 4
    ensures forall i, j | 0 <= i < |gs| && o < j < 4 :: gs[i].stretch[j] == 0.0
    ensures o > 0 ==> exists i | 0 <= i < |gs| :: gs[i].stretch[o] != 0.0
  {
    if |gs| == 0 then 0
    else MaxNat(StretchOrder(gs[..|gs| - 1]), Highest(gs[|gs| - 1].stretch))
  }

  /** The stretch of all glue at one order, summed from the left. */
  function TotalStretch(gs: seq<Node>, o: nat): (r: real)
    requires o < 4 && forall i | 0 <= i < |gs| :: gs[i].Glue?
    ensures |gs| == 0 ==> r == 0.0
  {
    if |gs| == 0 then 0.0
    else TotalStretch(gs[..|gs| - 1], o) + gs[|gs| - 1].stretch[o]
  }

  /** Glue that does not stretch at order `o` totals no stretch there. */
  lemma {:induction false} TotalStretchZero(gs: seq<Node>, o: nat)
    requires o < 4 && forall i | 0 <= i < |gs| :: gs[i].Glue?
    requires forall i | 0 <= i < |gs| :: gs[i].stretch[o] == 0.0
    ensures TotalStretch(gs, o) == 0.0
  {
    if |gs| > 0 {
      TotalStretchZero(gs[..|gs| - 1], o);
    }
  }

  /** Glue is resolved only when the box is narrower than its parent;
      otherwise nothing stretches. */
  function HStretch(content: seq<Node>, natural: real, parentWidth: real): (s: Stretch)
    ensures s.order < 4
  {
    if natural < parentWidth then
      var gs := Glues(content);
      var o := StretchOrder(gs);
      Stretch(o, TotalStretch(gs, o), parentWidth - natural)
    else
      Stretch(0, 0.0, 0.0)
  }

  /** How far a glue moves the pen: its size plus its share of the surplus. */
  function GlueAdvance(s: Stretch, n: Node): (r: real)
    requires n.Glue? && s.order < 4
    ensures s.total == 0.0 || n.stretch[s.order] == 0.0 ==> r == n.size
    ensures s.total > 0.0 && s.diff >= 0.0 && n.stretch[s.order] >= 0.0 ==> r >= n.size
  {
    if s.total != 0.0 then n.size + n.stretch[s.order] / s.total * s.diff else n.size
  }

  /** One iteration of the horizontal loop: nested boxes are laid out
      against `natural`, the width of the enclosing HBox. */
  function HStep(t: Table, s: Stretch, natural: real, run: Run, n: Node): (r: Run)
    requires s.order < 4 && NoEmptyVBox(n) && HasMetrics(t, n)
    ensures r.pen.y == run.pen.y
    decreases n, 2
  {
    var p := run.pen;
    match n
    case Box(_, _, _, _, shift, _) =>
      var g := Moved(Draw(t, n, natural), Pen(p.x, p.y - FontSize * shift));
      Run(Pen(p.x + FontSize * Width(t, n).value, p.y), run.children + [g])
    case Char(_, ch, _) =>
      Run(Pen(p.x + FontSize * GetMetrics(t, ch).value.width, p.y),
          run.children + [Text(p, "Main_Regular", FontSize, ch)])
    case Kern(amount) => Run(Pen(p.x + FontSize * amount, p.y), run.children)
    case Glue(_, _, _) => Run(Pen(p.x + FontSize * GlueAdvance(s, n), p.y), run.children)
    case _ => run
  }

  /** The horizontal pass over `nodes`, starting from `run0`. */
  function HRun(t: Table, s: Stretch, natural: real, run0: Run, nodes: seq<Node>): (r: Run)
    requires s.order < 4 && Measurable(t, nodes)
    ensures r.pen.y == run0.pen.y
    decreases nodes, 0
  {
    if |nodes| == 0 then run0
    else HStep(t, s, natural, HRun(t, s, natural, run0, nodes[..|nodes| - 1]), nodes[|nodes| - 1])
  }

  /** One iteration of the vertical loop: nested boxes are laid out against
      `natural`, the vertical width of the enclosing VBox, which is also the
      width of every rule drawn. */
  function VStep(t: Table, natural: real, run: Run, n: Node): (r: Run)
    requires NoEmptyVBox(n) && HasMetrics(t, n)
    ensures r.pen.x == run.pen.x
    decreases n, 2
  {
    var p := run.pen;
    match n
    case Box(_, height, depth, _, _, _) =>
      var baseline := p.y + FontSize * height;
      var g := Moved(Draw(t, n, natural), Pen(p.x, baseline));
      Run(Pen(p.x, baseline + FontSize * depth), run.children + [g])
    case Char(_, ch, _) =>
      var m := GetMetrics(t, ch).value;
      Run(Pen(p.x, p.y + FontSize * (m.height + m.depth)),
          run.children + [Text(p, "Main_Regular", FontSize, ch)])
    case Kern(amount) => Run(Pen(p.x, p.y + FontSize * amount), run.children)
    case Rule(h, d, _) =>
      if h.Fin? && d.Fin? then
        var top := p.y - FontSize * h.value;
        var rect := Rect(Pen(p.x, top), FontSize * natural, FontSize * (h.value + d.value), "black");
        Run(Pen(p.x, top + rect.height), run.children + [rect])
      else run
    case _ => run
  }

  /** The vertical pass over `nodes`, starting from `run0`. */
  function VRun(t: Table, natural: real, run0: Run, nodes: seq<Node>): (r: Run)
    requires Measurable(t, nodes)
    ensures r.pen.x == run0.pen.x
    decreases nodes, 0
  {
    if |nodes| == 0 then run0
    else VStep(t, natural, VRun(t, natural, run0, nodes[..|nodes| - 1]), nodes[|nodes| - 1])
  }

  /** The group a measurable box lays out to, at pen (0, 0), before its
      parent places it. */
  function Draw(t: Table, b: Node, parentWidth: real): (g: Paint)
    requires b.Box? && NoEmptyVBox(b) && HasMetrics(t, b)
    ensures g.Group? && g.pen == Pen(0.0, 0.0) && g.width == Width(t, b).value
    decreases b, 1
  {
    var w := Width(t, b).value;
    match b.kind
    case HBox =>
      var s := HStretch(b.content, w, parentWidth);
      Group(Pen(0.0, 0.0), w, HRun(t, s, w, Run(Pen(0.0, 0.0), []), b.content).children)
    case VBox =>
      var natural := VWidth(t, b).value;
      Group(Pen(0.0, 0.0), w, VRun(t, natural, Run(Pen(0.0, 0.0 - FontSize * b.height), []), b.content).children)
  }

  /** `_process`: it fails exactly when some character of the tree has no
      metrics. */
  function Layout(t: Table, b: Node, parentWidth: real): (r: Result<Paint>)
    requires b.Box? && NoEmptyVBox(b)
    ensures r.Ok? <==> HasMetrics(t, b)
  {
    match Width(t, b)
    case Err(e) => Err(e)
    case Ok(_) => Ok(Draw(t, b, parentWidth))
  }

  /** `process`: the root is laid out against width 0 and moved down by its
      height, so that its top edge sits at y = 0. */
  function LayoutRoot(t: Table, b: Node): (r: Result<Paint>)
    requires b.Box? && NoEmptyVBox(b)
    ensures r.Ok? <==> HasMetrics(t, b)
    ensures r.Ok? ==>
      r.value.Group? && r.value.width == Width(t, b).value &&
      r.value.pen == Pen(0.0, FontSize * (b.height + b.shift))
  {
    match Layout(t, b, 0.0)
    case Err(e) => Err(e)
    case Ok(g) => Ok(Moved(g, Pen(g.pen.x, g.pen.y + FontSize * Height(t, b).value)))
  }

  /** `glues.push` over the content: the glue nodes, in order. */
  method CollectGlues(content: seq<Node>) returns (glues: seq<Node>)
    ensures glues == Glues(content)
  {
    glues := [];
    for i := 0 to |content|
      invariant glues == Glues(content[..i])
    {
      assert content[..i + 1][..i] == content[..i];
      if content[i].Glue? {
        glues := glues + [content[i]];
      }
    }
    assert content[..|content|] == content;
  }

  /** The nested scan that raises `index` to every order holding a nonzero
      stretch. */
  method FindOrder(glues: seq<Node>) returns (index: nat)
    requires forall i | 0 <= i < |glues| :: glues[i].Glue?
    ensures index == StretchOrder(glues)
  {
    index := 0;
    for j := 0 to |glues|
      invariant index == StretchOrder(glues[..j])
    {
      var stretch := glues[j].stretch;
      ghost var before := index;
      for k := 0 to 4
        invariant index == MaxNat(before, Highest(stretch[..k]))
      {
        assert stretch[..k + 1][..k] == stretch[..k];
        if stretch[k] != 0.0 {
          index := MaxNat(index, k);
        }
      }
      assert stretch[..4] == stretch;
      assert glues[..j + 1][..j] == glues[..j];
    }
    assert glues[..|glues|] == glues;
  }

  /** `glues.reduce` summing the stretch at one order. */
  method SumStretch(glues: seq<Node>, index: nat) returns (total: real)
    requires index < 4 && forall i | 0 <= i < |glues| :: glues[i].Glue?
    ensures total == TotalStretch(glues, index)
  {
    total := 0.0;
    for j := 0 to |glues|
      invariant total == TotalStretch(glues[..j], index)
    {
      assert glues[..j + 1][..j] == glues[..j];
      total := total + glues[j].stretch[index];
    }
    assert glues[..|glues|] == glues;
  }

  /** The glue pass of an HBox: resolved only when the box is narrower than
      its parent. */
  method ResolveStretch(content: seq<Node>, natural: real, parentWidth: real) returns (s: Stretch)
    ensures s == HStretch(content, natural, parentWidth)
  {
    var order, total, diff := 0, 0.0, 0.0;
    if natural < parentWidth {
      var glues := CollectGlues(content);
      order := FindOrder(glues);
      diff := parentWidth - natural;
      total := SumStretch(glues, order);
    }
    s := Stretch(order, total, diff);
  }

  /** The horizontal pass of `_process`, moving the pen in place. */
  method HPass(t: Table, s: Stretch, natural: real, content: seq<Node>, pen: array<real>) returns (children: seq<Paint>)
    requires s.order < 4 && Measurable(t, content) && pen.Length == 2
    modifies pen
    ensures Run(Pen(pen[0], pen[1]), children) == HRun(t, s, natural, Run(Pen(old(pen[0]), old(pen[1])), []), content)
    decreases content, 0
  {
    ghost var run0 := Run(Pen(pen[0], pen[1]), []);
    children := [];
    for i := 0 to |content|
      invariant Run(Pen(pen[0], pen[1]), children) == HRun(t, s, natural, run0, content[..i])
    {
      assert content[..i + 1][..i] == content[..i];
      var node := content[i];
      ghost var prev := Run(Pen(pen[0], pen[1]), children);
      match node {
      case Box(_, _, _, _, shift, _) =>
        var g := ProcessBox(t, node, natural);
        var sh := FontSize * shift;
        children := children + [Moved(g.value, Pen(pen[0], pen[1] - sh))];
        pen[0] := pen[0] + FontSize * Width(t, node).value;
      case Char(_, ch, _) =>
        children := children + [Text(Pen(pen[0], pen[1]), "Main_Regular", FontSize, ch)];
        var m := GetMetrics(t, ch).value;
        pen[0] := pen[0] + FontSize * m.width;
      case Kern(amount) =>
        pen[0] := pen[0] + FontSize * amount;
      case Glue(size, stretch, _) =>
        if s.total != 0.0 {
          pen[0] := pen[0] + FontSize * (size + stretch[s.order] / s.total * s.diff);
        } else {
          pen[0] := pen[0] + FontSize * size;
        }
      case _ =>
      }
      assert Run(Pen(pen[0], pen[1]), children) == HStep(t, s, natural, prev, node);
    }
    assert content[..|content|] == content;
  }

  /** The vertical pass of `_process`, moving the pen in place. */
  method VPass(t: Table, natural: real, content: seq<Node>, pen: array<real>) returns (children: seq<Paint>)
    requires Measurable(t, content) && pen.Length == 2
    modifies pen
    ensures Run(Pen(pen[0], pen[1]), children) == VRun(t, natural, Run(Pen(old(pen[0]), old(pen[1])), []), content)
    decreases content, 0
  {
    ghost var run0 := Run(Pen(pen[0], pen[1]), []);
    children := [];
    for i := 0 to |content|
      invariant Run(Pen(pen[0], pen[1]), children) == VRun(t, natural, run0, content[..i])
    {
      assert content[..i + 1][..i] == content[..i];
      var node := content[i];
      ghost var prev := Run(Pen(pen[0], pen[1]), children);
      match node {
      case Box(_, height, depth, _, _, _) =>
        pen[1] := pen[1] + FontSize * height;
        var g := ProcessBox(t, node, natural);
        children := children + [Moved(g.value, Pen(pen[0], pen[1]))];
        pen[1] := pen[1] + FontSize * depth;
      case Char(_, ch, _) =>
        children := children + [Text(Pen(pen[0], pen[1]), "Main_Regular", FontSize, ch)];
        var m := GetMetrics(t, ch).value;
        pen[1] := pen[1] + FontSize * (m.height + m.depth);
      case Kern(amount) =>
        pen[1] := pen[1] + FontSize * amount;
      case Rule(h, d, _) =>
        if h.Fin? && d.Fin? {
          pen[1] := pen[1] - FontSize * h.value;
          var rect := Rect(Pen(pen[0], pen[1]), FontSize * natural, FontSize * (h.value + d.value), "black");
          pen[1] := pen[1] + rect.height;
          children := children + [rect];
        }
      case _ =>
      }
      assert Run(Pen(pen[0], pen[1]), children) == VStep(t, natural, prev, node);
    }
    assert content[..|content|] == content;
  }

  /** `_process`: lays out one box against the width of its parent. */
  method ProcessBox(t: Table, layout: Node, parentWidth: real) returns (r: Result<Paint>)
    requires layout.Box? && NoEmptyVBox(layout)
    ensures r == Layout(t, layout, parentWidth)
    decreases layout, 1
  {
    var pen := new real[2];
    pen[0], pen[1] := 0.0, 0.0;
    var width := Width(t, layout);
    if width.Err? {
      return Err(width.error);
    }
    var children: seq<Paint>;
    if layout.kind == HBox {
      var natural := width.value;
      var s := ResolveStretch(layout.content, natural, parentWidth);
      children := HPass(t, s, natural, layout.content, pen);
    } else {
      var natural := VWidth(t, layout).value;
      pen[1] := pen[1] - FontSize * layout.height;
      children := VPass(t, natural, layout.content, pen);
    }
    r := Ok(Group(Pen(0.0, 0.0), width.value, children));
  }

  /** `process`: lays out the root and moves it down by its height. */
  method Process(t: Table, layout: Node) returns (r: Result<Paint>)
    requires layout.Box? && NoEmptyVBox(layout)
    ensures r == LayoutRoot(t, layout)
  {
    r := ProcessBox(t, layout, 0.0);
    if r.Ok? {
      var g := r.value;
      r := Ok(Moved(g, Pen(g.pen.x, g.pen.y + FontSize * Height(t, layout).value)));
    }
  }
}
