/** The snapshot constructors and measures of the demo module: heights and
    depths of boxes are read from the stored fields without the shift, and
    characters carry no style. */
module IR {
  import opened Types
  import MeasureUtils
  import MakeUtils
  import LayoutUtils

  function MakeChar(font: string, ch: string): Node {
    Char(font, ch, Unset)
  }

  function MainRegularChar(ch: string): Node {
    MakeChar("Main-Regular", ch)
  }

  /** The snapshot's characters have no style and use the `Main-Regular` family. */
  lemma CharConstructors(font: string, ch: string)
    ensures MakeChar(font, ch) == Char(font, ch, Unset)
    ensures MainRegularChar(ch) == Char("Main-Regular", ch, Unset)
  {
  }

  function MakeKern(amount: real): Node {
    Kern(amount)
  }

  function MakeRule(height: RuleDim, depth: RuleDim, width: RuleDim): Node {
    Rule(height, depth, width)
  }

  function MakeGlue(size: real, stretch: GlueMeasurement := [0.0, 0.0, 0.0, 0.0],
                    shrink: GlueMeasurement := [0.0, 0.0, 0.0, 0.0]): Node {
    Glue(size, stretch, shrink)
  }

  function HFil(value: real := 1.0): GlueMeasurement {
    [0.0, value, 0.0, 0.0]
  }

  function HFill(value: real := 1.0): GlueMeasurement {
    [0.0, 0.0, value, 0.0]
  }

  function HFilll(value: real := 1.0): GlueMeasurement {
    [0.0, 0.0, 0.0, value]
  }

  /** The snapshot's kern, rule and glue constructors and its `hfil`,
      `hfill` and `hfilll` build the same records as the box constructors':
      glue defaults to zero stretch and shrink, and each helper puts its
      value (default 1) at its own order. */
  lemma SnapshotConstructors(size: real, v: real, h: RuleDim, d: RuleDim, w: RuleDim, st: GlueMeasurement, sh: GlueMeasurement)
    ensures MakeKern(size) == MakeUtils.MakeKern(size)
    ensures MakeRule(h, d, w) == MakeUtils.MakeRule(h, d, w)
    ensures MakeGlue(size) == Glue(size, [0.0, 0.0, 0.0, 0.0], [0.0, 0.0, 0.0, 0.0]) == MakeUtils.MakeGlue(size)
    ensures MakeGlue(size, st, sh) == MakeUtils.MakeGlue(size, st, sh)
    ensures HFil(v) == MakeUtils.HFil(v) && HFill(v) == MakeUtils.HFill(v) && HFilll(v) == MakeUtils.HFilll(v)
    ensures HFil() == HFil(1.0) && HFill() == HFill(1.0) && HFilll() == HFilll(1.0)
    ensures forall i | 0 <= i < 4 :: HFil(v)[i] == (if i == 1 then v else 0.0)
    ensures forall i | 0 <= i < 4 :: HFill(v)[i] == (if i == 2 then v else 0.0)
    ensures forall i | 0 <= i < 4 :: HFilll(v)[i] == (if i == 3 then v else 0.0)
  {
  }

  /** A character node has metrics in the provider; other nodes trivially do. */
  predicate GlyphKnown(metrics: Provider, n: Node) {
    n.Char? ==> metrics(n.ch).Some?
  }

  function Height(metrics: Provider, n: Node): (r: Result<real>)
    ensures r.Ok? <==> GlyphKnown(metrics, n)
  {
    match n
    case Box(_, height, _, _, _, _) => Ok(height)
    case Rule(h, _, _) => Ok(if h.Fin? then h.value else 0.0)
    case Char(_, _, _) => LayoutUtils.CharHeight(metrics, n)
    case _ => Ok(0.0)
  }

  function Depth(metrics: Provider, n: Node): (r: Result<real>)
    ensures r.Ok? <==> GlyphKnown(metrics, n)
  {
    match n
    case Box(_, _, depth, _, _, _) => Ok(depth)
    case Rule(_, d, _) => Ok(if d.Fin? then d.value else 0.0)
    case Char(_, _, _) => LayoutUtils.CharDepth(metrics, n)
    case _ => Ok(0.0)
  }

  /** Unlike the measurement engine, the snapshot ignores a box's shift: its
      height and depth are the stored fields, whatever the shift. A `'*'` rule
      dimension is 0; characters read the provider's height and depth. */
  lemma HeightDepthIgnoreShift(metrics: Provider, table: MeasureUtils.Table, n: Node)
    ensures n.Box? ==> Height(metrics, n) == Ok(n.height) && Depth(metrics, n) == Ok(n.depth)
    ensures n.Box? ==>
      MeasureUtils.Height(table, n).value == Height(metrics, n).value + n.shift &&
      MeasureUtils.Depth(table, n).value == Depth(metrics, n).value - n.shift
    ensures n.Rule? && n.ruleHeight.Inf? ==> Height(metrics, n) == Ok(0.0)
    ensures n.Rule? && n.ruleDepth.Inf? ==> Depth(metrics, n) == Ok(0.0)
    ensures n.Char? && metrics(n.ch).None? ==>
      Height(metrics, n) == Depth(metrics, n) == Err(MetricsNotFound(n.ch))
    ensures n.Char? && metrics(n.ch).Some? ==>
      Height(metrics, n) == Ok(metrics(n.ch).value.height) && Depth(metrics, n) == Ok(metrics(n.ch).value.depth)
  {
  }

  function HListHeight(metrics: Provider, hlist: seq<Node>): (r: Result<real>)
    requires |hlist| > 0
    ensures r.Ok? <==> forall i | 0 <= i < |hlist| :: GlyphKnown(metrics, hlist[i])
    ensures r.Ok? ==>
      (forall i | 0 <= i < |hlist| :: Height(metrics, hlist[i]).value <= r.value) &&
      (exists i | 0 <= i < |hlist| :: Height(metrics, hlist[i]).value == r.value)
  {
    match MapAll(n => Height(metrics, n), hlist)
    case Err(e) => Err(e)
    case Ok(hs) => Ok(Max(hs))
  }

  function HListDepth(metrics: Provider, hlist: seq<Node>): (r: Result<real>)
    requires |hlist| > 0
    ensures r.Ok? <==> forall i | 0 <= i < |hlist| :: GlyphKnown(metrics, hlist[i])
    ensures r.Ok? ==>
      (forall i | 0 <= i < |hlist| :: Depth(metrics, hlist[i]).value <= r.value) &&
      (exists i | 0 <= i < |hlist| :: Depth(metrics, hlist[i]).value == r.value)
  {
    match MapAll(n => Depth(metrics, n), hlist)
    case Err(e) => Err(e)
    case Ok(ds) => Ok(Max(ds))
  }

  function MakeHBox(metrics: Provider, content: seq<Node>, shift: real := 0.0): (r: Result<Node>)
    requires |content| > 0
    ensures r.Ok? <==> forall i | 0 <= i < |content| :: GlyphKnown(metrics, content[i])
    ensures r.Ok? ==>
      var b := r.value;
      b.Box? && b.kind == HBox && b.content == content && b.shift == shift && b.width == None &&
      (forall i | 0 <= i < |content| :: Height(metrics, content[i]).value <= b.height) &&
      (exists i | 0 <= i < |content| :: Height(metrics, content[i]).value == b.height) &&
      (forall i | 0 <= i < |content| :: Depth(metrics, content[i]).value <= b.depth) &&
      (exists i | 0 <= i < |content| :: Depth(metrics, content[i]).value == b.depth)
  {
    match HListHeight(metrics, content)
    case Err(e) => Err(e)
    case Ok(h) =>
      match HListDepth(metrics, content)
      case Err(e) => Err(e)
      case Ok(d) => Ok(Box(HBox, h, d, content, shift, None))
  }

  /** A character, box or rule takes its height plus depth; for a box these
      are the stored fields. */
  function VSize(metrics: Provider, n: Node): (r: Result<real>)
    ensures r.Ok? <==> GlyphKnown(metrics, n)
    ensures r.Ok? && (n.Char? || n.Box? || n.Rule?) ==> r.value == Height(metrics, n).value + Depth(metrics, n).value
  {
    match n
    case Char(_, _, _) =>
      (match LayoutUtils.CharHeight(metrics, n)
       case Err(e) => Err(e)
       case Ok(h) =>
         match LayoutUtils.CharDepth(metrics, n)
         case Err(e) => Err(e)
         case Ok(d) => Ok(h + d))
    case Box(_, height, depth, _, _, _) => Ok(height + depth)
    case Rule(h, d, _) => Ok((if h.Fin? then h.value else 0.0) + (if d.Fin? then d.value else 0.0))
    case Glue(size, _, _) => Ok(size)
    case Kern(amount) => Ok(amount)
    case _ => Ok(0.0)
  }

  function VListSize(metrics: Provider, vlist: seq<Node>): (r: Result<real>)
    ensures r.Ok? <==> forall i | 0 <= i < |vlist| :: GlyphKnown(metrics, vlist[i])
  {
    match MapAll(n => VSize(metrics, n), vlist)
    case Err(e) => Err(e)
    case Ok(vs) => Ok(MeasureUtils.Sum(vs))
  }

  function MakeVBox(metrics: Provider, node: Node, upList: seq<Node>, dnList: seq<Node>, shift: real := 0.0): (r: Result<Node>)
    ensures r.Ok? <==>
      GlyphKnown(metrics, node) &&
      (forall i | 0 <= i < |upList| :: GlyphKnown(metrics, upList[i])) &&
      (forall i | 0 <= i < |dnList| :: GlyphKnown(metrics, dnList[i]))
    ensures r.Ok? ==>
      var b := r.value;
      b.Box? && b.kind == VBox && b.content == upList + [node] + dnList && b.shift == shift && b.width == None &&
      b.height == Height(metrics, node).value + VListSize(metrics, upList).value &&
      b.depth == Depth(metrics, node).value + VListSize(metrics, dnList).value
  {
    match Height(metrics, node)
    case Err(e) => Err(e)
    case Ok(h) =>
      match VListSize(metrics, upList)
      case Err(e) => Err(e)
      case Ok(up) =>
        match Depth(metrics, node)
        case Err(e) => Err(e)
        case Ok(d) =>
          match VListSize(metrics, dnList)
          case Err(e) => Err(e)
          case Ok(dn) => Ok(Box(VBox, h + up, d + dn, upList + [node] + dnList, shift, None))
  }

  /** The snapshot's `vsize` and the constructors' `vsize` agree on the same
      metrics for every node that is not a script-size character: a box's
      shift cancels in height plus depth. */
  lemma VSizeAgrees(metrics: Provider, table: MeasureUtils.Table, n: Node)
    requires MeasureUtils.SameMetrics(metrics, table) && !Scripted(n)
    ensures VSize(metrics, n) == MakeUtils.VSize(table, n)
  {
    if n.Char? {
      assert metrics(n.ch) == MeasureUtils.GetMetrics(table, n.ch);
      MeasureUtils.CharMeasures(table, n);
    }
  }

  /** A node whose snapshot height and depth match the engine's: it is not a
      shifted box and not a script-size character. */
  predicate Unshifted(n: Node) {
    !Scripted(n) && (n.Box? ==> n.shift == 0.0)
  }

  lemma SameMeasures(metrics: Provider, table: MeasureUtils.Table, n: Node)
    requires MeasureUtils.SameMetrics(metrics, table) && Unshifted(n)
    ensures Height(metrics, n) == MeasureUtils.Height(table, n)
    ensures Depth(metrics, n) == MeasureUtils.Depth(table, n)
  {
    if n.Char? {
      assert metrics(n.ch) == MeasureUtils.GetMetrics(table, n.ch);
      MeasureUtils.CharMeasures(table, n);
    }
  }

  /** Without shifted boxes and script-size characters, the snapshot's HBox
      is the constructors' HBox. */
  lemma MakeHBoxAgrees(metrics: Provider, table: MeasureUtils.Table, content: seq<Node>, shift: real)
    requires MeasureUtils.SameMetrics(metrics, table) && |content| > 0
    requires forall i | 0 <= i < |content| :: Unshifted(content[i])
    ensures MakeHBox(metrics, content, shift) == MakeUtils.MakeHBox(table, content, shift)
  {
    forall i | 0 <= i < |content| ensures Height(metrics, content[i]) == MeasureUtils.Height(table, content[i])
      && Depth(metrics, content[i]) == MeasureUtils.Depth(table, content[i]) {
      SameMeasures(metrics, table, content[i]);
    }
    MapAllAgree(n => Height(metrics, n), n => MeasureUtils.Height(table, n), content);
    MapAllAgree(n => Depth(metrics, n), n => MeasureUtils.Depth(table, n), content);
  }

  /** With an unshifted reference node and no script-size characters in the
      lists, the snapshot's VBox is the constructors' VBox. */
  lemma MakeVBoxAgrees(metrics: Provider, table: MeasureUtils.Table, node: Node, upList: seq<Node>, dnList: seq<Node>, shift: real)
    requires MeasureUtils.SameMetrics(metrics, table) && Unshifted(node)
    requires forall i | 0 <= i < |upList| :: !Scripted(upList[i])
    requires forall i | 0 <= i < |dnList| :: !Scripted(dnList[i])
    ensures MakeVBox(metrics, node, upList, dnList, shift) == MakeUtils.MakeVBox(table, node, upList, dnList, shift)
  {
    SameMeasures(metrics, table, node);
    VListSizeAgrees(metrics, table, upList);
    VListSizeAgrees(metrics, table, dnList);
  }

  /** Away from script-size characters the snapshot's `vlistSize` is the
      constructors' `vlistSize`, errors included. */
  lemma VListSizeAgrees(metrics: Provider, table: MeasureUtils.Table, vlist: seq<Node>)
    requires MeasureUtils.SameMetrics(metrics, table)
    requires forall i | 0 <= i < |vlist| :: !Scripted(vlist[i])
    ensures VListSize(metrics, vlist) == MakeUtils.VListSize(table, vlist)
  {
    forall i | 0 <= i < |vlist| ensures VSize(metrics, vlist[i]) == MakeUtils.VSize(table, vlist[i]) {
      VSizeAgrees(metrics, table, vlist[i]);
    }
    MapAllAgree(n => VSize(metrics, n), n => MakeUtils.VSize(table, n), vlist);
  }
}
