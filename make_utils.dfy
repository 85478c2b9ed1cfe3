/** Box constructors: horizontal and vertical boxes freeze their height and
    depth from their content when they are built; characters, kerns, rules
    and glue are plain records. */
module MakeUtils {
  import opened Types
  import opened MeasureUtils

  function MakeChar(font: string, style: Style, ch: string): Node {
    Char(font, ch, style)
  }

  function MainRegularChar(ch: string, style: Style := T): Node {
    MakeChar("Main_Regular", style, ch)
  }

  function MathRegularChar(ch: string, style: Style := T): Node {
    MakeChar("Math_Regular", style, ch)
  }

  /** Characters built by the helpers carry their font and default to text style. */
  lemma CharConstructors(ch: string, style: Style)
    ensures MainRegularChar(ch) == Char("Main_Regular", ch, T)
    ensures MainRegularChar(ch, style) == Char("Main_Regular", ch, style)
    ensures MathRegularChar(ch) == Char("Math_Regular", ch, T)
  {
  }

  function MakeKern(amount: real): Node {
    Kern(amount)
  }

  /** `hlist.map(height)`, then the maximum. */
  function HListHeight(table: Table, hlist: seq<Node>): (r: Result<real>)
    requires |hlist| > 0
    ensures r.Ok? <==> forall i | 0 <= i < |hlist| :: GlyphKnown(table, hlist[i])
    ensures r.Ok? ==>
      (forall i | 0 <= i < |hlist| :: Height(table, hlist[i]).value <= r.value) &&
      (exists i | 0 <= i < |hlist| :: Height(table, hlist[i]).value == r.value)
  {
    match MapAll(n => Height(table, n), hlist)
    case Err(e) => Err(e)
    case Ok(hs) => Ok(Max(hs))
  }

  /** `hlist.map(depth)`, then the maximum. */
  function HListDepth(table: Table, hlist: seq<Node>): (r: Result<real>)
    requires |hlist| > 0
    ensures r.Ok? <==> forall i | 0 <= i < |hlist| :: GlyphKnown(table, hlist[i])
    ensures r.Ok? ==>
      (forall i | 0 <= i < |hlist| :: Depth(table, hlist[i]).value <= r.value) &&
      (exists i | 0 <= i < |hlist| :: Depth(table, hlist[i]).value == r.value)
  {
    match MapAll(n => Depth(table, n), hlist)
    case Err(e) => Err(e)
    case Ok(ds) => Ok(Max(ds))
  }

  /** An HBox keeps its content and shift and freezes its height and depth
      as the largest shift-adjusted height and depth of its children. */
  function MakeHBox(table: Table, content: seq<Node>, shift: real := 0.0): (r: Result<Node>)
    requires |content| > 0
    ensures r.Ok? <==> forall i | 0 <= i < |content| :: GlyphKnown(table, content[i])
    ensures r.Ok? ==>
      var b := r.value;
      b.Box? && b.kind == HBox && b.content == content && b.shift == shift && b.width == None &&
      (forall i | 0 <= i < |content| :: Height(table, content[i]).value <= b.height) &&
      (exists i | 0 <= i < |content| :: Height(table, content[i]).value == b.height) &&
      (forall i | 0 <= i < |content| :: Depth(table, content[i]).value <= b.depth) &&
      (exists i | 0 <= i < |content| :: Depth(table, content[i]).value == b.depth)
  {
    match HListHeight(table, content)
    case Err(e) => Err(e)
    case Ok(h) =>
      match HListDepth(table, content)
      case Err(e) => Err(e)
      case Ok(d) => Ok(Box(HBox, h, d, content, shift, None))
  }

  /** The vertical room a node takes when stacked; for a box the shift
      cancels out. */
  function VSize(table: Table, n: Node): (r: Result<real>)
    ensures r.Ok? <==> GlyphKnown(table, n)
    ensures r.Ok? && (n.Char? || n.Box? || n.Rule?) ==> r.value == Height(table, n).value + Depth(table, n).value
    ensures n.Box? ==> r == Ok(n.height + n.depth)
  {
    match n
    case Char(_, _, _) | Box(_, _, _, _, _, _) | Rule(_, _, _) =>
      (match Height(table, n)
       case Err(e) => Err(e)
       case Ok(h) =>
         match Depth(table, n)
         case Err(e) => Err(e)
         case Ok(d) => Ok(h + d))
    case Glue(size, _, _) => Ok(size)
    case Kern(amount) => Ok(amount)
    case _ => Ok(0.0)
  }

  /** A rule takes its finite height plus depth (`'*'` counting 0), a glue
      its natural size, a kern its amount, penalties and specials nothing. */
  lemma VSizeOfLeaves(table: Table, n: Node)
    requires !n.Char? && !n.Box?
    ensures n.Rule? ==> VSize(table, n) == Ok(
      (if n.ruleHeight.Fin? then n.ruleHeight.value else 0.0) + (if n.ruleDepth.Fin? then n.ruleDepth.value else 0.0))
    ensures n.Glue? ==> VSize(table, n) == Ok(n.size)
    ensures n.Kern? ==> VSize(table, n) == Ok(n.amount)
    ensures n.Penalty? || n.Special? ==> VSize(table, n) == Ok(0.0)
  {
  }

  /** `sum(vlist.map(vsize))`. */
  function VListSize(table: Table, vlist: seq<Node>): (r: Result<real>)
    ensures r.Ok? <==> forall i | 0 <= i < |vlist| :: GlyphKnown(table, vlist[i])
  {
    match MapAll(n => VSize(table, n), vlist)
    case Err(e) => Err(e)
    case Ok(vs) => Ok(Sum(vs))
  }

  /** The size of a vertical list is additive over concatenation, and the
      empty list has size 0. */
  lemma VListSizeAppend(table: Table, a: seq<Node>, b: seq<Node>)
    ensures VListSize(table, []) == Ok(0.0)
    ensures VListSize(table, a + b).Ok? <==> VListSize(table, a).Ok? && VListSize(table, b).Ok?
    ensures VListSize(table, a + b).Ok? ==>
      VListSize(table, a + b).value == VListSize(table, a).value + VListSize(table, b).value
  {
    var f := n => VSize(table, n);
    MapAllAppend(f, a, b);
    if MapAll(f, a + b).Ok? {
      SumAppend(MapAll(f, a).value, MapAll(f, b).value);
    }
  }

  /** A VBox stacks the up-list above the reference node and the down-list
      below it; its height is the reference node's height plus the size of
      the up-list, its depth the reference node's depth plus the size of the
      down-list. */
  function MakeVBox(table: Table, node: Node, upList: seq<Node>, dnList: seq<Node>, shift: real := 0.0): (r: Result<Node>)
    ensures r.Ok? <==>
      GlyphKnown(table, node) &&
      (forall i | 0 <= i < |upList| :: GlyphKnown(table, upList[i])) &&
      (forall i | 0 <= i < |dnList| :: GlyphKnown(table, dnList[i]))
    ensures r.Ok? ==>
      var b := r.value;
      b.Box? && b.kind == VBox && b.content == upList + [node] + dnList && b.shift == shift && b.width == None &&
      b.height == Height(table, node).value + VListSize(table, upList).value &&
      b.depth == Depth(table, node).value + VListSize(table, dnList).value
  {
    match Height(table, node)
    case Err(e) => Err(e)
    case Ok(h) =>
      match VListSize(table, upList)
      case Err(e) => Err(e)
      case Ok(up) =>
        match Depth(table, node)
        case Err(e) => Err(e)
        case Ok(d) =>
          match VListSize(table, dnList)
          case Err(e) => Err(e)
          case Ok(dn) => Ok(Box(VBox, h + up, d + dn, upList + [node] + dnList, shift, None))
  }

  /** Boxes built by the constructors satisfy the measurement precondition
      whenever their children do. */
  lemma ConstructedBoxesAreMeasurable(table: Table, node: Node, upList: seq<Node>, dnList: seq<Node>, content: seq<Node>, shift: real)
    requires NoEmptyVBox(node)
    requires forall i | 0 <= i < |upList| :: NoEmptyVBox(upList[i])
    requires forall i | 0 <= i < |dnList| :: NoEmptyVBox(dnList[i])
    requires forall i | 0 <= i < |content| :: NoEmptyVBox(content[i])
    ensures MakeVBox(table, node, upList, dnList, shift).Ok? ==> NoEmptyVBox(MakeVBox(table, node, upList, dnList, shift).value)
    ensures |content| > 0 && MakeHBox(table, content, shift).Ok? ==> NoEmptyVBox(MakeHBox(table, content, shift).value)
  {
    var c := upList + [node] + dnList;
    assert forall i | 0 <= i < |c| :: c[i] == if i < |upList| then upList[i] else if i == |upList| then node else dnList[i - |upList| - 1];
  }

  /** The fraction layout: a rule of height `h` and depth `d` as reference
      node, numerator box and kern above, kern and denominator box below. */
  lemma FractionExtent(table: Table, h: real, d: real, num: Node, k1: real, k2: real, den: Node)
    requires num.Box? && den.Box?
    ensures MakeVBox(table, Rule(Fin(h), Fin(d), Inf), [num, Kern(k1)], [Kern(k2), den]).Ok?
    ensures
      var b := MakeVBox(table, Rule(Fin(h), Fin(d), Inf), [num, Kern(k1)], [Kern(k2), den]).value;
      b.height == h + num.height + num.depth + k1 &&
      b.depth == d + k2 + den.height + den.depth
  {
    VListSizePair(table, num, Kern(k1));
    VListSizePair(table, Kern(k2), den);
    assert VListSize(table, [num, Kern(k1)]) == Ok(num.height + num.depth + k1);
    assert VListSize(table, [Kern(k2), den]) == Ok(k2 + (den.height + den.depth));
  }

  /** The size of a two-node list is the sum of the two nodes' sizes. */
  lemma VListSizePair(table: Table, a: Node, b: Node)
    requires VSize(table, a).Ok? && VSize(table, b).Ok?
    ensures VListSize(table, [a, b]) == Ok(VSize(table, a).value + VSize(table, b).value)
  {
    var va, vb := VSize(table, a).value, VSize(table, b).value;
    VListSizeSingleton(table, a);
    VListSizeSingleton(table, b);
    VListSizeAppend(table, [a], [b]);
    assert [a] + [b] == [a, b];
    assert VListSize(table, [a]) == Ok(va) && VListSize(table, [b]) == Ok(vb);
  }

  lemma VListSizeSingleton(table: Table, n: Node)
    ensures VListSize(table, [n]) == VSize(table, n)
  {
    var f := n => VSize(table, n);
    assert [n][..0] == [];
    assert MapAll(f, [n][..0]) == Ok([]);
    match VSize(table, n)
    case Err(e) =>
    case Ok(v) =>
      assert MapAll(f, [n]) == Ok([] + [v]);
      assert Sum([v]) == Sum([v][..0]) + v;
  }

  function MakeRule(height: RuleDim, depth: RuleDim, width: RuleDim): Node {
    Rule(height, depth, width)
  }

  const Zero: GlueMeasurement := [0.0, 0.0, 0.0, 0.0]

  function MakeGlue(size: real, stretch: GlueMeasurement := Zero, shrink: GlueMeasurement := Zero): Node {
    Glue(size, stretch, shrink)
  }

  function HFil(value: real := 1.0): (g: GlueMeasurement) {
    [0.0, value, 0.0, 0.0]
  }

  function HFill(value: real := 1.0): (g: GlueMeasurement) {
    [0.0, 0.0, value, 0.0]
  }

  function HFilll(value: real := 1.0): (g: GlueMeasurement) {
    [0.0, 0.0, 0.0, value]
  }

  /** Glue defaults to no stretch and no shrink; `hfil`, `hfill` and
      `hfilll` put their value (default 1) at the fil, fill and filll order
      and zero everywhere else. */
  lemma GlueConstructors(size: real, v: real)
    ensures MakeGlue(size) == Glue(size, [0.0, 0.0, 0.0, 0.0], [0.0, 0.0, 0.0, 0.0])
    ensures HFil() == HFil(1.0) && HFill() == HFill(1.0) && HFilll() == HFilll(1.0)
    ensures forall i | 0 <= i < 4 :: HFil(v)[i] == (if i == 1 then v else 0.0)
    ensures forall i | 0 <= i < 4 :: HFill(v)[i] == (if i == 2 then v else 0.0)
    ensures forall i | 0 <= i < 4 :: HFilll(v)[i] == (if i == 3 then v else 0.0)
  {
  }
}
