/** The measurement engine: width, vertical width, height and depth of any
    node, with character leaves measured through the Main-Regular metrics
    table and scaled by their style. */
module MeasureUtils {
  import opened Types

  /** One entry of the metrics table, in the table's own order
      `[depth, height, italic, skew, width]`. */
  datatype Entry = Entry(depth: real, height: real, italic: real, skew: real, width: real)

  /** The Main-Regular metrics table, indexed by character code. */
  type Table = map<char, Entry>

  /** The metrics of the first character of `s`: a missing entry (or an empty
      string, whose first code is NaN) fails when the entry is destructured. */
  function GetMetrics(table: Table, s: string): (r: Option<Metric>)
    ensures r.Some? <==> |s| > 0 && s[0] in table
  {
    if |s| > 0 && s[0] in table then
      var e := table[s[0]];
      Some(Metric(e.height, e.depth, e.width))
    else
      None
  }

  /** A found entry gives its height, depth and width, in that order. */
  lemma GetMetricsOfEntry(table: Table, s: string)
    requires |s| > 0 && s[0] in table
    ensures GetMetrics(table, s) == Some(Metric(table[s[0]].height, table[s[0]].depth, table[s[0]].width))
  {
  }

  /** A metrics provider that answers exactly as the Main-Regular table does. */
  ghost predicate SameMetrics(metrics: Provider, table: Table) {
    forall s :: metrics(s) == GetMetrics(table, s)
  }

  /** Only the first character of the string is looked up. */
  lemma GetMetricsFirstCode(table: Table, s: string, s': string)
    requires |s| > 0 && |s'| > 0 && s[0] == s'[0]
    ensures GetMetrics(table, s) == GetMetrics(table, s')
  {
  }

  /** `values.reduce((res, val) => res + val, 0)`: a left fold. */
  function Sum(xs: seq<real>): (r: real)
    ensures |xs| == 0 ==> r == 0.0
    ensures |xs| == 1 ==> r == xs[0]
  {
    if |xs| == 0 then 0.0 else Sum(xs[..|xs| - 1]) + xs[|xs| - 1]
  }

  lemma {:induction false} SumAppend(a: seq<real>, b: seq<real>)
    ensures Sum(a + b) == Sum(a) + Sum(b)
  {
    if |b| > 0 {
      assert (a + b)[..|a + b| - 1] == a + b[..|b| - 1];
      SumAppend(a, b[..|b| - 1]);
    } else {
      assert a + b == a;
    }
  }

  /** The script-size multiplier of a character's style. */
  function Multiplier(style: Style): (r: real)
    ensures r == 1.0 <==> style != S && style != SS
  {
    if style == S then 0.7 else if style == SS then 0.5 else 1.0
  }

  /** A character leaf has metrics; every other node trivially does. */
  predicate GlyphKnown(table: Table, n: Node) {
    n.Char? ==> GetMetrics(table, n.ch).Some?
  }

  /** Every character of the tree has metrics. */
  predicate HasMetrics(table: Table, n: Node) {
    match n
    case Char(_, ch, _) => GetMetrics(table, ch).Some?
    case Box(_, _, _, content, _, _) => forall i | 0 <= i < |content| :: HasMetrics(table, content[i])
    case _ => true
  }

  function CharWidth(table: Table, n: Node): (r: Result<real>)
    requires n.Char?
    ensures r.Ok? <==> GetMetrics(table, n.ch).Some?
  {
    match GetMetrics(table, n.ch)
    case None => Err(MetricsNotFound(n.ch))
    case Some(m) => Ok(Multiplier(n.style) * m.width)
  }

  function CharHeight(table: Table, n: Node): (r: Result<real>)
    requires n.Char?
    ensures r.Ok? <==> GetMetrics(table, n.ch).Some?
  {
    match GetMetrics(table, n.ch)
    case None => Err(MetricsNotFound(n.ch))
    case Some(m) => Ok(Multiplier(n.style) * m.height)
  }

  function CharDepth(table: Table, n: Node): (r: Result<real>)
    requires n.Char?
    ensures r.Ok? <==> GetMetrics(table, n.ch).Some?
  {
    match GetMetrics(table, n.ch)
    case None => Err(MetricsNotFound(n.ch))
    case Some(m) => Ok(Multiplier(n.style) * m.depth)
  }

  /** A character's width, height and depth are its metrics times 0.7 in
      script style, 0.5 in script-script style and 1.0 otherwise; they fail
      together when the character has no metrics. */
  lemma CharMeasures(table: Table, n: Node)
    requires n.Char?
    ensures GetMetrics(table, n.ch).None? ==>
      CharWidth(table, n) == CharHeight(table, n) == CharDepth(table, n) == Err(MetricsNotFound(n.ch))
    ensures GetMetrics(table, n.ch).Some? ==>
      var m := GetMetrics(table, n.ch).value;
      var k := if n.style == S then 0.7 else if n.style == SS then 0.5 else 1.0;
      CharWidth(table, n) == Ok(k * m.width) &&
      CharHeight(table, n) == Ok(k * m.height) &&
      CharDepth(table, n) == Ok(k * m.depth)
  {
  }

  /** Width of a box: the sum of its children's widths for an HBox, the
      largest of their vertical widths for a VBox. */
  function BoxWidth(table: Table, n: Node): (r: Result<real>)
    requires n.Box? && NoEmptyVBox(n)
    ensures r.Ok? <==> HasMetrics(table, n)
    decreases n, 1
  {
    if n.kind == VBox then
      match MapVWidth(table, n.content)
      case Err(e) => Err(e)
      case Ok(ws) => Ok(Max(ws))
    else
      match MapWidth(table, n.content)
      case Err(e) => Err(e)
      case Ok(ws) => Ok(Sum(ws))
  }

  function Width(table: Table, n: Node): (r: Result<real>)
    requires NoEmptyVBox(n)
    ensures r.Ok? <==> HasMetrics(table, n)
    decreases n, 2
  {
    match n
    case Char(_, _, _) => CharWidth(table, n)
    case Box(_, _, _, _, _, _) => BoxWidth(table, n)
    case Kern(amount) => Ok(amount)
    case Glue(size, _, _) => Ok(size)
    case Rule(_, _, w) => Ok(if w.Fin? then w.value else 0.0)
    case _ => Ok(0.0)
  }

  function VWidth(table: Table, n: Node): (r: Result<real>)
    requires NoEmptyVBox(n)
    ensures r.Ok? <==> HasMetrics(table, n)
    decreases n, 2
  {
    match n
    case Char(_, _, _) => CharWidth(table, n)
    case Box(_, _, _, _, _, _) => BoxWidth(table, n)
    case Rule(_, _, w) => Ok(if w.Fin? then w.value else 0.0)
    case _ => Ok(0.0)
  }

  /** `content.map(width)`. */
  function MapWidth(table: Table, cs: seq<Node>): (r: Result<seq<real>>)
    requires forall i | 0 <= i < |cs| :: NoEmptyVBox(cs[i])
    ensures r.Ok? <==> forall i | 0 <= i < |cs| :: HasMetrics(table, cs[i])
    ensures r.Ok? ==> |r.value| == |cs| && forall i | 0 <= i < |cs| :: Width(table, cs[i]) == Ok(r.value[i])
    decreases cs, 0
  {
    if |cs| == 0 then Ok([])
    else
      match MapWidth(table, cs[..|cs| - 1])
      case Err(e) => Err(e)
      case Ok(ws) =>
        match Width(table, cs[|cs| - 1])
        case Err(e) => Err(e)
        case Ok(w) => Ok(ws + [w])
  }

  /** `content.map(vwidth)`. */
  function MapVWidth(table: Table, cs: seq<Node>): (r: Result<seq<real>>)
    requires forall i | 0 <= i < |cs| :: NoEmptyVBox(cs[i])
    ensures r.Ok? <==> forall i | 0 <= i < |cs| :: HasMetrics(table, cs[i])
    ensures r.Ok? ==> |r.value| == |cs| && forall i | 0 <= i < |cs| :: VWidth(table, cs[i]) == Ok(r.value[i])
    decreases cs, 0
  {
    if |cs| == 0 then Ok([])
    else
      match MapVWidth(table, cs[..|cs| - 1])
      case Err(e) => Err(e)
      case Ok(ws) =>
        match VWidth(table, cs[|cs| - 1])
        case Err(e) => Err(e)
        case Ok(w) => Ok(ws + [w])
  }

  function Height(table: Table, n: Node): (r: Result<real>)
    ensures r.Ok? <==> GlyphKnown(table, n)
  {
    match n
    case Box(_, height, _, _, shift, _) => Ok(height + shift)
    case Rule(h, _, _) => Ok(if h.Fin? then h.value else 0.0)
    case Char(_, _, _) => CharHeight(table, n)
    case _ => Ok(0.0)
  }

  function Depth(table: Table, n: Node): (r: Result<real>)
    ensures r.Ok? <==> GlyphKnown(table, n)
  {
    match n
    case Box(_, _, depth, _, shift, _) => Ok(depth - shift)
    case Rule(_, d, _) => Ok(if d.Fin? then d.value else 0.0)
    case Char(_, _, _) => CharDepth(table, n)
    case _ => Ok(0.0)
  }

  /** The width of a kern is its amount, of a glue its natural size, of a
      rule its width (0 for `'*'`), and 0 for penalties and specials. */
  lemma WidthOfLeaves(table: Table, n: Node)
    requires !n.Char? && !n.Box?
    ensures n.Kern? ==> Width(table, n) == Ok(n.amount)
    ensures n.Glue? ==> Width(table, n) == Ok(n.size)
    ensures n.Rule? ==> Width(table, n) == Ok(if n.ruleWidth.Inf? then 0.0 else n.ruleWidth.value)
    ensures n.Penalty? || n.Special? ==> Width(table, n) == Ok(0.0)
  {
  }

  /** `vwidth` agrees with `width` except on kerns and glue, which take no
      horizontal room in a vertical list. */
  lemma VWidthAgreesWithWidth(table: Table, n: Node)
    requires NoEmptyVBox(n)
    ensures !n.Kern? && !n.Glue? ==> VWidth(table, n) == Width(table, n)
    ensures n.Kern? || n.Glue? ==> VWidth(table, n) == Ok(0.0)
  {
  }

  /** `map(width)` over a concatenation is the concatenation of the maps. */
  lemma {:induction false} MapWidthAppend(table: Table, a: seq<Node>, b: seq<Node>)
    requires forall i | 0 <= i < |a + b| :: NoEmptyVBox((a + b)[i])
    ensures forall i | 0 <= i < |a| :: NoEmptyVBox(a[i])
    ensures forall i | 0 <= i < |b| :: NoEmptyVBox(b[i])
    ensures MapWidth(table, a + b).Ok? ==> MapWidth(table, a).Ok? && MapWidth(table, b).Ok?
    ensures MapWidth(table, a + b).Ok? ==>
      MapWidth(table, a + b).value == MapWidth(table, a).value + MapWidth(table, b).value
    decreases |b|
  {
    var ab := a + b;
    SplitParts(a, b);
    if |b| == 0 {
      assert ab == a;
    } else if MapWidth(table, ab).Ok? {
      var b', last := b[..|b| - 1], b[|b| - 1];
      assert ab[..|ab| - 1] == a + b';
      MapWidthAppend(table, a, b');
      var va, vb', w := MapWidth(table, a).value, MapWidth(table, b').value, Width(table, last).value;
      assert (va + vb') + [w] == va + (vb' + [w]);
    }
  }

  /** Every node of the parts of a content without empty VBoxes has no
      empty VBox either. */
  lemma SplitParts(a: seq<Node>, b: seq<Node>)
    requires forall i | 0 <= i < |a + b| :: NoEmptyVBox((a + b)[i])
    ensures forall i | 0 <= i < |a| :: NoEmptyVBox(a[i])
    ensures forall i | 0 <= i < |b| :: NoEmptyVBox(b[i])
  {
    assert forall i | 0 <= i < |a| :: (a + b)[i] == a[i];
    assert forall i | 0 <= i < |b| :: (a + b)[|a| + i] == b[i];
  }

  /** The width of an HBox is additive over its content: splitting the
      content splits the width. */
  lemma HBoxWidthAdditive(table: Table, h: real, d: real, c1: seq<Node>, c2: seq<Node>, shift: real, w: Option<real>)
    requires NoEmptyVBox(Box(HBox, h, d, c1 + c2, shift, w))
    ensures NoEmptyVBox(Box(HBox, h, d, c1, shift, w)) && NoEmptyVBox(Box(HBox, h, d, c2, shift, w))
    ensures Width(table, Box(HBox, h, d, c1 + c2, shift, w)).Ok? <==>
      Width(table, Box(HBox, h, d, c1, shift, w)).Ok? && Width(table, Box(HBox, h, d, c2, shift, w)).Ok?
    ensures Width(table, Box(HBox, h, d, c1 + c2, shift, w)).Ok? ==>
      Width(table, Box(HBox, h, d, c1 + c2, shift, w)).value ==
      Width(table, Box(HBox, h, d, c1, shift, w)).value + Width(table, Box(HBox, h, d, c2, shift, w)).value
  {
    var c := c1 + c2;
    assert forall i | 0 <= i < |c1| :: c[i] == c1[i];
    assert forall i | 0 <= i < |c2| :: c[|c1| + i] == c2[i];
    MapWidthAppend(table, c1, c2);
    if MapWidth(table, c).Ok? {
      SumAppend(MapWidth(table, c1).value, MapWidth(table, c2).value);
    }
  }

  /** An empty HBox has width 0 and a one-child HBox is as wide as its child. */
  lemma HBoxWidthSmall(table: Table, b: Node)
    requires b.Box? && b.kind == HBox && NoEmptyVBox(b)
    ensures |b.content| == 0 ==> Width(table, b) == Ok(0.0)
    ensures |b.content| == 1 ==> Width(table, b) == Width(table, b.content[0])
  {
    if |b.content| == 1 {
      var c := b.content;
      assert c[..|c| - 1] == [];
      assert MapWidth(table, c[..|c| - 1]) == Ok([]);
      match Width(table, c[0])
      case Err(e) =>
        assert MapWidth(table, c) == Err(e);
      case Ok(x) =>
        assert MapWidth(table, c) == Ok([] + [x]);
        assert Sum([x]) == Sum([x][..0]) + x;
    }
  }

  /** The width of a VBox is the largest vertical width among its children. */
  lemma VBoxWidthIsMax(table: Table, b: Node)
    requires b.Box? && b.kind == VBox && NoEmptyVBox(b) && HasMetrics(table, b)
    ensures forall i | 0 <= i < |b.content| :: VWidth(table, b.content[i]).value <= Width(table, b).value
    ensures exists i | 0 <= i < |b.content| :: VWidth(table, b.content[i]).value == Width(table, b).value
  {
    var ws := MapVWidth(table, b.content).value;
    assert forall i | 0 <= i < |b.content| :: VWidth(table, b.content[i]).value == ws[i];
  }

  /** A box's height grows and its depth shrinks by its shift, so height
      plus depth does not depend on the shift. */
  lemma BoxExtentShift(table: Table, b: Node, shift: real)
    requires b.Box?
    ensures Height(table, b) == Ok(b.height + b.shift) && Depth(table, b) == Ok(b.depth - b.shift)
    ensures Height(table, b).value + Depth(table, b).value ==
            Height(table, b.(shift := shift)).value + Depth(table, b.(shift := shift)).value
  {
  }

  /** A `'*'` rule dimension measures 0; kerns, glue, penalties and specials
      have no height or depth. */
  lemma HeightDepthOfLeaves(table: Table, n: Node)
    requires !n.Char? && !n.Box?
    ensures n.Rule? && n.ruleHeight.Inf? ==> Height(table, n) == Ok(0.0)
    ensures n.Rule? && n.ruleDepth.Inf? ==> Depth(table, n) == Ok(0.0)
    ensures n.Rule? && n.ruleHeight.Fin? ==> Height(table, n) == Ok(n.ruleHeight.value)
    ensures n.Rule? && n.ruleDepth.Fin? ==> Depth(table, n) == Ok(n.ruleDepth.value)
    ensures !n.Rule? ==> Height(table, n) == Depth(table, n) == Ok(0.0)
  {
  }
}
