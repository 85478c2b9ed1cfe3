/** The earlier measurement engine: the same recursive measures, with
    character metrics taken from a provider and no style multiplier. */
module LayoutUtils {
  import opened Types
  import MeasureUtils

  /** Every character of the tree has metrics in the provider. */
  predicate HasMetrics(metrics: Provider, n: Node) {
    match n
    case Char(_, ch, _) => metrics(ch).Some?
    case Box(_, _, _, content, _, _) => forall i | 0 <= i < |content| :: HasMetrics(metrics, content[i])
    case _ => true
  }

  function CharWidth(metrics: Provider, n: Node): (r: Result<real>)
    requires n.Char?
    ensures r.Ok? <==> metrics(n.ch).Some?
  {
    match metrics(n.ch)
    case None => Err(MetricsNotFound(n.ch))
    case Some(m) => Ok(m.width)
  }

  function CharHeight(metrics: Provider, n: Node): (r: Result<real>)
    requires n.Char?
    ensures r.Ok? <==> metrics(n.ch).Some?
  {
    match metrics(n.ch)
    case None => Err(MetricsNotFound(n.ch))
    case Some(m) => Ok(m.height)
  }

  function CharDepth(metrics: Provider, n: Node): (r: Result<real>)
    requires n.Char?
    ensures r.Ok? <==> metrics(n.ch).Some?
  {
    match metrics(n.ch)
    case None => Err(MetricsNotFound(n.ch))
    case Some(m) => Ok(m.depth)
  }

  function BoxWidth(metrics: Provider, n: Node): (r: Result<real>)
    requires n.Box? && NoEmptyVBox(n)
    ensures r.Ok? <==> HasMetrics(metrics, n)
    decreases n, 1
  {
    if n.kind == VBox then
      match MapVWidth(metrics, n.content)
      case Err(e) => Err(e)
      case Ok(ws) => Ok(Max(ws))
    else
      match MapWidth(metrics, n.content)
      case Err(e) => Err(e)
      case Ok(ws) => Ok(MeasureUtils.Sum(ws))
  }

  function Width(metrics: Provider, n: Node): (r: Result<real>)
    requires NoEmptyVBox(n)
    ensures r.Ok? <==> HasMetrics(metrics, n)
    decreases n, 2
  {
    match n
    case Char(_, _, _) => CharWidth(metrics, n)
    case Box(_, _, _, _, _, _) => BoxWidth(metrics, n)
    case Kern(amount) => Ok(amount)
    case Glue(size, _, _) => Ok(size)
    case Rule(_, _, w) => Ok(if w.Fin? then w.value else 0.0)
    case _ => Ok(0.0)
  }

  function VWidth(metrics: Provider, n: Node): (r: Result<real>)
    requires NoEmptyVBox(n)
    ensures r.Ok? <==> HasMetrics(metrics, n)
    decreases n, 2
  {
    match n
    case Char(_, _, _) => CharWidth(metrics, n)
    case Box(_, _, _, _, _, _) => BoxWidth(metrics, n)
    case Rule(_, _, w) => Ok(if w.Fin? then w.value else 0.0)
    case _ => Ok(0.0)
  }

  function MapWidth(metrics: Provider, cs: seq<Node>): (r: Result<seq<real>>)
    requires forall i | 0 <= i < |cs| :: NoEmptyVBox(cs[i])
    ensures r.Ok? <==> forall i | 0 <= i < |cs| :: HasMetrics(metrics, cs[i])
    ensures r.Ok? ==> |r.value| == |cs| && forall i | 0 <= i < |cs| :: Width(metrics, cs[i]) == Ok(r.value[i])
    decreases cs, 0
  {
    if |cs| == 0 then Ok([])
    else
      match MapWidth(metrics, cs[..|cs| - 1])
      case Err(e) => Err(e)
      case Ok(ws) =>
        match Width(metrics, cs[|cs| - 1])
        case Err(e) => Err(e)
        case Ok(w) => Ok(ws + [w])
  }

  function MapVWidth(metrics: Provider, cs: seq<Node>): (r: Result<seq<real>>)
    requires forall i | 0 <= i < |cs| :: NoEmptyVBox(cs[i])
    ensures r.Ok? <==> forall i | 0 <= i < |cs| :: HasMetrics(metrics, cs[i])
    ensures r.Ok? ==> |r.value| == |cs| && forall i | 0 <= i < |cs| :: VWidth(metrics, cs[i]) == Ok(r.value[i])
    decreases cs, 0
  {
    if |cs| == 0 then Ok([])
    else
      match MapVWidth(metrics, cs[..|cs| - 1])
      case Err(e) => Err(e)
      case Ok(ws) =>
        match VWidth(metrics, cs[|cs| - 1])
        case Err(e) => Err(e)
        case Ok(w) => Ok(ws + [w])
  }

  function Height(metrics: Provider, n: Node): (r: Result<real>)
    ensures r.Ok? <==> (n.Char? ==> metrics(n.ch).Some?)
  {
    match n
    case Box(_, height, _, _, shift, _) => Ok(height + shift)
    case Rule(h, _, _) => Ok(if h.Fin? then h.value else 0.0)
    case Char(_, _, _) => CharHeight(metrics, n)
    case _ => Ok(0.0)
  }

  function Depth(metrics: Provider, n: Node): (r: Result<real>)
    ensures r.Ok? <==> (n.Char? ==> metrics(n.ch).Some?)
  {
    match n
    case Box(_, _, depth, _, shift, _) => Ok(depth - shift)
    case Rule(_, d, _) => Ok(if d.Fin? then d.value else 0.0)
    case Char(_, _, _) => CharDepth(metrics, n)
    case _ => Ok(0.0)
  }

  /** On the same metrics, the newer engine measures a character as this one
      does, times the multiplier of its style. */
  lemma CharMeasuresScaled(metrics: Provider, table: MeasureUtils.Table, n: Node)
    requires n.Char? && MeasureUtils.SameMetrics(metrics, table)
    ensures CharWidth(metrics, n).Ok? <==> MeasureUtils.CharWidth(table, n).Ok?
    ensures CharWidth(metrics, n).Err? ==> MeasureUtils.CharWidth(table, n) == CharWidth(metrics, n)
    ensures CharWidth(metrics, n).Ok? ==>
      MeasureUtils.CharWidth(table, n).value == MeasureUtils.Multiplier(n.style) * CharWidth(metrics, n).value &&
      MeasureUtils.CharHeight(table, n).value == MeasureUtils.Multiplier(n.style) * CharHeight(metrics, n).value &&
      MeasureUtils.CharDepth(table, n).value == MeasureUtils.Multiplier(n.style) * CharDepth(metrics, n).value
  {
    assert metrics(n.ch) == MeasureUtils.GetMetrics(table, n.ch);
  }

  /** On the same metrics and without script-size characters, the earlier
      engine and the newer one measure every node alike. */
  lemma {:induction false} AgreesWithMeasureUtils(metrics: Provider, table: MeasureUtils.Table, n: Node)
    requires MeasureUtils.SameMetrics(metrics, table) && NoEmptyVBox(n) && Unscripted(n)
    ensures Width(metrics, n) == MeasureUtils.Width(table, n)
    ensures VWidth(metrics, n) == MeasureUtils.VWidth(table, n)
    ensures Height(metrics, n) == MeasureUtils.Height(table, n)
    ensures Depth(metrics, n) == MeasureUtils.Depth(table, n)
    decreases n, 1
  {
    match n
    case Char(_, ch, _) =>
      assert metrics(ch) == MeasureUtils.GetMetrics(table, ch);
    case Box(_, _, _, content, _, _) =>
      ListsAgree(metrics, table, content);
    case _ =>
  }

  lemma {:induction false} ListsAgree(metrics: Provider, table: MeasureUtils.Table, cs: seq<Node>)
    requires MeasureUtils.SameMetrics(metrics, table)
    requires forall i | 0 <= i < |cs| :: NoEmptyVBox(cs[i]) && Unscripted(cs[i])
    ensures MapWidth(metrics, cs) == MeasureUtils.MapWidth(table, cs)
    ensures MapVWidth(metrics, cs) == MeasureUtils.MapVWidth(table, cs)
    decreases cs, 0
  {
    if |cs| > 0 {
      ListsAgree(metrics, table, cs[..|cs| - 1]);
      AgreesWithMeasureUtils(metrics, table, cs[|cs| - 1]);
    }
  }
  /** The tree with every character set in text style; nothing else changes. */
  function Erase(n: Node): (r: Node)
    ensures Unscripted(r)
    ensures NoEmptyVBox(n) ==> NoEmptyVBox(r)
    decreases n, 1
  {
    match n
    case Char(font, ch, _) => Char(font, ch, T)
    case Box(kind, height, depth, content, shift, width) => Box(kind, height, depth, EraseAll(content), shift, width)
    case _ => n
  }

  function EraseAll(cs: seq<Node>): (r: seq<Node>)
    ensures |r| == |cs| && forall i | 0 <= i < |cs| :: r[i] == Erase(cs[i])
    decreases cs, 0
  {
    if |cs| == 0 then [] else EraseAll(cs[..|cs| - 1]) + [Erase(cs[|cs| - 1])]
  }

  /** The earlier engine never reads a character's style. */
  lemma {:induction false} StyleBlind(metrics: Provider, n: Node)
    requires NoEmptyVBox(n)
    ensures Width(metrics, Erase(n)) == Width(metrics, n)
    ensures VWidth(metrics, Erase(n)) == VWidth(metrics, n)
    decreases n, 1
  {
    match n
    case Char(font, ch, _) =>
      assert Erase(n) == Char(font, ch, T);
    case Box(_, _, _, content, _, _) =>
      StyleBlindAll(metrics, content);
      StyleBlindBox(metrics, n);
    case _ =>
      assert Erase(n) == n;
  }

  /** Nor does it read a style for a node's height or depth. */
  lemma StyleBlindExtent(metrics: Provider, n: Node)
    ensures Height(metrics, Erase(n)) == Height(metrics, n)
    ensures Depth(metrics, Erase(n)) == Depth(metrics, n)
  {
    match n
    case Char(font, ch, _) =>
      assert Erase(n) == Char(font, ch, T);
    case Box(kind, height, depth, content, shift, width) =>
      assert Erase(n) == Box(kind, height, depth, EraseAll(content), shift, width);
    case _ =>
      assert Erase(n) == n;
  }

  lemma StyleBlindBox(metrics: Provider, n: Node)
    requires n.Box? && NoEmptyVBox(n)
    requires MapWidth(metrics, EraseAll(n.content)) == MapWidth(metrics, n.content)
    requires MapVWidth(metrics, EraseAll(n.content)) == MapVWidth(metrics, n.content)
    ensures BoxWidth(metrics, Erase(n)) == BoxWidth(metrics, n)
  {
    assert Erase(n).content == EraseAll(n.content);
  }

  lemma {:induction false} StyleBlindAll(metrics: Provider, cs: seq<Node>)
    requires forall i | 0 <= i < |cs| :: NoEmptyVBox(cs[i])
    ensures MapWidth(metrics, EraseAll(cs)) == MapWidth(metrics, cs)
    ensures MapVWidth(metrics, EraseAll(cs)) == MapVWidth(metrics, cs)
    decreases cs, 0
  {
    if |cs| > 0 {
      var last := |cs| - 1;
      assert EraseAll(cs)[..last] == EraseAll(cs[..last]);
      StyleBlindAll(metrics, cs[..last]);
      StyleBlind(metrics, cs[last]);
    }
  }

  /** For every tree, script-size characters included: on the same metrics
      the earlier engine measures a tree as the newer one measures that tree
      set in text style. */
  lemma AgreesOnErased(metrics: Provider, table: MeasureUtils.Table, n: Node)
    requires MeasureUtils.SameMetrics(metrics, table) && NoEmptyVBox(n)
    ensures Width(metrics, n) == MeasureUtils.Width(table, Erase(n))
    ensures VWidth(metrics, n) == MeasureUtils.VWidth(table, Erase(n))
    ensures Height(metrics, n) == MeasureUtils.Height(table, Erase(n))
    ensures Depth(metrics, n) == MeasureUtils.Depth(table, Erase(n))
  {
    StyleBlind(metrics, n);
    StyleBlindExtent(metrics, n);
    AgreesWithMeasureUtils(metrics, table, Erase(n));
  }
}
