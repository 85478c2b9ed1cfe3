/** The node model of the box/glue typesetting kernel: the closed set of node
    variants, the dimensions they carry, and the failure that measuring a
    character without glyph metrics produces. */
module Types {

  datatype Option<+T> = None | Some(value: T)

  /** The one failure of the kernel: a character whose glyph metrics are missing. */
  datatype Error = MetricsNotFound(ch: string)

  datatype Result<+T> = Ok(value: T) | Err(error: Error)

  /** The size class of a character: display, text, script, script-script.
      `Unset` is a character record built without a `style` field. */
  datatype Style = D | T | S | SS | Unset

  datatype Kind = HBox | VBox

  /** A rule dimension: either a number or `'*'` (fill the available space). */
  datatype RuleDim = Inf | Fin(value: real)

  /** A stretch or shrink capacity `[finite, fil, fill, filll]`. */
  type GlueMeasurement = s: seq<real> | |s| == 4 witness [0.0, 0.0, 0.0, 0.0]

  /** Glyph metrics of one character, in units of the font size. */
  datatype Metric = Metric(height: real, depth: real, width: real)

  /** A glyph-metrics provider: the metrics of a character, if it has any. */
  type Provider = string -> Option<Metric>

  datatype Node =
    | Char(font: string, ch: string, style: Style)
    | Box(kind: Kind, height: real, depth: real, content: seq<Node>, shift: real, width: Option<real>)
    | Rule(ruleHeight: RuleDim, ruleDepth: RuleDim, ruleWidth: RuleDim)
    | Kern(amount: real)
    | Glue(size: real, stretch: GlueMeasurement, shrink: GlueMeasurement)
    | Penalty(potential: real, adequacy: real)
    | Special(width: Option<real>, height: real, depth: real)

  /** Every vertical box in the tree has at least one child, so that the
      maximum over its children's widths exists. */
  predicate NoEmptyVBox(n: Node) {
    match n
    case Box(kind, _, _, content, _, _) =>
      (kind == VBox ==> |content| > 0) &&
      forall i | 0 <= i < |content| :: NoEmptyVBox(content[i])
    case _ => true
  }

  /** A character whose style is one of the script sizes. */
  predicate Scripted(n: Node) {
    n.Char? && (n.style == S || n.style == SS)
  }

  /** No character in the tree is set in a script size. */
  predicate Unscripted(n: Node) {
    match n
    case Char(_, _, style) => style != S && style != SS
    case Box(_, _, _, content, _, _) => forall i | 0 <= i < |content| :: Unscripted(content[i])
    case _ => true
  }

  /** `xs.map(f)` where `f` may fail: the leftmost failure aborts the whole map. */
  function MapAll<A>(f: A -> Result<real>, xs: seq<A>): (r: Result<seq<real>>)
    ensures r.Ok? <==> forall i | 0 <= i < |xs| :: f(xs[i]).Ok?
    ensures r.Ok? ==> |r.value| == |xs| && forall i | 0 <= i < |xs| :: f(xs[i]) == Ok(r.value[i])
  {
    if |xs| == 0 then Ok([])
    else
      match MapAll(f, xs[..|xs| - 1])
      case Err(e) => Err(e)
      case Ok(ys) =>
        match f(xs[|xs| - 1])
        case Err(e) => Err(e)
        case Ok(y) => Ok(ys + [y])
  }

  /** Mapping two functions that agree on every element gives the same result. */
  lemma {:induction false} MapAllAgree<A>(f: A -> Result<real>, g: A -> Result<real>, xs: seq<A>)
    requires forall i | 0 <= i < |xs| :: f(xs[i]) == g(xs[i])
    ensures MapAll(f, xs) == MapAll(g, xs)
  {
    if |xs| > 0 {
      MapAllAgree(f, g, xs[..|xs| - 1]);
    }
  }

  /** Mapping over a concatenation maps each part; it fails when either part does. */
  lemma MapAllAppend<A>(f: A -> Result<real>, a: seq<A>, b: seq<A>)
    ensures MapAll(f, a + b).Ok? <==> MapAll(f, a).Ok? && MapAll(f, b).Ok?
    ensures MapAll(f, a + b).Ok? ==> MapAll(f, a + b).value == MapAll(f, a).value + MapAll(f, b).value
  {
    var ab := a + b;
    assert forall i | 0 <= i < |a| :: ab[i] == a[i];
    assert forall i | 0 <= i < |b| :: ab[|a| + i] == b[i];
    if MapAll(f, ab).Ok? {
      var v, va, vb := MapAll(f, ab).value, MapAll(f, a).value, MapAll(f, b).value;
      assert forall i | 0 <= i < |ab| :: v[i] == (va + vb)[i] by {
        forall i | 0 <= i < |ab| ensures v[i] == (va + vb)[i] {
          if i < |a| {
            assert f(ab[i]) == Ok(va[i]);
          } else {
            assert f(ab[|a| + (i - |a|)]) == Ok(vb[i - |a|]);
          }
        }
      }
    }
  }

  /** The largest of a non-empty list of numbers (`Math.max(...xs)`). */
  function Max(xs: seq<real>): (m: real)
    requires |xs| > 0
    ensures forall i | 0 <= i < |xs| :: xs[i] <= m
    ensures exists i | 0 <= i < |xs| :: xs[i] == m
  {
    if |xs| == 1 then xs[0]
    else
      var m := Max(xs[..|xs| - 1]);
      if xs[|xs| - 1] > m then xs[|xs| - 1] else m
  }

  function MaxNat(a: nat, b: nat): (m: nat)
    ensures m >= a && m >= b && (m == a || m == b)
  {
    if a >= b then a else b
  }
}
