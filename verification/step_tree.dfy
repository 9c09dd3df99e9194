/** The transformation front door of the step-by-step engine: an expression
    tree with a highlight colour on every node, the builder-threading
    conventions of the regroup / expand / factor / differentiate entry
    points, the adaptive choice among the three regroup strategies, and the
    header records the narrated entry points put on the solution trail.

    The rewrite pipelines themselves are parameters (an `Engine`). A pipeline
    is a total function from a tree and the builder it is handed to the
    rewritten tree and the steps it records; the entry points append those
    steps to the builder when one is present and drop them otherwise. */
module StepTree {
  import opened JavaLang

  /** Operation tags used for structural classification. */
  datatype Operation =
    | NoOperation
    | Plus | Minus | Multiply | Divide | Power | Nroot
    | Sin | Cos | Tan
    | Equal | Less | Greater

  /** An expression node: its tag, its ordered children and its colour. */
  datatype Tree = Node(op: Operation, children: seq<Tree>, color: int)

  /** The colour `cleanColors` stamps. */
  const Uncolored: int := 0

  /** The tag appears somewhere in the subtree, the root included. */
  predicate Contains(t: Tree, op: Operation)
    decreases t
  {
    t.op == op || exists i :: 0 <= i < |t.children| && Contains(t.children[i], op)
  }

  /** Shallow tag test. */
  predicate IsOperation(t: Tree, op: Operation) {
    t.op == op
  }

  lemma IsOperationImpliesContains(t: Tree, op: Operation)
    requires IsOperation(t, op)
    ensures Contains(t, op)
  {
  }

  /** Every node of the subtree carries colour `c`. */
  predicate AllColored(t: Tree, c: int)
    decreases t
  {
    t.color == c && forall i :: 0 <= i < |t.children| ==> AllColored(t.children[i], c)
  }

  /** The two trees agree on everything but colours. */
  predicate SameShape(a: Tree, b: Tree)
    decreases a
  {
    && a.op == b.op
    && |a.children| == |b.children|
    && forall i :: 0 <= i < |a.children| ==> SameShape(a.children[i], b.children[i])
  }

  /** `setColor`: stamps `c` on the root and on every node under it. */
  function SetColor(t: Tree, c: int): (r: Tree)
    ensures AllColored(r, c)
    ensures SameShape(r, t)
    decreases t
  {
    Node(t.op, seq(|t.children|, i requires 0 <= i < |t.children| => SetColor(t.children[i], c)), c)
  }

  /** `cleanColors`: the whole tree back to the uncoloured default. */
  function CleanColors(t: Tree): (r: Tree)
    ensures AllColored(r, Uncolored)
    ensures SameShape(r, t)
  {
    SetColor(t, Uncolored)
  }

  /** A tree already coloured `c` throughout is left as it is. */
  lemma {:induction false} SetColorFixesColored(t: Tree, c: int)
    requires AllColored(t, c)
    ensures SetColor(t, c) == t
    decreases t
  {
    var r := SetColor(t, c);
    forall i | 0 <= i < |t.children|
      ensures r.children[i] == t.children[i]
    {
      SetColorFixesColored(t.children[i], c);
    }
    assert r.children == t.children;
  }

  /** Only the last colour stamped is visible; in particular `setColor` is idempotent. */
  lemma {:induction false} SetColorLastWins(t: Tree, a: int, b: int)
    ensures SetColor(SetColor(t, a), b) == SetColor(t, b)
    decreases t
  {
    var lhs := SetColor(SetColor(t, a), b);
    var rhs := SetColor(t, b);
    forall i | 0 <= i < |t.children|
      ensures lhs.children[i] == rhs.children[i]
    {
      SetColorLastWins(t.children[i], a, b);
    }
    assert lhs.children == rhs.children;
  }

  /** Colouring is presentation only: it does not change which tags a tree contains. */
  lemma {:induction false} SetColorKeepsContains(t: Tree, c: int, op: Operation)
    ensures Contains(SetColor(t, c), op) <==> Contains(t, op)
    decreases t
  {
    var r := SetColor(t, c);
    forall i | 0 <= i < |t.children|
      ensures Contains(r.children[i], op) <==> Contains(t.children[i], op)
    {
      SetColorKeepsContains(t.children[i], c, op);
    }
    if Contains(t, op) && t.op != op {
      var i :| 0 <= i < |t.children| && Contains(t.children[i], op);
      assert Contains(r.children[i], op);
    }
    if Contains(r, op) && r.op != op {
      var i :| 0 <= i < |r.children| && Contains(r.children[i], op);
      assert Contains(t.children[i], op);
    }
  }

  // ---------------------------------------------------------------------------
  // Solution trail

  /** Section headers written by the narrated entry points, and the finer steps of the pipelines. */
  datatype StepKind = Simplify | Expand | Factor | Differentiate | PipelineStep(code: nat)

  /** One trail record: its kind and the tree it shows. */
  datatype Step = Step(kind: StepKind, tree: Tree)

  /** A solution builder, or null when no narration is wanted. */
  type Builder = Nullable<seq<Step>>

  /** `after` is `before` with zero or more records appended; a null builder stays null. */
  predicate Extends(before: Builder, after: Builder) {
    && (before.Null? <==> after.Null?)
    && (before.Ref? ==> before.value <= after.value)
  }

  lemma ExtendsTransitive(a: Builder, b: Builder, c: Builder)
    requires Extends(a, b) && Extends(b, c)
    ensures Extends(a, c)
  {
    if a.Ref? {
      assert a.value == b.value[..|a.value|];
      assert b.value[..|a.value|] == c.value[..|b.value|][..|a.value|];
    }
  }

  // ---------------------------------------------------------------------------
  // Pipelines

  /** What one pipeline run produces: the rewritten tree and the steps it records. */
  datatype Effect = Effect(tree: Tree, recorded: seq<Step>)

  /** A rewrite pipeline, given the tree and the builder it is handed. */
  type Strategy = (Tree, Builder) -> Effect

  /** The tree an entry point returns together with the state of the builder it was given. */
  datatype Outcome = Outcome(tree: Tree, sb: Builder)

  /** The pipelines and the numeric queries the front door relies on. */
  datatype Engine = Engine(
    maxDecimal: Tree -> int,
    containsFractions: Tree -> bool,
    defaultRegroup: Strategy,
    weakRegroup: Strategy,
    decimalRegroup: Strategy,
    convertToFraction: Strategy,
    defaultExpand: Strategy,
    defaultFactor: Strategy,
    weakFactor: Strategy,
    defaultDifferentiate: Strategy)

  /** Runs a pipeline; its steps land on the builder only when there is one. */
  function Run(s: Strategy, t: Tree, sb: Builder): (r: Outcome)
    ensures Extends(sb, r.sb)
    ensures r.tree == s(t, sb).tree
    ensures sb.Ref? ==> r.sb.value[|sb.value|..] == s(t, sb).recorded
  {
    var eff := s(t, sb);
    Outcome(eff.tree, if sb.Null? then Null else Ref(sb.value + eff.recorded))
  }

  /** An entry point that hands its builder to pipeline `s`: it returns the pipeline's
      tree, a present builder gains exactly the pipeline's steps, and a null one stays null. */
  predicate RunsPipeline(s: Strategy, t: Tree, sb: Builder, r: Outcome) {
    && r.tree == s(t, sb).tree
    && (sb.Null? ==> r.sb.Null?)
    && (sb.Ref? ==> r.sb == Ref(sb.value + s(t, sb).recorded))
  }

  function Regroup(e: Engine, t: Tree, sb: Builder): (r: Outcome)
    ensures Extends(sb, r.sb)
    ensures RunsPipeline(e.defaultRegroup, t, sb, r)
  {
    Run(e.defaultRegroup, t, sb)
  }

  /** `regroup()` */
  function RegroupNoArg(e: Engine, t: Tree): (r: Tree)
    ensures r == e.defaultRegroup(t, Null).tree
  {
    Regroup(e, t, Null).tree
  }

  /** `weakRegroup()`: always without a builder. */
  function WeakRegroup(e: Engine, t: Tree): (r: Tree)
    ensures r == e.weakRegroup(t, Null).tree
  {
    Run(e.weakRegroup, t, Null).tree
  }

  function NumericRegroup(e: Engine, t: Tree, sb: Builder): (r: Outcome)
    ensures Extends(sb, r.sb)
    ensures RunsPipeline(e.decimalRegroup, t, sb, r)
  {
    Run(e.decimalRegroup, t, sb)
  }

  function ConvertToFractions(e: Engine, t: Tree, sb: Builder): (r: Outcome)
    ensures Extends(sb, r.sb)
    ensures RunsPipeline(e.convertToFraction, t, sb, r)
  {
    Run(e.convertToFraction, t, sb)
  }

  /** The three regroup strategies `adaptiveRegroup` chooses among. */
  datatype Route = FractionsThenRegroup | DecimalRegroup | DefaultRegroup

  /** The routing decision, as a function of the two numeric queries only. */
  function ChooseRoute(maxDecimal: int, containsFractions: bool): (r: Route)
    ensures r == FractionsThenRegroup <==> 1 <= maxDecimal <= 4 && containsFractions
    ensures r == DecimalRegroup <==> maxDecimal >= 5 || (maxDecimal >= 1 && !containsFractions)
    ensures r == DefaultRegroup <==> maxDecimal <= 0
  {
    if 0 < maxDecimal && maxDecimal < 5 && containsFractions then FractionsThenRegroup
    else if maxDecimal > 0 then DecimalRegroup
    else DefaultRegroup
  }

  function AdaptiveRegroup(e: Engine, t: Tree, sb: Builder): (r: Outcome)
    ensures Extends(sb, r.sb)
  {
    match ChooseRoute(e.maxDecimal(t), e.containsFractions(t))
    case FractionsThenRegroup =>
      var temp := ConvertToFractions(e, t, sb);
      var r := Regroup(e, temp.tree, temp.sb);
      ExtendsTransitive(sb, temp.sb, r.sb);
      r
    case DecimalRegroup => NumericRegroup(e, t, sb)
    case DefaultRegroup => Regroup(e, t, sb)
  }

  /** `adaptiveRegroup()`: with no builder, each route is its pipelines' trees alone. */
  function AdaptiveRegroupNoArg(e: Engine, t: Tree): (r: Tree)
    ensures var route := ChooseRoute(e.maxDecimal(t), e.containsFractions(t));
            && (route == FractionsThenRegroup ==>
                  r == e.defaultRegroup(e.convertToFraction(t, Null).tree, Null).tree)
            && (route == DecimalRegroup ==> r == e.decimalRegroup(t, Null).tree)
            && (route == DefaultRegroup ==> r == e.defaultRegroup(t, Null).tree)
  {
    AdaptiveRegroup(e, t, Null).tree
  }

  /** The builder with the header record of a narrated entry point appended. */
  function WithHeader(kind: StepKind, t: Tree, sb: Builder): (r: Builder)
    requires sb.Ref?
    ensures Extends(sb, r) && |r.value| == |sb.value| + 1
    ensures r.value[|sb.value|] == Step(kind, t)
  {
    Ref(sb.value + [Step(kind, t)])
  }

  /** `regroupOutput`: a SIMPLIFY header holding the untransformed tree, then the adaptive regroup. */
  function RegroupOutput(e: Engine, t: Tree, sb: Builder): (r: Outcome)
    requires sb.Ref?
    ensures r.sb.Ref? && |r.sb.value| > |sb.value|
    ensures r.sb.value[..|sb.value| + 1] == sb.value + [Step(Simplify, t)]
    ensures var a := AdaptiveRegroup(e, t, WithHeader(Simplify, t, sb));
            r.tree == a.tree && r.sb == a.sb
  {
    var h := WithHeader(Simplify, t, sb);
    var r := AdaptiveRegroup(e, t, h);
    assert r.sb.value[..|sb.value| + 1] == h.value;
    r
  }

  function ExpandWith(e: Engine, t: Tree, sb: Builder): (r: Outcome)
    ensures Extends(sb, r.sb)
    ensures RunsPipeline(e.defaultExpand, t, sb, r)
  {
    Run(e.defaultExpand, t, sb)
  }

  /** `expand()`: unlike the other no-argument overloads, it hands over a fresh builder. */
  function ExpandNoArg(e: Engine, t: Tree): (r: Tree)
    ensures r == e.defaultExpand(t, Ref([])).tree
  {
    ExpandWith(e, t, Ref([])).tree
  }

  /** `expandOutput`: an EXPAND header holding the untransformed tree, then the expansion. */
  function ExpandOutput(e: Engine, t: Tree, sb: Builder): (r: Outcome)
    requires sb.Ref?
    ensures r.sb.Ref? && |r.sb.value| > |sb.value|
    ensures r.sb.value[..|sb.value| + 1] == sb.value + [Step(Expand, t)]
    ensures var d := e.defaultExpand(t, WithHeader(Expand, t, sb));
            r.tree == d.tree && r.sb.value == sb.value + [Step(Expand, t)] + d.recorded
  {
    var h := WithHeader(Expand, t, sb);
    var r := ExpandWith(e, t, h);
    assert r.sb.value[..|sb.value| + 1] == h.value;
    r
  }

  function FactorWith(e: Engine, t: Tree, sb: Builder): (r: Outcome)
    ensures Extends(sb, r.sb)
    ensures RunsPipeline(e.defaultFactor, t, sb, r)
  {
    Run(e.defaultFactor, t, sb)
  }

  /** `factor()` */
  function FactorNoArg(e: Engine, t: Tree): (r: Tree)
    ensures r == e.defaultFactor(t, Null).tree
  {
    FactorWith(e, t, Null).tree
  }

  function WeakFactor(e: Engine, t: Tree, sb: Builder): (r: Outcome)
    ensures Extends(sb, r.sb)
    ensures RunsPipeline(e.weakFactor, t, sb, r)
  {
    Run(e.weakFactor, t, sb)
  }

  /** `factorOutput`: a FACTOR header holding the untransformed tree, then the factoring. */
  function FactorOutput(e: Engine, t: Tree, sb: Builder): (r: Outcome)
    requires sb.Ref?
    ensures r.sb.Ref? && |r.sb.value| > |sb.value|
    ensures r.sb.value[..|sb.value| + 1] == sb.value + [Step(Factor, t)]
    ensures var d := e.defaultFactor(t, WithHeader(Factor, t, sb));
            r.tree == d.tree && r.sb.value == sb.value + [Step(Factor, t)] + d.recorded
  {
    var h := WithHeader(Factor, t, sb);
    var r := FactorWith(e, t, h);
    assert r.sb.value[..|sb.value| + 1] == h.value;
    r
  }

  function DifferentiateWith(e: Engine, t: Tree, sb: Builder): (r: Outcome)
    ensures Extends(sb, r.sb)
    ensures RunsPipeline(e.defaultDifferentiate, t, sb, r)
  {
    Run(e.defaultDifferentiate, t, sb)
  }

  /** `differentiate()` */
  function DifferentiateNoArg(e: Engine, t: Tree): (r: Tree)
    ensures r == e.defaultDifferentiate(t, Null).tree
  {
    DifferentiateWith(e, t, Null).tree
  }

  /** `differentiateOutput`: a DIFFERENTIATE header holding the untransformed tree, then the derivative. */
  function DifferentiateOutput(e: Engine, t: Tree, sb: Builder): (r: Outcome)
    requires sb.Ref?
    ensures r.sb.Ref? && |r.sb.value| > |sb.value|
    ensures r.sb.value[..|sb.value| + 1] == sb.value + [Step(Differentiate, t)]
    ensures var d := e.defaultDifferentiate(t, WithHeader(Differentiate, t, sb));
            r.tree == d.tree && r.sb.value == sb.value + [Step(Differentiate, t)] + d.recorded
  {
    var h := WithHeader(Differentiate, t, sb);
    var r := DifferentiateWith(e, t, h);
    assert r.sb.value[..|sb.value| + 1] == h.value;
    r
  }

  // ---------------------------------------------------------------------------
  // Properties of the front door

  /** Mixed short decimals and fractions: convert to fractions, then regroup the
      converted tree on the same builder, so the trail holds the conversion steps
      followed by the regroup steps. */
  lemma AdaptiveFractionPath(e: Engine, t: Tree, sb: Builder)
    requires 0 < e.maxDecimal(t) < 5 && e.containsFractions(t)
    ensures
      var conv := e.convertToFraction(t, sb);
      var temp := ConvertToFractions(e, t, sb);
      var reg := e.defaultRegroup(conv.tree, temp.sb);
      && AdaptiveRegroup(e, t, sb).tree == reg.tree
      && (sb.Ref? ==> AdaptiveRegroup(e, t, sb).sb == Ref(sb.value + conv.recorded + reg.recorded))
  {
  }

  /** Decimals present but the fraction path not taken: the decimal regroup alone. */
  lemma AdaptiveDecimalPath(e: Engine, t: Tree, sb: Builder)
    requires e.maxDecimal(t) > 0
    requires !(e.maxDecimal(t) < 5 && e.containsFractions(t))
    ensures AdaptiveRegroup(e, t, sb) == Run(e.decimalRegroup, t, sb)
  {
  }

  /** No decimals: the default regroup, whether or not fractions are present. */
  lemma AdaptiveDefaultPath(e: Engine, t: Tree, sb: Builder)
    requires e.maxDecimal(t) <= 0
    ensures AdaptiveRegroup(e, t, sb) == Run(e.defaultRegroup, t, sb)
  {
  }

  /** `adaptiveRegroup` reads nothing of the tree but its two numeric queries and
      uses no pipeline but conversion, default regroup and decimal regroup: engines
      that agree on those give the same outcome. */
  lemma AdaptiveDependsOnlyOnQueries(e1: Engine, e2: Engine, t: Tree, sb: Builder)
    requires e1.maxDecimal(t) == e2.maxDecimal(t)
    requires e1.containsFractions(t) == e2.containsFractions(t)
    requires e1.convertToFraction == e2.convertToFraction
    requires e1.defaultRegroup == e2.defaultRegroup
    requires e1.decimalRegroup == e2.decimalRegroup
    ensures AdaptiveRegroup(e1, t, sb) == AdaptiveRegroup(e2, t, sb)
  {
  }
}
