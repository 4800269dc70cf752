/** The accounting of a plan tree, internal/web/explain_plan.go, over real numbers. */
module ExplainPlan {

  /** The numbers of one node of the EXPLAIN document; a missing one is 0. */
  datatype RawPlan = RawPlan(totalTime: real, loops: real, totalCost: real, plans: seq<RawPlan>)

  /** A node of the view: its own numbers, fixed when it is built, and the annotations. */
  class PlanNode {
    const depth: nat
    const time: real
    const cost: real
    const exclusiveTime: real
    const exclusiveCost: real
    const metric: real
    var pct: real
    var barWidth: int
    var barTier: string
    var open: bool
    var hotspot: bool

    constructor (depth: nat, time: real, cost: real, exclusiveTime: real, exclusiveCost: real, hasActual: bool)
      ensures this.depth == depth && this.time == time && this.cost == cost
      ensures this.exclusiveTime == exclusiveTime && this.exclusiveCost == exclusiveCost
      ensures metric == (if hasActual then exclusiveTime else exclusiveCost)
      ensures pct == 0.0 && !hotspot
    {
      this.depth, this.time, this.cost := depth, time, cost;
      this.exclusiveTime, this.exclusiveCost := exclusiveTime, exclusiveCost;
      this.metric := if hasActual then exclusiveTime else exclusiveCost;
      pct, barWidth, barTier, open, hotspot := 0.0, 0, "", false, false;
    }
  }

  /** The tree of nodes. */
  datatype PlanTree = PlanTree(node: PlanNode, children: seq<PlanTree>)

  function Max(a: real, b: real): real {
    if a > b then a else b
  }

  // ---- What the numbers are ----------------------------------------------------------------

  function LoopsOf(raw: RawPlan, hasActual: bool): real {
    if hasActual && raw.loops != 0.0 then raw.loops else 1.0
  }

  /** The inclusive time, and the inclusive cost, of a node. */
  function TimeOf(raw: RawPlan, hasActual: bool): real {
    if hasActual then raw.totalTime * LoopsOf(raw, hasActual) else 0.0
  }

  function InclusiveOf(raw: RawPlan, hasActual: bool, time: bool): real {
    if time then TimeOf(raw, hasActual) else raw.totalCost
  }

  function InclusiveSum(plans: seq<RawPlan>, hasActual: bool, time: bool): real {
    if |plans| == 0 then 0.0
    else InclusiveSum(plans[..|plans| - 1], hasActual, time) + InclusiveOf(plans[|plans| - 1], hasActual, time)
  }

  function ExclusiveOf(raw: RawPlan, hasActual: bool, time: bool): real {
    Max(0.0, InclusiveOf(raw, hasActual, time) - InclusiveSum(raw.plans, hasActual, time))
  }

  /** The metrics of the tree in document order. */
  function Metrics(raw: RawPlan, hasActual: bool): seq<real>
    decreases raw
  {
    [ExclusiveOf(raw, hasActual, hasActual)] + MetricsAll(raw.plans, hasActual)
  }

  function MetricsAll(plans: seq<RawPlan>, hasActual: bool): seq<real>
    decreases plans
  {
    if |plans| == 0 then []
    else MetricsAll(plans[..|plans| - 1], hasActual) + Metrics(plans[|plans| - 1], hasActual)
  }

  function Flatten(t: PlanTree): seq<PlanNode>
    decreases t
  {
    [t.node] + FlattenAll(t.children)
  }

  function FlattenAll(ts: seq<PlanTree>): seq<PlanNode>
    decreases ts
  {
    if |ts| == 0 then [] else FlattenAll(ts[..|ts| - 1]) + Flatten(ts[|ts| - 1])
  }

  // ---- Building and flattening ---------------------------------------------------------------------

  ghost predicate Distinct(nodes: seq<PlanNode>) {
    forall i, j | 0 <= i < j < |nodes| :: nodes[i] != nodes[j]
  }

  /** A node as it was built. */
  ghost predicate IsBlank(n: PlanNode)
    reads n
  {
    n.pct == 0.0 && !n.hotspot
  }

  /** The nodes carry these metrics, in this order. */
  ghost predicate Carry(nodes: seq<PlanNode>, metrics: seq<real>) {
    |nodes| == |metrics| && forall i | 0 <= i < |nodes| :: nodes[i].metric == metrics[i]
  }

  lemma CarryConcat(a: seq<PlanNode>, b: seq<PlanNode>, x: seq<real>, y: seq<real>)
    requires Carry(a, x) && Carry(b, y)
    ensures Carry(a + b, x + y)
  {
  }

  lemma DistinctConcat(a: seq<PlanNode>, b: seq<PlanNode>)
    requires Distinct(a) && Distinct(b) && forall n | n in a :: n !in b
    ensures Distinct(a + b)
  {
    forall i, j | 0 <= i < j < |a + b| ensures (a + b)[i] != (a + b)[j] {
      if i < |a| <= j {
        assert (a + b)[i] in a && (a + b)[j] in b;
      }
    }
  }

  lemma FlattenSnoc(ts: seq<PlanTree>, t: PlanTree)
    ensures FlattenAll(ts + [t]) == FlattenAll(ts) + Flatten(t)
  {
    assert (ts + [t])[..|ts|] == ts;
  }

  lemma PlansSnoc(plans: seq<RawPlan>, i: nat, hasActual: bool)
    requires i < |plans|
    ensures MetricsAll(plans[..i + 1], hasActual) == MetricsAll(plans[..i], hasActual) + Metrics(plans[i], hasActual)
    ensures forall time ::
      InclusiveSum(plans[..i + 1], hasActual, time)
      == InclusiveSum(plans[..i], hasActual, time) + InclusiveOf(plans[i], hasActual, time)
  {
    assert plans[..i + 1][..i] == plans[..i];
  }

  /** The tree has the shape and the numbers of the document, each level one deeper. */
  ghost predicate Mirrors(t: PlanTree, raw: RawPlan, hasActual: bool, depth: nat)
    decreases raw
  {
    && t.node.depth == depth && t.node.time == TimeOf(raw, hasActual) && t.node.cost == raw.totalCost
    && t.node.exclusiveTime == ExclusiveOf(raw, hasActual, true) && t.node.exclusiveCost == ExclusiveOf(raw, hasActual, false)
    && |t.children| == |raw.plans|
    && forall i | 0 <= i < |raw.plans| :: Mirrors(t.children[i], raw.plans[i], hasActual, depth + 1)
  }

  /** buildPlanNode: fresh nodes, one for each node of the document, in its order. */
  method BuildPlanNode(raw: RawPlan, hasActual: bool, depth: nat) returns (t: PlanTree)
    ensures Carry(Flatten(t), Metrics(raw, hasActual))
    ensures Distinct(Flatten(t))
    ensures forall i | 0 <= i < |Flatten(t)| ::
      fresh(Flatten(t)[i]) && allocated(Flatten(t)[i]) && IsBlank(Flatten(t)[i])
    ensures Mirrors(t, raw, hasActual, depth)
    decreases raw
  {
    hide Flatten, FlattenAll, Metrics, MetricsAll, InclusiveSum, Carry, Distinct;
    var time := 0.0;
    if hasActual {
      var loops := if raw.loops == 0.0 then 1.0 else raw.loops;
      time := raw.totalTime * loops;
    }
    var children, childTime, childCost := BuildChildren(raw, hasActual, depth);
    var node := new PlanNode(depth, time, raw.totalCost, Max(0.0, time - childTime), Max(0.0, raw.totalCost - childCost), hasActual);
    t := PlanTree(node, children);
    assert time == TimeOf(raw, hasActual);
    RootCarries(node, children, raw, hasActual);
  }

  lemma RootCarries(node: PlanNode, children: seq<PlanTree>, raw: RawPlan, hasActual: bool)
    requires Carry(FlattenAll(children), MetricsAll(raw.plans, hasActual)) && node.metric == ExclusiveOf(raw, hasActual, hasActual)
    requires Distinct(FlattenAll(children)) && node !in FlattenAll(children)
    ensures Carry(Flatten(PlanTree(node, children)), Metrics(raw, hasActual))
    ensures Distinct(Flatten(PlanTree(node, children)))
    ensures Flatten(PlanTree(node, children)) == [node] + FlattenAll(children)
  {
    hide FlattenAll, MetricsAll;
    DistinctConcat([node], FlattenAll(children));
  }

  ghost predicate AllMirror(children: seq<PlanTree>, plans: seq<RawPlan>, hasActual: bool, depth: nat) {
    |children| == |plans| && forall i | 0 <= i < |children| :: Mirrors(children[i], plans[i], hasActual, depth)
  }

  lemma MirrorsAdded(children: seq<PlanTree>, c: PlanTree, plans: seq<RawPlan>, i: nat, hasActual: bool, depth: nat)
    requires i < |plans| && AllMirror(children, plans[..i], hasActual, depth) && Mirrors(c, plans[i], hasActual, depth)
    ensures AllMirror(children + [c], plans[..i + 1], hasActual, depth)
  {
    hide Mirrors;
  }

  lemma RootMirrors(t: PlanTree, raw: RawPlan, hasActual: bool, depth: nat)
    requires Mirrors(t, raw, hasActual, depth)
    ensures t.node.time == InclusiveOf(raw, hasActual, true) && t.node.cost == InclusiveOf(raw, hasActual, false)
  {
  }

  /** The trees of the plans, with what their nodes take together. */
  ghost predicate Built(children: seq<PlanTree>, plans: seq<RawPlan>, hasActual: bool, depth: nat, time: real, cost: real) {
    && Carry(FlattenAll(children), MetricsAll(plans, hasActual)) && Distinct(FlattenAll(children))
    && AllMirror(children, plans, hasActual, depth)
    && time == InclusiveSum(plans, hasActual, true) && cost == InclusiveSum(plans, hasActual, false)
  }

  lemma ChildBuilt(children: seq<PlanTree>, c: PlanTree, plans: seq<RawPlan>, i: nat, hasActual: bool, depth: nat, time: real, cost: real)
    requires i < |plans| && Built(children, plans[..i], hasActual, depth, time, cost)
    requires Carry(Flatten(c), Metrics(plans[i], hasActual)) && Distinct(Flatten(c)) && Mirrors(c, plans[i], hasActual, depth)
    requires forall n | n in FlattenAll(children) :: n !in Flatten(c)
    ensures Built(children + [c], plans[..i + 1], hasActual, depth, time + c.node.time, cost + c.node.cost)
    ensures FlattenAll(children + [c]) == FlattenAll(children) + Flatten(c)
  {
    hide Flatten, FlattenAll, Metrics, MetricsAll, InclusiveSum, Carry, Distinct, Mirrors, AllMirror, InclusiveOf;
    PlansSnoc(plans, i, hasActual);
    FlattenSnoc(children, c);
    CarryConcat(FlattenAll(children), Flatten(c), MetricsAll(plans[..i], hasActual), Metrics(plans[i], hasActual));
    DistinctConcat(FlattenAll(children), Flatten(c));
    RootMirrors(c, plans[i], hasActual, depth);
    MirrorsAdded(children, c, plans, i, hasActual, depth);
  }

  method BuildChildren(raw: RawPlan, hasActual: bool, depth: nat) returns (children: seq<PlanTree>, childTime: real, childCost: real)
    ensures Built(children, raw.plans, hasActual, depth + 1, childTime, childCost)
    ensures forall i | 0 <= i < |FlattenAll(children)| ::
      fresh(FlattenAll(children)[i]) && allocated(FlattenAll(children)[i]) && IsBlank(FlattenAll(children)[i])
    decreases raw, 0
  {
    children, childTime, childCost := [], 0.0, 0.0;
    assert Built(children, raw.plans[..0], hasActual, depth + 1, 0.0, 0.0);
    for i := 0 to |raw.plans|
      invariant Built(children, raw.plans[..i], hasActual, depth + 1, childTime, childCost)
      invariant forall i | 0 <= i < |FlattenAll(children)| ::
        fresh(FlattenAll(children)[i]) && allocated(FlattenAll(children)[i]) && IsBlank(FlattenAll(children)[i])
    {
      hide Flatten, FlattenAll, Metrics, Carry, Distinct, Mirrors, Built;
      var c := BuildPlanNode(raw.plans[i], hasActual, depth + 1);
      ChildBuilt(children, c, raw.plans, i, hasActual, depth + 1, childTime, childCost);
      children := children + [c];
      childTime := childTime + c.node.time;
      childCost := childCost + c.node.cost;
    }
    assert raw.plans[..|raw.plans|] == raw.plans;
  }

  /** flattenPlan: appends the nodes in document order. */
  method FlattenPlan(t: PlanTree, before: seq<PlanNode>) returns (out: seq<PlanNode>)
    ensures out == before + Flatten(t)
    decreases t
  {
    out := before + [t.node];
    for i := 0 to |t.children|
      invariant out == before + [t.node] + FlattenAll(t.children[..i])
    {
      assert t.children[..i + 1] == t.children[..i] + [t.children[i]];
      FlattenSnoc(t.children[..i], t.children[i]);
      out := FlattenPlan(t.children[i], out);
    }
    assert t.children[..|t.children|] == t.children;
    assert before + [t.node] + FlattenAll(t.children) == before + ([t.node] + FlattenAll(t.children));
  }

  // ---- The shares -----------------------------------------------------------------------------------

  function Sum(xs: seq<real>): real {
    if |xs| == 0 then 0.0 else Sum(xs[..|xs| - 1]) + xs[|xs| - 1]
  }

  function MetricsOf(nodes: seq<PlanNode>): (r: seq<real>)
    ensures |r| == |nodes| && forall i | 0 <= i < |r| :: r[i] == nodes[i].metric
  {
    seq(|nodes|, i requires 0 <= i < |nodes| => nodes[i].metric)
  }

  /** A node's share in percent; nothing is shared out when the total is not positive. */
  function Share(metric: real, total: real): real {
    if total > 0.0 then metric / total * 100.0 else 0.0
  }

  /** math.Round: to the nearest integer, halves away from zero. */
  function Round(x: real): int {
    if x >= 0.0 then (x + 0.5).Floor else -((-x + 0.5).Floor)
  }

  function BarWidth(pct: real): int {
    var r := Round(pct);
    if r > 100 then 100 else if r < 1 then 1 else r
  }

  function BarTier(pct: real): string {
    if pct >= 50.0 then "xp-hot" else if pct >= 20.0 then "xp-warm" else "xp-cool"
  }

  const COLLAPSE_DEPTH := 6
  const HOTSPOT_PCT := 20.0

  /** The first node with the greatest metric. */
  function Slowest(xs: seq<real>): (k: nat)
    requires |xs| > 0
    ensures k < |xs| && forall i | 0 <= i < |xs| :: xs[i] <= xs[k] && (i < k ==> xs[i] < xs[k])
  {
    if |xs| == 1 then 0
    else
      var k := Slowest(xs[..|xs| - 1]);
      if xs[|xs| - 1] > xs[k] then |xs| - 1 else k
  }

  ghost predicate Annotated(n: PlanNode, total: real)
    reads n
  {
    && n.pct == Share(n.metric, total)
    && n.barWidth == BarWidth(n.pct)
    && n.barTier == BarTier(n.pct)
    && n.open == (n.depth < COLLAPSE_DEPTH)
  }

  lemma SlowestStep(xs: seq<real>, k: nat)
    requires 0 < k < |xs|
    ensures Slowest(xs[..k + 1]) == if xs[k] > xs[Slowest(xs[..k])] then k else Slowest(xs[..k])
  {
    assert xs[..k + 1][..k] == xs[..k];
  }

  method AnnotateNode(n: PlanNode, total: real)
    requires IsBlank(n)
    modifies n
    ensures Annotated(n, total) && !n.hotspot
  {
    if total > 0.0 {
      n.pct := n.metric / total * 100.0;
    }
    n.barWidth := BarWidth(n.pct);
    n.barTier := BarTier(n.pct);
    n.open := n.depth < COLLAPSE_DEPTH;
  }

  predicate IsHotspot(xs: seq<real>, i: nat)
    requires i < |xs|
  {
    |xs| > 1 && i == Slowest(xs) && Share(xs[i], Sum(xs)) >= HOTSPOT_PCT
  }

  /** annotatePlan: a pass for the total, and one that annotates and finds the slowest. */
  method AnnotatePlan(all: seq<PlanNode>)
    requires Distinct(all) && forall i | 0 <= i < |all| :: IsBlank(all[i])
    modifies all
    ensures forall i | 0 <= i < |all| :: Annotated(all[i], Sum(MetricsOf(all)))
    ensures forall i | 0 <= i < |all| :: all[i].hotspot == IsHotspot(MetricsOf(all), i)
  {
    hide Annotated, Sum, Slowest;
    var total := TotalOf(all);
    var slowest := 0;
    ghost var xs := MetricsOf(all);
    for k := 0 to |all|
      invariant forall i | 0 <= i < k :: Annotated(all[i], total) && !all[i].hotspot
      invariant forall i | k <= i < |all| :: IsBlank(all[i])
      invariant k == 0 ==> slowest == 0
      invariant k > 0 ==> slowest == Slowest(xs[..k]) && slowest < k
    {
      if k == 0 {
        assert Slowest(xs[..1]) == 0;
      } else {
        SlowestStep(xs, k);
        if all[k].metric > all[slowest].metric {
          slowest := k;
        }
      }
      AnnotateNode(all[k], total);
    }
    assert xs[..|all|] == xs;
    if |all| > 1 {
      assert all[slowest].pct == Share(xs[slowest], total) by { ShareOf(all[slowest], total); }
      if all[slowest].pct >= HOTSPOT_PCT {
        Flag(all, slowest, total);
      }
    }
  }

  lemma ShareOf(n: PlanNode, total: real)
    requires Annotated(n, total)
    ensures n.pct == Share(n.metric, total)
  {
  }

  /** Flagging a node changes nothing else. */
  method Flag(all: seq<PlanNode>, k: nat, total: real)
    requires Distinct(all) && k < |all| && forall i | 0 <= i < |all| :: Annotated(all[i], total) && !all[i].hotspot
    modifies all
    ensures forall i | 0 <= i < |all| :: Annotated(all[i], total) && all[i].hotspot == (i == k)
  {
    all[k].hotspot := true;
  }

  method TotalOf(all: seq<PlanNode>) returns (total: real)
    ensures total == Sum(MetricsOf(all))
  {
    total := 0.0;
    for k := 0 to |all|
      invariant total == Sum(MetricsOf(all)[..k])
    {
      assert MetricsOf(all)[..k + 1][..k] == MetricsOf(all)[..k];
      total := total + all[k].metric;
    }
    assert MetricsOf(all)[..|all|] == MetricsOf(all);
  }

  // ---- The flat table ---------------------------------------------------------------------------------

  /** Puts a node behind all nodes that are not faster. */
  function Insert(table: seq<PlanNode>, n: PlanNode): seq<PlanNode> {
    if |table| == 0 || table[|table| - 1].metric >= n.metric then table + [n]
    else Insert(table[..|table| - 1], n) + [table[|table| - 1]]
  }

  /** Slowest first; nodes of the same metric stay in document order. */
  function SortedTable(nodes: seq<PlanNode>): seq<PlanNode> {
    if |nodes| == 0 then [] else Insert(SortedTable(nodes[..|nodes| - 1]), nodes[|nodes| - 1])
  }

  /** buildPlanView: build, flatten, annotate, sort. */
  method BuildPlanView(raw: RawPlan, hasActual: bool) returns (root: PlanTree, table: seq<PlanNode>)
    ensures Mirrors(root, raw, hasActual, 0)
    ensures Carry(Flatten(root), Metrics(raw, hasActual))
    ensures table == SortedTable(Flatten(root))
    ensures forall i | 0 <= i < |Flatten(root)| ::
      Annotated(Flatten(root)[i], Sum(MetricsOf(Flatten(root)))) && Flatten(root)[i].hotspot == IsHotspot(MetricsOf(Flatten(root)), i)
    ensures SixLevelsOpen(Flatten(root))
  {
    hide Metrics, Annotated, IsHotspot, Sum, Flatten, SortedTable;
    root := BuildPlanNode(raw, hasActual, 0);
    var all := FlattenPlan(root, []);
    assert [] + Flatten(root) == Flatten(root);
    AnnotatePlan(all);
    AnnotatedIsOpen(all, Sum(MetricsOf(all)));
    hide SixLevelsOpen, Mirrors;
    table := SortedTable(all);
  }

  ghost predicate Descending(table: seq<PlanNode>) {
    forall i, j | 0 <= i < j < |table| :: table[i].metric >= table[j].metric
  }

  /** The nodes of one metric, in order. */
  function WithMetric(nodes: seq<PlanNode>, m: real): seq<PlanNode> {
    if |nodes| == 0 then []
    else WithMetric(nodes[..|nodes| - 1], m) + if nodes[|nodes| - 1].metric == m then [nodes[|nodes| - 1]] else []
  }

  lemma WithMetricSnoc(nodes: seq<PlanNode>, n: PlanNode, m: real)
    ensures WithMetric(nodes + [n], m) == WithMetric(nodes, m) + if n.metric == m then [n] else []
  {
    assert (nodes + [n])[..|nodes|] == nodes;
  }

  lemma {:induction false} InsertAdds(table: seq<PlanNode>, n: PlanNode)
    ensures multiset(Insert(table, n)) == multiset(table) + multiset{n}
  {
    if !(|table| == 0 || table[|table| - 1].metric >= n.metric) {
      InsertAdds(table[..|table| - 1], n);
      assert table == table[..|table| - 1] + [table[|table| - 1]];
    }
  }

  lemma {:induction false} InsertKeepsOrder(table: seq<PlanNode>, n: PlanNode)
    requires Descending(table)
    ensures Descending(Insert(table, n))
  {
    if !(|table| == 0 || table[|table| - 1].metric >= n.metric) {
      var front, last := table[..|table| - 1], table[|table| - 1];
      InsertKeepsOrder(front, n);
      var longer := Insert(front, n);
      forall i | 0 <= i < |longer| ensures longer[i].metric >= last.metric {
        assert longer[i] in multiset(longer);
        InsertAdds(front, n);
        assert longer[i] in front || longer[i] == n;
      }
    }
  }

  lemma OneOfTwo(a: seq<PlanNode>, b: seq<PlanNode>, c: seq<PlanNode>)
    requires b == [] || c == []
    ensures a + b + c == a + c + b
  {
  }

  lemma {:induction false} InsertIsStable(table: seq<PlanNode>, n: PlanNode, m: real)
    requires Descending(table)
    ensures WithMetric(Insert(table, n), m) == WithMetric(table, m) + if n.metric == m then [n] else []
  {
    if |table| == 0 || table[|table| - 1].metric >= n.metric {
      WithMetricSnoc(table, n, m);
    } else {
      var front, last := table[..|table| - 1], table[|table| - 1];
      InsertIsStable(front, n, m);
      assert table == front + [last] && Insert(table, n) == Insert(front, n) + [last];
      hide WithMetric, Insert, Descending;
      WithMetricSnoc(Insert(front, n), last, m);
      WithMetricSnoc(front, last, m);
      OneOfTwo(WithMetric(front, m), if n.metric == m then [n] else [], if last.metric == m then [last] else []);
    }
  }

  /** The table is the nodes of the tree, slowest first, ties in document order. */
  lemma {:induction false} TableIsStableDescending(nodes: seq<PlanNode>)
    ensures Descending(SortedTable(nodes)) && multiset(SortedTable(nodes)) == multiset(nodes)
    ensures forall m :: WithMetric(SortedTable(nodes), m) == WithMetric(nodes, m)
  {
    if |nodes| > 0 {
      var before, n := nodes[..|nodes| - 1], nodes[|nodes| - 1];
      TableIsStableDescending(before);
      InsertAdds(SortedTable(before), n);
      InsertKeepsOrder(SortedTable(before), n);
      assert nodes == before + [n];
      forall m ensures WithMetric(SortedTable(nodes), m) == WithMetric(nodes, m) {
        InsertIsStable(SortedTable(before), n, m);
      }
    }
  }

  lemma {:induction false} WithMetricHolds(nodes: seq<PlanNode>, n: PlanNode)
    ensures n in WithMetric(nodes, n.metric) <==> n in nodes
    ensures forall m :: n in WithMetric(nodes, m) ==> n.metric == m
  {
    if |nodes| > 0 {
      WithMetricHolds(nodes[..|nodes| - 1], n);
      assert nodes == nodes[..|nodes| - 1] + [nodes[|nodes| - 1]];
    }
  }

  lemma NoFasterLast(a: seq<PlanNode>, b: seq<PlanNode>)
    requires Descending(b) && |a| > 0 && forall m :: WithMetric(a, m) == WithMetric(b, m)
    ensures |b| > 0 && b[|b| - 1].metric <= a[|a| - 1].metric
  {
    hide WithMetric;
    var x := a[|a| - 1];
    WithMetricHolds(a, x);
    WithMetricHolds(b, x);
    assert x in b;
  }

  /** Any stable descending sort gives this very table. */
  lemma {:induction false} StableSortIsUnique(a: seq<PlanNode>, b: seq<PlanNode>)
    requires Descending(a) && Descending(b) && forall m :: WithMetric(a, m) == WithMetric(b, m)
    ensures a == b
  {
    if |a| > 0 {
      NoFasterLast(a, b);
    }
    if |b| > 0 {
      NoFasterLast(b, a);
      var x, y := a[|a| - 1], b[|b| - 1];
      var a1, b1 := a[..|a| - 1], b[..|b| - 1];
      assert a == a1 + [x] && b == b1 + [y];
      assert WithMetric(a, x.metric) == WithMetric(b, x.metric);
      LastsAgree(WithMetric(a1, x.metric), x, WithMetric(b1, x.metric), y);
      forall m ensures WithMetric(a1, m) == WithMetric(b1, m) {
        assert WithMetric(a, m) == WithMetric(b, m);
        DropLast(WithMetric(a1, m), WithMetric(b1, m), if x.metric == m then [x] else []);
      }
      StableSortIsUnique(a1, b1);
    }
  }

  lemma LastsAgree(a: seq<PlanNode>, x: PlanNode, b: seq<PlanNode>, y: PlanNode)
    requires a + [x] == b + [y]
    ensures x == y
  {
    assert |a + [x]| == |b + [y]|;
    assert (a + [x])[|a|] == x && (b + [y])[|b|] == y;
  }

  lemma DropLast(a: seq<PlanNode>, b: seq<PlanNode>, t: seq<PlanNode>)
    requires a + t == b + t
    ensures a == b
  {
    assert |a + t| == |b + t|;
    assert (a + t)[..|a|] == a && (b + t)[..|b|] == b;
  }

  // ---- What the numbers add up to ----------------------------------------------------------------------

  lemma {:induction false} SumConcat(a: seq<real>, b: seq<real>)
    ensures Sum(a + b) == Sum(a) + Sum(b)
  {
    if |b| == 0 {
      assert a + b == a;
    } else {
      assert (a + b)[..|a + b| - 1] == a + b[..|b| - 1];
      SumConcat(a, b[..|b| - 1]);
    }
  }

  /** By how much the children of a node claim more than the node itself, summed over the tree. */
  function Excess(raw: RawPlan, hasActual: bool): (r: real)
    ensures r >= 0.0
    decreases raw
  {
    Max(0.0, InclusiveSum(raw.plans, hasActual, hasActual) - InclusiveOf(raw, hasActual, hasActual)) + ExcessAll(raw.plans, hasActual)
  }

  function ExcessAll(plans: seq<RawPlan>, hasActual: bool): (r: real)
    ensures r >= 0.0
    decreases plans
  {
    if |plans| == 0 then 0.0 else ExcessAll(plans[..|plans| - 1], hasActual) + Excess(plans[|plans| - 1], hasActual)
  }

  /** No node's children claim more than the node. */
  predicate WithinParents(raw: RawPlan, hasActual: bool)
    decreases raw
  {
    && InclusiveSum(raw.plans, hasActual, hasActual) <= InclusiveOf(raw, hasActual, hasActual)
    && forall i | 0 <= i < |raw.plans| :: WithinParents(raw.plans[i], hasActual)
  }

  lemma {:induction false} MetricsAddUp(raw: RawPlan, hasActual: bool)
    ensures Sum(Metrics(raw, hasActual)) == InclusiveOf(raw, hasActual, hasActual) + Excess(raw, hasActual)
    decreases raw
  {
    var x := ExclusiveOf(raw, hasActual, hasActual);
    AllMetricsAddUp(raw.plans, hasActual);
    SumConcat([x], MetricsAll(raw.plans, hasActual));
    assert Sum([x]) == x by { assert [x][..0] == []; }
  }

  lemma {:induction false} AllMetricsAddUp(plans: seq<RawPlan>, hasActual: bool)
    ensures Sum(MetricsAll(plans, hasActual)) == InclusiveSum(plans, hasActual, hasActual) + ExcessAll(plans, hasActual)
    decreases plans
  {
    if |plans| > 0 {
      AllMetricsAddUp(plans[..|plans| - 1], hasActual);
      MetricsAddUp(plans[|plans| - 1], hasActual);
      SumConcat(MetricsAll(plans[..|plans| - 1], hasActual), Metrics(plans[|plans| - 1], hasActual));
    }
  }

  lemma {:induction false} NoExcessIffWithin(raw: RawPlan, hasActual: bool)
    ensures Excess(raw, hasActual) == 0.0 <==> WithinParents(raw, hasActual)
    decreases raw
  {
    NoExcessAllIffWithin(raw.plans, hasActual);
  }

  lemma {:induction false} NoExcessAllIffWithin(plans: seq<RawPlan>, hasActual: bool)
    ensures ExcessAll(plans, hasActual) == 0.0 <==> forall i | 0 <= i < |plans| :: WithinParents(plans[i], hasActual)
    decreases plans
  {
    hide WithinParents;
    if |plans| > 0 {
      NoExcessAllIffWithin(plans[..|plans| - 1], hasActual);
      NoExcessIffWithin(plans[|plans| - 1], hasActual);
      assert forall i | 0 <= i < |plans| - 1 :: plans[..|plans| - 1][i] == plans[i];
    }
  }

  /** The exclusive metrics of the tree add up to at least the root's total, and to exactly
  that if and only if no node's children claim more than the node. */
  lemma MetricsCoverTheTotal(raw: RawPlan, hasActual: bool)
    ensures Sum(Metrics(raw, hasActual)) >= InclusiveOf(raw, hasActual, hasActual)
    ensures Sum(Metrics(raw, hasActual)) == InclusiveOf(raw, hasActual, hasActual) <==> WithinParents(raw, hasActual)
  {
    MetricsAddUp(raw, hasActual);
    NoExcessIffWithin(raw, hasActual);
  }

  function Shares(xs: seq<real>, total: real): seq<real> {
    seq(|xs|, i requires 0 <= i < |xs| => Share(xs[i], total))
  }

  lemma {:induction false} SharesScale(xs: seq<real>, total: real)
    requires total > 0.0
    ensures Sum(Shares(xs, total)) == Sum(xs) / total * 100.0
  {
    if |xs| > 0 {
      var before, x := xs[..|xs| - 1], xs[|xs| - 1];
      SharesScale(before, total);
      assert Shares(xs, total)[..|xs| - 1] == Shares(before, total);
      SharesAdd(Sum(before), x, total);
    }
  }

  lemma SharesAdd(a: real, x: real, total: real)
    requires total > 0.0
    ensures a / total * 100.0 + x / total * 100.0 == (a + x) / total * 100.0
  {
  }

  /** The shares add up to 100 percent of a positive total. */
  lemma SharesAddUpTo100(xs: seq<real>)
    requires Sum(xs) > 0.0
    ensures Sum(Shares(xs, Sum(xs))) == 100.0
  {
    SharesScale(xs, Sum(xs));
    assert Sum(xs) / Sum(xs) == 1.0;
  }

  lemma {:induction false} MetricsAreNotNegative(raw: RawPlan, hasActual: bool)
    ensures forall i | 0 <= i < |Metrics(raw, hasActual)| :: Metrics(raw, hasActual)[i] >= 0.0
    decreases raw
  {
    AllMetricsAreNotNegative(raw.plans, hasActual);
  }

  lemma {:induction false} AllMetricsAreNotNegative(plans: seq<RawPlan>, hasActual: bool)
    ensures forall i | 0 <= i < |MetricsAll(plans, hasActual)| :: MetricsAll(plans, hasActual)[i] >= 0.0
    decreases plans
  {
    if |plans| > 0 {
      AllMetricsAreNotNegative(plans[..|plans| - 1], hasActual);
      MetricsAreNotNegative(plans[|plans| - 1], hasActual);
    }
  }

  lemma {:induction false} PartOfSum(xs: seq<real>, i: nat)
    requires i < |xs| && forall j :: 0 <= j < |xs| ==> xs[j] >= 0.0
    ensures 0.0 <= xs[i] <= Sum(xs)
  {
    var n := |xs| - 1;
    if n > 0 {
      PartOfSum(xs[..n], if i < n then i else 0);
    } else {
      assert Sum(xs[..n]) == 0.0;
    }
  }

  lemma PartOfTotal(x: real, total: real)
    requires 0.0 <= x <= total
    ensures 0.0 <= Share(x, total) <= 100.0
  {
    if total > 0.0 {
      assert 0.0 <= x / total <= 1.0;
    }
  }

  /** Whatever the document says, every share of its tree lies between 0 and 100 percent. */
  lemma SharesArePercentages(raw: RawPlan, hasActual: bool, i: nat)
    requires i < |Metrics(raw, hasActual)|
    ensures 0.0 <= Share(Metrics(raw, hasActual)[i], Sum(Metrics(raw, hasActual))) <= 100.0
  {
    MetricsAreNotNegative(raw, hasActual);
    hide Metrics, Sum, Share;
    PartOfSum(Metrics(raw, hasActual), i);
    PartOfTotal(Metrics(raw, hasActual)[i], Sum(Metrics(raw, hasActual)));
  }

  /** A bar is between 1 and 100 wide, and otherwise within half a percent of the share;
  a greater share never has the narrower bar. */
  lemma BarWidthFollowsShare(pct: real, other: real)
    ensures 1 <= BarWidth(pct) <= 100
    ensures 1.0 <= pct <= 100.0 ==> -0.5 <= BarWidth(pct) as real - pct <= 0.5
    ensures pct <= other ==> BarWidth(pct) <= BarWidth(other)
  {
  }

  /** The flagged node is the first of those with the greatest metric, of at least two nodes, and takes a
  fifth or more of a positive total; such a node is flagged. */
  lemma HotspotIsTheFirstSlowest(xs: seq<real>, i: nat)
    requires i < |xs|
    ensures IsHotspot(xs, i) <==>
              && |xs| > 1 && Sum(xs) > 0.0 && xs[i] * 5.0 >= Sum(xs)
              && forall j | 0 <= j < |xs| :: xs[j] <= xs[i] && (j < i ==> xs[j] < xs[i])
  {
    hide Sum, Slowest, Share;
    ShareAtLeast(xs[i], Sum(xs), 20.0);
    var k := Slowest(xs);
    assert xs[i] <= xs[k] && (i < k ==> xs[i] < xs[k]);
    if Sum(xs) > 0.0 {
      assert xs[i] * 5.0 >= Sum(xs) <==> xs[i] * 100.0 >= 20.0 * Sum(xs);
    }
  }

  /** A bar is hot from half of a positive total on, warm from a fifth on, and cool below. */
  lemma TierFollowsShare(metric: real, total: real)
    ensures BarTier(Share(metric, total))
         == if total > 0.0 && metric * 2.0 >= total then "xp-hot" else if total > 0.0 && metric * 5.0 >= total then "xp-warm" else "xp-cool"
  {
    ShareAtLeast(metric, total, 50.0);
    ShareAtLeast(metric, total, 20.0);
    hide Share;
  }

  lemma ShareAtLeast(x: real, total: real, pct: real)
    requires pct > 0.0
    ensures Share(x, total) >= pct <==> total > 0.0 && x * 100.0 >= pct * total
  {
    if total > 0.0 {
      var q := x / total;
      assert q * total == x;
      ScaledAlike(q, pct, total);
    }
  }

  lemma ScaledAlike(q: real, pct: real, total: real)
    requires total > 0.0
    ensures q * 100.0 >= pct <==> q * total * 100.0 >= pct * total
  {
    var d := q * 100.0 - pct;
    assert q * total * 100.0 - pct * total == d * total;
  }

  /** What is open at first: the six topmost levels. */
  ghost predicate SixLevelsOpen(nodes: seq<PlanNode>)
    reads nodes
  {
    forall i | 0 <= i < |nodes| :: nodes[i].open <==> nodes[i].depth <= 5
  }

  lemma AnnotatedIsOpen(nodes: seq<PlanNode>, total: real)
    requires forall i | 0 <= i < |nodes| :: Annotated(nodes[i], total)
    ensures SixLevelsOpen(nodes)
  {
  }
}
