/** What the figures of an EXPLAIN document come from, and that the view finds it again. */
module PlanTraces {
  import opened ExplainPlan

  /** A node as it was executed: the time it took itself in each of its loops, the cost estimated
  for itself, and its children. */
  datatype Trace = Trace(runs: seq<real>, cost: real, children: seq<Trace>)

  function TimeIn(t: Trace): real
    decreases t
  {
    Sum(t.runs) + TimeInAll(t.children)
  }

  function TimeInAll(ts: seq<Trace>): real
    decreases ts
  {
    if |ts| == 0 then 0.0 else TimeInAll(ts[..|ts| - 1]) + TimeIn(ts[|ts| - 1])
  }

  function CostIn(t: Trace): real
    decreases t
  {
    t.cost + CostInAll(t.children)
  }

  function CostInAll(ts: seq<Trace>): real
    decreases ts
  {
    if |ts| == 0 then 0.0 else CostInAll(ts[..|ts| - 1]) + CostIn(ts[|ts| - 1])
  }

  /** What PostgreSQL reports: the time with the children's, averaged over the loops, the loops, and
  the cost with the children's. */
  function Reported(t: Trace): RawPlan
    decreases t
  {
    RawPlan(if |t.runs| == 0 then 0.0 else TimeIn(t) / |t.runs| as real, |t.runs| as real, CostIn(t), ReportedAll(t.children))
  }

  function ReportedAll(ts: seq<Trace>): (r: seq<RawPlan>)
    ensures |r| == |ts|
    decreases ts
  {
    if |ts| == 0 then [] else ReportedAll(ts[..|ts| - 1]) + [Reported(ts[|ts| - 1])]
  }

  /** Time and cost are not negative, and in a node that never ran nothing took time. */
  ghost predicate IsTrace(t: Trace)
    decreases t
  {
    && Sum(t.runs) >= 0.0 && t.cost >= 0.0 && (|t.runs| == 0 ==> TimeIn(t) == 0.0)
    && forall i | 0 <= i < |t.children| :: IsTrace(t.children[i])
  }

  function SelfTimes(t: Trace): seq<real>
    decreases t
  {
    [Sum(t.runs)] + SelfTimesAll(t.children)
  }

  function SelfTimesAll(ts: seq<Trace>): seq<real>
    decreases ts
  {
    if |ts| == 0 then [] else SelfTimesAll(ts[..|ts| - 1]) + SelfTimes(ts[|ts| - 1])
  }

  function SelfCosts(t: Trace): seq<real>
    decreases t
  {
    [t.cost] + SelfCostsAll(t.children)
  }

  function SelfCostsAll(ts: seq<Trace>): seq<real>
    decreases ts
  {
    if |ts| == 0 then [] else SelfCostsAll(ts[..|ts| - 1]) + SelfCosts(ts[|ts| - 1])
  }

  lemma InclusiveReported(t: Trace)
    requires IsTrace(t)
    ensures InclusiveOf(Reported(t), true, true) == TimeIn(t) && InclusiveOf(Reported(t), false, false) == CostIn(t)
  {
    hide Sum, TimeInAll, CostInAll, ReportedAll, IsTrace;
    if |t.runs| > 0 {
      var n := |t.runs| as real;
      assert TimeIn(t) / n * n == TimeIn(t);
    } else {
      assert TimeIn(t) == 0.0 by { NeverRan(t); }
    }
  }

  lemma NeverRan(t: Trace)
    requires IsTrace(t) && |t.runs| == 0
    ensures TimeIn(t) == 0.0
  {
  }

  lemma {:induction false} SumsReported(ts: seq<Trace>)
    requires forall i | 0 <= i < |ts| :: IsTrace(ts[i])
    ensures InclusiveSum(ReportedAll(ts), true, true) == TimeInAll(ts)
    ensures InclusiveSum(ReportedAll(ts), false, false) == CostInAll(ts)
    decreases ts
  {
    if |ts| > 0 {
      hide IsTrace, Reported, TimeIn, CostIn, InclusiveOf;
      var before, t := ts[..|ts| - 1], ts[|ts| - 1];
      SumsReported(before);
      InclusiveReported(t);
      assert ReportedAll(ts)[..|ts| - 1] == ReportedAll(before);
    }
  }

  /** The view finds again what each node took itself: the metrics are the time, or without an
  execution the cost, of each node without its children, in document order. */
  lemma {:induction false} MetricsAreSelfTimes(t: Trace)
    requires IsTrace(t)
    ensures Metrics(Reported(t), true) == SelfTimes(t) && Metrics(Reported(t), false) == SelfCosts(t)
    decreases t
  {
    assert forall i | 0 <= i < |t.children| :: IsTrace(t.children[i]);
    assert Sum(t.runs) >= 0.0 && t.cost >= 0.0;
    hide IsTrace, Sum, InclusiveOf, InclusiveSum;
    InclusiveReported(t);
    SumsReported(t.children);
    AllMetricsAreSelfTimes(t.children);
    hide TimeInAll, CostInAll, MetricsAll, SelfTimesAll, SelfCostsAll, ReportedAll;
  }

  lemma {:induction false} AllMetricsAreSelfTimes(ts: seq<Trace>)
    requires forall i | 0 <= i < |ts| :: IsTrace(ts[i])
    ensures MetricsAll(ReportedAll(ts), true) == SelfTimesAll(ts) && MetricsAll(ReportedAll(ts), false) == SelfCostsAll(ts)
    decreases ts
  {
    if |ts| > 0 {
      hide IsTrace, Metrics, Reported, SelfTimes, SelfCosts;
      var before, t := ts[..|ts| - 1], ts[|ts| - 1];
      AllMetricsAreSelfTimes(before);
      MetricsAreSelfTimes(t);
      assert ReportedAll(ts)[..|ts| - 1] == ReportedAll(before);
    }
  }

  /** A node that reports no loops counts once, and without an execution there are no times. */
  lemma NoLoopsCountOnce(totalTime: real, loops: real, cost: real, plans: seq<RawPlan>)
    ensures InclusiveOf(RawPlan(totalTime, loops, cost, plans), true, true) == if loops == 0.0 then totalTime else totalTime * loops
    ensures InclusiveOf(RawPlan(totalTime, loops, cost, plans), false, true) == 0.0
  {
  }
}
