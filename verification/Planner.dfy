/** The budgeted probe selection of src/systemsense/orchestration/planner.py. */
module Planner {
  import opened Results
  import opened Sequences
  import opened Ordering

  datatype Candidate = Candidate(probeId: string, costMs: nat, value: real, common: bool,
                                 symptomTerms: set<string>, targetTraits: set<string>)

  datatype Request = Request(symptom: string, targetTraits: set<string>, freshProbeIds: set<string>,
                             budgetMs: nat, maxProbes: nat)

  datatype PlannedProbe = PlannedProbe(probeId: string, costMs: nat, value: real, reason: string)

  datatype Plan = Plan(probes: seq<PlannedProbe>, totalCostMs: nat,
                       skippedFresh: seq<string>, skippedBudget: seq<string>, skippedLowValue: seq<string>)

  function Id(c: Candidate): string { c.probeId }

  function Planned(c: Candidate): PlannedProbe {
    PlannedProbe(c.probeId, c.costMs, c.value, if c.common then "common bundle" else "symptom or target match")
  }

  predicate UniqueIds(candidates: seq<Candidate>) {
    forall i, j :: 0 <= i < j < |candidates| ==> candidates[i].probeId != candidates[j].probeId
  }

  // ---- The considered order ----

  predicate Contains(text: string, part: string) {
    exists i :: 0 <= i <= |text| - |part| && ContainsAt(text, part, i)
  }

  predicate ContainsAt(text: string, part: string, i: nat)
    requires i + |part| <= |text|
  {
    text[i..i + |part|] == part
  }

  predicate ById(a: Candidate, b: Candidate) { LexLeq(a.probeId, b.probeId) }

  predicate ByRelevance(a: Candidate, b: Candidate) {
    a.value > b.value
    || (a.value == b.value && (a.costMs < b.costMs || (a.costMs == b.costMs && LexLeq(a.probeId, b.probeId))))
  }

  predicate IsCommon(c: Candidate) { c.common }

  /** `casefold` stands for Python's `str.casefold`. */
  function RelevantTo(request: Request, casefold: string -> string): Candidate -> bool {
    (c: Candidate) =>
      !c.common
      && ((exists term :: term in c.symptomTerms && Contains(casefold(request.symptom), casefold(term)))
          || c.targetTraits * request.targetTraits != {})
  }

  function Considered(candidates: seq<Candidate>, request: Request, casefold: string -> string): seq<Candidate> {
    Sort(ById, Filter(IsCommon, candidates)) + Sort(ByRelevance, Filter(RelevantTo(request, casefold), candidates))
  }

  predicate Fresh(c: Candidate, request: Request) { !c.common && c.probeId in request.freshProbeIds }

  predicate LowValue(c: Candidate, minimum: real) { !c.common && c.value < minimum }

  function FreshIn(request: Request): Candidate -> bool { (c: Candidate) => Fresh(c, request) }

  function LowValueIn(request: Request, minimum: real): Candidate -> bool {
    (c: Candidate) => !Fresh(c, request) && LowValue(c, minimum)
  }

  function EligibleIn(request: Request, minimum: real): Candidate -> bool {
    (c: Candidate) => !Fresh(c, request) && !LowValue(c, minimum)
  }

  // ---- Choices among the eligible candidates ----

  /** The candidates whose bit is `wanted`. */
  function Pick(xs: seq<Candidate>, bits: seq<bool>, wanted: bool): seq<Candidate>
    requires |xs| == |bits|
  {
    if xs == [] then [] else
      var n := |xs| - 1;
      Pick(xs[..n], bits[..n], wanted) + if bits[n] == wanted then [xs[n]] else []
  }

  function Total(xs: seq<Candidate>, bits: seq<bool>): nat
    requires |xs| == |bits|
  {
    if xs == [] then 0 else
      var n := |xs| - 1;
      Total(xs[..n], bits[..n]) + if bits[n] then xs[n].costMs else 0
  }

  ghost predicate Feasible(xs: seq<Candidate>, bits: seq<bool>, request: Request) {
    |xs| == |bits| && Total(xs, bits) <= request.budgetMs && |Pick(xs, bits, true)| <= request.maxProbes
  }

  /** At the first difference, `a` takes the candidate and `b` does not. */
  ghost predicate LexGreater(a: seq<bool>, b: seq<bool>) {
    exists p :: 0 <= p < |a| && p < |b| && a[..p] == b[..p] && a[p] && !b[p]
  }

  /** The lexicographically greatest feasible choice. */
  ghost predicate Greatest(xs: seq<Candidate>, bits: seq<bool>, request: Request) {
    Feasible(xs, bits, request)
    && forall other :: Feasible(xs, other, request) ==> other == bits || LexGreater(bits, other)
  }

  /** Taking candidate `p` after the choices before it. */
  ghost predicate Fits(xs: seq<Candidate>, bits: seq<bool>, request: Request, p: nat)
    requires |xs| == |bits| && p < |xs|
  {
    Total(xs[..p], bits[..p]) + xs[p].costMs <= request.budgetMs && |Pick(xs[..p], bits[..p], true)| < request.maxProbes
  }

  ghost predicate Greedy(xs: seq<Candidate>, bits: seq<bool>, request: Request) {
    |xs| == |bits| && forall p :: 0 <= p < |xs| ==> (bits[p] <==> Fits(xs, bits, request, p))
  }

  /** The plan that a choice among the eligible candidates stands for. */
  ghost function PlanOf(considered: seq<Candidate>, request: Request, minimum: real, bits: seq<bool>): Plan
    requires |Filter(EligibleIn(request, minimum), considered)| == |bits|
  {
    var eligible := Filter(EligibleIn(request, minimum), considered);
    Plan(Map(Planned, Pick(eligible, bits, true)), Total(eligible, bits),
         Map(Id, Filter(FreshIn(request), considered)), Map(Id, Pick(eligible, bits, false)),
         Map(Id, Filter(LowValueIn(request, minimum), considered)))
  }

  /** The plan of the lexicographically greatest feasible choice among the eligible candidates. */
  ghost predicate BestPlan(considered: seq<Candidate>, request: Request, minimum: real, plan: Plan) {
    exists bits :: Greatest(Filter(EligibleIn(request, minimum), considered), bits, request)
                   && plan == PlanOf(considered, request, minimum, bits)
  }

  method MakePlan(candidates: seq<Candidate>, minimum: real, request: Request, casefold: string -> string)
    returns (plan: Plan)
    requires UniqueIds(candidates)
    ensures BestPlan(Considered(candidates, request, casefold), request, minimum, plan)
    ensures plan.totalCostMs <= request.budgetMs && |plan.probes| <= request.maxProbes
    ensures PlanMeans(Considered(candidates, request, casefold), request, minimum, plan)
  {
    hide Progress, BestPlan, Filter, PlanMeans, InOrder;
    ConsideredMeans(candidates, request, casefold);
    var considered := Considered(candidates, request, casefold);
    hide Considered;
    ProgressStart(request, minimum);
    var selected: seq<PlannedProbe>, totalCost: nat := [], 0;
    var skippedFresh, skippedBudget, skippedLowValue: seq<string> := [], [], [];
    ghost var bits: seq<bool> := [];
    for i := 0 to |considered|
      invariant Progress(considered[..i], request, minimum, bits,
                         Plan(selected, totalCost, skippedFresh, skippedBudget, skippedLowValue))
    {
      var c := considered[i];
      ghost var plan := Plan(selected, totalCost, skippedFresh, skippedBudget, skippedLowValue);
      assert considered[..i + 1] == considered[..i] + [c];
      ProgressNext(considered[..i], request, minimum, bits, plan, c);
      if !c.common && c.probeId in request.freshProbeIds {
        skippedFresh := skippedFresh + [c.probeId];
      } else if !c.common && c.value < minimum {
        skippedLowValue := skippedLowValue + [c.probeId];
      } else if totalCost + c.costMs > request.budgetMs || |selected| == request.maxProbes {
        bits := bits + [false];
        skippedBudget := skippedBudget + [c.probeId];
      } else {
        bits := bits + [true];
        selected := selected + [Planned(c)];
        totalCost := totalCost + c.costMs;
      }
    }
    assert considered[..|considered|] == considered;
    plan := Plan(selected, totalCost, skippedFresh, skippedBudget, skippedLowValue);
    ProgressDone(considered, request, minimum, bits, plan);
    BestPlanMeans(considered, request, minimum, plan);
  }

  /** What the loop knows after a prefix of the considered candidates. */
  ghost predicate Progress(prefix: seq<Candidate>, request: Request, minimum: real, bits: seq<bool>, plan: Plan) {
    var eligible := Filter(EligibleIn(request, minimum), prefix);
    && Greedy(eligible, bits, request)
    && plan == PlanOf(prefix, request, minimum, bits)
    && plan.totalCostMs <= request.budgetMs && |plan.probes| <= request.maxProbes
  }

  lemma ProgressStart(request: Request, minimum: real)
    ensures Progress([], request, minimum, [], Plan([], 0, [], [], []))
  {
  }

  lemma {:induction false} ProgressDone(considered: seq<Candidate>, request: Request, minimum: real, bits: seq<bool>, plan: Plan)
    requires Progress(considered, request, minimum, bits, plan)
    ensures BestPlan(considered, request, minimum, plan)
    ensures plan.totalCostMs <= request.budgetMs && |plan.probes| <= request.maxProbes
  {
    GreedyIsGreatest(Filter(EligibleIn(request, minimum), considered), bits, request);
  }

  lemma {:induction false} ProgressNext(prefix: seq<Candidate>, request: Request, minimum: real, bits: seq<bool>, plan: Plan, c: Candidate)
    requires Progress(prefix, request, minimum, bits, plan)
    ensures
      var fits := plan.totalCostMs + c.costMs <= request.budgetMs && |plan.probes| < request.maxProbes;
      if Fresh(c, request) then
        Progress(prefix + [c], request, minimum, bits, plan.(skippedFresh := plan.skippedFresh + [c.probeId]))
      else if LowValue(c, minimum) then
        Progress(prefix + [c], request, minimum, bits, plan.(skippedLowValue := plan.skippedLowValue + [c.probeId]))
      else if fits then
        Progress(prefix + [c], request, minimum, bits + [true],
                 plan.(probes := plan.probes + [Planned(c)], totalCostMs := plan.totalCostMs + c.costMs))
      else
        Progress(prefix + [c], request, minimum, bits + [false], plan.(skippedBudget := plan.skippedBudget + [c.probeId]))
    ensures |plan.probes| <= request.maxProbes
  {
    hide Greedy, Pick, Total, Filter, Map;
    var eligible := Filter(EligibleIn(request, minimum), prefix);
    FilterNext(EligibleIn(request, minimum), prefix, c);
    FilterNext(FreshIn(request), prefix, c);
    FilterNext(LowValueIn(request, minimum), prefix, c);
    GreedyNext(eligible, bits, request, c);
    assert forall xs: seq<Candidate> :: xs + [] == xs;
  }

  lemma FilterNext(keep: Candidate -> bool, xs: seq<Candidate>, c: Candidate)
    ensures Filter(keep, xs + [c]) == if keep(c) then Filter(keep, xs) + [c] else Filter(keep, xs)
  {
    FilterConcat(keep, xs, [c]);
  }

  lemma {:induction false} GreedyNext(xs: seq<Candidate>, bits: seq<bool>, request: Request, c: Candidate)
    requires Greedy(xs, bits, request)
    ensures |xs| == |bits|
    ensures var b := Total(xs, bits) + c.costMs <= request.budgetMs && |Pick(xs, bits, true)| < request.maxProbes;
      && Greedy(xs + [c], bits + [b], request)
      && Pick(xs + [c], bits + [b], true) == Pick(xs, bits, true) + (if b then [c] else [])
      && Pick(xs + [c], bits + [b], false) == Pick(xs, bits, false) + (if b then [] else [c])
      && Total(xs + [c], bits + [b]) == Total(xs, bits) + if b then c.costMs else 0
  {
    var b := Total(xs, bits) + c.costMs <= request.budgetMs && |Pick(xs, bits, true)| < request.maxProbes;
    var xs', bits' := xs + [c], bits + [b];
    forall p | 0 <= p < |xs'| ensures bits'[p] <==> Fits(xs', bits', request, p) {
      if p < |xs| {
        assert xs'[..p] == xs[..p] && bits'[..p] == bits[..p];
        assert bits[p] <==> Fits(xs, bits, request, p);
      } else {
        assert xs'[..p] == xs && bits'[..p] == bits;
      }
    }
  }

  /** A prefix of a choice costs and takes no more than the whole. */
  lemma {:induction false} PrefixNoMore(xs: seq<Candidate>, bits: seq<bool>, p: nat)
    requires |xs| == |bits| && p <= |xs|
    ensures Total(xs[..p], bits[..p]) <= Total(xs, bits)
    ensures |Pick(xs[..p], bits[..p], true)| <= |Pick(xs, bits, true)|
  {
    var n := |xs| - 1;
    if p <= n {
      PrefixNoMore(xs[..n], bits[..n], p);
      assert xs[..n][..p] == xs[..p] && bits[..n][..p] == bits[..p];
    } else {
      assert xs[..p] == xs && bits[..p] == bits;
    }
  }

  /** What a feasible choice takes at `p` fits after its earlier choices. */
  lemma TakenFits(xs: seq<Candidate>, bits: seq<bool>, request: Request, p: nat)
    requires Feasible(xs, bits, request) && p < |xs| && bits[p]
    ensures Fits(xs, bits, request, p)
  {
    PrefixNoMore(xs, bits, p + 1);
    assert xs[..p + 1] == xs[..p] + [xs[p]] && bits[..p + 1] == bits[..p] + [bits[p]];
  }

  lemma {:induction false} GreedyIsFeasible(xs: seq<Candidate>, bits: seq<bool>, request: Request)
    requires Greedy(xs, bits, request)
    ensures Feasible(xs, bits, request)
  {
    if xs != [] {
      var n := |xs| - 1;
      forall p | 0 <= p < n ensures bits[..n][p] <==> Fits(xs[..n], bits[..n], request, p) {
        assert xs[..n][..p] == xs[..p] && bits[..n][..p] == bits[..p];
        assert bits[p] <==> Fits(xs, bits, request, p);
      }
      GreedyIsFeasible(xs[..n], bits[..n], request);
      assert bits[n] <==> Fits(xs, bits, request, n);
    }
  }

  lemma FirstDifference(a: seq<bool>, b: seq<bool>) returns (p: nat)
    requires |a| == |b| && a != b
    ensures p < |a| && a[..p] == b[..p] && a[p] != b[p]
  {
    p := 0;
    while a[p] == b[p]
      invariant p < |a| && a[..p] == b[..p] && a[p..] != b[p..]
      decreases |a| - p
    {
      assert a[p..] == [a[p]] + a[p + 1..] && b[p..] == [b[p]] + b[p + 1..];
      p := p + 1;
    }
  }

  /** What any feasible choice takes after the same beginning, the greedy choice takes too. */
  lemma GreedyTakes(xs: seq<Candidate>, bits: seq<bool>, other: seq<bool>, request: Request, p: nat)
    requires Greedy(xs, bits, request) && Feasible(xs, other, request)
    requires p < |xs| && bits[..p] == other[..p] && other[p]
    ensures bits[p]
  {
    TakenFits(xs, other, request, p);
    assert bits[p] <==> Fits(xs, bits, request, p);
  }

  /** Main result: first-fit in the considered order is the lexicographically greatest feasible choice. */
  lemma GreedyIsGreatest(xs: seq<Candidate>, bits: seq<bool>, request: Request)
    requires Greedy(xs, bits, request)
    ensures Greatest(xs, bits, request)
  {
    GreedyIsFeasible(xs, bits, request);
    forall other | Feasible(xs, other, request) && other != bits ensures LexGreater(bits, other) {
      var p := FirstDifference(bits, other);
      if other[p] {
        GreedyTakes(xs, bits, other, request, p);
      }
    }
  }

  /** There is only one greatest choice. */
  lemma GreatestIsUnique(xs: seq<Candidate>, a: seq<bool>, b: seq<bool>, request: Request)
    requires Greatest(xs, a, request) && Greatest(xs, b, request)
    ensures a == b
  {
  }

  /** So the contract of `MakePlan` fixes the plan. */
  lemma BestPlanIsUnique(considered: seq<Candidate>, request: Request, minimum: real, p: Plan, q: Plan)
    requires BestPlan(considered, request, minimum, p) && BestPlan(considered, request, minimum, q)
    ensures p == q
  {
    var eligible := Filter(EligibleIn(request, minimum), considered);
    var a :| Greatest(eligible, a, request) && p == PlanOf(considered, request, minimum, a);
    var b :| Greatest(eligible, b, request) && q == PlanOf(considered, request, minimum, b);
    hide Greatest;
    GreatestIsUnique(eligible, a, b, request);
  }

  /** A probe skipped for budget would not fit after the whole selection either. */
  lemma SkippedStillDoesNotFit(xs: seq<Candidate>, bits: seq<bool>, request: Request, p: nat)
    requires Greatest(xs, bits, request) && p < |xs| && !bits[p]
    ensures Total(xs, bits) + xs[p].costMs > request.budgetMs || |Pick(xs, bits, true)| == request.maxProbes
  {
    var other := bits[p := true];
    OneMore(xs, bits, p);
    assert other[..p] == bits[..p] && other[p];
    assert !Feasible(xs, other, request);
  }

  lemma {:induction false} OneMore(xs: seq<Candidate>, bits: seq<bool>, p: nat)
    requires |xs| == |bits| && p < |xs| && !bits[p]
    ensures Total(xs, bits[p := true]) == Total(xs, bits) + xs[p].costMs
    ensures |Pick(xs, bits[p := true], true)| == |Pick(xs, bits, true)| + 1
  {
    var n := |xs| - 1;
    if p < n {
      OneMore(xs[..n], bits[..n], p);
      assert bits[p := true][..n] == bits[..n][p := true];
    } else {
      assert bits[p := true][..n] == bits[..n];
    }
  }

  /** Every considered candidate is selected or in exactly one skip list. */
  lemma {:induction false} PlanPartitions(considered: seq<Candidate>, request: Request, minimum: real, bits: seq<bool>)
    requires |Filter(EligibleIn(request, minimum), considered)| == |bits|
    ensures var eligible := Filter(EligibleIn(request, minimum), considered);
      multiset(considered) == multiset(Pick(eligible, bits, true)) + multiset(Pick(eligible, bits, false))
        + multiset(Filter(FreshIn(request), considered)) + multiset(Filter(LowValueIn(request, minimum), considered))
  {
    var eligible := Filter(EligibleIn(request, minimum), considered);
    PickSplits(eligible, bits);
    forall x ensures multiset(considered)[x] == multiset(eligible)[x]
      + multiset(Filter(FreshIn(request), considered))[x] + multiset(Filter(LowValueIn(request, minimum), considered))[x]
    {
      FilterCounts(EligibleIn(request, minimum), considered, x);
      FilterCounts(FreshIn(request), considered, x);
      FilterCounts(LowValueIn(request, minimum), considered, x);
    }
  }

  lemma {:induction false} PickSplits(xs: seq<Candidate>, bits: seq<bool>)
    requires |xs| == |bits|
    ensures multiset(xs) == multiset(Pick(xs, bits, true)) + multiset(Pick(xs, bits, false))
  {
    if xs != [] {
      var n := |xs| - 1;
      PickSplits(xs[..n], bits[..n]);
      assert xs == xs[..n] + [xs[n]];
      PickLast(xs, bits, true);
      PickLast(xs, bits, false);
      hide Pick;
    }
  }

  lemma PickLast(xs: seq<Candidate>, bits: seq<bool>, wanted: bool)
    requires |xs| == |bits| > 0
    ensures var n := |xs| - 1;
      multiset(Pick(xs, bits, wanted)) == multiset(Pick(xs[..n], bits[..n], wanted)) + if bits[n] == wanted then multiset{xs[n]} else multiset{}
  {
  }

  // ---- What a plan says ----

  /** Common candidates first, by identifier; then the others, the more valuable first, then the cheaper. */
  ghost predicate Precedes(a: Candidate, b: Candidate) {
    if a.common != b.common then a.common
    else if a.common then LexLeq(a.probeId, b.probeId)
    else a.value > b.value || (a.value == b.value && (a.costMs < b.costMs || (a.costMs == b.costMs && LexLeq(a.probeId, b.probeId))))
  }

  ghost predicate InOrder(xs: seq<Candidate>) { forall i, j :: 0 <= i < j < |xs| ==> Precedes(xs[i], xs[j]) }

  /** A common candidate is always considered, another one if it shares a target trait or a term occurs in the symptom. */
  ghost predicate Concerns(c: Candidate, request: Request, casefold: string -> string) {
    || c.common
    || (exists trait1 :: trait1 in c.targetTraits && trait1 in request.targetTraits)
    || (exists term :: term in c.symptomTerms && Occurs(casefold(term), casefold(request.symptom)))
  }

  ghost predicate Occurs(part: string, text: string) { exists before: string, after: string :: text == before + part + after }

  lemma ContainsMeans(text: string, part: string)
    ensures Contains(text, part) <==> Occurs(part, text)
  {
    if Contains(text, part) {
      var i :| 0 <= i <= |text| - |part| && ContainsAt(text, part, i);
      assert text == text[..i] + part + text[i + |part|..];
    }
    if before: string, after: string :| text == before + part + after {
      assert ContainsAt(text, part, |before|);
    }
  }

  lemma RelevantMeans(c: Candidate, request: Request, casefold: string -> string)
    ensures c.common || RelevantTo(request, casefold)(c) <==> Concerns(c, request, casefold)
  {
    forall term ensures Contains(casefold(request.symptom), casefold(term)) <==> Occurs(casefold(term), casefold(request.symptom)) {
      ContainsMeans(casefold(request.symptom), casefold(term));
    }
    var shared := c.targetTraits * request.targetTraits;
    if shared != {} {
      var one :| one in shared;
    }
    if one :| one in c.targetTraits && one in request.targetTraits {
      assert one in shared;
    }
    hide Contains, Occurs;
  }

  /** Main result: which candidates are considered, and in what order. */
  lemma {:induction false} ConsideredMeans(candidates: seq<Candidate>, request: Request, casefold: string -> string)
    ensures var considered := Considered(candidates, request, casefold);
      InOrder(considered) && forall c :: c in considered <==> c in candidates && Concerns(c, request, casefold)
  {
    KeysAreTotal();
    SortSorts(ById, Filter(IsCommon, candidates));
    SortSorts(ByRelevance, Filter(RelevantTo(request, casefold), candidates));
    forall c: Candidate ensures c.common || RelevantTo(request, casefold)(c) <==> Concerns(c, request, casefold) {
      RelevantMeans(c, request, casefold);
    }
    hide Sort, Concerns, TotalPreorder;
    JoinInOrder(Sort(ById, Filter(IsCommon, candidates)), Sort(ByRelevance, Filter(RelevantTo(request, casefold), candidates)));
  }

  lemma JoinInOrder(common: seq<Candidate>, others: seq<Candidate>)
    requires Sorted(ById, common) && Sorted(ByRelevance, others)
    requires (forall c :: c in common ==> c.common) && forall c :: c in others ==> !c.common
    ensures InOrder(common + others)
  {
    forall i, j | 0 <= i < j < |common + others| ensures Precedes((common + others)[i], (common + others)[j]) {
      if j < |common| {
        assert ById(common[i], common[j]) && common[i] in common && common[j] in common;
      } else if i >= |common| {
        assert ByRelevance(others[i - |common|], others[j - |common|]);
        assert others[i - |common|] in others && others[j - |common|] in others;
      } else {
        assert common[i] in common && others[j - |common|] in others;
      }
    }
  }

  lemma {:induction false} FilterInOrder(keep: Candidate -> bool, xs: seq<Candidate>)
    requires InOrder(xs)
    ensures InOrder(Filter(keep, xs))
  {
    if |xs| > 0 {
      FilterInOrder(keep, xs[1..]);
      assert forall x :: x in Filter(keep, xs[1..]) ==> x in xs[1..];
      assert forall x :: x in xs[1..] ==> Precedes(xs[0], x);
    }
  }

  lemma {:induction false} PickInOrder(xs: seq<Candidate>, bits: seq<bool>, wanted: bool)
    requires |xs| == |bits| && InOrder(xs)
    ensures InOrder(Pick(xs, bits, wanted)) && forall c :: c in Pick(xs, bits, wanted) ==> c in xs
  {
    if |xs| > 0 {
      var n := |xs| - 1;
      PickInOrder(xs[..n], bits[..n], wanted);
      assert forall x :: x in xs[..n] ==> Precedes(x, xs[n]);
    }
  }

  /** What each list of a plan holds, and why. */
  ghost predicate PlanMeans(considered: seq<Candidate>, request: Request, minimum: real, plan: Plan) {
    exists chosen, over, recent, low :: Lists(considered, request, minimum, plan, chosen, over, recent, low)
  }

  ghost predicate Describes(p: PlannedProbe, c: Candidate) {
    && p.probeId == c.probeId && p.costMs == c.costMs && p.value == c.value
    && (c.common ==> p.reason == "common bundle") && (!c.common ==> p.reason == "symptom or target match")
  }

  ghost predicate Lists(considered: seq<Candidate>, request: Request, minimum: real, plan: Plan,
                        chosen: seq<Candidate>, over: seq<Candidate>, recent: seq<Candidate>, low: seq<Candidate>) {
    && Selected(plan.probes, plan.totalCostMs, chosen) && Wanted(chosen, request, minimum)
    && plan.skippedBudget == Map(Id, over) && Wanted(over, request, minimum)
    && plan.skippedFresh == Map(Id, recent) && Recent(recent, request)
    && plan.skippedLowValue == Map(Id, low) && Low(low, request, minimum)
    && InOrder(chosen) && InOrder(over) && InOrder(recent) && InOrder(low)
    && multiset(considered) == multiset(chosen) + multiset(over) + multiset(recent) + multiset(low)
  }

  ghost predicate Selected(probes: seq<PlannedProbe>, total: nat, chosen: seq<Candidate>) {
    |probes| == |chosen| && (forall i :: 0 <= i < |chosen| ==> Describes(probes[i], chosen[i])) && total == Sum(Map(Cost, chosen))
  }

  ghost predicate Recent(cs: seq<Candidate>, request: Request) {
    forall c :: c in cs ==> !c.common && c.probeId in request.freshProbeIds
  }

  ghost predicate Low(cs: seq<Candidate>, request: Request, minimum: real) {
    forall c :: c in cs ==> !c.common && c.value < minimum && c.probeId !in request.freshProbeIds
  }

  function Cost(c: Candidate): int { c.costMs }

  /** Common probes are wanted always, others if their evidence is not fresh and they are valuable enough. */
  ghost predicate Wanted(cs: seq<Candidate>, request: Request, minimum: real) {
    forall c :: c in cs ==> c.common || (c.probeId !in request.freshProbeIds && c.value >= minimum)
  }

  lemma CostOfOneMore(before: seq<Candidate>, last: seq<Candidate>)
    requires |last| <= 1
    ensures Sum(Map(Cost, before + last)) == Sum(Map(Cost, before)) + if last == [] then 0 else last[0].costMs
  {
    MapConcat(Cost, before, last);
    SumConcat(Map(Cost, before), Map(Cost, last));
    assert Map(Cost, last) == if last == [] then [] else [last[0].costMs];
  }

  lemma {:induction false} TotalIsSum(xs: seq<Candidate>, bits: seq<bool>)
    requires |xs| == |bits|
    ensures Total(xs, bits) == Sum(Map(Cost, Pick(xs, bits, true)))
  {
    hide Map;
    if |xs| > 0 {
      var n := |xs| - 1;
      TotalIsSum(xs[..n], bits[..n]);
      CostOfOneMore(Pick(xs[..n], bits[..n], true), if bits[n] then [xs[n]] else []);
    } else {
      CostOfOneMore([], []);
      assert Map(Cost, []) == [];
    }
  }

  lemma ChosenAreSelected(xs: seq<Candidate>, bits: seq<bool>)
    requires |xs| == |bits|
    ensures Selected(Map(Planned, Pick(xs, bits, true)), Total(xs, bits), Pick(xs, bits, true))
  {
    TotalIsSum(xs, bits);
  }

  lemma EligibleAreEligible(considered: seq<Candidate>, request: Request, minimum: real)
    ensures forall c :: c in Filter(EligibleIn(request, minimum), considered) ==> EligibleIn(request, minimum)(c)
  {
  }

  lemma WantedAreEligible(cs: seq<Candidate>, eligible: seq<Candidate>, request: Request, minimum: real)
    requires (forall c :: c in cs ==> c in eligible) && forall c :: c in eligible ==> EligibleIn(request, minimum)(c)
    ensures Wanted(cs, request, minimum)
  {
  }

  /** Main result: the lists of the best plan hold exactly the considered candidates, each for its reason and in order. */
  lemma {:induction false} BestPlanMeans(considered: seq<Candidate>, request: Request, minimum: real, plan: Plan)
    requires BestPlan(considered, request, minimum, plan) && InOrder(considered)
    ensures PlanMeans(considered, request, minimum, plan)
  {
    var eligible := Filter(EligibleIn(request, minimum), considered);
    var bits :| Greatest(eligible, bits, request) && plan == PlanOf(considered, request, minimum, bits);
    PlanListsMean(considered, request, minimum, bits);
    hide Lists, PlanOf, Greatest;
  }

  lemma {:induction false} PlanListsMean(considered: seq<Candidate>, request: Request, minimum: real, bits: seq<bool>)
    requires InOrder(considered) && |Filter(EligibleIn(request, minimum), considered)| == |bits|
    ensures var eligible := Filter(EligibleIn(request, minimum), considered);
      Lists(considered, request, minimum, PlanOf(considered, request, minimum, bits), Pick(eligible, bits, true), Pick(eligible, bits, false),
            Filter(FreshIn(request), considered), Filter(LowValueIn(request, minimum), considered))
  {
    var eligible := Filter(EligibleIn(request, minimum), considered);
    assert Recent(Filter(FreshIn(request), considered), request) && Low(Filter(LowValueIn(request, minimum), considered), request, minimum);
    hide InOrder, Map, Selected, Wanted, Recent, Low, EligibleIn, FreshIn, LowValueIn;
    EligibleAreEligible(considered, request, minimum);
    ChosenAreSelected(eligible, bits);
    FilterInOrder(EligibleIn(request, minimum), considered);
    FilterInOrder(FreshIn(request), considered);
    FilterInOrder(LowValueIn(request, minimum), considered);
    PickInOrder(eligible, bits, true);
    PickInOrder(eligible, bits, false);
    PlanPartitions(considered, request, minimum, bits);
    WantedAreEligible(Pick(eligible, bits, true), eligible, request, minimum);
    WantedAreEligible(Pick(eligible, bits, false), eligible, request, minimum);
  }

  // ---- The catalogue's order does not matter ----

  lemma {:induction false} KeysAreTotal()
    ensures TotalPreorder(ById) && TotalPreorder(ByRelevance)
  {
    LexIsTotalOrder();
    forall a, b, c | ByRelevance(a, b) && ByRelevance(b, c) ensures ByRelevance(a, c) {
    }
  }

  lemma {:induction false} UniqueIdsNoTies(candidates: seq<Candidate>, keep: Candidate -> bool)
    requires UniqueIds(candidates)
    ensures NoTies(ById, Filter(keep, candidates)) && NoTies(ByRelevance, Filter(keep, candidates))
  {
    var xs := Filter(keep, candidates);
    forall x, y | x in xs && y in xs && x.probeId == y.probeId ensures x == y {
      var i :| 0 <= i < |candidates| && candidates[i] == x;
      var j :| 0 <= j < |candidates| && candidates[j] == y;
    }
    LexIsTotalOrder();
  }

  lemma CatalogueOrderIrrelevant(a: seq<Candidate>, b: seq<Candidate>, request: Request, casefold: string -> string)
    requires UniqueIds(a) && multiset(a) == multiset(b)
    ensures Considered(a, request, casefold) == Considered(b, request, casefold)
  {
    var relevant := RelevantTo(request, casefold);
    KeysAreTotal();
    UniqueIdsNoTies(a, IsCommon);
    UniqueIdsNoTies(a, relevant);
    FilterRearranged(IsCommon, a, b);
    FilterRearranged(relevant, a, b);
    SortForgetsOrder(ById, Filter(IsCommon, a), Filter(IsCommon, b));
    SortForgetsOrder(ByRelevance, Filter(relevant, a), Filter(relevant, b));
  }
}
