/**
 The paired analysis of benchmarks/ab/analysis.py. Measurements are exact rationals and the random draws
 of the bootstrap are arbitrary inputs.
 */
module Analysis {
  import opened Results
  import opened Sequences
  import opened Ordering

  datatype Arm = Baseline | SystemSense

  /** The source demands at least one millisecond for each run. */
  type Milliseconds = ms: nat | ms >= 1 witness 1

  datatype RunOutcome = RunOutcome(pairId: string, scenarioId: string, arm: Arm, oraclePassed: bool, collateral: bool,
                                   elapsedMs: Milliseconds, totalTokens: nat, toolCalls: nat, overheadMs: nat)

  datatype Pair = Pair(baseline: RunOutcome, systemsense: RunOutcome)

  datatype AnalysisError =
    | DuplicateRun(arm: Arm, pairId: string)
    | NoRuns
    | IncompletePair(pairId: string)
    | DifferentScenarios(pairId: string)
    | TooFewPairsRequired
    | TooFewResamples
    | NoBaselineMetric

  // ---- Pairing ----

  function PairId(run: RunOutcome): string { run.pairId }

  function Key(run: RunOutcome): (string, Arm) { (run.pairId, run.arm) }

  /** The run of a pair in one arm. */
  function RunFor(runs: seq<RunOutcome>, pairId: string, arm: Arm): (r: Option<RunOutcome>)
    ensures r.Some? ==> r.value in runs && Key(r.value) == (pairId, arm)
    ensures r.None? ==> forall run :: run in runs ==> Key(run) != (pairId, arm)
  {
    if |runs| == 0 then None
    else if runs[|runs| - 1].pairId == pairId && runs[|runs| - 1].arm == arm then Some(runs[|runs| - 1])
    else RunFor(runs[..|runs| - 1], pairId, arm)
  }

  predicate PairIsGood(runs: seq<RunOutcome>, pairId: string) {
    var a, b := RunFor(runs, pairId, Baseline), RunFor(runs, pairId, SystemSense);
    a.Some? && b.Some? && a.value.scenarioId == b.value.scenarioId
  }

  /** Every pair has exactly one run in each arm, of one scenario. */
  ghost predicate WellPaired(runs: seq<RunOutcome>) {
    && |runs| > 0 && Distinct(Map(Key, runs))
    && forall run :: run in runs ==> PairIsGood(runs, run.pairId)
  }

  function PairIds(runs: seq<RunOutcome>): seq<string> { Sort(LexLeq, Unique(Map(PairId, runs))) }

  function PairOf(runs: seq<RunOutcome>, pairId: string): Pair
    requires PairIsGood(runs, pairId)
  {
    Pair(RunFor(runs, pairId, Baseline).value, RunFor(runs, pairId, SystemSense).value)
  }

  function PairsOf(runs: seq<RunOutcome>, ids: seq<string>): (pairs: seq<Pair>)
    requires forall id :: id in ids ==> PairIsGood(runs, id)
    ensures |pairs| == |ids| && forall i :: 0 <= i < |ids| ==> pairs[i] == PairOf(runs, ids[i])
  {
    if |ids| == 0 then [] else [PairOf(runs, ids[0])] + PairsOf(runs, ids[1..])
  }

  lemma PairIdsAreTheIds(runs: seq<RunOutcome>)
    ensures Distinct(PairIds(runs)) && Sorted(LexLeq, PairIds(runs))
    ensures forall id :: id in PairIds(runs) <==> id in Map(PairId, runs)
  {
    LexIsTotalOrder();
    UniqueMembers(Map(PairId, runs));
    SortSorts(LexLeq, Unique(Map(PairId, runs)));
    var ids := Unique(Map(PairId, runs));
    forall i, j | 0 <= i < j < |PairIds(runs)| ensures PairIds(runs)[i] != PairIds(runs)[j] {
      SortKeepsKeys(LexLeq, (s: string) => s, ids);
      assert Map((s: string) => s, ids) == ids;
      assert Map((s: string) => s, PairIds(runs)) == PairIds(runs);
    }
  }

  lemma IdsAreGood(runs: seq<RunOutcome>)
    requires WellPaired(runs)
    ensures forall id :: id in PairIds(runs) ==> PairIsGood(runs, id)
  {
    PairIdsAreTheIds(runs);
    forall id | id in PairIds(runs) ensures PairIsGood(runs, id) {
      var run := WithKey(PairId, runs, id);
    }
  }

  /** The pairs in the order of their identifiers. */
  function Paired(runs: seq<RunOutcome>): seq<Pair>
    requires WellPaired(runs)
  {
    IdsAreGood(runs);
    PairsOf(runs, PairIds(runs))
  }

  lemma SameRunFor(a: seq<RunOutcome>, b: seq<RunOutcome>, pairId: string, arm: Arm)
    requires multiset(a) == multiset(b) && Distinct(Map(Key, a))
    ensures RunFor(a, pairId, arm) == RunFor(b, pairId, arm)
  {
    SameMembers(a, b);
    var x, y := RunFor(a, pairId, arm), RunFor(b, pairId, arm);
    if x.Some? {
      assert x.value in b;
      if y.Some? {
        SameKey(Key, a, x.value, y.value);
      }
    }
  }

  lemma KeysRearranged(a: seq<RunOutcome>, b: seq<RunOutcome>)
    requires multiset(a) == multiset(b) && Distinct(Map(Key, a))
    ensures Distinct(Map(Key, b))
  {
    SameMembers(a, b);
    forall i, j | 0 <= i < j < |b| ensures Key(b[i]) != Key(b[j]) {
      assert b[i] in a && b[j] in a;
      if Key(b[i]) == Key(b[j]) {
        SameKey(Key, a, b[i], b[j]);
        TwoCopies(b, i, j);
        OneCopy(a, b[i]);
      }
    }
  }

  lemma TwoCopies(xs: seq<RunOutcome>, i: nat, j: nat)
    requires i < j < |xs| && xs[i] == xs[j]
    ensures multiset(xs)[xs[i]] >= 2
  {
    SplitAt(xs, j);
    assert xs[..j][i] == xs[i] && xs[j..][0] == xs[j];
  }

  lemma OneCopy(xs: seq<RunOutcome>, x: RunOutcome)
    requires Distinct(Map(Key, xs))
    ensures multiset(xs)[x] <= 1
  {
    forall i, j | 0 <= i < j < |xs| ensures xs[i] != xs[j] {
      assert Map(Key, xs)[i] != Map(Key, xs)[j];
    }
    CountInDistinct(xs, x);
  }

  lemma SamePairIds(a: seq<RunOutcome>, b: seq<RunOutcome>)
    requires multiset(a) == multiset(b)
    ensures PairIds(a) == PairIds(b)
  {
    var ua, ub := Unique(Map(PairId, a)), Unique(Map(PairId, b));
    SameMembers(a, b);
    UniqueMembers(Map(PairId, a));
    UniqueMembers(Map(PairId, b));
    forall id ensures id in ua <==> id in ub {
      if id in Map(PairId, a) {
        var run := WithKey(PairId, a, id);
        KeyIn(PairId, b, run);
      }
      if id in Map(PairId, b) {
        var run := WithKey(PairId, b, id);
        KeyIn(PairId, a, run);
      }
    }
    SameDistinctMembers(ua, ub);
    LexIsTotalOrder();
    SortForgetsOrder(LexLeq, ua, ub);
  }

  /** Main result: whether runs pair up, and the pairs they make, do not depend on the order of the runs. */
  lemma {:induction false} PairingForgetsOrder(a: seq<RunOutcome>, b: seq<RunOutcome>)
    requires multiset(a) == multiset(b) && WellPaired(a)
    ensures WellPaired(b) && Paired(a) == Paired(b)
  {
    SameMembers(a, b);
    KeysRearranged(a, b);
    forall id ensures PairIsGood(a, id) == PairIsGood(b, id) && (PairIsGood(a, id) ==> PairOf(a, id) == PairOf(b, id)) {
      SameRunFor(a, b, id, Baseline);
      SameRunFor(a, b, id, SystemSense);
    }
    SamePairIds(a, b);
    IdsAreGood(a);
    IdsAreGood(b);
    assert forall i :: 0 <= i < |PairIds(a)| ==> PairIds(a)[i] in PairIds(a);
  }

  /** The pairs have different identifiers, and each is made of two runs of one scenario. */
  lemma {:induction false} PairsAreSound(runs: seq<RunOutcome>)
    requires WellPaired(runs)
    ensures forall i, j :: 0 <= i < j < |Paired(runs)| ==> Paired(runs)[i].baseline.pairId != Paired(runs)[j].baseline.pairId
    ensures forall p :: p in Paired(runs) ==> p.baseline.pairId == p.systemsense.pairId && p.baseline.scenarioId == p.systemsense.scenarioId
  {
    PairIdsAreTheIds(runs);
    IdsAreGood(runs);
    hide PairIsGood, PairOf, WellPaired, PairIds;
    var ids := PairIds(runs);
    forall i | 0 <= i < |ids| ensures ids[i] in ids && PairIsGood(runs, ids[i]) && Paired(runs)[i].baseline.pairId == ids[i]
        && Paired(runs)[i].systemsense.pairId == ids[i] && Paired(runs)[i].baseline.scenarioId == Paired(runs)[i].systemsense.scenarioId
    {
      assert ids[i] in ids;
    }
  }

  lemma PairedAt(runs: seq<RunOutcome>, i: nat)
    requires WellPaired(runs) && i < |PairIds(runs)|
    ensures PairIsGood(runs, PairIds(runs)[i]) && |Paired(runs)| == |PairIds(runs)|
    ensures Paired(runs)[i] == PairOf(runs, PairIds(runs)[i])
  {
    IdsAreGood(runs);
    hide WellPaired, PairIds, PairIsGood, PairOf;
    assert PairIds(runs)[i] in PairIds(runs);
  }

  lemma OwnPair(runs: seq<RunOutcome>, run: RunOutcome)
    requires Distinct(Map(Key, runs)) && run in runs && PairIsGood(runs, run.pairId)
    ensures var p := PairOf(runs, run.pairId); p.baseline == run || p.systemsense == run
  {
    assert run.arm == Baseline || run.arm == SystemSense;
  }

  /** Every run is in its pair. */
  lemma EveryRunIsPaired(runs: seq<RunOutcome>, run: RunOutcome)
    requires WellPaired(runs) && run in runs
    ensures exists i :: 0 <= i < |Paired(runs)| && (Paired(runs)[i].baseline == run || Paired(runs)[i].systemsense == run)
  {
    PairIdsAreTheIds(runs);
    KeyIn(PairId, runs, run);
    OwnPair(runs, run);
    var i :| 0 <= i < |PairIds(runs)| && PairIds(runs)[i] == run.pairId;
    PairedAt(runs, i);
    hide *;
  }

  type Groups = map<string, map<Arm, RunOutcome>>

  function Lookup(grouped: Groups, id: string, arm: Arm): Option<RunOutcome> {
    if id in grouped && arm in grouped[id] then Some(grouped[id][arm]) else None
  }

  /** `grouped[id]` of a defaultdict. */
  function Group(grouped: Groups, id: string): map<Arm, RunOutcome> {
    if id in grouped then grouped[id] else map[]
  }

  /** The dictionary `grouped` holds `runs`, and `order` is its insertion order. */
  ghost predicate Grouped(grouped: Groups, order: seq<string>, runs: seq<RunOutcome>) {
    && (forall id :: id in grouped <==> id in order)
    && (forall id :: id in order <==> id in Map(PairId, runs))
    && (forall id, arm :: Lookup(grouped, id, arm) == RunFor(runs, id, arm))
  }

  lemma GroupedOneMore(grouped: Groups, order: seq<string>, runs: seq<RunOutcome>, run: RunOutcome)
    requires Grouped(grouped, order, runs)
    ensures Grouped(grouped[run.pairId := Group(grouped, run.pairId)[run.arm := run]],
                    if run.pairId in grouped then order else order + [run.pairId], runs + [run])
  {
    assert (runs + [run])[..|runs|] == runs && (runs + [run])[|runs|] == run;
    assert Map(PairId, runs + [run]) == Map(PairId, runs) + [run.pairId];
    var after := grouped[run.pairId := Group(grouped, run.pairId)[run.arm := run]];
    forall id, arm ensures Lookup(after, id, arm) == RunFor(runs + [run], id, arm) {
      assert Lookup(grouped, id, arm) == RunFor(runs, id, arm);
    }
  }

  lemma KeysOneMore(runs: seq<RunOutcome>, run: RunOutcome)
    requires Distinct(Map(Key, runs))
    ensures Distinct(Map(Key, runs + [run])) <==> RunFor(runs, run.pairId, run.arm).None?
  {
    MapConcat(Key, runs, [run]);
    var keys, all := Map(Key, runs), Map(Key, runs + [run]);
    assert all == keys + [Key(run)];
    if RunFor(runs, run.pairId, run.arm).Some? {
      KeyIn(Key, runs, RunFor(runs, run.pairId, run.arm).value);
      var i :| 0 <= i < |keys| && keys[i] == Key(run);
      assert all[i] == all[|runs|];
    }
  }

  /** `_pair_runs`: succeeds exactly on well-paired runs, with the pairs in the order of their identifiers. */
  method PairRuns(runs: seq<RunOutcome>) returns (r: Result<seq<Pair>, AnalysisError>)
    ensures r.Ok? <==> WellPaired(runs)
    ensures r.Ok? ==> r.value == Paired(runs) && |r.value| > 0
    ensures r == Err(NoRuns) <==> runs == []
  {
    var grouped: Groups := map[];
    var order: seq<string> := [];
    for i := 0 to |runs|
      invariant Grouped(grouped, order, runs[..i]) && Distinct(Map(Key, runs[..i]))
    {
      var run := runs[i];
      assert runs[..i + 1] == runs[..i] + [run];
      GroupedOneMore(grouped, order, runs[..i], run);
      KeysOneMore(runs[..i], run);
      var pair := Group(grouped, run.pairId);
      assert Lookup(grouped, run.pairId, run.arm) == RunFor(runs[..i], run.pairId, run.arm);
      if run.arm in pair {
        DuplicateMakesBad(runs, i);
        return Err(DuplicateRun(run.arm, run.pairId));
      }
      order := if run.pairId in grouped then order else order + [run.pairId];
      grouped := grouped[run.pairId := pair[run.arm := run]];
    }
    assert runs[..|runs|] == runs;
    if |runs| == 0 {
      return Err(NoRuns);
    }
    r := CheckPairs(runs, grouped, order);
  }

  lemma DuplicateMakesBad(runs: seq<RunOutcome>, i: nat)
    requires i < |runs| && !Distinct(Map(Key, runs[..i + 1]))
    ensures !Distinct(Map(Key, runs))
  {
    assert Map(Key, runs)[..i + 1] == Map(Key, runs[..i + 1]);
    var j, k :| 0 <= j < k < |Map(Key, runs[..i + 1])| && Map(Key, runs[..i + 1])[j] == Map(Key, runs[..i + 1])[k];
    assert Map(Key, runs)[j] == Map(Key, runs)[k];
  }

  lemma AllGood(runs: seq<RunOutcome>, order: seq<string>)
    requires Distinct(Map(Key, runs)) && |runs| > 0
    requires (forall id :: id in Map(PairId, runs) ==> id in order) && forall j :: 0 <= j < |order| ==> PairIsGood(runs, order[j])
    ensures WellPaired(runs) && |Paired(runs)| > 0
  {
    forall run | run in runs ensures PairIsGood(runs, run.pairId) {
      KeyIn(PairId, runs, run);
    }
    PairIdsAreTheIds(runs);
    KeyIn(PairId, runs, runs[0]);
  }

  lemma PairAt(runs: seq<RunOutcome>, grouped: Groups, order: seq<string>, id: string)
    requires Grouped(grouped, order, runs) && id in order
    ensures id in grouped && id in Map(PairId, runs)
    ensures PairIsGood(runs, id) <==>
      Baseline in grouped[id] && SystemSense in grouped[id] && grouped[id][Baseline].scenarioId == grouped[id][SystemSense].scenarioId
  {
    assert id in grouped && id in Map(PairId, runs);
    assert Lookup(grouped, id, Baseline) == RunFor(runs, id, Baseline);
    assert Lookup(grouped, id, SystemSense) == RunFor(runs, id, SystemSense);
  }

  lemma GroupedIds(runs: seq<RunOutcome>, grouped: Groups, order: seq<string>)
    requires Grouped(grouped, order, runs)
    ensures forall id :: id in order ==> id in grouped
    ensures forall id :: id in Map(PairId, runs) <==> id in order
  {
  }

  method CheckPairs(runs: seq<RunOutcome>, grouped: Groups, order: seq<string>)
    returns (r: Result<seq<Pair>, AnalysisError>)
    requires Grouped(grouped, order, runs) && Distinct(Map(Key, runs)) && |runs| > 0
    ensures r.Ok? <==> WellPaired(runs)
    ensures r.Ok? ==> r.value == Paired(runs) && |r.value| > 0
    ensures r != Err(NoRuns)
  {
    hide Grouped, PairIsGood, WellPaired, Map, Distinct;
    GroupedIds(runs, grouped, order);
    for i := 0 to |order|
      invariant forall j :: 0 <= j < i ==> PairIsGood(runs, order[j])
    {
      PairAt(runs, grouped, order, order[i]);
      var pair := grouped[order[i]];
      if Baseline !in pair || SystemSense !in pair {
        OneBadPair(runs, order[i]);
        return Err(IncompletePair(order[i]));
      }
      if pair[Baseline].scenarioId != pair[SystemSense].scenarioId {
        OneBadPair(runs, order[i]);
        return Err(DifferentScenarios(order[i]));
      }
    }
    AllGood(runs, order);
    IdsAreGood(runs);
    r := Ok(PairsOf(runs, PairIds(runs)));
  }

  lemma OneBadPair(runs: seq<RunOutcome>, id: string)
    requires id in Map(PairId, runs) && !PairIsGood(runs, id)
    ensures !WellPaired(runs)
  {
    var run := WithKey(PairId, runs, id);
    assert !PairIsGood(runs, run.pairId);
  }

  // ---- Statistics ----

  predicate AtMost(a: real, b: real) { a <= b }

  /** `statistics.median` */
  function Median(values: seq<real>): real
    requires |values| > 0
  {
    var s, n := Sort(AtMost, values), |values|;
    if n % 2 == 1 then s[n / 2] else (s[n / 2 - 1] + s[n / 2]) / 2.0
  }

  ghost predicate Between(values: seq<real>, lo: real, hi: real) { forall v :: v in values ==> lo <= v <= hi }

  lemma MedianBetween(values: seq<real>, lo: real, hi: real)
    requires |values| > 0 && Between(values, lo, hi)
    ensures lo <= Median(values) <= hi
  {
    SortSorts(AtMost, values);
    var s, n := Sort(AtMost, values), |values|;
    assert s[n / 2] in s;
    if n % 2 == 0 {
      assert s[n / 2 - 1] in s;
    }
  }

  function Below(m: real): real -> bool { (v: real) => v < m }

  function Beyond(m: real): real -> bool { (v: real) => v > m }

  ghost function CountBelow(values: seq<real>, m: real): nat { |Filter(Below(m), values)| }

  ghost function CountBeyond(values: seq<real>, m: real): nat { |Filter(Beyond(m), values)| }

  lemma NoneBelow(s: seq<real>, m: real, k: nat)
    requires Sorted(AtMost, s) && k < |s| && s[k] >= m
    ensures CountBelow(s, m) <= k
  {
    var rest := s[k..];
    forall v | v in rest ensures !Below(m)(v) {
      var i :| 0 <= i < |rest| && rest[i] == v;
      assert i == 0 || AtMost(s[k], s[k + i]);
    }
    FilterNone(Below(m), rest);
    FilterConcat(Below(m), s[..k], rest);
    assert s == s[..k] + rest;
  }

  lemma NoneBeyond(s: seq<real>, m: real, k: nat)
    requires Sorted(AtMost, s) && k < |s| && s[k] <= m
    ensures CountBeyond(s, m) <= |s| - 1 - k
  {
    var first := s[..k + 1];
    forall v | v in first ensures !Beyond(m)(v) {
      var i :| 0 <= i < |first| && first[i] == v;
      assert i == k || AtMost(s[i], s[k]);
    }
    FilterNone(Beyond(m), first);
    FilterConcat(Beyond(m), first, s[k + 1..]);
    assert s == first + s[k + 1..];
  }

  lemma BelowInSorted(s: seq<real>, m: real, k: nat)
    requires Sorted(AtMost, s) && k < |s|
    ensures s[k] >= m ==> CountBelow(s, m) <= k
    ensures s[k] <= m ==> CountBeyond(s, m) <= |s| - 1 - k
  {
    if s[k] >= m {
      NoneBelow(s, m, k);
    }
    if s[k] <= m {
      NoneBeyond(s, m, k);
    }
  }

  /** The two middle values, which are one when the number of values is odd. */
  ghost predicate MiddleOf(values: seq<real>, lo: real, hi: real) {
    var n := |values|;
    && lo in values && hi in values && lo <= hi
    && CountBelow(values, lo) <= (n - 1) / 2 && CountBeyond(values, lo) <= n / 2
    && CountBelow(values, hi) <= n / 2 && CountBeyond(values, hi) <= (n - 1) / 2
    && (n % 2 == 1 ==> lo == hi)
  }

  lemma SortedMiddle(s: seq<real>, m: real)
    requires Sorted(AtMost, s) && |s| > 0
    ensures MiddleOf(s, s[(|s| - 1) / 2], s[|s| / 2])
    ensures s[(|s| - 1) / 2] <= m <= s[|s| / 2] ==> 2 * CountBelow(s, m) <= |s| && 2 * CountBeyond(s, m) <= |s|
  {
    hide CountBelow, CountBeyond;
    var n := |s|;
    assert (n - 1) / 2 == n / 2 || AtMost(s[(n - 1) / 2], s[n / 2]);
    BelowInSorted(s, m, n / 2);
    BelowInSorted(s, m, (n - 1) / 2);
    BelowInSorted(s, s[(n - 1) / 2], (n - 1) / 2);
    BelowInSorted(s, s[n / 2], n / 2);
  }

  lemma SameMiddle(values: seq<real>, s: seq<real>, lo: real, hi: real)
    requires multiset(values) == multiset(s) && MiddleOf(s, lo, hi)
    ensures MiddleOf(values, lo, hi)
  {
    hide CountBelow, CountBeyond;
    SameMembers(values, s);
    assert |multiset(s)| == |multiset(values)|;
    SameCounts(values, s, lo);
    SameCounts(values, s, hi);
  }

  lemma MiddleIndices(n: nat)
    requires n > 0
    ensures if n % 2 == 1 then (n - 1) / 2 == n / 2 else (n - 1) / 2 == n / 2 - 1 && n / 2 >= 1
  {
  }

  lemma MidpointOfOne(x: real)
    ensures (x + x) / 2.0 == x
  {
  }

  lemma SortIsAsLong(values: seq<real>)
    ensures Sorted(AtMost, Sort(AtMost, values)) && |Sort(AtMost, values)| == |values|
  {
    SortSorts(AtMost, values);
  }

  lemma MedianOfSorted(values: seq<real>)
    requires |values| > 0
    ensures var s, n := Sort(AtMost, values), |values|;
      |s| == n && Median(values) == (s[(n - 1) / 2] + s[n / 2]) / 2.0 && s[(n - 1) / 2] <= s[n / 2]
  {
    SortIsAsLong(values);
    var s, n := Sort(AtMost, values), |values|;
    hide Sort;
    MiddleIndices(n);
    if n % 2 == 1 {
      MidpointOfOne(s[n / 2]);
    } else {
      assert AtMost(s[n / 2 - 1], s[n / 2]);
    }
  }

  /**
   Main result: a median lies in the middle of the two middle values, so at most half of the values lie below it and at
   most half above.
   */
  lemma {:induction false} MedianIsInTheMiddle(values: seq<real>)
    requires |values| > 0
    ensures 2 * CountBelow(values, Median(values)) <= |values| && 2 * CountBeyond(values, Median(values)) <= |values|
    ensures exists lo, hi :: MiddleOf(values, lo, hi) && Median(values) == (lo + hi) / 2.0
  {
    var s, n, m := Sort(AtMost, values), |values|, Median(values);
    SortSorts(AtMost, values);
    MedianOfSorted(values);
    hide CountBelow, CountBeyond, MiddleOf, Median, Sort, Sorted, TotalPreorder;
    SortedMiddle(s, m);
    SameMiddle(values, s, s[(n - 1) / 2], s[n / 2]);
    SameCounts(values, s, m);
  }

  lemma SameCounts(values: seq<real>, s: seq<real>, m: real)
    requires multiset(values) == multiset(s)
    ensures CountBelow(values, m) == CountBelow(s, m) && CountBeyond(values, m) == CountBeyond(s, m)
  {
    FilterRearranged(Below(m), values, s);
    FilterRearranged(Beyond(m), values, s);
    SameLength(Filter(Below(m), values), Filter(Below(m), s));
    SameLength(Filter(Beyond(m), values), Filter(Beyond(m), s));
  }

  lemma SameLength(a: seq<real>, b: seq<real>)
    requires multiset(a) == multiset(b)
    ensures |a| == |b|
  {
    assert |multiset(a)| == |a| && |multiset(b)| == |b|;
  }

  /** One resample: the positions that `choices` drew. */
  ghost predicate ValidDraw(draw: seq<nat>, n: nat) { |draw| == n && forall i :: 0 <= i < |draw| ==> draw[i] < n }

  ghost predicate ValidDraws(draws: seq<seq<nat>>, n: nat, resamples: nat) {
    |draws| == resamples && forall i :: 0 <= i < |draws| ==> ValidDraw(draws[i], n)
  }

  function Resample(values: seq<real>, draw: seq<nat>): (r: seq<real>)
    requires ValidDraw(draw, |values|)
    ensures |r| == |draw| && forall v :: v in r ==> v in values
  {
    seq(|draw|, i requires 0 <= i < |draw| => values[draw[i]])
  }

  function Estimates(values: seq<real>, draws: seq<seq<nat>>): (r: seq<real>)
    requires |values| > 0 && ValidDraws(draws, |values|, |draws|)
    ensures |r| == |draws|
  {
    if |draws| == 0 then [] else [Median(Resample(values, draws[0]))] + Estimates(values, draws[1..])
  }

  /** floor(0.025 m) and ceil(0.975 m) */
  function LowerIndex(resamples: nat): int { (resamples - 1) / 40 }

  function UpperIndex(resamples: nat): int { (39 * (resamples - 1) + 39) / 40 }

  lemma IndicesInRange(resamples: nat)
    requires resamples >= 1
    ensures 0 <= LowerIndex(resamples) <= UpperIndex(resamples) < resamples
    ensures 40 * LowerIndex(resamples) <= resamples - 1 < 40 * (LowerIndex(resamples) + 1)
    ensures 40 * (UpperIndex(resamples) - 1) < 39 * (resamples - 1) <= 40 * UpperIndex(resamples)
  {
  }

  /** `_bootstrap_median_ci` */
  function BootstrapInterval(values: seq<real>, draws: seq<seq<nat>>, resamples: nat): Option<(real, real)>
    requires resamples >= 1 && ValidDraws(draws, |values|, resamples)
  {
    if |values| == 0 then None else
      IndicesInRange(resamples);
      var estimates := Sort(AtMost, Estimates(values, draws));
      Some((estimates[LowerIndex(resamples)], estimates[UpperIndex(resamples)]))
  }

  lemma {:induction false} EstimatesBetween(values: seq<real>, draws: seq<seq<nat>>, lo: real, hi: real)
    requires |values| > 0 && ValidDraws(draws, |values|, |draws|) && Between(values, lo, hi)
    ensures Between(Estimates(values, draws), lo, hi)
  {
    if |draws| > 0 {
      MedianBetween(Resample(values, draws[0]), lo, hi);
      EstimatesBetween(values, draws[1..], lo, hi);
    }
  }

  /**
   Main result: whatever is drawn, the interval is ordered and lies within any bounds of the values, so between their
   least and their greatest.
   */
  lemma IntervalBetween(values: seq<real>, draws: seq<seq<nat>>, resamples: nat, lo: real, hi: real)
    requires |values| > 0 && resamples >= 1 && ValidDraws(draws, |values|, resamples) && Between(values, lo, hi)
    ensures var ci := BootstrapInterval(values, draws, resamples); ci.Some? && lo <= ci.value.0 <= ci.value.1 <= hi
  {
    var estimates := Estimates(values, draws);
    var s := Sort(AtMost, estimates);
    IndicesInRange(resamples);
    EstimatesBetween(values, draws, lo, hi);
    SortSorts(AtMost, estimates);
    var l, u := LowerIndex(resamples), UpperIndex(resamples);
    assert s[l] in s && s[u] in s;
    assert l == u || AtMost(s[l], s[u]);
  }

  // ---- The analysis ----

  datatype PairedAnalysis = PairedAnalysis(
    pairCount: nat, requiredPairCount: nat, enrollmentComplete: bool, validPairCount: nat,
    baselineSuccessRate: real, systemsenseSuccessRate: real, baselineCollateralRate: real, systemsenseCollateralRate: real,
    qualityGate: bool, medianTokenSavings: Option<real>, tokenInterval: Option<(real, real)>,
    medianTimeSavings: Option<real>, timeInterval: Option<(real, real)>, medianToolSavings: Option<real>,
    medianOverhead: Option<real>, tokenClaimAllowed: bool, timeClaimAllowed: bool)

  function Count(keep: Pair -> bool, pairs: seq<Pair>): nat { |Filter(keep, pairs)| }

  predicate BaselinePassed(p: Pair) { p.baseline.oraclePassed }

  predicate SystemsensePassed(p: Pair) { p.systemsense.oraclePassed }

  predicate BaselineCollateral(p: Pair) { p.baseline.collateral }

  predicate SystemsenseCollateral(p: Pair) { p.systemsense.collateral }

  predicate QualityValid(p: Pair) {
    p.baseline.oraclePassed && p.systemsense.oraclePassed && !p.baseline.collateral && !p.systemsense.collateral
  }

  predicate QualityGate(pairs: seq<Pair>) {
    Count(SystemsensePassed, pairs) >= Count(BaselinePassed, pairs) && Count(SystemsenseCollateral, pairs) <= Count(BaselineCollateral, pairs)
  }

  /** `_savings`; None where it raises. */
  function Savings(baseline: nat, systemsense: nat): Option<real> {
    if baseline == 0 then None else Some(100.0 * (baseline as real - systemsense as real) / baseline as real)
  }

  /** A saving is positive exactly when the treated run needed less. */
  lemma PositiveSavings(baseline: nat, systemsense: nat)
    requires baseline > 0
    ensures Savings(baseline, systemsense).value > 0.0 <==> systemsense < baseline
    ensures Savings(baseline, systemsense).value <= 100.0
  {
    var b, s := baseline as real, systemsense as real;
    var x := 100.0 * (b - s) / b;
    assert x * b == 100.0 * (b - s);
  }

  /** The savings of all pairs in one metric, or None when one of them has no baseline metric. */
  function AllSavings(pairs: seq<Pair>, metric: RunOutcome -> nat): (r: Option<seq<real>>)
    ensures r.Some? ==> |r.value| == |pairs|
    ensures r.Some? ==> forall i :: 0 <= i < |pairs| ==>
      Savings(metric(pairs[i].baseline), metric(pairs[i].systemsense)) == Some(r.value[i])
  {
    if |pairs| == 0 then Some([]) else
      var first, rest := Savings(metric(pairs[0].baseline), metric(pairs[0].systemsense)), AllSavings(pairs[1..], metric);
      if first.None? || rest.None? then None else Some([first.value] + rest.value)
  }

  function Tokens(r: RunOutcome): nat { r.totalTokens }

  function Elapsed(r: RunOutcome): nat { r.elapsedMs }

  function ToolCalls(r: RunOutcome): nat { r.toolCalls }

  function Overhead(p: Pair): real { p.systemsense.overheadMs as real }

  predicate UsedTools(p: Pair) { p.baseline.toolCalls > 0 }

  function MedianOf(values: seq<real>): Option<real> { if |values| == 0 then None else Some(Median(values)) }

  function Rate(n: nat, pairs: nat): real
    requires pairs > 0
  {
    n as real / pairs as real
  }

  // ---- What is counted ----

  function RunIn(p: Pair, arm: Arm): RunOutcome { match arm case Baseline => p.baseline case SystemSense => p.systemsense }

  /** The pairs whose run in this arm passed the oracle. */
  ghost function PassedIn(pairs: seq<Pair>, arm: Arm): set<nat> { set i: nat | i < |pairs| && RunIn(pairs[i], arm).oraclePassed }

  /** The pairs whose run in this arm changed something that it should not. */
  ghost function DamagedIn(pairs: seq<Pair>, arm: Arm): set<nat> { set i: nat | i < |pairs| && RunIn(pairs[i], arm).collateral }

  /** The pairs whose two runs passed without such a change. */
  ghost function ComparableIn(pairs: seq<Pair>): set<nat> {
    set i: nat | i < |pairs| && forall arm :: RunIn(pairs[i], arm).oraclePassed && !RunIn(pairs[i], arm).collateral
  }

  lemma CountOneMore(keep: Pair -> bool, pairs: seq<Pair>)
    requires |pairs| > 0
    ensures Count(keep, pairs) == Count(keep, pairs[..|pairs| - 1]) + if keep(pairs[|pairs| - 1]) then 1 else 0
  {
    var most, last := pairs[..|pairs| - 1], pairs[|pairs| - 1];
    assert pairs == most + [last];
    FilterConcat(keep, most, [last]);
    FilterOne(keep, last);
  }

  lemma FilterOne(keep: Pair -> bool, p: Pair)
    ensures |Filter(keep, [p])| == if keep(p) then 1 else 0
  {
  }

  ghost predicate AreWhere(indices: set<nat>, keep: Pair -> bool, pairs: seq<Pair>) {
    forall i: nat :: i in indices <==> i < |pairs| && keep(pairs[i])
  }

  lemma WhereInMost(keep: Pair -> bool, pairs: seq<Pair>, indices: set<nat>)
    requires |pairs| > 0 && AreWhere(indices, keep, pairs)
    ensures AreWhere(indices - {|pairs| - 1}, keep, pairs[..|pairs| - 1])
    ensures |indices| == |indices - {|pairs| - 1}| + if keep(pairs[|pairs| - 1]) then 1 else 0
  {
    var n := |pairs| - 1;
    if n in indices {
      assert indices == (indices - {n}) + {n};
    } else {
      assert indices == indices - {n};
    }
  }

  lemma {:induction false} CountIsCardinality(keep: Pair -> bool, pairs: seq<Pair>, indices: set<nat>)
    requires AreWhere(indices, keep, pairs)
    ensures Count(keep, pairs) == |indices|
  {
    if |pairs| > 0 {
      hide AreWhere, Count;
      CountOneMore(keep, pairs);
      WhereInMost(keep, pairs, indices);
      CountIsCardinality(keep, pairs[..|pairs| - 1], indices - {|pairs| - 1});
    } else {
      assert indices == {};
    }
  }

  lemma ComparableIsQualityValid(p: Pair)
    ensures QualityValid(p) <==> forall arm :: RunIn(p, arm).oraclePassed && !RunIn(p, arm).collateral
  {
    if forall arm :: RunIn(p, arm).oraclePassed && !RunIn(p, arm).collateral {
      assert RunIn(p, Baseline).oraclePassed && RunIn(p, SystemSense).oraclePassed;
    }
  }

  lemma CountsAreCardinalities(pairs: seq<Pair>)
    ensures Count(BaselinePassed, pairs) == |PassedIn(pairs, Baseline)| && Count(SystemsensePassed, pairs) == |PassedIn(pairs, SystemSense)|
    ensures Count(BaselineCollateral, pairs) == |DamagedIn(pairs, Baseline)|
    ensures Count(SystemsenseCollateral, pairs) == |DamagedIn(pairs, SystemSense)|
    ensures Count(QualityValid, pairs) == |ComparableIn(pairs)|
  {
    hide Count;
    CountIsCardinality(BaselinePassed, pairs, PassedIn(pairs, Baseline));
    CountIsCardinality(SystemsensePassed, pairs, PassedIn(pairs, SystemSense));
    CountIsCardinality(BaselineCollateral, pairs, DamagedIn(pairs, Baseline));
    CountIsCardinality(SystemsenseCollateral, pairs, DamagedIn(pairs, SystemSense));
    forall i: nat | i < |pairs| ensures i in ComparableIn(pairs) <==> QualityValid(pairs[i]) {
      ComparableIsQualityValid(pairs[i]);
    }
    CountIsCardinality(QualityValid, pairs, ComparableIn(pairs));
  }

  /** The treated arm passed at least as often as the baseline, and did damage at most as often. */
  ghost predicate NoWorse(pairs: seq<Pair>) {
    && |PassedIn(pairs, SystemSense)| >= |PassedIn(pairs, Baseline)|
    && |DamagedIn(pairs, SystemSense)| <= |DamagedIn(pairs, Baseline)|
  }

  /** What an analysis counts. */
  ghost predicate CountsRight(pairs: seq<Pair>, required: nat, a: PairedAnalysis) {
    var n := |pairs|;
    && n > 0 && a.pairCount == n && a.requiredPairCount == required && (a.enrollmentComplete <==> n >= required)
    && a.validPairCount == |ComparableIn(pairs)|
    && IsShare(a.baselineSuccessRate, |PassedIn(pairs, Baseline)|, n)
    && IsShare(a.systemsenseSuccessRate, |PassedIn(pairs, SystemSense)|, n)
    && IsShare(a.baselineCollateralRate, |DamagedIn(pairs, Baseline)|, n)
    && IsShare(a.systemsenseCollateralRate, |DamagedIn(pairs, SystemSense)|, n)
    && (a.qualityGate <==> NoWorse(pairs))
  }

  /** On what its claims rest. */
  ghost predicate ClaimsRight(pairs: seq<Pair>, required: nat, a: PairedAnalysis) {
    var enough := NoWorse(pairs) && |pairs| >= required && |ComparableIn(pairs)| >= 2;
    && (a.tokenClaimAllowed ==> enough && a.tokenInterval.Some? && 0.0 < a.tokenInterval.value.0 <= a.tokenInterval.value.1)
    && (a.timeClaimAllowed ==> enough && a.timeInterval.Some? && 0.0 < a.timeInterval.value.0 <= a.timeInterval.value.1)
  }

  /** The saving of every one of these pairs lies between `lo` and `hi` percent. */
  ghost predicate AllSavingIn(valid: seq<Pair>, metric: RunOutcome -> nat, lo: real, hi: real) {
    forall p :: p in valid ==>
      Savings(metric(p.baseline), metric(p.systemsense)).Some? && lo <= Savings(metric(p.baseline), metric(p.systemsense)).value <= hi
  }

  ghost predicate AllOverheadIn(valid: seq<Pair>, lo: real, hi: real) {
    forall p :: p in valid ==> lo <= p.systemsense.overheadMs as real <= hi
  }

  /** Whatever bounds hold for all savings in this metric hold for its median. */
  ghost predicate MedianRight(valid: seq<Pair>, metric: RunOutcome -> nat, median: Option<real>) {
    && (median.Some? <==> valid != [])
    && forall lo, hi :: valid != [] && AllSavingIn(valid, metric, lo, hi) ==> lo <= median.value <= hi
  }

  /** And for its interval. */
  ghost predicate IntervalRight(valid: seq<Pair>, metric: RunOutcome -> nat, interval: Option<(real, real)>) {
    && (interval.Some? <==> valid != [])
    && forall lo, hi :: valid != [] && AllSavingIn(valid, metric, lo, hi) ==> lo <= interval.value.0 <= interval.value.1 <= hi
  }

  /** Each summary is one of its own metric. */
  ghost predicate SummariesRight(pairs: seq<Pair>, a: PairedAnalysis) {
    var valid := Filter(QualityValid, pairs);
    && MedianRight(valid, Tokens, a.medianTokenSavings) && IntervalRight(valid, Tokens, a.tokenInterval)
    && MedianRight(valid, Elapsed, a.medianTimeSavings) && IntervalRight(valid, Elapsed, a.timeInterval)
    && MedianRight(Filter(UsedTools, valid), ToolCalls, a.medianToolSavings)
    && (a.medianToolSavings.Some? <==> exists p :: p in valid && p.baseline.toolCalls > 0)
    && (a.medianOverhead.Some? <==> valid != [])
    && forall lo, hi :: valid != [] && AllOverheadIn(valid, lo, hi) ==> lo <= a.medianOverhead.value <= hi
  }

  lemma SavingsBetween(valid: seq<Pair>, metric: RunOutcome -> nat, lo: real, hi: real)
    requires AllSavings(valid, metric).Some? && AllSavingIn(valid, metric, lo, hi)
    ensures Between(AllSavings(valid, metric).value, lo, hi)
  {
    var values := AllSavings(valid, metric).value;
    forall v | v in values ensures lo <= v <= hi {
      var i :| 0 <= i < |values| && values[i] == v;
      assert valid[i] in valid;
      assert Savings(metric(valid[i].baseline), metric(valid[i].systemsense)) == Some(values[i]);
    }
  }

  lemma MedianIsRight(valid: seq<Pair>, metric: RunOutcome -> nat)
    requires AllSavings(valid, metric).Some?
    ensures MedianRight(valid, metric, MedianOf(AllSavings(valid, metric).value))
  {
    hide AllSavingIn, Median;
    forall lo, hi | valid != [] && AllSavingIn(valid, metric, lo, hi) ensures lo <= Median(AllSavings(valid, metric).value) <= hi {
      SavingsBetween(valid, metric, lo, hi);
      MedianBetween(AllSavings(valid, metric).value, lo, hi);
    }
  }

  lemma IntervalIsRight(valid: seq<Pair>, metric: RunOutcome -> nat, draws: seq<seq<nat>>, resamples: nat)
    requires AllSavings(valid, metric).Some? && resamples >= 1 && ValidDraws(draws, |valid|, resamples)
    ensures IntervalRight(valid, metric, BootstrapInterval(AllSavings(valid, metric).value, draws, resamples))
  {
    hide AllSavingIn;
    forall lo, hi | valid != [] && AllSavingIn(valid, metric, lo, hi)
      ensures var ci := BootstrapInterval(AllSavings(valid, metric).value, draws, resamples); ci.Some? && lo <= ci.value.0 <= ci.value.1 <= hi
    {
      SavingsBetween(valid, metric, lo, hi);
      IntervalBetween(AllSavings(valid, metric).value, draws, resamples, lo, hi);
    }
  }

  lemma OverheadIsRight(valid: seq<Pair>)
    ensures MedianOf(Map(Overhead, valid)).Some? <==> valid != []
    ensures forall lo, hi :: valid != [] && AllOverheadIn(valid, lo, hi) ==> lo <= MedianOf(Map(Overhead, valid)).value <= hi
  {
    hide Median;
    forall lo, hi | valid != [] && AllOverheadIn(valid, lo, hi) ensures lo <= Median(Map(Overhead, valid)) <= hi {
      MedianBetween(Map(Overhead, valid), lo, hi);
    }
  }

  lemma ToolsMedian(valid: seq<Pair>, median: Option<real>)
    requires MedianRight(Filter(UsedTools, valid), ToolCalls, median)
    ensures median.Some? <==> exists p :: p in valid && p.baseline.toolCalls > 0
  {
    var used := Filter(UsedTools, valid);
    if used != [] {
      assert used[0] in used;
    }
  }

  lemma SummariesOf(pairs: seq<Pair>, required: nat, resamples: nat, tokenDraws: seq<seq<nat>>, timeDraws: seq<seq<nat>>)
    requires |pairs| > 0 && resamples >= 100
    requires var n := |Filter(QualityValid, pairs)|; ValidDraws(tokenDraws, n, resamples) && ValidDraws(timeDraws, n, resamples)
    requires Analyze(pairs, required, resamples, tokenDraws, timeDraws).Ok?
    ensures var valid, a := Filter(QualityValid, pairs), Analyze(pairs, required, resamples, tokenDraws, timeDraws).value;
      && AllSavings(valid, Tokens).Some? && AllSavings(valid, Elapsed).Some? && AllSavings(Filter(UsedTools, valid), ToolCalls).Some?
      && a.medianTokenSavings == MedianOf(AllSavings(valid, Tokens).value)
      && a.tokenInterval == BootstrapInterval(AllSavings(valid, Tokens).value, tokenDraws, resamples)
      && a.medianTimeSavings == MedianOf(AllSavings(valid, Elapsed).value)
      && a.timeInterval == BootstrapInterval(AllSavings(valid, Elapsed).value, timeDraws, resamples)
      && a.medianToolSavings == MedianOf(AllSavings(Filter(UsedTools, valid), ToolCalls).value)
      && a.medianOverhead == MedianOf(Map(Overhead, valid))
  {
    hide MedianOf, BootstrapInterval, QualityGate, Claim, Rate, Count;
  }

  /** Main result: what is reported as a metric's median and interval is one of that metric. */
  lemma {:induction false} AnalysisSummarizes(pairs: seq<Pair>, required: nat, resamples: nat, tokenDraws: seq<seq<nat>>, timeDraws: seq<seq<nat>>)
    requires |pairs| > 0 && resamples >= 100
    requires var n := |Filter(QualityValid, pairs)|; ValidDraws(tokenDraws, n, resamples) && ValidDraws(timeDraws, n, resamples)
    ensures var r := Analyze(pairs, required, resamples, tokenDraws, timeDraws); r.Ok? ==> SummariesRight(pairs, r.value)
  {
    var valid := Filter(QualityValid, pairs);
    if Analyze(pairs, required, resamples, tokenDraws, timeDraws).Ok? {
      SummariesOf(pairs, required, resamples, tokenDraws, timeDraws);
      hide Analyze, MedianRight, IntervalRight, MedianOf, BootstrapInterval, AllOverheadIn;
      MedianIsRight(valid, Tokens);
      MedianIsRight(valid, Elapsed);
      MedianIsRight(Filter(UsedTools, valid), ToolCalls);
      ToolsMedian(valid, MedianOf(AllSavings(Filter(UsedTools, valid), ToolCalls).value));
      IntervalIsRight(valid, Tokens, tokenDraws, resamples);
      IntervalIsRight(valid, Elapsed, timeDraws, resamples);
      OverheadIsRight(valid);
    }
  }

  /** `rate` is `k` out of `n`. */
  ghost predicate IsShare(rate: real, k: nat, n: nat) { rate * n as real == k as real }

  lemma RateTimes(k: nat, n: nat)
    requires n > 0
    ensures IsShare(Rate(k, n), k, n)
  {
  }

  /** The claim that one metric was saved. */
  predicate Claim(gate: bool, complete: bool, valid: nat, interval: Option<(real, real)>) {
    gate && complete && valid >= 2 && interval.Some? && interval.value.0 > 0.0
  }

  /** `analyze_paired_runs`; the draws are those of the two seeded generators. */
  method AnalyzePairedRuns(runs: seq<RunOutcome>, required: nat, resamples: nat, tokenDraws: seq<seq<nat>>, timeDraws: seq<seq<nat>>)
    returns (r: Result<PairedAnalysis, AnalysisError>)
    requires WellPaired(runs) ==>
      var n := |Filter(QualityValid, Paired(runs))|; ValidDraws(tokenDraws, n, resamples) && ValidDraws(timeDraws, n, resamples)
    ensures required < 2 ==> r == Err(TooFewPairsRequired)
    ensures required >= 2 && !WellPaired(runs) ==> r.Err?
    ensures required >= 2 && WellPaired(runs) ==> r == Analyze(Paired(runs), required, resamples, tokenDraws, timeDraws)
    ensures r.Ok? <==> required >= 2 && WellPaired(runs) && resamples >= 100 && AllValid(Paired(runs), HasBaselineTokens)
    ensures r.Ok? ==> CountsRight(Paired(runs), required, r.value) && ClaimsRight(Paired(runs), required, r.value)
    ensures r.Ok? ==> SummariesRight(Paired(runs), r.value)
  {
    if required < 2 {
      return Err(TooFewPairsRequired);
    }
    var pairs := PairRuns(runs);
    if pairs.Err? {
      return Err(pairs.error);
    }
    hide Analyze;
    AnalysisFailsExactlyWhen(pairs.value, required, resamples, tokenDraws, timeDraws);
    if resamples >= 100 {
      AnalysisCountsRight(pairs.value, required, resamples, tokenDraws, timeDraws);
      AnalysisSummarizes(pairs.value, required, resamples, tokenDraws, timeDraws);
    }
    hide CountsRight, ClaimsRight, SummariesRight;
    r := Analyze(pairs.value, required, resamples, tokenDraws, timeDraws);
  }

  function Analyze(pairs: seq<Pair>, required: nat, resamples: nat, tokenDraws: seq<seq<nat>>, timeDraws: seq<seq<nat>>): Result<PairedAnalysis, AnalysisError>
    requires |pairs| > 0
    requires var n := |Filter(QualityValid, pairs)|; ValidDraws(tokenDraws, n, resamples) && ValidDraws(timeDraws, n, resamples)
  {
    if resamples < 100 then Err(TooFewResamples) else
      var valid := Filter(QualityValid, pairs);
      var tokens, times := AllSavings(valid, Tokens), AllSavings(valid, Elapsed);
      var tools := AllSavings(Filter(UsedTools, valid), ToolCalls);
      if tokens.None? || times.None? || tools.None? then Err(NoBaselineMetric) else
        var tokenInterval := BootstrapInterval(tokens.value, tokenDraws, resamples);
        var timeInterval := BootstrapInterval(times.value, timeDraws, resamples);
        var n, gate, complete := |pairs|, QualityGate(pairs), |pairs| >= required;
        Ok(PairedAnalysis(
          n, required, complete, |valid|,
          Rate(Count(BaselinePassed, pairs), n), Rate(Count(SystemsensePassed, pairs), n),
          Rate(Count(BaselineCollateral, pairs), n), Rate(Count(SystemsenseCollateral, pairs), n),
          gate, MedianOf(tokens.value), tokenInterval, MedianOf(times.value), timeInterval,
          MedianOf(tools.value), MedianOf(Map(Overhead, valid)),
          Claim(gate, complete, |valid|, tokenInterval), Claim(gate, complete, |valid|, timeInterval)))
  }

  /** All quality-valid pairs satisfy `test`. */
  ghost predicate AllValid(pairs: seq<Pair>, test: Pair -> bool) {
    forall p :: p in pairs && QualityValid(p) ==> test(p)
  }

  function Saves(metric: RunOutcome -> nat): Pair -> bool { (p: Pair) => metric(p.systemsense) < metric(p.baseline) }

  function SavesNothing(metric: RunOutcome -> nat): Pair -> bool { (p: Pair) => metric(p.systemsense) >= metric(p.baseline) }

  lemma SavingsSigns(valid: seq<Pair>, metric: RunOutcome -> nat)
    requires AllSavings(valid, metric).Some?
    ensures (forall p :: p in valid ==> Saves(metric)(p)) ==> forall v :: v in AllSavings(valid, metric).value ==> 0.0 < v <= 100.0
    ensures (forall p :: p in valid ==> SavesNothing(metric)(p)) ==> forall v :: v in AllSavings(valid, metric).value ==> v <= 0.0
  {
    var values := AllSavings(valid, metric).value;
    forall v | v in values
      ensures exists p :: p in valid && (v > 0.0 <==> Saves(metric)(p)) && v <= 100.0
    {
      var i :| 0 <= i < |values| && values[i] == v;
      assert Savings(metric(valid[i].baseline), metric(valid[i].systemsense)) == Some(values[i]);
      PositiveSavings(metric(valid[i].baseline), metric(valid[i].systemsense));
      assert valid[i] in valid;
    }
  }

  /** The savings of one metric fail exactly when some pair has no baseline to compare with. */
  lemma {:induction false} NoMetricExactlyWhen(valid: seq<Pair>, metric: RunOutcome -> nat)
    ensures AllSavings(valid, metric).None? <==> exists p :: p in valid && metric(p.baseline) == 0
  {
    if |valid| > 0 {
      NoMetricExactlyWhen(valid[1..], metric);
      assert valid == [valid[0]] + valid[1..];
    }
  }

  /** The bootstrap interval of savings that are all positive, or all not, has that sign whatever is drawn. */
  lemma {:induction false} IntervalSigns(valid: seq<Pair>, metric: RunOutcome -> nat, draws: seq<seq<nat>>, resamples: nat)
    requires AllSavings(valid, metric).Some? && |valid| > 0 && resamples >= 1 && ValidDraws(draws, |valid|, resamples)
    ensures var ci := BootstrapInterval(AllSavings(valid, metric).value, draws, resamples);
      && ci.Some?
      && ((forall p :: p in valid ==> Saves(metric)(p)) ==> ci.value.0 > 0.0)
      && ((forall p :: p in valid ==> SavesNothing(metric)(p)) ==> ci.value.0 <= 0.0)
  {
    var values := AllSavings(valid, metric).value;
    SavingsSigns(valid, metric);
    var lo, hi := Bounds(values);
    IntervalBetween(values, draws, resamples, lo, hi);
  }

  /** The least and the greatest of some values. */
  lemma {:induction false} Bounds(values: seq<real>) returns (lo: real, hi: real)
    requires |values| > 0
    ensures lo in values && hi in values && Between(values, lo, hi)
  {
    lo, hi := values[0], values[0];
    if |values| > 1 {
      var l, h := Bounds(values[1..]);
      lo, hi := if l < values[0] then l else values[0], if h > values[0] then h else values[0];
      assert values == [values[0]] + values[1..];
    }
  }

  predicate HasBaselineTokens(p: Pair) { p.baseline.totalTokens > 0 }

  /**
   Main result: for enough resamples the analysis of a sample fails exactly when some quality-valid pair has a baseline run
   without tokens. Elapsed times are positive, and pairs without tool calls are left out, so no other metric makes it fail.
   */
  lemma {:induction false} AnalysisFailsExactlyWhen(pairs: seq<Pair>, required: nat, resamples: nat, tokenDraws: seq<seq<nat>>, timeDraws: seq<seq<nat>>)
    requires |pairs| > 0
    requires var n := |Filter(QualityValid, pairs)|; ValidDraws(tokenDraws, n, resamples) && ValidDraws(timeDraws, n, resamples)
    ensures Analyze(pairs, required, resamples, tokenDraws, timeDraws).Err? <==> resamples < 100 || !AllValid(pairs, HasBaselineTokens)
  {
    var valid := Filter(QualityValid, pairs);
    hide QualityGate, BootstrapInterval, Rate, Count, MedianOf, Claim;
    NoMetricExactlyWhen(valid, Tokens);
    NoMetricExactlyWhen(valid, Elapsed);
    NoMetricExactlyWhen(Filter(UsedTools, valid), ToolCalls);
    assert forall p :: p in valid ==> Elapsed(p.baseline) >= 1;
    assert forall p :: p in Filter(UsedTools, valid) ==> ToolCalls(p.baseline) > 0;
  }

  /**
   Main result: every count and rate is the cardinality of what it is named after, and no claim is allowed for a treatment
   that passes less often or does more damage.
   */
  lemma {:induction false} AnalysisCountsRight(pairs: seq<Pair>, required: nat, resamples: nat, tokenDraws: seq<seq<nat>>, timeDraws: seq<seq<nat>>)
    requires |pairs| > 0 && resamples >= 100
    requires var n := |Filter(QualityValid, pairs)|; ValidDraws(tokenDraws, n, resamples) && ValidDraws(timeDraws, n, resamples)
    ensures var r := Analyze(pairs, required, resamples, tokenDraws, timeDraws);
      r.Ok? ==> CountsRight(pairs, required, r.value) && ClaimsRight(pairs, required, r.value)
  {
    var r := Analyze(pairs, required, resamples, tokenDraws, timeDraws);
    if r.Ok? {
      CountsOf(pairs, required, resamples, tokenDraws, timeDraws);
      ClaimsOf(pairs, required, resamples, tokenDraws, timeDraws);
      hide Analyze, CountsRight, ClaimsRight, Filter;
    }
  }

  lemma CountsOf(pairs: seq<Pair>, required: nat, resamples: nat, tokenDraws: seq<seq<nat>>, timeDraws: seq<seq<nat>>)
    requires |pairs| > 0 && resamples >= 100
    requires var n := |Filter(QualityValid, pairs)|; ValidDraws(tokenDraws, n, resamples) && ValidDraws(timeDraws, n, resamples)
    requires Analyze(pairs, required, resamples, tokenDraws, timeDraws).Ok?
    ensures CountsRight(pairs, required, Analyze(pairs, required, resamples, tokenDraws, timeDraws).value)
  {
    CountsAreCardinalities(pairs);
    RateTimes(Count(BaselinePassed, pairs), |pairs|);
    RateTimes(Count(SystemsensePassed, pairs), |pairs|);
    RateTimes(Count(BaselineCollateral, pairs), |pairs|);
    RateTimes(Count(SystemsenseCollateral, pairs), |pairs|);
    hide PassedIn, DamagedIn, ComparableIn, Rate, MedianOf, BootstrapInterval, Claim, IsShare;
    assert CountsRight(pairs, required, Analyze(pairs, required, resamples, tokenDraws, timeDraws).value);
  }

  lemma ClaimsOf(pairs: seq<Pair>, required: nat, resamples: nat, tokenDraws: seq<seq<nat>>, timeDraws: seq<seq<nat>>)
    requires |pairs| > 0 && resamples >= 100
    requires var n := |Filter(QualityValid, pairs)|; ValidDraws(tokenDraws, n, resamples) && ValidDraws(timeDraws, n, resamples)
    requires Analyze(pairs, required, resamples, tokenDraws, timeDraws).Ok?
    ensures ClaimsRight(pairs, required, Analyze(pairs, required, resamples, tokenDraws, timeDraws).value)
  {
    var valid := Filter(QualityValid, pairs);
    CountsAreCardinalities(pairs);
    hide PassedIn, DamagedIn, ComparableIn, Rate, MedianOf, BootstrapInterval;
    IntervalIsOrdered(AllSavings(valid, Tokens).value, tokenDraws, resamples);
    IntervalIsOrdered(AllSavings(valid, Elapsed).value, timeDraws, resamples);
  }

  lemma IntervalIsOrdered(values: seq<real>, draws: seq<seq<nat>>, resamples: nat)
    requires resamples >= 1 && ValidDraws(draws, |values|, resamples)
    ensures var ci := BootstrapInterval(values, draws, resamples); ci.Some? ==> ci.value.0 <= ci.value.1
  {
    if |values| > 0 {
      var lo, hi := Bounds(values);
      IntervalBetween(values, draws, resamples, lo, hi);
    }
  }

  /** Two runs that both pass, the baseline run without a counted token. */
  lemma ZeroTokensFail()
    ensures var p := Pair(RunOutcome("p", "s", Baseline, true, false, 1, 0, 1, 0), RunOutcome("p", "s", SystemSense, true, false, 1, 1, 1, 0));
      && WellPaired([p.baseline, p.systemsense]) && QualityValid(p) && Filter(QualityValid, [p]) == [p]
      && forall tokenDraws: seq<seq<nat>>, timeDraws: seq<seq<nat>> | ValidDraws(tokenDraws, 1, 100) && ValidDraws(timeDraws, 1, 100) ::
        Analyze([p], 2, 100, tokenDraws, timeDraws) == Err(NoBaselineMetric)
  {
    var p := Pair(RunOutcome("p", "s", Baseline, true, false, 1, 0, 1, 0), RunOutcome("p", "s", SystemSense, true, false, 1, 1, 1, 0));
    assert PairIsGood([p.baseline, p.systemsense], "p");
    NoMetricExactlyWhen([p], Tokens);
    assert Tokens(p.baseline) == 0;
  }

  /**
   Main result: if the gates hold and every quality-valid pair saves tokens, the analysis succeeds and allows the token claim,
   whatever is drawn; an analysis that succeeds allows the time claim if every such pair saves time; it allows no claim for
   a metric in which none of them saves, nor any when a gate fails.
   */
  lemma {:induction false} ClaimFollowsTheSavings(pairs: seq<Pair>, required: nat, resamples: nat, tokenDraws: seq<seq<nat>>, timeDraws: seq<seq<nat>>)
    requires |pairs| > 0 && resamples >= 100
    requires var n := |Filter(QualityValid, pairs)|; ValidDraws(tokenDraws, n, resamples) && ValidDraws(timeDraws, n, resamples)
    ensures var r := Analyze(pairs, required, resamples, tokenDraws, timeDraws);
      var gates := NoWorse(pairs) && |pairs| >= required && |ComparableIn(pairs)| >= 2;
      && (gates && AllValid(pairs, Saves(Tokens)) ==> r.Ok? && r.value.tokenClaimAllowed)
      && (r.Ok? && gates && AllValid(pairs, Saves(Elapsed)) ==> r.value.timeClaimAllowed)
      && (r.Ok? && (!gates || AllValid(pairs, SavesNothing(Tokens))) ==> !r.value.tokenClaimAllowed)
      && (r.Ok? && (!gates || AllValid(pairs, SavesNothing(Elapsed))) ==> !r.value.timeClaimAllowed)
  {
    var valid := Filter(QualityValid, pairs);
    hide BootstrapInterval, SavesNothing, Rate, MedianOf, PassedIn, DamagedIn, ComparableIn;
    AnalysisFailsExactlyWhen(pairs, required, resamples, tokenDraws, timeDraws);
    CountsAreCardinalities(pairs);
    assert QualityGate(pairs) <==> NoWorse(pairs);
    assert AllValid(pairs, Saves(Tokens)) ==> AllValid(pairs, HasBaselineTokens);
    if |valid| > 0 && Analyze(pairs, required, resamples, tokenDraws, timeDraws).Ok? {
      IntervalSigns(valid, Tokens, tokenDraws, resamples);
      IntervalSigns(valid, Elapsed, timeDraws, resamples);
    }
  }

  /** The order of the runs does not change the analysis either, for the same draws. */
  lemma {:induction false} AnalysisForgetsOrder(a: seq<RunOutcome>, b: seq<RunOutcome>, required: nat, resamples: nat, tokenDraws: seq<seq<nat>>, timeDraws: seq<seq<nat>>)
    requires multiset(a) == multiset(b) && WellPaired(a) && |Paired(a)| > 0
    requires var n := |Filter(QualityValid, Paired(a))|; ValidDraws(tokenDraws, n, resamples) && ValidDraws(timeDraws, n, resamples)
    ensures WellPaired(b) && |Paired(b)| > 0
    ensures var n := |Filter(QualityValid, Paired(b))|; ValidDraws(tokenDraws, n, resamples) && ValidDraws(timeDraws, n, resamples)
    ensures Analyze(Paired(a), required, resamples, tokenDraws, timeDraws) == Analyze(Paired(b), required, resamples, tokenDraws, timeDraws)
  {
    PairingForgetsOrder(a, b);
  }
}
