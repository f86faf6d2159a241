/**
 The inventory of src/systemsense/inventory/service.py with the freshness rules of
 src/systemsense/inventory/freshness.py and src/systemsense/domain/inventory.py. Times are seconds.
 */
module Inventory {
  import opened Results
  import opened Sequences
  import opened Store

  // ---- Freshness ----

  datatype Reason = Fresh | TtlExpired | Invalidated

  datatype Freshness = Freshness(ageSeconds: nat, stale: bool, reason: Reason)

  datatype Signal = DriverChange | NetworkChange | UpdateChange | Boot | ProcessChange

  function CategoriesForSignal(signal: Signal): set<string> {
    match signal
    case DriverChange => {"devices", "drivers", "audio", "gpu"}
    case NetworkChange => {"network"}
    case UpdateChange => {"servicing"}
    case Boot => {"system", "resources", "processes", "services"}
    case ProcessChange => {"processes", "ports", "resources"}
  }

  /** `InventoryFact.is_stale`. */
  predicate IsStale(fact: InventoryFact, at: int) {
    if fact.invalidatedAt.Some? && at >= fact.invalidatedAt.value then true
    else at > fact.observedAt + fact.ttlSeconds
  }

  /** What `InventoryFact` accepts: a positive time to live, and no invalidation before the observation. */
  predicate ValidFact(fact: InventoryFact) {
    fact.ttlSeconds > 0 && (fact.invalidatedAt.Some? ==> fact.invalidatedAt.value >= fact.observedAt)
  }

  function AssessFreshness(observedAt: int, ttlSeconds: int, invalidatedAt: Option<int>, at: int): (r: Result<Freshness, ()>)
    ensures r.Ok? <==> ttlSeconds >= 1
    ensures r.Ok? ==> r.value.ageSeconds == Max(0, at - observedAt)
    ensures forall value :: r.Ok? ==> (r.value.stale <==> IsStale(InventoryFact(value, observedAt, ttlSeconds, invalidatedAt), at))
    ensures r.Ok? ==> (r.value.reason.Fresh? <==> !r.value.stale)
    ensures r.Ok? ==> (r.value.reason.Invalidated? <==> invalidatedAt.Some? && invalidatedAt.value <= at)
  {
    if ttlSeconds < 1 then Err(()) else
      var age: nat := Max(0, at - observedAt);
      if invalidatedAt.Some? && at >= invalidatedAt.value then Ok(Freshness(age, true, Invalidated))
      else if at > observedAt + ttlSeconds then Ok(Freshness(age, true, TtlExpired))
      else Ok(Freshness(age, false, Fresh))
  }

  // ---- Keys ----

  /** `entity_` and 32 hexadecimal digits. */
  ghost predicate IsEntityId(id: string) {
    |id| == 39 && id[..7] == "entity_" && forall i :: 7 <= i < 39 ==> '0' <= id[i] <= '9' || 'a' <= id[i] <= 'f'
  }

  function FactKey(entityId: string, name: string): string { entityId + ":" + name }

  lemma FactKeyInjective(e1: string, n1: string, e2: string, n2: string)
    requires IsEntityId(e1) && IsEntityId(e2) && FactKey(e1, n1) == FactKey(e2, n2)
    ensures e1 == e2 && n1 == n2
  {
    var k1, k2 := FactKey(e1, n1), FactKey(e2, n2);
    assert k1[..39] == e1 && k1[40..] == n1;
    assert k2[..39] == e2 && k2[40..] == n2;
  }

  // ---- Runs of refreshes and invalidations ----

  datatype Op = Refresh(key: InventoryKey, fact: InventoryFact) | Invalidate(category: string, at: int)

  function Apply(t: Tables, op: Op): Tables {
    match op
    case Refresh(key, fact) => UpsertInventory(t, key, fact).0
    case Invalidate(category, at) => InvalidateInventory(t, category, at).0
  }

  function Replay(ops: seq<Op>): Tables {
    if |ops| == 0 then EMPTY else Apply(Replay(ops[..|ops| - 1]), ops[|ops| - 1])
  }

  /** The values that refreshes gave to `key`, in order. */
  function Values(ops: seq<Op>, key: InventoryKey): seq<Json> {
    if |ops| == 0 then [] else
      var before, op := Values(ops[..|ops| - 1], key), ops[|ops| - 1];
      if op.Refresh? && op.key == key then before + [op.fact.value] else before
  }

  /** Drops every value that Python finds equal to the one before it. */
  function WithoutRepeats(xs: seq<Json>): seq<Json> {
    if |xs| == 0 then [] else
      var before, x := WithoutRepeats(xs[..|xs| - 1]), xs[|xs| - 1];
      if |xs| > 1 && SameValue(xs[|xs| - 2], x) then before else before + [x]
  }

  function OfKey(key: InventoryKey): HistoryRow -> bool { (r: HistoryRow) => r.key == key }

  function ValueOf(r: HistoryRow): Json { r.fact.value }

  function HistoryValues(t: Tables, key: InventoryKey): seq<Json> { Map(ValueOf, Filter(OfKey(key), t.history)) }

  lemma OneRowMore(t: Tables, t': Tables, row: HistoryRow, key: InventoryKey)
    requires t'.history == t.history + [row]
    ensures HistoryValues(t', key) == HistoryValues(t, key) + if row.key == key then [row.fact.value] else []
  {
    FilterConcat(OfKey(key), t.history, [row]);
    MapConcat(ValueOf, Filter(OfKey(key), t.history), Filter(OfKey(key), [row]));
  }

  /** The last value of a nonempty list is equal to the last one that is kept. */
  lemma {:induction false} SameLast(xs: seq<Json>)
    requires |xs| > 0
    ensures var ys := WithoutRepeats(xs); |ys| > 0 && SameValue(ys[|ys| - 1], xs[|xs| - 1])
  {
    if |xs| > 1 && SameValue(xs[|xs| - 2], xs[|xs| - 1]) {
      SameLast(xs[..|xs| - 1]);
    }
  }

  lemma ReplayOneMore(init: seq<Op>, op: Op)
    ensures Replay(init + [op]) == Apply(Replay(init), op)
  {
    assert (init + [op])[..|init|] == init;
  }

  /** What one operation makes of the current row of a key. */
  lemma CurrentOneMore(t: Tables, op: Op, key: InventoryKey)
    ensures key in Apply(t, op).current <==> key in t.current || (op.Refresh? && op.key == key)
    ensures key in Apply(t, op).current ==>
              Some(Apply(t, op).current[key]) == Newer(if key in t.current then Some(t.current[key]) else None, op, key)
  {
  }

  lemma {:induction false} CurrentIsLastValue(ops: seq<Op>, key: InventoryKey)
    ensures key in Replay(ops).current <==> |Values(ops, key)| > 0
    ensures key in Replay(ops).current ==> Replay(ops).current[key].value == Values(ops, key)[|Values(ops, key)| - 1]
  {
    if |ops| > 0 {
      hide Apply;
      var init, op := ops[..|ops| - 1], ops[|ops| - 1];
      CurrentIsLastValue(init, key);
      CurrentOneMore(Replay(init), op, key);
    }
  }

  lemma OneValueMore(before: seq<Json>, x: Json)
    ensures WithoutRepeats(before + [x]) ==
              if |before| > 0 && SameValue(before[|before| - 1], x) then WithoutRepeats(before) else WithoutRepeats(before) + [x]
  {
    assert (before + [x])[..|before|] == before;
  }

  lemma {:induction false} HistoryIsChanges(ops: seq<Op>, key: InventoryKey)
    ensures HistoryValues(Replay(ops), key) == WithoutRepeats(Values(ops, key))
  {
    if |ops| > 0 {
      hide HistoryValues, Apply, SameValue;
      var init, op := ops[..|ops| - 1], ops[|ops| - 1];
      HistoryIsChanges(init, key);
      CurrentIsLastValue(init, key);
      HistoryStep(Replay(init), op, key);
      if op.Refresh? && op.key == key {
        OneValueMore(Values(init, key), op.fact.value);
      }
    }
  }

  /** One operation adds to the history of a key only a refresh of it that changes its value. */
  lemma HistoryStep(t: Tables, op: Op, key: InventoryKey)
    ensures HistoryValues(Apply(t, op), key) ==
              HistoryValues(t, key) + if op.Refresh? && op.key == key && Changes(t, key, op.fact) then [op.fact.value] else []
  {
    var t' := Apply(t, op);
    if op.Refresh? && Changes(t, op.key, op.fact) {
      OneRowMore(t, t', HistoryRow(op.key, op.fact), key);
    }
  }

  /**
   Main result: after any refreshes and invalidations the history of a key is its values with consecutive
   repeats removed, the current value is the last one given, and Python finds it equal to the last one in
   the history.
   */
  lemma {:induction false} ChangeOnlyHistory(ops: seq<Op>, key: InventoryKey)
    ensures var history, values := HistoryValues(Replay(ops), key), Values(ops, key);
      && history == WithoutRepeats(values)
      && (key in Replay(ops).current <==> |values| > 0)
      && (key in Replay(ops).current ==>
            && |history| > 0 && Replay(ops).current[key].value == values[|values| - 1]
            && SameValue(Replay(ops).current[key].value, history[|history| - 1]))
  {
    HistoryIsChanges(ops, key);
    CurrentIsLastValue(ops, key);
    if |Values(ops, key)| > 0 {
      SameLast(Values(ops, key));
    }
  }

  /** The history of an earlier moment is a prefix, so the value a key had then can be read off, as far as Python tells values apart. */
  lemma {:induction false} Recoverable(ops: seq<Op>, i: nat, key: InventoryKey)
    requires i <= |ops| && key in Replay(ops[..i]).current
    ensures var past, now := HistoryValues(Replay(ops[..i]), key), HistoryValues(Replay(ops), key);
      && 0 < |past| <= |now| && past == now[..|past|]
      && SameValue(now[|past| - 1], Replay(ops[..i]).current[key].value)
  {
    ChangeOnlyHistory(ops[..i], key);
    HistoryGrows(ops, i, key);
  }

  /** The last history row holds the very value that is current. */
  ghost predicate Recorded(ops: seq<Op>, key: InventoryKey) {
    var history := HistoryValues(Replay(ops), key);
    key in Replay(ops).current ==> |history| > 0 && history[|history| - 1] == Replay(ops).current[key].value
  }

  /** Two values in a row that Python finds equal are written the same. */
  ghost predicate NoSilentChange(xs: seq<Json>) {
    forall i :: 0 < i < |xs| && SameValue(xs[i - 1], xs[i]) ==> xs[i - 1] == xs[i]
  }

  ghost predicate AlwaysRecorded(ops: seq<Op>, key: InventoryKey) {
    forall i :: 0 <= i <= |ops| ==> Recorded(ops[..i], key)
  }

  lemma AlwaysRecordedStep(init: seq<Op>, op: Op, key: InventoryKey)
    ensures AlwaysRecorded(init + [op], key) <==> AlwaysRecorded(init, key) && Recorded(init + [op], key)
    ensures AlwaysRecorded(init, key) ==> Recorded(init, key)
  {
    hide Recorded;
    var ops := init + [op];
    assert forall i :: 0 <= i <= |init| ==> ops[..i] == init[..i];
    assert ops[..|ops|] == ops && init[..|init|] == init;
  }

  /**
   Main result: the history records the very value of every moment exactly when no two values in a row are
   equal to Python but written differently.
   */
  lemma {:induction false} RecordedExactlyWhen(ops: seq<Op>, key: InventoryKey)
    ensures AlwaysRecorded(ops, key) <==> NoSilentChange(Values(ops, key))
  {
    if |ops| > 0 {
      hide AlwaysRecorded, Recorded, NoSilentChange;
      var init, op := ops[..|ops| - 1], ops[|ops| - 1];
      assert init + [op] == ops;
      RecordedExactlyWhen(init, key);
      AlwaysRecordedStep(init, op, key);
      NoSilentChangeStep(init, op, key);
      if AlwaysRecorded(init, key) {
        RecordedStep(init, op, key);
      }
    } else {
      NothingToRecord(key);
      assert ops == [];
    }
  }

  lemma NothingToRecord(key: InventoryKey)
    ensures AlwaysRecorded([], key) && NoSilentChange(Values([], key))
  {
  }

  /** What one more operation does to the record, given that the value before it is recorded. */
  lemma RecordedStep(init: seq<Op>, op: Op, key: InventoryKey)
    requires Recorded(init, key)
    ensures Recorded(init + [op], key) <==> !(op.Refresh? && op.key == key && Silent(Values(init, key), op.fact.value))
  {
    hide HistoryValues, SameValue, Apply;
    ReplayOneMore(init, op);
    ChangeOnlyHistory(init, key);
    HistoryStep(Replay(init), op, key);
    CurrentOneMore(Replay(init), op, key);
    assert Recorded(init + [op], key) <==> !(op.Refresh? && op.key == key && Silent(Values(init, key), op.fact.value));
  }

  /** `x` is equal to the last value and not written like it. */
  predicate Silent(xs: seq<Json>, x: Json) { |xs| > 0 && SameValue(xs[|xs| - 1], x) && xs[|xs| - 1] != x }

  lemma NoSilentChangeStep(init: seq<Op>, op: Op, key: InventoryKey)
    ensures NoSilentChange(Values(init + [op], key))
       <==> NoSilentChange(Values(init, key)) && !(op.Refresh? && op.key == key && Silent(Values(init, key), op.fact.value))
  {
    assert (init + [op])[..|init|] == init;
    var xs := Values(init, key);
    if op.Refresh? && op.key == key {
      var ys := xs + [op.fact.value];
      hide SameValue;
      assert forall i :: 0 <= i < |xs| ==> ys[i] == xs[i];
      assert ys[|xs|] == op.fact.value;
    }
  }

  lemma TwoValues(a: Json, b: Json)
    ensures WithoutRepeats([a, b]) == if SameValue(a, b) then [a] else [a, b]
  {
    hide SameValue;
    OneValueMore([], a);
    OneValueMore([a], b);
    assert [] + [a] == [a] && [a] + [b] == [a, b];
  }

  lemma TwoRefreshes(key: InventoryKey, a: InventoryFact, b: InventoryFact)
    ensures var ops := [Refresh(key, a)] + [Refresh(key, b)]; Values(ops, key) == [a.value, b.value]
  {
    ValuesOneMore([], Refresh(key, a), key);
    ValuesOneMore([Refresh(key, a)], Refresh(key, b), key);
    assert [] + [Refresh(key, a)] == [Refresh(key, a)] && [] + [a.value] == [a.value];
  }

  lemma TrueIsOne()
    ensures SameValue(Integer(1), Bool(true))
  {
  }

  /** It does fail: 1 and then true leave one row, with 1, and the current value true. */
  lemma TrueAfterOneIsNotRecorded(key: InventoryKey) returns (ops: seq<Op>)
    ensures Values(ops, key) == [Integer(1), Bool(true)] && HistoryValues(Replay(ops), key) == [Integer(1)]
    ensures key in Replay(ops).current && Replay(ops).current[key].value == Bool(true) && !Recorded(ops, key)
  {
    var first := InventoryFact(Integer(1), 0, 60, None);
    var second := InventoryFact(Bool(true), 1, 60, None);
    ops := [Refresh(key, first)] + [Refresh(key, second)];
    TwoRefreshes(key, first, second);
    TrueIsOne();
    TwoValues(Integer(1), Bool(true));
    ChangeOnlyHistory(ops, key);
    NotRecorded(ops, key);
  }

  lemma NotRecorded(ops: seq<Op>, key: InventoryKey)
    requires HistoryValues(Replay(ops), key) == [Integer(1)]
    requires key in Replay(ops).current && Replay(ops).current[key].value == Bool(true)
    ensures !Recorded(ops, key)
  {
  }

  lemma ValuesOneMore(init: seq<Op>, op: Op, key: InventoryKey)
    ensures Values(init + [op], key) == Values(init, key) + if op.Refresh? && op.key == key then [op.fact.value] else []
  {
    assert (init + [op])[..|init|] == init;
  }

  lemma {:induction false} HistoryGrows(ops: seq<Op>, i: nat, key: InventoryKey)
    requires i <= |ops|
    ensures HistoryValues(Replay(ops[..i]), key) <= HistoryValues(Replay(ops), key)
  {
    if i == |ops| {
      assert ops[..i] == ops;
    } else {
      var init, op := ops[..|ops| - 1], ops[|ops| - 1];
      assert init[..i] == ops[..i];
      HistoryGrows(init, i, key);
      hide HistoryValues;
      HistoryStep(Replay(init), op, key);
    }
  }

  // ---- The current row ----

  /** What `key` was last refreshed with, and the latest invalidation of its category since then. */
  function Latest(ops: seq<Op>, key: InventoryKey): Option<InventoryFact> {
    if |ops| == 0 then None else
      Newer(Latest(ops[..|ops| - 1], key), ops[|ops| - 1], key)
  }

  /** What one more operation makes of the latest value of a key. */
  function Newer(before: Option<InventoryFact>, op: Op, key: InventoryKey): Option<InventoryFact> {
    if op.Refresh? then if op.key == key then Some(op.fact) else before
    else if op.category == key.category && before.Some? then Some(before.value.(invalidatedAt := Some(op.at)))
    else before
  }

  lemma {:induction false} CurrentIsLatest(ops: seq<Op>, key: InventoryKey)
    ensures key in Replay(ops).current <==> Latest(ops, key).Some?
    ensures key in Replay(ops).current ==> Replay(ops).current[key] == Latest(ops, key).value
  {
    if |ops| > 0 {
      hide Apply;
      var init, op := ops[..|ops| - 1], ops[|ops| - 1];
      CurrentIsLatest(init, key);
      CurrentOneMore(Replay(init), op, key);
    }
  }

  function About(category: string): Op -> bool {
    (op: Op) => match op case Refresh(key, _) => key.category == category case Invalidate(c, _) => c == category
  }

  /** Main result: what happens in other categories changes neither a row nor its history. */
  lemma {:induction false} OtherCategoriesDoNotMatter(ops: seq<Op>, key: InventoryKey)
    ensures var own := Filter(About(key.category), ops);
      && Latest(own, key) == Latest(ops, key)
      && Values(own, key) == Values(ops, key)
      && HistoryValues(Replay(own), key) == HistoryValues(Replay(ops), key)
      && (key in Replay(ops).current <==> key in Replay(own).current)
      && (key in Replay(ops).current ==> Replay(ops).current[key] == Replay(own).current[key])
  {
    var own := Filter(About(key.category), ops);
    SameLatest(ops, key);
    ChangeOnlyHistory(ops, key);
    ChangeOnlyHistory(own, key);
    CurrentIsLatest(ops, key);
    CurrentIsLatest(own, key);
  }

  /** Both sides of the question at once. */
  function LatestAndValues(ops: seq<Op>, key: InventoryKey): (Option<InventoryFact>, seq<Json>) { (Latest(ops, key), Values(ops, key)) }

  function Advanced(before: (Option<InventoryFact>, seq<Json>), op: Op, key: InventoryKey): (Option<InventoryFact>, seq<Json>) {
    (Newer(before.0, op, key), if op.Refresh? && op.key == key then before.1 + [op.fact.value] else before.1)
  }

  lemma LatestOneMore(init: seq<Op>, op: Op, key: InventoryKey)
    ensures LatestAndValues(init + [op], key) == Advanced(LatestAndValues(init, key), op, key)
  {
    assert (init + [op])[..|init|] == init;
  }

  lemma AboutOneMore(init: seq<Op>, op: Op, category: string)
    ensures Filter(About(category), init + [op]) == Filter(About(category), init) + if About(category)(op) then [op] else []
  {
    FilterConcat(About(category), init, [op]);
  }

  lemma OthersKeepLatest(before: (Option<InventoryFact>, seq<Json>), op: Op, key: InventoryKey)
    requires !About(key.category)(op)
    ensures Advanced(before, op, key) == before
  {
  }

  lemma {:induction false} SameLatest(ops: seq<Op>, key: InventoryKey)
    ensures LatestAndValues(Filter(About(key.category), ops), key) == LatestAndValues(ops, key)
  {
    if |ops| > 0 {
      hide About, Advanced, LatestAndValues;
      var init, op := ops[..|ops| - 1], ops[|ops| - 1];
      var own := Filter(About(key.category), init);
      SameLatest(init, key);
      assert ops == init + [op];
      AboutOneMore(init, op, key.category);
      LatestOneMore(init, op, key);
      if About(key.category)(op) {
        LatestOneMore(own, op, key);
      } else {
        OthersKeepLatest(LatestAndValues(init, key), op, key);
        assert own + [] == own;
      }
      assert LatestAndValues(Filter(About(key.category), ops), key) == LatestAndValues(ops, key);
    }
  }

  // ---- Staleness over runs ----

  /** No refresh of `key` among `ops`. */
  ghost predicate NotRefreshed(ops: seq<Op>, key: InventoryKey) {
    forall op :: op in ops ==> !(op.Refresh? && op.key == key)
  }

  /** The time of the last invalidation of `category` in a run that starts with one at `since`. */
  function LastTime(since: int, later: seq<Op>, category: string): int {
    if |later| == 0 then since else
      var op := later[|later| - 1];
      if op.Invalidate? && op.category == category then op.at else LastTime(since, later[..|later| - 1], category)
  }

  lemma {:induction false} MarkedRow(ops: seq<Op>, since: int, later: seq<Op>, key: InventoryKey)
    requires key in Replay(ops).current && NotRefreshed(later, key)
    ensures var all := ops + [Invalidate(key.category, since)] + later;
      && key in Replay(all).current
      && Replay(all).current[key] == Replay(ops).current[key].(invalidatedAt := Some(LastTime(since, later, key.category)))
  {
    hide Apply;
    var marked := ops + [Invalidate(key.category, since)];
    if |later| == 0 {
      assert marked + later == marked;
      ReplayOneMore(ops, Invalidate(key.category, since));
      CurrentOneMore(Replay(ops), Invalidate(key.category, since), key);
    } else {
      var init, op := later[..|later| - 1], later[|later| - 1];
      assert op in later && marked + later == marked + init + [op];
      MarkedRow(ops, since, init, key);
      ReplayOneMore(marked + init, op);
      CurrentOneMore(Replay(marked + init), op, key);
    }
  }

  /**
   Main result: after an invalidation, and until the next refresh, a fact reads stale at a time exactly when
   that time is not before the last invalidation, or past the time to live; and it can be read at all exactly
   when that last invalidation does not precede its observation.
   */
  lemma {:induction false} StaleExactlyWhen(ops: seq<Op>, since: int, later: seq<Op>, key: InventoryKey, at: int)
    requires key in Replay(ops).current && NotRefreshed(later, key)
    ensures var all := ops + [Invalidate(key.category, since)] + later; var last := LastTime(since, later, key.category);
            var fact := Replay(ops).current[key];
      && key in Replay(all).current && Replay(all).current[key] == fact.(invalidatedAt := Some(last))
      && (IsStale(Replay(all).current[key], at) <==> at >= last || at > fact.observedAt + fact.ttlSeconds)
      && (ValidFact(Replay(all).current[key]) <==> fact.ttlSeconds > 0 && last >= fact.observedAt)
  {
    MarkedRow(ops, since, later, key);
  }

  /** So on a clock that no invalidation runs ahead of, an invalidated fact stays stale until it is refreshed. */
  lemma {:induction false} StaleUntilRefreshed(ops: seq<Op>, since: int, later: seq<Op>, key: InventoryKey, at: int)
    requires key in Replay(ops).current && NotRefreshed(later, key) && since <= at
    requires forall op :: op in later && op.Invalidate? && op.category == key.category ==> op.at <= at
    ensures var all := ops + [Invalidate(key.category, since)] + later;
      key in Replay(all).current && IsStale(Replay(all).current[key], at)
  {
    StaleExactlyWhen(ops, since, later, key, at);
    LastTimeIsThere(since, later, key.category);
  }

  lemma {:induction false} LastTimeIsThere(since: int, later: seq<Op>, category: string)
    ensures LastTime(since, later, category) == since || Invalidate(category, LastTime(since, later, category)) in later
  {
    if |later| > 0 {
      LastTimeIsThere(since, later[..|later| - 1], category);
    }
  }

  /** A later invalidation moves the time, so a read at the first one is fresh again. */
  lemma ReinvalidationRevives() returns (ops: seq<Op>, key: InventoryKey, at: int)
    ensures |ops| == 3 && ops[1] == Invalidate(key.category, at) && ops[2].Invalidate?
    ensures key in Replay(ops).current && !IsStale(Replay(ops).current[key], at)
    ensures key in Replay(ops[..2]).current && IsStale(Replay(ops[..2]).current[key], at)
  {
    key, at := InventoryKey("network", "k"), 3;
    var refreshed := [Refresh(key, InventoryFact(Text("v"), 0, 100, None))];
    ops := refreshed + [Invalidate("network", 3)] + [Invalidate("network", 10)];
    assert refreshed[..0] == [];
    StaleExactlyWhen(refreshed, 3, [], key, at);
    StaleExactlyWhen(refreshed, 3, [Invalidate("network", 10)], key, at);
    assert ops[..2] == refreshed + [Invalidate("network", 3)] + [];
  }

  // ---- The service ----

  datatype View = View(fact: InventoryFact, freshness: Freshness)

  datatype ReadError = InvalidRecord

  type Rows = map<InventoryKey, InventoryFact>

  function Marked(rows: Rows, categories: set<string>, at: int): Rows {
    map key | key in rows :: if key.category in categories then rows[key].(invalidatedAt := Some(at)) else rows[key]
  }

  function RowsIn(rows: Rows, categories: set<string>): set<InventoryKey> {
    set key | key in rows && key.category in categories
  }

  /** The rows of all `categories` invalidated at once, and how many they are. */
  function InvalidateAll(t: Tables, categories: set<string>, at: int): (Tables, nat) {
    (t.(current := Marked(t.current, categories, at)), |RowsIn(t.current, categories)|)
  }

  lemma OneCategory(t: Tables, category: string, at: int)
    ensures InvalidateInventory(t, category, at) == InvalidateAll(t, {category}, at)
  {
    assert InvalidateInventory(t, category, at).0.current == Marked(t.current, {category}, at);
    assert RowsIn(t.current, {category}) == set key | key in t.current && key.category == category;
  }

  lemma MarkedTwice(rows: Rows, some: set<string>, category: string, at: int)
    ensures Marked(Marked(rows, some, at), {category}, at) == Marked(rows, some + {category}, at)
  {
  }

  lemma RowsInBoth(rows: Rows, some: set<string>, category: string, at: int)
    requires category !in some
    ensures |RowsIn(rows, some)| + |RowsIn(Marked(rows, some, at), {category})| == |RowsIn(rows, some + {category})|
  {
    var a, b := RowsIn(rows, some), RowsIn(rows, {category});
    assert RowsIn(rows, some + {category}) == a + b && a !! b;
    assert RowsIn(Marked(rows, some, at), {category}) == b;
  }

  lemma OneCategoryMore(t: Tables, some: set<string>, category: string, at: int)
    requires category !in some
    ensures var (t1, n) := InvalidateAll(t, some, at); var (t2, m) := InvalidateInventory(t1, category, at);
      (t2, n + m) == InvalidateAll(t, some + {category}, at)
  {
    OneCategory(InvalidateAll(t, some, at).0, category, at);
    MarkedTwice(t.current, some, category, at);
    RowsInBoth(t.current, some, category, at);
    hide Marked, RowsIn;
  }

  lemma NoCategory(t: Tables, at: int)
    ensures InvalidateAll(t, {}, at) == (t, 0)
  {
    assert Marked(t.current, {}, at) == t.current;
    assert RowsIn(t.current, {}) == {};
  }

  class InventoryService {
    const store: SQLiteStore

    constructor (store: SQLiteStore)
      ensures this.store == store
    {
      this.store := store;
    }

    method RefreshFact(category: string, entityId: string, name: string, fact: InventoryFact) returns (changed: bool)
      requires store.Valid() && !store.inTransaction
      modifies store
      ensures store.Valid() && !store.inTransaction
      ensures store.committed == Apply(old(store.committed), Refresh(InventoryKey(category, FactKey(entityId, name)), fact))
      ensures changed <==> |store.committed.history| > |old(store.committed).history|
    {
      store.Begin();
      changed := store.Upsert(InventoryKey(category, FactKey(entityId, name)), fact);
      store.Commit();
    }

    method Get(category: string, entityId: string, name: string, at: int) returns (r: Result<Option<View>, ReadError>)
      requires store.Valid() && !store.inTransaction
      ensures var key := InventoryKey(category, FactKey(entityId, name)); var current := store.committed.current;
        && (r.Ok? && r.value.None? <==> key !in current)
        && (r.Err? <==> key in current && !ValidFact(current[key]))
        && (r.Ok? && r.value.Some? ==>
              key in current && r.value.value.fact == current[key]
              && (r.value.value.freshness.stale <==> IsStale(current[key], at)))
    {
      var key := InventoryKey(category, FactKey(entityId, name));
      if key !in store.tables.current {
        return Ok(None);
      }
      var fact := store.tables.current[key];
      if !ValidFact(fact) {
        return Err(InvalidRecord);
      }
      var freshness := AssessFreshness(fact.observedAt, fact.ttlSeconds, fact.invalidatedAt, at);
      return Ok(Some(View(fact, freshness.value)));
    }

    method InvalidateFor(signal: Signal, at: int) returns (rows: nat)
      requires store.Valid() && !store.inTransaction
      modifies store
      ensures store.Valid() && !store.inTransaction
      ensures (store.committed, rows) == InvalidateAll(old(store.committed), CategoriesForSignal(signal), at)
    {
      hide InvalidateAll, CategoriesForSignal;
      store.Begin();
      rows := InvalidateEach(CategoriesForSignal(signal), at);
      store.Commit();
    }

    /** The categories of a frozenset come in no particular order. */
    method InvalidateEach(categories: set<string>, at: int) returns (rows: nat)
      requires store.Valid() && store.inTransaction
      modifies store
      ensures store.Valid() && store.inTransaction && store.committed == old(store.committed)
      ensures (store.tables, rows) == InvalidateAll(old(store.tables), categories, at)
    {
      ghost var t := store.tables;
      NoCategory(t, at);
      hide InvalidateInventory, InvalidateAll;
      rows := 0;
      var rest := categories;
      ghost var done: set<string> := {};
      while rest != {}
        invariant store.Valid() && store.inTransaction && store.committed == old(store.committed)
        invariant done + rest == categories && done !! rest
        invariant (store.tables, rows) == InvalidateAll(t, done, at)
        decreases |rest|
      {
        var category :| category in rest;
        OneCategoryMore(t, done, category, at);
        var n := store.Invalidate(category, at);
        rows, rest, done := rows + n, rest - {category}, done + {category};
      }
      assert done == categories;
    }
  }
}
