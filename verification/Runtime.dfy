/**
 `DiagnosticRuntime.open_case` of src/systemsense/application/runtime.py: one transaction for each
 planned probe. What the probe runner returned and the random identifiers are inputs; serialization
 and redaction are arbitrary functions.
 */
module Runtime {
  import opened Results
  import opened Sequences
  import opened Store
  import D = Domain
  import C = Circuit
  import Audit
  import Inventory

  /** The functions and settings that a runtime is built with. */
  datatype Services = Services(
    hash: Audit.Payload -> string,
    redactParameters: map<string, string> -> map<string, string>,
    redactText: string -> string,
    recordJson: (string, C.Observation) -> string,
    reportJson: (string, D.CoverageStatus, string, string) -> string,
    factsJson: C.Observation -> Json,
    categories: map<string, string>,
    hostEntity: string)

  /** What one probe run came to, with the identifiers made for it. */
  datatype Outcome = Outcome(run: C.ProbeRun, executionId: string, elapsedMs: string, evidenceId: string)

  /** The case being opened. */
  datatype Opening = Opening(caseId: string, at: int)

  function AuditOutcome(status: C.RunStatus): Audit.Outcome {
    match status
    case RunOk => Audit.Allowed
    case Denied => Audit.Denied
    case Unavailable => Audit.Cancelled
    case FailedRun => Audit.Failed
    case TimedOut => Audit.TimedOut
    case Truncated => Audit.Truncated
  }

  function CoverageStatusOf(status: C.RunStatus): D.CoverageStatus {
    match status
    case RunOk => D.Covered
    case Denied => D.Denied
    case Unavailable => D.Unavailable
    case FailedRun => D.Failed
    case TimedOut => D.Failed
    case Truncated => D.Truncated
  }

  function StatusText(status: C.RunStatus): string {
    match status
    case RunOk => "ok"
    case Denied => "denied"
    case Unavailable => "unavailable"
    case FailedRun => "failed"
    case TimedOut => "timed_out"
    case Truncated => "truncated"
  }

  function FreshnessTtl(category: string): int {
    if category in {"core", "application", "network"} then 300 else 3600
  }

  predicate HasFacts(o: Outcome) { o.run.status.RunOk? && o.run.observation.Some? }

  function Category(o: Outcome, s: Services): string {
    if o.run.probeId in s.categories then s.categories[o.run.probeId] else "orchestration"
  }

  function Reason(o: Outcome): string {
    if o.run.error.Some? && o.run.error.value != "" then o.run.error.value else "probe ended with " + StatusText(o.run.status)
  }

  // ---- The rows of one probe ----

  function ProbeId(o: Outcome): string { o.run.probeId }

  function EvidenceId(o: Outcome): string { o.evidenceId }

  function EventId(o: Outcome): string { "probe_" + o.executionId }

  function RowOf(c: Opening, s: Services): Outcome -> EvidenceRow {
    (o: Outcome) =>
      if HasFacts(o)
      then EvidenceRow(o.evidenceId, c.caseId, ProbeSource(c.caseId, o.run.probeId),
                       Record.Observed(s.recordJson(o.evidenceId, o.run.observation.value)), c.at)
      else EvidenceRow(o.evidenceId, c.caseId, ProbeCoverageSource(c.caseId, o.run.probeId),
                       Reported(CoverageStatusOf(o.run.status),
                                s.reportJson(Category(o, s), CoverageStatusOf(o.run.status), Reason(o), o.executionId)), c.at)
  }

  function KeyOf(o: Outcome, s: Services): InventoryKey {
    InventoryKey(Category(o, s), Inventory.FactKey(s.hostEntity, o.run.probeId))
  }

  function FactOf(o: Outcome, c: Opening, s: Services): InventoryFact
    requires HasFacts(o)
  {
    InventoryFact(s.factsJson(o.run.observation.value), c.at, FreshnessTtl(Category(o, s)), None)
  }

  /** A stored observation is fresh for five minutes in the fast-moving categories, and for an hour in the others. */
  lemma FactGoesStale(o: Outcome, c: Opening, s: Services, at: int)
    requires HasFacts(o)
    ensures var minutes := if Category(o, s) == "core" || Category(o, s) == "application" || Category(o, s) == "network" then 5 else 60;
      Inventory.IsStale(FactOf(o, c, s), at) <==> at - c.at > 60 * minutes
  {
  }

  /** A report of a probe that observed nothing says why: its error, or how it ended if it has none. */
  lemma ReportSaysWhy(o: Outcome, c: Opening, s: Services)
    requires !HasFacts(o)
    ensures var row, status := RowOf(c, s)(o), CoverageStatusOf(o.run.status);
      && row.caseId == c.caseId && row.sourceId == ProbeCoverageSource(c.caseId, o.run.probeId) && row.record.Reported?
      && (o.run.error.Some? && o.run.error.value != "" ==>
            row.record == Reported(status, s.reportJson(Category(o, s), status, o.run.error.value, o.executionId)))
      && (o.run.error.None? || o.run.error.value == "" ==>
            row.record == Reported(status, s.reportJson(Category(o, s), status, "probe ended with " + StatusText(o.run.status), o.executionId)))
  {
    var row, status := RowOf(c, s)(o), CoverageStatusOf(o.run.status);
    assert row.record == Reported(status, s.reportJson(Category(o, s), status, Reason(o), o.executionId));
    if o.run.error.Some? && o.run.error.value != "" {
      assert Reason(o) == o.run.error.value;
    } else {
      assert Reason(o) == "probe ended with " + StatusText(o.run.status);
    }
  }

  function EntryOf(chain: seq<Audit.Entry>, o: Outcome, c: Opening, s: Services): Audit.Entry {
    Audit.NextEntry(s.hash, chain, EventId(o), Some(c.caseId), o.run.probeId, AuditOutcome(o.run.status), c.at,
                    s.redactParameters(map["elapsed_ms" := o.elapsedMs]),
                    if o.run.error.None? then None else Some(s.redactText(o.run.error.value)))
  }

  /** The in-memory chain after `outcomes`. */
  function ChainOf(outcomes: seq<Outcome>, c: Opening, s: Services): seq<Audit.Entry> {
    if |outcomes| == 0 then [] else
      var before := ChainOf(outcomes[..|outcomes| - 1], c, s);
      before + [EntryOf(before, outcomes[|outcomes| - 1], c, s)]
  }

  function AuditRowOf(c: Opening): Audit.Entry -> AuditRow { (e: Audit.Entry) => AuditRow(e.payload.eventId, c.caseId, e) }

  // ---- The transaction of one probe ----

  function WithInventory(t: Tables, o: Outcome, c: Opening, s: Services): Tables {
    if HasFacts(o) then UpsertInventory(t, KeyOf(o, s), FactOf(o, c, s)).0 else t
  }

  function Persist(t: Tables, o: Outcome, entry: Audit.Entry, c: Opening, s: Services): Result<Tables, StoreError> {
    match InsertEvidence(t, RowOf(c, s)(o))
    case Err(e) => Err(e)
    case Ok((t1, _)) => AppendAudit(WithInventory(t1, o, c, s), AuditRowOf(c)(entry))
  }

  /** The tables after the transactions of `outcomes`, or the first error. */
  function After(t: Tables, outcomes: seq<Outcome>, c: Opening, s: Services): Result<Tables, StoreError> {
    if |outcomes| == 0 then Ok(t) else
      var n := |outcomes| - 1;
      match After(t, outcomes[..n], c, s)
      case Err(e) => Err(e)
      case Ok(t1) => Persist(t1, outcomes[n], EntryOf(ChainOf(outcomes[..n], c, s), outcomes[n], c, s), c, s)
  }

  // ---- What the transactions add up to ----

  /** A case that is there and has no evidence yet. */
  ghost predicate JustOpened(t: Tables, c: Opening) {
    c.caseId in t.cases && forall r :: r in t.evidence ==> r.caseId != c.caseId
  }

  lemma CreatedCaseIsJustOpened(t: Tables, c: Opening)
    requires SoundEvidence(t) && CreateCase(t, c.caseId).Ok?
    ensures JustOpened(CreateCase(t, c.caseId).value, c)
  {
  }

  /** The history rows of the observed probes whose facts differ from what the inventory held, in plan order. */
  function ChangedRows(t: Tables, outcomes: seq<Outcome>, c: Opening, s: Services): seq<HistoryRow> {
    if |outcomes| == 0 then [] else
      var before, o := ChangedRows(t, outcomes[..|outcomes| - 1], c, s), outcomes[|outcomes| - 1];
      if HasFacts(o) && Changes(t, KeyOf(o, s), FactOf(o, c, s)) then before + [HistoryRow(KeyOf(o, s), FactOf(o, c, s))] else before
  }

  /** The inventory holds the facts of the probes that were observed, and is otherwise unchanged. */
  ghost predicate CurrentEffect(t: Tables, t': Tables, outcomes: seq<Outcome>, c: Opening, s: Services) {
    && (forall o :: o in outcomes && HasFacts(o) ==> KeyOf(o, s) in t'.current && t'.current[KeyOf(o, s)] == FactOf(o, c, s))
    && (forall key :: key in t.current ==> key in t'.current)
    && (forall key :: key in t'.current ==> SameFact(t, t', key) || FromOutcome(key, outcomes, s))
  }

  /** And its history has grown by exactly those of them that changed something. */
  ghost predicate InventoryEffect(t: Tables, t': Tables, outcomes: seq<Outcome>, c: Opening, s: Services) {
    CurrentEffect(t, t', outcomes, c, s) && t'.history == t.history + ChangedRows(t, outcomes, c, s)
  }

  ghost predicate SameFact(t: Tables, t': Tables, key: InventoryKey)
    requires key in t'.current
  {
    key in t.current && t'.current[key] == t.current[key]
  }

  ghost predicate FromOutcome(key: InventoryKey, outcomes: seq<Outcome>, s: Services) {
    exists o :: o in outcomes && HasFacts(o) && KeyOf(o, s) == key
  }

  /** The complete effect of the probes `outcomes` on a freshly opened case. */
  ghost predicate Effect(t: Tables, t': Tables, outcomes: seq<Outcome>, c: Opening, s: Services) {
    && t'.evidence == t.evidence + Map(RowOf(c, s), outcomes)
    && t'.audit == t.audit + Map(AuditRowOf(c), ChainOf(outcomes, c, s))
    && InventoryEffect(t, t', outcomes, c, s)
    && t' == t.(evidence := t'.evidence, audit := t'.audit, current := t'.current, history := t'.history)
  }

  /** The identifiers made for `outcomes` are new. */
  ghost predicate NewIds(t: Tables, outcomes: seq<Outcome>) {
    && Distinct(Map(EvidenceId, outcomes)) && (forall o :: o in outcomes ==> o.evidenceId !in Map(Id, t.evidence))
    && Distinct(Map(EventId, outcomes)) && (forall o :: o in outcomes ==> EventId(o) !in Map(AuditId, t.audit))
  }

  ghost predicate NewId(t: Tables, before: seq<Outcome>, o: Outcome) {
    && o.evidenceId !in Map(EvidenceId, before) && o.evidenceId !in Map(Id, t.evidence)
    && EventId(o) !in Map(EventId, before) && EventId(o) !in Map(AuditId, t.audit)
  }

  lemma DistinctSnoc<T>(xs: seq<T>, x: T)
    ensures Distinct(xs + [x]) <==> Distinct(xs) && x !in xs
  {
    var all := xs + [x];
    assert forall i :: 0 <= i < |xs| ==> all[i] == xs[i];
    assert all[|xs|] == x;
  }

  lemma NewIdsSnoc(t: Tables, before: seq<Outcome>, o: Outcome)
    ensures NewIds(t, before + [o]) <==> (NewIds(t, before) && NewId(t, before, o))
  {
    MapConcat(EvidenceId, before, [o]);
    MapConcat(EventId, before, [o]);
    DistinctSnoc(Map(EvidenceId, before), o.evidenceId);
    DistinctSnoc(Map(EventId, before), EventId(o));
    assert Map(EvidenceId, [o]) == [o.evidenceId] && Map(EventId, [o]) == [EventId(o)];
    hide Map, Distinct;
    assert forall x :: x in before + [o] <==> x in before || x == o;
  }

  lemma EntryContinues(before: seq<Audit.Entry>, o: Outcome, c: Opening, s: Services)
    requires Audit.Linked(s.hash, before)
    ensures Audit.Linked(s.hash, before + [EntryOf(before, o, c, s)])
    ensures var p := EntryOf(before, o, c, s).payload;
      p.eventId == EventId(o) && p.probeId == o.run.probeId && p.outcome == AuditOutcome(o.run.status)
  {
    Audit.AppendKeepsLinked(s.hash, before, EntryOf(before, o, c, s));
  }

  lemma {:induction false} ChainIsLinked(outcomes: seq<Outcome>, c: Opening, s: Services)
    ensures Audit.Linked(s.hash, ChainOf(outcomes, c, s)) && |ChainOf(outcomes, c, s)| == |outcomes|
    ensures forall i :: 0 <= i < |outcomes| ==>
      var p := ChainOf(outcomes, c, s)[i].payload;
      p.eventId == EventId(outcomes[i]) && p.probeId == outcomes[i].run.probeId && p.outcome == AuditOutcome(outcomes[i].run.status)
  {
    if |outcomes| > 0 {
      hide EntryOf, Audit.Linked, AuditOutcome;
      var n := |outcomes| - 1;
      ChainIsLinked(outcomes[..n], c, s);
      var before := ChainOf(outcomes[..n], c, s);
      EntryContinues(before, outcomes[n], c, s);
      assert ChainOf(outcomes, c, s) == before + [EntryOf(before, outcomes[n], c, s)];
    }
  }

  lemma AuditIdsOfChain(outcomes: seq<Outcome>, c: Opening, s: Services)
    ensures Map(AuditId, Map(AuditRowOf(c), ChainOf(outcomes, c, s))) == Map(EventId, outcomes)
  {
    ChainIsLinked(outcomes, c, s);
  }

  lemma AuditIds(t: Tables, outcomes: seq<Outcome>, c: Opening, s: Services)
    ensures Map(AuditId, t.audit + Map(AuditRowOf(c), ChainOf(outcomes, c, s))) == Map(AuditId, t.audit) + Map(EventId, outcomes)
  {
    AuditIdsOfChain(outcomes, c, s);
    MapConcat(AuditId, t.audit, Map(AuditRowOf(c), ChainOf(outcomes, c, s)));
    hide Map;
  }

  lemma EvidenceIds(t: Tables, outcomes: seq<Outcome>, c: Opening, s: Services)
    ensures Map(Id, t.evidence + Map(RowOf(c, s), outcomes)) == Map(Id, t.evidence) + Map(EvidenceId, outcomes)
  {
  }

  /** A probe that has not run yet in the case does not conflict with the rows of those that have. */
  lemma NoConflict(t: Tables, before: seq<Outcome>, o: Outcome, c: Opening, s: Services)
    requires JustOpened(t, c) && o.run.probeId !in Map(ProbeId, before)
    ensures Pair(RowOf(c, s)(o)) !in Map(Pair, t.evidence + Map(RowOf(c, s), before))
  {
    var rows := t.evidence + Map(RowOf(c, s), before);
    forall i | 0 <= i < |rows| ensures Pair(rows[i]) != Pair(RowOf(c, s)(o)) {
      if i < |t.evidence| {
        assert rows[i] in t.evidence;
      } else {
        var j := i - |t.evidence|;
        assert rows[i] == RowOf(c, s)(before[j]) && Map(ProbeId, before)[j] == before[j].run.probeId;
      }
    }
  }

  /** The transaction of one more probe succeeds exactly when its identifiers are new. */
  lemma PersistSucceeds(t: Tables, t1: Tables, before: seq<Outcome>, o: Outcome, c: Opening, s: Services, entry: Audit.Entry)
    requires JustOpened(t, c) && Effect(t, t1, before, c, s) && o.run.probeId !in Map(ProbeId, before)
    requires entry.payload.eventId == EventId(o)
    ensures Persist(t1, o, entry, c, s).Ok? <==> NewId(t, before, o)
  {
    NoConflict(t, before, o, c, s);
    EvidenceIds(t, before, c, s);
    AuditIds(t, before, c, s);
    hide Map, ChainOf, Pair, InventoryEffect;
  }

  lemma PersistAppends(t1: Tables, o: Outcome, entry: Audit.Entry, c: Opening, s: Services)
    requires Persist(t1, o, entry, c, s).Ok? && Pair(RowOf(c, s)(o)) !in Map(Pair, t1.evidence)
    ensures var t2 := Persist(t1, o, entry, c, s).value;
      && t2.evidence == t1.evidence + [RowOf(c, s)(o)] && t2.audit == t1.audit + [AuditRowOf(c)(entry)]
      && t2.current == WithInventory(t1, o, c, s).current && t2.history == WithInventory(t1, o, c, s).history
      && t2 == t1.(evidence := t2.evidence, audit := t2.audit, current := t2.current, history := t2.history)
  {
  }

  lemma {:induction false} PersistOne(t: Tables, t1: Tables, before: seq<Outcome>, o: Outcome, c: Opening, s: Services)
    requires JustOpened(t, c) && Effect(t, t1, before, c, s) && o.run.probeId !in Map(ProbeId, before)
    ensures var r := Persist(t1, o, EntryOf(ChainOf(before, c, s), o, c, s), c, s);
      && (r.Ok? <==> NewId(t, before, o))
      && (r.Ok? ==> Effect(t, r.value, before + [o], c, s))
  {
    var entry := EntryOf(ChainOf(before, c, s), o, c, s);
    NoConflict(t, before, o, c, s);
    PersistSucceeds(t, t1, before, o, c, s, entry);
    var r := Persist(t1, o, entry, c, s);
    if r.Ok? {
      PersistAppends(t1, o, entry, c, s);
      EffectOne(t, t1, r.value, before, o, c, s);
    }
  }

  lemma {:induction false} EffectOne(t: Tables, t1: Tables, t2: Tables, before: seq<Outcome>, o: Outcome, c: Opening, s: Services)
    requires Effect(t, t1, before, c, s) && o.run.probeId !in Map(ProbeId, before)
    requires t2.evidence == t1.evidence + [RowOf(c, s)(o)]
    requires t2.audit == t1.audit + [AuditRowOf(c)(EntryOf(ChainOf(before, c, s), o, c, s))]
    requires t2.current == WithInventory(t1, o, c, s).current && t2.history == WithInventory(t1, o, c, s).history
    requires t2 == t1.(evidence := t2.evidence, audit := t2.audit, current := t2.current, history := t2.history)
    ensures Effect(t, t2, before + [o], c, s)
  {
    var chain := ChainOf(before, c, s);
    assert (before + [o])[..|before|] == before;
    MapConcat(RowOf(c, s), before, [o]);
    MapConcat(AuditRowOf(c), chain, [EntryOf(chain, o, c, s)]);
    CurrentOne(t, t1, t2, before, o, c, s);
    HistoryOne(t, t1, t2, before, o, c, s);
  }

  lemma OtherKeys(before: seq<Outcome>, o: Outcome, s: Services)
    requires o.run.probeId !in Map(ProbeId, before)
    ensures forall x :: x in before ==> KeyOf(x, s) != KeyOf(o, s)
  {
    forall x | x in before ensures KeyOf(x, s) != KeyOf(o, s) {
      KeyIn(ProbeId, before, x);
      DifferentFactKey(s.hostEntity, x.run.probeId, o.run.probeId);
    }
  }

  /** The fact that a probe replaces is the one from before the case. */
  lemma OwnKeyIsUntouched(t: Tables, t1: Tables, before: seq<Outcome>, o: Outcome, c: Opening, s: Services)
    requires CurrentEffect(t, t1, before, c, s) && o.run.probeId !in Map(ProbeId, before) && HasFacts(o)
    ensures Changes(t1, KeyOf(o, s), FactOf(o, c, s)) <==> Changes(t, KeyOf(o, s), FactOf(o, c, s))
  {
    OtherKeys(before, o, s);
    assert !FromOutcome(KeyOf(o, s), before, s);
  }

  lemma HistoryOne(t: Tables, t1: Tables, t2: Tables, before: seq<Outcome>, o: Outcome, c: Opening, s: Services)
    requires InventoryEffect(t, t1, before, c, s) && o.run.probeId !in Map(ProbeId, before)
    requires t2.history == WithInventory(t1, o, c, s).history
    ensures t2.history == t.history + ChangedRows(t, before + [o], c, s)
  {
    assert (before + [o])[..|before|] == before;
    if HasFacts(o) {
      OwnKeyIsUntouched(t, t1, before, o, c, s);
    }
  }

  lemma InventoryAt(t: Tables, o: Outcome, c: Opening, s: Services, key: InventoryKey)
    ensures var t' := WithInventory(t, o, c, s);
      if HasFacts(o) && key == KeyOf(o, s) then key in t'.current && t'.current[key] == FactOf(o, c, s)
      else (key in t'.current <==> key in t.current) && (key in t.current ==> t'.current[key] == t.current[key])
  {
  }

  lemma FromOneMore(key: InventoryKey, before: seq<Outcome>, o: Outcome, s: Services)
    ensures FromOutcome(key, before + [o], s) <==> FromOutcome(key, before, s) || (HasFacts(o) && KeyOf(o, s) == key)
  {
    assert forall x :: x in before + [o] <==> x in before || x == o;
  }

  lemma {:induction false} CurrentOne(t: Tables, t1: Tables, t2: Tables, before: seq<Outcome>, o: Outcome, c: Opening, s: Services)
    requires CurrentEffect(t, t1, before, c, s) && o.run.probeId !in Map(ProbeId, before)
    requires t2.current == WithInventory(t1, o, c, s).current
    ensures CurrentEffect(t, t2, before + [o], c, s)
  {
    OtherKeys(before, o, s);
    hide WithInventory, FromOutcome, HasFacts, KeyOf, FactOf;
    forall key
      ensures key in t1.current ==> key in t2.current
      ensures key in t2.current ==> SameFact(t, t2, key) || FromOutcome(key, before + [o], s)
    {
      InventoryAt(t1, o, c, s, key);
      FromOneMore(key, before, o, s);
    }
    forall x | x in before + [o] && HasFacts(x)
      ensures KeyOf(x, s) in t2.current && t2.current[KeyOf(x, s)] == FactOf(x, c, s)
    {
      InventoryAt(t1, o, c, s, KeyOf(x, s));
    }
    assert CurrentEffect(t, t2, before + [o], c, s);
  }

  lemma DifferentFactKey(entity: string, a: string, b: string)
    requires a != b
    ensures Inventory.FactKey(entity, a) != Inventory.FactKey(entity, b)
  {
    assert Inventory.FactKey(entity, a)[|entity| + 1..] == a;
    assert Inventory.FactKey(entity, b)[|entity| + 1..] == b;
  }

  /**
   Main result: persisting the probes of a freshly opened case succeeds exactly when the identifiers made for
   them are new, and then every probe has its one evidence or coverage row and its one audit row, in plan
   order, and the inventory changes only for the observed ones.
   */
  lemma {:induction false} AfterIsEffect(t: Tables, outcomes: seq<Outcome>, c: Opening, s: Services)
    requires JustOpened(t, c) && Distinct(Map(ProbeId, outcomes))
    ensures After(t, outcomes, c, s).Ok? <==> NewIds(t, outcomes)
    ensures After(t, outcomes, c, s).Ok? ==> Effect(t, After(t, outcomes, c, s).value, outcomes, c, s)
  {
    if |outcomes| > 0 {
      var n := |outcomes| - 1;
      var before, o := outcomes[..n], outcomes[n];
      assert outcomes == before + [o];
      MapConcat(ProbeId, before, [o]);
      DistinctSnoc(Map(ProbeId, before), o.run.probeId);
      hide Effect, NewIds, NewId, Persist, JustOpened, Map, Distinct;
      AfterIsEffect(t, before, c, s);
      NewIdsSnoc(t, before, o);
      if After(t, before, c, s).Ok? {
        PersistOne(t, After(t, before, c, s).value, before, o, c, s);
      }
    } else {
      assert Map(RowOf(c, s), outcomes) == [] && Map(AuditRowOf(c), ChainOf(outcomes, c, s)) == [];
    }
  }

  /** The audit rows of a complete effect, read back in order, pass the chain's verification. */
  lemma {:induction false} AuditRowsVerify(t: Tables, t': Tables, outcomes: seq<Outcome>, c: Opening, s: Services)
    requires Effect(t, t', outcomes, c, s)
    ensures var rows := t'.audit[|t.audit|..]; var entries := Map((r: AuditRow) => r.entry, rows);
      |rows| == |outcomes| && Audit.Accepts(s.hash, entries, Audit.CheckpointOf(entries))
  {
    ChainIsLinked(outcomes, c, s);
    var entries := Map((r: AuditRow) => r.entry, t'.audit[|t.audit|..]);
    assert entries == ChainOf(outcomes, c, s);
  }

  /** What `ProbeRunner` returns carries an observation exactly when the run ended OK. */
  lemma RunsAreComplete(probeId: string, definition: C.Definition, execution: C.Execution)
    ensures var run := C.ExecutedRun(probeId, definition, execution);
      run.probeId == probeId && (run.status.RunOk? <==> run.observation.Some?)
  {
  }

  lemma RowAt(t: Tables, t': Tables, outcomes: seq<Outcome>, c: Opening, s: Services, i: nat)
    requires Effect(t, t', outcomes, c, s) && i < |outcomes|
    ensures |t'.evidence| == |t.evidence| + |outcomes| && t'.evidence[|t.evidence| + i] == RowOf(c, s)(outcomes[i])
  {
  }

  lemma {:induction false} AuditRowAt(t: Tables, t': Tables, outcomes: seq<Outcome>, c: Opening, s: Services, i: nat)
    requires Effect(t, t', outcomes, c, s) && i < |outcomes|
    ensures |t'.audit| == |t.audit| + |outcomes|
    ensures var row := t'.audit[|t.audit| + i]; var p := row.entry.payload;
      && row.caseId == c.caseId && row.eventId == EventId(outcomes[i])
      && p.probeId == outcomes[i].run.probeId && p.outcome == AuditOutcome(outcomes[i].run.status)
  {
    ChainIsLinked(outcomes, c, s);
  }

  lemma OnlyOkIsCovered(status: C.RunStatus)
    ensures CoverageStatusOf(status) == D.Covered <==> status.RunOk?
    ensures AuditOutcome(status) == Audit.Allowed <==> status.RunOk?
  {
  }

  /**
   Main result: for such runs, probe `i` is backed by evidence exactly when its audit row says it was allowed, and
   otherwise by a coverage report that never says covered.
   */
  lemma {:induction false} RowsAgreeWithAudit(t: Tables, t': Tables, outcomes: seq<Outcome>, c: Opening, s: Services, i: nat)
    requires Effect(t, t', outcomes, c, s) && i < |outcomes|
    requires outcomes[i].run.status.RunOk? <==> outcomes[i].run.observation.Some?
    ensures |t'.evidence| == |t.evidence| + |outcomes| && |t'.audit| == |t.audit| + |outcomes|
    ensures var row, audit := t'.evidence[|t.evidence| + i], t'.audit[|t.audit| + i];
      && row.caseId == audit.caseId == c.caseId && audit.entry.payload.probeId == outcomes[i].run.probeId
      && row.sourceId == (if row.record.Observed? then ProbeSource(c.caseId, outcomes[i].run.probeId)
                          else ProbeCoverageSource(c.caseId, outcomes[i].run.probeId))
      && (row.record.Observed? <==> audit.entry.payload.outcome == Audit.Allowed)
      && (row.record.Reported? ==> row.record.status != D.Covered)
  {
    RowAt(t, t', outcomes, c, s, i);
    AuditRowAt(t, t', outcomes, c, s, i);
    OnlyOkIsCovered(outcomes[i].run.status);
    hide Effect, AuditOutcome, CoverageStatusOf;
  }

  // ---- Crashes ----

  datatype Stage = NoCase | Ready | Begun | RowIn | InventoryIn | AuditIn | Gone

  /** The open connection and what is committed, with `done` probes behind. */
  datatype Process = Process(committed: Tables, working: Tables, done: nat, stage: Stage)

  datatype Step = Advance | Crash

  ghost function Next(p: Process, step: Step, plan: seq<Outcome>, c: Opening, s: Services): Process {
    if step == Crash then Process(p.committed, p.committed, p.done, Gone)
    else if p.stage == NoCase then
      match CreateCase(p.committed, c.caseId)
      case Ok(t) => Process(t, t, 0, Ready)
      case Err(_) => p.(stage := Gone)
    else if p.done >= |plan| then p
    else
      var o := plan[p.done];
      match p.stage
      case Ready => p.(stage := Begun)
      case Begun =>
        (match InsertEvidence(p.working, RowOf(c, s)(o))
         case Ok((t, _)) => p.(working := t, stage := RowIn)
         case Err(_) => p.(working := p.committed, stage := Gone))
      case RowIn => p.(working := WithInventory(p.working, o, c, s), stage := InventoryIn)
      case InventoryIn =>
        (match AppendAudit(p.working, AuditRowOf(c)(EntryOf(ChainOf(plan[..p.done], c, s), o, c, s)))
         case Ok(t) => p.(working := t, stage := AuditIn)
         case Err(_) => p.(working := p.committed, stage := Gone))
      case AuditIn => p.(committed := p.working, done := p.done + 1, stage := Ready)
      case _ => p
  }

  ghost function Steps(t: Tables, steps: seq<Step>, plan: seq<Outcome>, c: Opening, s: Services): Process {
    if |steps| == 0 then Process(t, t, 0, NoCase)
    else Next(Steps(t, steps[..|steps| - 1], plan, c, s), steps[|steps| - 1], plan, c, s)
  }

  /** The tables with the case row, when it could be created. */
  function WithCase(t: Tables, c: Opening): Tables {
    if CreateCase(t, c.caseId).Ok? then CreateCase(t, c.caseId).value else t
  }

  ghost predicate MidTransaction(p: Process, plan: seq<Outcome>, c: Opening, s: Services)
    requires p.done < |plan|
  {
    var o := plan[p.done];
    var row := InsertEvidence(p.committed, RowOf(c, s)(o));
    match p.stage
    case Ready => p.working == p.committed
    case Begun => p.working == p.committed
    case RowIn => row.Ok? && p.working == row.value.0
    case InventoryIn => row.Ok? && p.working == WithInventory(row.value.0, o, c, s)
    case AuditIn => Persist(p.committed, o, EntryOf(ChainOf(plan[..p.done], c, s), o, c, s), c, s) == Ok(p.working)
    case _ => true
  }

  ghost predicate ProcessInv(t: Tables, p: Process, plan: seq<Outcome>, c: Opening, s: Services) {
    && p.done <= |plan|
    && (p.committed == t || After(WithCase(t, c), plan[..p.done], c, s) == Ok(p.committed))
    && (!p.stage.NoCase? && !p.stage.Gone? ==> After(WithCase(t, c), plan[..p.done], c, s) == Ok(p.committed))
    && (p.stage.NoCase? ==> p.committed == t)
    && (p.done < |plan| ==> MidTransaction(p, plan, c, s))
  }

  lemma {:induction false} CommitKeepsInv(t: Tables, p: Process, plan: seq<Outcome>, c: Opening, s: Services)
    requires ProcessInv(t, p, plan, c, s) && p.stage.AuditIn? && p.done < |plan|
    ensures ProcessInv(t, p.(committed := p.working, done := p.done + 1, stage := Ready), plan, c, s)
  {
    hide Persist, EntryOf;
    assert plan[..p.done + 1][..p.done] == plan[..p.done];
  }

  lemma StatementKeepsInv(p: Process, plan: seq<Outcome>, c: Opening, s: Services)
    requires p.done < |plan| && MidTransaction(p, plan, c, s) && !p.stage.NoCase? && !p.stage.AuditIn?
    ensures MidTransaction(Next(p, Advance, plan, c, s), plan, c, s)
  {
    hide InsertEvidence, WithInventory, EntryOf, RowOf, AppendAudit, AuditRowOf;
  }

  lemma {:induction false} NextKeepsInv(t: Tables, p: Process, step: Step, plan: seq<Outcome>, c: Opening, s: Services)
    requires ProcessInv(t, p, plan, c, s)
    ensures ProcessInv(t, Next(p, step, plan, c, s), plan, c, s)
  {
    hide InsertEvidence, WithInventory, EntryOf, RowOf, AppendAudit;
    if step.Advance? && p.stage.NoCase? {
      assert plan[..0] == [];
    } else if step.Advance? && p.stage.AuditIn? && p.done < |plan| {
      CommitKeepsInv(t, p, plan, c, s);
    } else if step.Advance? && p.done < |plan| {
      StatementKeepsInv(p, plan, c, s);
      assert Next(p, step, plan, c, s).committed == p.committed && Next(p, step, plan, c, s).done == p.done;
      hide MidTransaction;
    }
  }

  /**
   Main result: wherever a crash or an error ends the call, what is committed is the tables as they were, or
   the case row with the complete effect of a prefix of the plan.
   */
  lemma {:induction false} CrashLeavesAPrefix(t: Tables, steps: seq<Step>, plan: seq<Outcome>, c: Opening, s: Services)
    ensures var p := Steps(t, steps, plan, c, s);
      ProcessInv(t, p, plan, c, s)
  {
    if |steps| > 0 {
      hide ProcessInv, Next;
      CrashLeavesAPrefix(t, steps[..|steps| - 1], plan, c, s);
      NextKeepsInv(t, Steps(t, steps[..|steps| - 1], plan, c, s), steps[|steps| - 1], plan, c, s);
    } else {
      assert plan[..0] == [];
    }
  }

  lemma {:induction false} CommittedIsAPrefix(t: Tables, steps: seq<Step>, plan: seq<Outcome>, c: Opening, s: Services)
    requires SoundEvidence(t) && c.caseId !in t.cases && Distinct(Map(ProbeId, plan))
    ensures var p := Steps(t, steps, plan, c, s); var t1 := t.(cases := t.cases + {c.caseId});
      p.committed == t || (p.done <= |plan| && Effect(t1, p.committed, plan[..p.done], c, s))
  {
    CrashLeavesAPrefix(t, steps, plan, c, s);
    var p := Steps(t, steps, plan, c, s);
    CreatedCaseIsJustOpened(t, c);
    assert Map(ProbeId, plan[..p.done]) == Map(ProbeId, plan)[..p.done];
    AfterIsEffect(WithCase(t, c), plan[..p.done], c, s);
  }

  function Advances(n: nat): seq<Step> { seq(n, _ => Advance) }

  /** The process after `n` steps without a crash. */
  ghost function Uninterrupted(t: Tables, n: nat, plan: seq<Outcome>, c: Opening, s: Services): Process { Steps(t, Advances(n), plan, c, s) }

  lemma OneAdvance(t: Tables, n: nat, plan: seq<Outcome>, c: Opening, s: Services)
    ensures Uninterrupted(t, n + 1, plan, c, s) == Next(Uninterrupted(t, n, plan, c, s), Advance, plan, c, s)
  {
    hide Next;
    assert Advances(n + 1)[..n] == Advances(n) && Advances(n + 1)[n] == Advance;
  }

  /** The five steps of one probe: begin, evidence or coverage, inventory, audit, commit. */
  ghost function Five(p: Process, plan: seq<Outcome>, c: Opening, s: Services): Process {
    var begun := Next(p, Advance, plan, c, s);
    var row := Next(begun, Advance, plan, c, s);
    var inventory := Next(row, Advance, plan, c, s);
    var audited := Next(inventory, Advance, plan, c, s);
    Next(audited, Advance, plan, c, s)
  }

  lemma FiveMore(t: Tables, k: nat, plan: seq<Outcome>, c: Opening, s: Services)
    ensures Uninterrupted(t, k + 5, plan, c, s) == Five(Uninterrupted(t, k, plan, c, s), plan, c, s)
  {
    hide Next, Uninterrupted;
    OneAdvance(t, k, plan, c, s);
    OneAdvance(t, k + 1, plan, c, s);
    OneAdvance(t, k + 2, plan, c, s);
    OneAdvance(t, k + 3, plan, c, s);
    OneAdvance(t, k + 4, plan, c, s);
  }

  lemma ProbeSteps(p: Process, plan: seq<Outcome>, c: Opening, s: Services, t: Tables)
    requires p.stage.Ready? && p.working == p.committed && p.done < |plan|
    requires Persist(p.committed, plan[p.done], EntryOf(ChainOf(plan[..p.done], c, s), plan[p.done], c, s), c, s) == Ok(t)
    ensures Five(p, plan, c, s) == Process(t, t, p.done + 1, Ready)
  {
    hide InsertEvidence, WithInventory, EntryOf, RowOf, AppendAudit, AuditRowOf;
  }

  lemma AfterOneMore(t: Tables, plan: seq<Outcome>, n: nat, c: Opening, s: Services)
    requires 0 < n <= |plan| && After(t, plan[..n], c, s).Ok?
    ensures After(t, plan[..n - 1], c, s).Ok?
    ensures Persist(After(t, plan[..n - 1], c, s).value, plan[n - 1], EntryOf(ChainOf(plan[..n - 1], c, s), plan[n - 1], c, s), c, s)
         == After(t, plan[..n], c, s)
  {
    hide Persist, EntryOf, ChainOf;
    assert plan[..n][..n - 1] == plan[..n - 1];
  }

  lemma OneProbeMore(t: Tables, before: Tables, n: nat, plan: seq<Outcome>, c: Opening, s: Services, t': Tables)
    requires 0 < n <= |plan| && Uninterrupted(t, 5 * n - 4, plan, c, s) == Process(before, before, n - 1, Ready)
    requires Persist(before, plan[n - 1], EntryOf(ChainOf(plan[..n - 1], c, s), plan[n - 1], c, s), c, s) == Ok(t')
    ensures Uninterrupted(t, 5 * n + 1, plan, c, s) == Process(t', t', n, Ready)
  {
    hide Persist, EntryOf, Five, Uninterrupted;
    FiveMore(t, 5 * n - 4, plan, c, s);
    ProbeSteps(Process(before, before, n - 1, Ready), plan, c, s, t');
  }

  lemma {:induction false} ProbesAreARun(t: Tables, first: Tables, n: nat, plan: seq<Outcome>, c: Opening, s: Services, t': Tables)
    requires Uninterrupted(t, 1, plan, c, s) == Process(first, first, 0, Ready)
    requires n <= |plan| && After(first, plan[..n], c, s) == Ok(t')
    ensures Uninterrupted(t, 5 * n + 1, plan, c, s) == Process(t', t', n, Ready)
  {
    hide Persist, EntryOf, Uninterrupted;
    if n > 0 {
      AfterOneMore(first, plan, n, c, s);
      var before := After(first, plan[..n - 1], c, s).value;
      ProbesAreARun(t, first, n - 1, plan, c, s, before);
      OneProbeMore(t, before, n, plan, c, s, t');
    }
  }

  lemma OpeningStep(t: Tables, plan: seq<Outcome>, c: Opening, s: Services)
    requires CreateCase(t, c.caseId).Ok?
    ensures Uninterrupted(t, 1, plan, c, s) == Process(WithCase(t, c), WithCase(t, c), 0, Ready)
  {
    OneAdvance(t, 0, plan, c, s);
    assert Advances(0) == [];
  }

  /** Main result: without a crash the process persists the probes one after another, as `OpenCase` does, and gets to the end. */
  lemma OpenCaseIsARun(t: Tables, n: nat, plan: seq<Outcome>, c: Opening, s: Services)
    requires CreateCase(t, c.caseId).Ok? && n <= |plan| && After(WithCase(t, c), plan[..n], c, s).Ok?
    ensures var t' := After(WithCase(t, c), plan[..n], c, s).value;
      Uninterrupted(t, 5 * n + 1, plan, c, s) == Process(t', t', n, Ready)
  {
    OpeningStep(t, plan, c, s);
    hide WithCase, Uninterrupted;
    ProbesAreARun(t, WithCase(t, c), n, plan, c, s, After(WithCase(t, c), plan[..n], c, s).value);
  }

  // ---- The runtime ----

  /** In a linked chain the last entry continues the others. */
  lemma LastEntry(hash: Audit.Payload -> string, before: seq<Audit.Entry>, entry: Audit.Entry)
    requires Audit.Linked(hash, before + [entry])
    ensures entry.payload.sequence == |before| + 1 && entry.payload.previousHash == Audit.HeadHash(before)
    ensures entry.eventHash == hash(entry.payload)
  {
    assert (before + [entry])[..|before|] == before;
    assert Audit.LinkedAt(hash, before + [entry], |before|);
  }

  class DiagnosticRuntime {
    const store: SQLiteStore
    const services: Services

    constructor (store: SQLiteStore, services: Services)
      ensures this.store == store && this.services == services
    {
      this.store, this.services := store, services;
    }

    /** `plan` is what `ProbeRunner.run` answers for the planned probes, in plan order. */
    method OpenCase(c: Opening, plan: seq<Outcome>) returns (r: Result<(), StoreError>, ghost done: nat)
      requires store.Valid() && !store.inTransaction
      modifies store
      ensures store.Valid() && !store.inTransaction
      ensures done <= |plan|
      ensures CreateCase(old(store.committed), c.caseId).Err? ==> r.Err? && store.committed == old(store.committed)
      ensures CreateCase(old(store.committed), c.caseId).Ok? ==>
        After(WithCase(old(store.committed), c), plan[..done], c, services) == Ok(store.committed)
      ensures r.Ok? ==> done == |plan|
      ensures r.Err? && CreateCase(old(store.committed), c.caseId).Ok? ==>
        done < |plan| && After(WithCase(old(store.committed), c), plan[..done + 1], c, services) == Err(r.error)
    {
      done := 0;
      var created := store.InsertCase(c.caseId);
      if created.Err? {
        return Err(created.error), 0;
      }
      ghost var t := store.committed;
      var chain := new Audit.AuditChain(services.hash, services.redactParameters, services.redactText);
      assert plan[..0] == [];
      hide Persist, ChainOf;
      for i := 0 to |plan|
        invariant store.Valid() && !store.inTransaction && done == i
        invariant Serves(chain) && chain.entries == ChainOf(plan[..i], c, services)
        invariant After(t, plan[..i], c, services) == Ok(store.committed)
      {
        assert plan[..i + 1][..i] == plan[..i];
        var persisted := PersistProbe(c, plan[i], chain);
        if persisted.Err? {
          return Err(persisted.error), i;
        }
        done := i + 1;
      }
      assert plan[..|plan|] == plan;
      r := Ok(());
    }

    ghost predicate Serves(chain: Audit.AuditChain)
      reads chain
    {
      && chain.Valid() && chain.hash == services.hash
      && chain.redactParameters == services.redactParameters && chain.redactText == services.redactText
    }

    /** One planned probe: its audit entry, then its transaction. */
    method PersistProbe(c: Opening, o: Outcome, chain: Audit.AuditChain) returns (r: Result<(), StoreError>)
      requires store.Valid() && !store.inTransaction && Serves(chain)
      modifies store, chain
      ensures store.Valid() && !store.inTransaction && Serves(chain)
      ensures chain.entries == old(chain.entries) + [EntryOf(old(chain.entries), o, c, services)]
      ensures match Persist(old(store.committed), o, EntryOf(old(chain.entries), o, c, services), c, services)
        case Ok(t) => r == Ok(()) && store.committed == t
        case Err(e) => r == Err(e) && store.committed == old(store.committed)
    {
      var entry := chain.Append(EventId(o), Some(c.caseId), o.run.probeId, AuditOutcome(o.run.status), c.at,
                                map["elapsed_ms" := o.elapsedMs], o.run.error);
      LastEntry(services.hash, old(chain.entries), entry);
      assert entry == EntryOf(old(chain.entries), o, c, services);
      hide EntryOf, RowOf, AuditRowOf, KeyOf, FactOf;
      r := PersistRows(c, o, entry);
    }

    /** The transaction. */
    method PersistRows(c: Opening, o: Outcome, entry: Audit.Entry) returns (r: Result<(), StoreError>)
      requires store.Valid() && !store.inTransaction
      modifies store
      ensures store.Valid() && !store.inTransaction
      ensures match Persist(old(store.committed), o, entry, c, services)
        case Ok(t) => r == Ok(()) && store.committed == t
        case Err(e) => r == Err(e) && store.committed == old(store.committed)
    {
      hide InsertEvidence, UpsertInventory, AppendAudit, RowOf, AuditRowOf, KeyOf, FactOf;
      store.Begin();
      var inserted := store.Insert(RowOf(c, services)(o));
      if inserted.Err? {
        store.Rollback();
        return Err(inserted.error);
      }
      if HasFacts(o) {
        var _ := store.Upsert(KeyOf(o, services), FactOf(o, c, services));
      }
      var appended := store.Append(AuditRowOf(c)(entry));
      if appended.Err? {
        store.Rollback();
        return Err(appended.error);
      }
      store.Commit();
      r := Ok(());
    }
  }
}
