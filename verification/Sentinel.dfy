/**
 The incremental Event Log capture of src/systemsense/sentinel.py.

 The adapter's answer, the clock and fresh identifiers are parameters; `encode` stands for the
 redacted JSON of an event's evidence record.
 */
module Sentinel {
  import opened Results
  import opened Sequences
  import opened Domain
  import opened Store

  datatype Event = Event(channel: string, provider: string, eventId: nat, recordId: nat, observedAt: int, body: string)

  datatype QueryStatus = QueryOk | QueryDenied | QueryStale | QueryFailed

  datatype EventQuery = EventQuery(status: QueryStatus, events: seq<Event>, reason: Option<string>)

  datatype PollResult = PollResult(inserted: nat, bookmark: Option<int>, coverage: Option<CoverageStatus>)

  /** A fetched batch on its way into the store. */
  datatype Batch = Batch(caseId: string, channel: string, events: seq<Event>, ids: seq<string>, capturedAt: int)

  function SourceOf(e: Event): SourceId { EventSource(e.channel, e.provider, e.eventId, e.recordId) }

  function BookmarkName(channel: string): string { "eventlog." + channel }

  function MaxId(events: seq<Event>): (m: nat)
    requires |events| > 0
    ensures exists i :: 0 <= i < |events| && events[i].recordId == m
    ensures forall i :: 0 <= i < |events| ==> events[i].recordId <= m
  {
    if |events| == 1 then events[0].recordId else
      var m := MaxId(events[1..]);
      assert forall i :: 0 < i < |events| ==> events[i] == events[1..][i - 1];
      if events[0].recordId >= m then events[0].recordId else m
  }

  function RowOf(b: Batch, i: nat, encode: Event -> string): EvidenceRow
    requires i < |b.events| <= |b.ids|
  {
    EvidenceRow(b.ids[i], b.caseId, SourceOf(b.events[i]), Observed(encode(b.events[i])), b.capturedAt)
  }

  /** The transaction after its first `n` inserts, and how many of them added a row. */
  function InsertFirst(t: Tables, b: Batch, n: nat, encode: Event -> string): Result<(Tables, nat), StoreError>
    requires n <= |b.events| <= |b.ids|
  {
    if n == 0 then Ok((t, 0)) else
      match InsertFirst(t, b, n - 1, encode)
      case Err(e) => Err(e)
      case Ok((t1, k)) =>
        match InsertEvidence(t1, RowOf(b, n - 1, encode))
        case Err(e) => Err(e)
        case Ok((t2, added)) => Ok((t2, k + if added then 1 else 0))
  }

  /** The whole transaction: every insert, then the bookmark. */
  function BatchEffect(t: Tables, b: Batch, encode: Event -> string): Result<(Tables, nat), StoreError>
    requires 0 < |b.events| <= |b.ids|
  {
    match InsertFirst(t, b, |b.events|, encode)
    case Err(e) => Err(e)
    case Ok((t1, k)) => Ok((AdvanceBookmark(t1, BookmarkName(b.channel), Number(MaxId(b.events))), k))
  }

  function CoverageRow(caseId: string, channel: string, status: CoverageStatus, reason: string, id: string, at: int): EvidenceRow {
    EvidenceRow(id, caseId, EventCoverageSource(channel, status), Reported(status, reason), at)
  }

  function FailureStatus(status: QueryStatus): CoverageStatus
    requires status != QueryOk
  {
    match status
    case QueryDenied => Denied
    case QueryStale => Stale
    case QueryFailed => Failed
  }

  class Sentinel {
    const store: SQLiteStore
    const encode: Event -> string
    const redactText: string -> string

    constructor (store: SQLiteStore, encode: Event -> string, redactText: string -> string)
      ensures this.store == store && this.encode == encode && this.redactText == redactText
    {
      this.store, this.encode, this.redactText := store, encode, redactText;
    }

    /**
     `answer` is the adapter, `Err` an exception that leaves the poll. On an exception nothing has
     been written; otherwise exactly the batch, or exactly one coverage report, has been.
     */
    method Poll(caseId: string, channel: string, answer: Option<int> -> EventQuery,
                capturedAt: int, ids: seq<string>, coverageId: string)
      returns (result: Result<PollResult, StoreError>)
      requires store.Valid() && !store.inTransaction
      requires forall after :: |answer(after).events| <= |ids|
      modifies store
      ensures store.Valid() && !store.inTransaction
      ensures result.Err? ==> store.committed == old(store.committed)
      ensures (store.committed, result) == PollOutcome(old(store.committed), encode, redactText,
                                                       caseId, channel, answer, capturedAt, ids, coverageId)
      ensures PollPromise(old(store.committed), store.committed, encode, redactText, caseId, channel, answer, capturedAt, result)
    {
      PollKeepsPromise(store.committed, encode, redactText, caseId, channel, answer, capturedAt, ids, coverageId);
      hide PollPromise;
      var position := Bookmark(store.tables, channel);
      var after: Option<int> := None;
      if position.Some? {
        if position.value.Malformed? {
          result := PersistCoverage(caseId, channel, Stale, "stored bookmark is invalid", coverageId, capturedAt);
          return;
        }
        after := Some(position.value.n);
      }
      var query := answer(after);
      if query.status != QueryOk {
        var reason := if query.reason.Some? && query.reason.value != "" then query.reason.value else "event query failed";
        result := PersistCoverage(caseId, channel, FailureStatus(query.status), reason, coverageId, capturedAt);
        return;
      }
      if |query.events| == 0 {
        return Ok(PollResult(0, after, None));
      }
      var r := StoreBatch(Batch(caseId, channel, query.events, ids, capturedAt));
      return if r.Err? then Err(r.error) else Ok(PollResult(r.value, Some(MaxId(query.events)), None));
    }

    /** The transaction: all inserts and the bookmark, or nothing. */
    method StoreBatch(batch: Batch) returns (r: Result<nat, StoreError>)
      requires store.Valid() && !store.inTransaction && 0 < |batch.events| <= |batch.ids|
      modifies store
      ensures store.Valid() && !store.inTransaction
      ensures match BatchEffect(old(store.committed), batch, encode)
        case Ok((t, inserted)) => r == Ok(inserted) && store.committed == t
        case Err(e) => r == Err(e) && store.committed == old(store.committed)
    {
      hide InsertEvidence, AdvanceBookmark, RowOf;
      var inserted := 0;
      store.Begin();
      for i := 0 to |batch.events|
        invariant store.Valid() && store.inTransaction && store.committed == old(store.committed)
        invariant InsertFirst(old(store.committed), batch, i, encode) == Ok((store.tables, inserted))
      {
        var inserting := store.Insert(RowOf(batch, i, encode));
        if inserting.Err? {
          ErrorStays(old(store.committed), batch, i + 1, encode);
          store.Rollback();
          return Err(inserting.error);
        }
        if inserting.value {
          inserted := inserted + 1;
        }
      }
      store.Advance(BookmarkName(batch.channel), Number(MaxId(batch.events)));
      store.Commit();
      return Ok(inserted);
    }

    method PersistCoverage(caseId: string, channel: string, status: CoverageStatus, reason: string, id: string, at: int)
      returns (result: Result<PollResult, StoreError>)
      requires store.Valid() && !store.inTransaction
      modifies store
      ensures store.Valid() && !store.inTransaction
      ensures (store.committed, result)
           == CoverageOutcome(old(store.committed), CoverageRow(caseId, channel, status, redactText(reason), id, at), status)
    {
      store.Begin();
      var r := store.Insert(CoverageRow(caseId, channel, status, redactText(reason), id, at));
      if r.Err? {
        store.Rollback();
        return Err(r.error);
      }
      store.Commit();
      return Ok(PollResult(0, None, Some(status)));
    }
  }

  function Bookmark(t: Tables, channel: string): Option<Position> {
    if BookmarkName(channel) in t.bookmarks then Some(t.bookmarks[BookmarkName(channel)]) else None
  }

  function CoverageOutcome(t: Tables, row: EvidenceRow, status: CoverageStatus): (Tables, Result<PollResult, StoreError>) {
    match InsertEvidence(t, row)
    case Err(e) => (t, Err(e))
    case Ok((t1, _)) => (t1, Ok(PollResult(0, None, Some(status))))
  }

  function PollOutcome(t: Tables, encode: Event -> string, redactText: string -> string, caseId: string, channel: string,
                       answer: Option<int> -> EventQuery, capturedAt: int, ids: seq<string>, coverageId: string)
    : (Tables, Result<PollResult, StoreError>)
    requires forall after :: |answer(after).events| <= |ids|
  {
    var position := Bookmark(t, channel);
    if position.Some? && position.value.Malformed? then
      CoverageOutcome(t, CoverageRow(caseId, channel, Stale, redactText("stored bookmark is invalid"), coverageId, capturedAt), Stale)
    else
      var after := if position.Some? then Some(position.value.n) else None;
      var query := answer(after);
      if query.status != QueryOk then
        var reason := if query.reason.Some? && query.reason.value != "" then query.reason.value else "event query failed";
        var status := FailureStatus(query.status);
        CoverageOutcome(t, CoverageRow(caseId, channel, status, redactText(reason), coverageId, capturedAt), status)
      else if |query.events| == 0 then (t, Ok(PollResult(0, after, None)))
      else
        match BatchEffect(t, Batch(caseId, channel, query.events, ids, capturedAt), encode)
        case Err(e) => (t, Err(e))
        case Ok((t1, k)) => (t1, Ok(PollResult(k, Some(MaxId(query.events)), None)))
  }

  lemma {:induction false} ErrorStays(t: Tables, b: Batch, n: nat, encode: Event -> string)
    requires n <= |b.events| <= |b.ids| && InsertFirst(t, b, n, encode).Err?
    ensures InsertFirst(t, b, |b.events|, encode) == InsertFirst(t, b, n, encode)
    decreases |b.events| - n
  {
    if n < |b.events| {
      ErrorStays(t, b, n + 1, encode);
    }
  }

  // ---- Arbitrary backends ----

  lemma {:induction false} InsertFirstKeeps(t: Tables, b: Batch, n: nat, encode: Event -> string)
    requires n <= |b.events| <= |b.ids| && SoundEvidence(t) && InsertFirst(t, b, n, encode).Ok?
    ensures var (t', k) := InsertFirst(t, b, n, encode).value;
      && SoundEvidence(t') && t.evidence <= t'.evidence && |t'.evidence| == |t.evidence| + k
      && t' == t.(evidence := t'.evidence)
  {
    if n > 0 {
      hide SoundEvidence;
      InsertFirstKeeps(t, b, n - 1, encode);
      InsertKeepsSound(InsertFirst(t, b, n - 1, encode).value.0, RowOf(b, n - 1, encode));
    }
  }

  lemma {:induction false} InsertFirstStores(t: Tables, b: Batch, n: nat, encode: Event -> string)
    requires n <= |b.events| <= |b.ids| && InsertFirst(t, b, n, encode).Ok?
    ensures forall i :: 0 <= i < n ==> (b.caseId, SourceOf(b.events[i])) in Map(Pair, InsertFirst(t, b, n, encode).value.0.evidence)
  {
    if n > 0 {
      InsertFirstStores(t, b, n - 1, encode);
      InsertStores(InsertFirst(t, b, n - 1, encode).value.0, RowOf(b, n - 1, encode));
    }
  }

  lemma InsertStores(t: Tables, row: EvidenceRow)
    requires InsertEvidence(t, row).Ok?
    ensures forall pair :: pair in Map(Pair, InsertEvidence(t, row).value.0.evidence) <==> pair in Map(Pair, t.evidence) || pair == Pair(row)
  {
    assert Map(Pair, t.evidence + [row]) == Map(Pair, t.evidence) + [Pair(row)];
  }

  /** What a batch adds belongs to its own case and is about its own events. */
  lemma {:induction false} InsertFirstOnlyOwn(t: Tables, b: Batch, n: nat, encode: Event -> string, r: EvidenceRow) returns (i: nat)
    requires n <= |b.events| <= |b.ids| && InsertFirst(t, b, n, encode).Ok?
    requires r in InsertFirst(t, b, n, encode).value.0.evidence && r !in t.evidence
    ensures i < n && r == RowOf(b, i, encode)
  {
    if r in InsertFirst(t, b, n - 1, encode).value.0.evidence {
      i := InsertFirstOnlyOwn(t, b, n - 1, encode, r);
    } else {
      i := n - 1;
    }
  }

  /**
   Main result for any backend, replaying or not: no (case, source) pair is ever stored twice, the
   insert count is the number of new rows, afterwards every event of the batch is stored, and replaying
   the batch changes nothing.
   */
  lemma {:induction false} BatchIsIdempotent(t: Tables, b: Batch, encode: Event -> string)
    requires SoundEvidence(t) && 0 < |b.events| <= |b.ids| && BatchEffect(t, b, encode).Ok?
    ensures var (t', k) := BatchEffect(t, b, encode).value;
      && SoundEvidence(t') && t.evidence <= t'.evidence && |t'.evidence| == |t.evidence| + k
      && (forall e :: e in b.events ==> (b.caseId, SourceOf(e)) in Map(Pair, t'.evidence))
      && BatchEffect(t', b, encode) == Ok((t', 0))
  {
    InsertFirstKeeps(t, b, |b.events|, encode);
    InsertFirstStores(t, b, |b.events|, encode);
    var t1 := InsertFirst(t, b, |b.events|, encode).value.0;
    hide SoundEvidence, AdvanceBookmark;
    AdvanceKeeps(t1, BookmarkName(b.channel), Number(MaxId(b.events)));
    ReplayAddsNothing(BatchEffect(t, b, encode).value.0, b, |b.events|, encode);
    forall e | e in b.events ensures (b.caseId, SourceOf(e)) in Map(Pair, t1.evidence) {
      var i :| 0 <= i < |b.events| && b.events[i] == e;
    }
  }

  lemma AdvanceKeeps(t: Tables, source: string, position: Position)
    ensures var t' := AdvanceBookmark(t, source, position);
      && t'.evidence == t.evidence && (SoundEvidence(t) ==> SoundEvidence(t'))
      && AdvanceBookmark(t', source, position) == t'
  {
    var t' := AdvanceBookmark(t, source, position);
    assert t'.bookmarks[source := position] == t'.bookmarks;
  }

  lemma {:induction false} ReplayAddsNothing(t: Tables, b: Batch, n: nat, encode: Event -> string)
    requires n <= |b.events| <= |b.ids|
    requires forall i :: 0 <= i < n ==> (b.caseId, SourceOf(b.events[i])) in Map(Pair, t.evidence)
    ensures InsertFirst(t, b, n, encode) == Ok((t, 0))
  {
    if n > 0 {
      ReplayAddsNothing(t, b, n - 1, encode);
    }
  }

  /** A failed poll keeps the bookmarks and adds at most one row: the report of its (case, channel, status). */
  lemma FailedPollKeepsBookmark(t: Tables, row: EvidenceRow, status: CoverageStatus)
    requires SoundEvidence(t)
    ensures var t' := CoverageOutcome(t, row, status).0;
      && SoundEvidence(t') && t' == t.(evidence := t'.evidence)
      && (t'.evidence == t.evidence || (t'.evidence == t.evidence + [row] && Pair(row) !in Map(Pair, t.evidence)))
      && (CoverageOutcome(t, row, status).1.Ok? ==> CoverageOutcome(t', row, status).0 == t')
  {
    InsertKeepsSound(t, row);
  }

  // ---- Bounded polling cycles ----

  datatype StopReason = Requested | PollLimit

  datatype RunError = NoChannels | BadPollCount | BadInterval | StoreFailed(error: StoreError)

  const MAX_POLLS := 10_000

  datatype RunResult = RunResult(polls: nat, inserted: nat, coverageEvents: nat, stopReason: StopReason)

  function IsEvent(r: EvidenceRow): bool { r.record.Observed? }

  /** The stored observations, coverage reports left out. */
  function Observations(t: Tables): nat { |Filter(IsEvent, t.evidence)| }

  /** One poll grows the table by what it reports. */
  ghost predicate Grew(t: Tables, t': Tables, inserted: nat, coverageEvents: nat) {
    && SoundEvidence(t')
    && Observations(t') == Observations(t) + inserted
    && |t.evidence| + inserted <= |t'.evidence| <= |t.evidence| + inserted + coverageEvents
  }

  lemma {:induction false} PollGrows(t: Tables, encode: Event -> string, redactText: string -> string, caseId: string, channel: string,
                  answer: Option<int> -> EventQuery, capturedAt: int, ids: seq<string>, coverageId: string)
    requires SoundEvidence(t) && forall after :: |answer(after).events| <= |ids|
    ensures var (t', r) := PollOutcome(t, encode, redactText, caseId, channel, answer, capturedAt, ids, coverageId);
      r.Ok? ==> Grew(t, t', r.value.inserted, if r.value.coverage.Some? then 1 else 0)
  {
    var position := Bookmark(t, channel);
    hide SoundEvidence, Grew, Observations, CoverageOutcome, BatchEffect;
    if position.Some? && position.value.Malformed? {
      CoverageGrows(t, CoverageRow(caseId, channel, Stale, redactText("stored bookmark is invalid"), coverageId, capturedAt), Stale);
    } else {
      var query := answer(if position.Some? then Some(position.value.n) else None);
      if query.status != QueryOk {
        var reason := if query.reason.Some? && query.reason.value != "" then query.reason.value else "event query failed";
        var status := FailureStatus(query.status);
        CoverageGrows(t, CoverageRow(caseId, channel, status, redactText(reason), coverageId, capturedAt), status);
      } else if |query.events| > 0 {
        BatchGrows(t, Batch(caseId, channel, query.events, ids, capturedAt), encode);
      } else {
        GrewNothing(t);
      }
    }
  }

  lemma GrewNothing(t: Tables)
    requires SoundEvidence(t)
    ensures Grew(t, t, 0, 0)
  {
  }

  lemma {:induction false} BatchGrows(t: Tables, b: Batch, encode: Event -> string)
    requires SoundEvidence(t) && 0 < |b.events| <= |b.ids|
    ensures BatchEffect(t, b, encode).Ok? ==> Grew(t, BatchEffect(t, b, encode).value.0, BatchEffect(t, b, encode).value.1, 0)
  {
    if InsertFirst(t, b, |b.events|, encode).Ok? {
      InsertFirstKeeps(t, b, |b.events|, encode);
      InsertFirstObserves(t, b, |b.events|, encode);
    }
  }

  lemma CoverageGrows(t: Tables, row: EvidenceRow, status: CoverageStatus)
    requires SoundEvidence(t) && row.record.Reported?
    ensures CoverageOutcome(t, row, status).1.Ok? ==>
      && CoverageOutcome(t, row, status).1.value == PollResult(0, None, Some(status))
      && Grew(t, CoverageOutcome(t, row, status).0, 0, 1)
  {
    InsertKeepsSound(t, row);
    FilterConcat(IsEvent, t.evidence, [row]);
  }

  lemma OneMoreObserved(t: Tables, row: EvidenceRow)
    requires row.record.Observed? && InsertEvidence(t, row).Ok?
    ensures var (t', added) := InsertEvidence(t, row).value; Observations(t') == Observations(t) + if added then 1 else 0
  {
    FilterConcat(IsEvent, t.evidence, [row]);
  }

  lemma {:induction false} InsertFirstObserves(t: Tables, b: Batch, n: nat, encode: Event -> string)
    requires n <= |b.events| <= |b.ids| && InsertFirst(t, b, n, encode).Ok?
    ensures var (t', k) := InsertFirst(t, b, n, encode).value; Observations(t') == Observations(t) + k
  {
    if n > 0 {
      hide InsertEvidence, Observations;
      InsertFirstObserves(t, b, n - 1, encode);
      OneMoreObserved(InsertFirst(t, b, n - 1, encode).value.0, RowOf(b, n - 1, encode));
      assert InsertFirst(t, b, n, encode).value.1 >= 0;
    }
  }

  /** What the adapter, the clock and the source of identifiers say, by poll and channel. */
  datatype Seams = Seams(now: nat -> int, answers: (nat, nat) -> (Option<int> -> EventQuery), ids: (nat, nat) -> seq<string>,
                         coverageIds: (nat, nat) -> string)

  ghost predicate EnoughIds(seams: Seams) { forall p, c, after :: |seams.answers(p, c)(after).events| <= |seams.ids(p, c)| }

  datatype Totals = Totals(tables: Tables, inserted: nat, coverageEvents: nat)

  class SentinelRunner {
    const sentinel: Sentinel

    constructor (sentinel: Sentinel)
      ensures this.sentinel == sentinel
    {
      this.sentinel := sentinel;
    }

    ghost function OnePoll(t: Tables, caseId: string, channel: string, seams: Seams, p: nat, c: nat): (Tables, Result<PollResult, StoreError>)
      requires EnoughIds(seams)
    {
      PollOutcome(t, sentinel.encode, sentinel.redactText, caseId, channel, seams.answers(p, c), seams.now(p), seams.ids(p, c), seams.coverageIds(p, c))
    }

    /** After `p` whole cycles and `c` polls of the next one: the tables, and the sums over these polls of what they returned. */
    ghost function After(t: Tables, caseId: string, channels: seq<string>, seams: Seams, p: nat, c: nat): Result<Totals, StoreError>
      requires c <= |channels| && EnoughIds(seams)
      decreases p, c
    {
      if c == 0 && p == 0 then Ok(Totals(t, 0, 0))
      else if c == 0 then After(t, caseId, channels, seams, p - 1, |channels|)
      else
        match After(t, caseId, channels, seams, p, c - 1)
        case Err(e) => Err(e)
        case Ok(before) =>
          match OnePoll(before.tables, caseId, channels[c - 1], seams, p, c - 1)
          case (_, Err(e)) => Err(e)
          case (t', Ok(r)) => Ok(Totals(t', before.inserted + r.inserted, before.coverageEvents + if r.coverage.Some? then 1 else 0))
    }

    /** The totals are what the polls added to the table. */
    lemma {:induction false} TotalsAreGrowth(t: Tables, caseId: string, channels: seq<string>, seams: Seams, p: nat, c: nat)
      requires c <= |channels| && EnoughIds(seams) && SoundEvidence(t)
      ensures var r := After(t, caseId, channels, seams, p, c);
        r.Ok? ==> Grew(t, r.value.tables, r.value.inserted, r.value.coverageEvents)
      decreases p, c
    {
      hide PollOutcome;
      if c > 0 {
        TotalsAreGrowth(t, caseId, channels, seams, p, c - 1);
        var before := After(t, caseId, channels, seams, p, c - 1);
        if before.Ok? {
          PollGrows(before.value.tables, sentinel.encode, sentinel.redactText, caseId, channels[c - 1], seams.answers(p, c - 1),
                    seams.now(p), seams.ids(p, c - 1), seams.coverageIds(p, c - 1));
        }
      } else if p > 0 {
        TotalsAreGrowth(t, caseId, channels, seams, p - 1, |channels|);
      }
    }

    /**
     The arguments are checked first; then every channel is polled in turn, cycle by cycle, until a stop is requested, the
     limit is reached or a poll raises. The totals are the sums over all polls, and what the run added to the table.
     */
    method Run(caseId: string, channels: seq<string>, maxPolls: int, intervalSeconds: real, stop: nat -> bool, seams: Seams)
      returns (result: Result<RunResult, RunError>)
      requires sentinel.store.Valid() && !sentinel.store.inTransaction && EnoughIds(seams)
      modifies sentinel.store
      ensures sentinel.store.Valid() && !sentinel.store.inTransaction
      ensures result == Err(NoChannels) <==> channels == []
      ensures result == Err(BadPollCount) <==> channels != [] && !(1 <= maxPolls <= MAX_POLLS)
      ensures result == Err(BadInterval) <==> channels != [] && 1 <= maxPolls <= MAX_POLLS && !(0.0 <= intervalSeconds <= 3600.0)
      ensures result.Err? && !result.error.StoreFailed? ==> sentinel.store.committed == old(sentinel.store.committed)
      ensures result.Ok? ==> var r := result.value;
        && Reached(old(sentinel.store.committed), caseId, channels, seams, r.polls, 0,
                   Totals(sentinel.store.committed, r.inserted, r.coverageEvents))
        && (SoundEvidence(old(sentinel.store.committed)) ==>
              Grew(old(sentinel.store.committed), sentinel.store.committed, r.inserted, r.coverageEvents))
        && r.polls <= maxPolls && (forall p: nat :: p < r.polls ==> !stop(p))
        && (r.stopReason == Requested <==> r.polls < maxPolls)
        && (r.stopReason == Requested ==> stop(r.polls))
      ensures result.Err? && result.error.StoreFailed? ==>
        FailedAt(old(sentinel.store.committed), sentinel.store.committed, caseId, channels, seams, maxPolls, result.error.error)
    {
      if channels == [] {
        return Err(NoChannels);
      }
      if maxPolls < 1 || maxPolls > MAX_POLLS {
        return Err(BadPollCount);
      }
      if intervalSeconds < 0.0 || intervalSeconds > 3600.0 {
        return Err(BadInterval);
      }
      var cycles := RunCycles(caseId, channels, maxPolls, stop, seams);
      if cycles.Ok? && SoundEvidence(old(sentinel.store.committed)) {
        TotalsAreGrowth(old(sentinel.store.committed), caseId, channels, seams, cycles.value.polls, 0);
      }
      return if cycles.Err? then Err(StoreFailed(cycles.error)) else Ok(cycles.value);
    }

    /** Some poll raised `error`, and the store is as the polls before it left it. */
    ghost predicate FailedAt(t: Tables, t': Tables, caseId: string, channels: seq<string>, seams: Seams, maxPolls: nat, error: StoreError)
      requires EnoughIds(seams)
    {
      exists p: nat, c: nat :: p < maxPolls && c < |channels| && BreaksOff(t, t', caseId, channels, seams, p, c, error)
    }

    ghost predicate BreaksOff(t: Tables, t': Tables, caseId: string, channels: seq<string>, seams: Seams, p: nat, c: nat, error: StoreError)
      requires c < |channels| && EnoughIds(seams)
    {
      var before := After(t, caseId, channels, seams, p, c);
      before.Ok? && before.value.tables == t' && After(t, caseId, channels, seams, p, c + 1) == Err(error)
    }

    ghost predicate Reached(t: Tables, caseId: string, channels: seq<string>, seams: Seams, p: nat, c: nat, totals: Totals) {
      c <= |channels| && EnoughIds(seams) && After(t, caseId, channels, seams, p, c) == Ok(totals)
    }

    lemma ReachedStart(t: Tables, caseId: string, channels: seq<string>, seams: Seams)
      requires EnoughIds(seams)
      ensures Reached(t, caseId, channels, seams, 0, 0, Totals(t, 0, 0))
    {
    }

    lemma ReachedNext(t: Tables, caseId: string, channels: seq<string>, seams: Seams, p: nat, c: nat, now: Totals)
      requires c < |channels| && EnoughIds(seams) && Reached(t, caseId, channels, seams, p, c, now)
      ensures match OnePoll(now.tables, caseId, channels[c], seams, p, c)
        case (_, Err(e)) => BreaksOff(t, now.tables, caseId, channels, seams, p, c, e)
        case (t', Ok(r)) => Reached(t, caseId, channels, seams, p, c + 1,
                                    Totals(t', now.inserted + r.inserted, now.coverageEvents + if r.coverage.Some? then 1 else 0))
    {
      hide OnePoll;
    }

    lemma ReachedCycle(t: Tables, caseId: string, channels: seq<string>, seams: Seams, p: nat, now: Totals)
      requires |channels| > 0 && Reached(t, caseId, channels, seams, p, |channels|, now)
      ensures Reached(t, caseId, channels, seams, p + 1, 0, now)
    {
      hide OnePoll;
    }

    method RunCycles(caseId: string, channels: seq<string>, maxPolls: nat, stop: nat -> bool, seams: Seams)
      returns (result: Result<RunResult, StoreError>)
      requires |channels| > 0 && 1 <= maxPolls <= MAX_POLLS
      requires sentinel.store.Valid() && !sentinel.store.inTransaction && EnoughIds(seams)
      modifies sentinel.store
      ensures sentinel.store.Valid() && !sentinel.store.inTransaction
      ensures result.Ok? ==> var r := result.value;
        && Reached(old(sentinel.store.committed), caseId, channels, seams, r.polls, 0,
                   Totals(sentinel.store.committed, r.inserted, r.coverageEvents))
        && r.polls <= maxPolls && (forall p: nat :: p < r.polls ==> !stop(p))
        && (r.stopReason == Requested <==> r.polls < maxPolls)
        && (r.stopReason == Requested ==> stop(r.polls))
      ensures result.Err? ==>
        FailedAt(old(sentinel.store.committed), sentinel.store.committed, caseId, channels, seams, maxPolls, result.error)
    {
      hide PollOutcome, Reached, BreaksOff;
      ghost var start := sentinel.store.committed;
      var polls: nat, inserted: nat, coverageEvents: nat := 0, 0, 0;
      ReachedStart(start, caseId, channels, seams);
      while polls < maxPolls
        invariant sentinel.store.Valid() && !sentinel.store.inTransaction && polls <= maxPolls
        invariant Reached(start, caseId, channels, seams, polls, 0, Totals(sentinel.store.committed, inserted, coverageEvents))
        invariant forall p: nat :: p < polls ==> !stop(p)
      {
        if stop(polls) {
          return Ok(RunResult(polls, inserted, coverageEvents, Requested));
        }
        for c := 0 to |channels|
          invariant sentinel.store.Valid() && !sentinel.store.inTransaction
          invariant Reached(start, caseId, channels, seams, polls, c, Totals(sentinel.store.committed, inserted, coverageEvents))
        {
          ReachedNext(start, caseId, channels, seams, polls, c, Totals(sentinel.store.committed, inserted, coverageEvents));
          var r := sentinel.Poll(caseId, channels[c], seams.answers(polls, c), seams.now(polls), seams.ids(polls, c), seams.coverageIds(polls, c));
          if r.Err? {
            return Err(r.error);
          }
          inserted := inserted + r.value.inserted;
          coverageEvents := coverageEvents + if r.value.coverage.Some? then 1 else 0;
        }
        ReachedCycle(start, caseId, channels, seams, polls, Totals(sentinel.store.committed, inserted, coverageEvents));
        polls := polls + 1;
      }
      return Ok(RunResult(polls, inserted, coverageEvents, PollLimit));
    }
  }

  // ---- The protocol: one poller, an append-only log, crashes between any two steps ----

  datatype Poller = Idle | Fetched(batch: Batch) | Writing(batch: Batch, done: nat, inserted: nat, working: Tables)

  datatype System = System(logs: map<string, seq<Event>>, disk: Tables, poller: Poller)

  datatype Step =
    | LogAppend(event: Event)
    | NewCase(caseId: string)
    | OtherRow(row: EvidenceRow)                      // another writer's committed insert
    | Query(caseId: string, channel: string, count: nat, ids: seq<string>, capturedAt: int)
    | QueryFails(caseId: string, channel: string, status: CoverageStatus, reason: string, id: string, at: int)
    | BeginBatch
    | InsertNext
    | CommitBatch
    | Crash

  function Log(s: System, channel: string): seq<Event> { if channel in s.logs then s.logs[channel] else [] }

  /** How many leading events the bookmark covers. */
  function Covered(log: seq<Event>, bookmark: Option<Position>): (n: nat)
    ensures n <= |log|
  {
    if |log| == 0 || bookmark.None? || bookmark.value.Malformed? || log[0].recordId > bookmark.value.n then 0
    else 1 + Covered(log[1..], bookmark)
  }

  function CoveredIn(s: System, channel: string): (n: nat)
    ensures n <= |Log(s, channel)|
  {
    Covered(Log(s, channel), Bookmark(s.disk, channel))
  }

  predicate CanLog(s: System, e: Event) {
    var log := Log(s, e.channel);
    |log| > 0 ==> e.recordId > log[|log| - 1].recordId
  }

  predicate CanCommit(s: System) {
    s.poller.Writing? && s.poller.done == |s.poller.batch.events| > 0
  }

  /**
   Steps that are not enabled leave the system as it is. Others may write at any time at which no transaction of the poller
   is open, so also between a query and the transaction that stores its answer.
   */
  function Next(s: System, step: Step, encode: Event -> string): System {
    match step
    case LogAppend(e) => if CanLog(s, e) then s.(logs := s.logs[e.channel := Log(s, e.channel) + [e]]) else s
    case NewCase(c) => if !s.poller.Writing? && CreateCase(s.disk, c).Ok? then s.(disk := CreateCase(s.disk, c).value) else s
    case OtherRow(row) =>
      if !s.poller.Writing? && !row.sourceId.EventSource? && InsertEvidence(s.disk, row).Ok?
      then s.(disk := InsertEvidence(s.disk, row).value.0) else s
    case Query(caseId, channel, count, ids, at) =>
      var above := Log(s, channel)[CoveredIn(s, channel)..];
      if s.poller.Idle? && 0 < count <= |above| && count <= |ids|
      then s.(poller := Fetched(Batch(caseId, channel, above[..count], ids, at))) else s
    case QueryFails(caseId, channel, status, reason, id, at) =>
      if !s.poller.Writing? then s.(disk := CoverageOutcome(s.disk, CoverageRow(caseId, channel, status, reason, id, at), status).0) else s
    case BeginBatch => if s.poller.Fetched? then s.(poller := Writing(s.poller.batch, 0, 0, s.disk)) else s
    case InsertNext =>
      (match s.poller
       case Writing(b, done, inserted, working) =>
         if done < |b.events| && |b.events| <= |b.ids| then
           match InsertEvidence(working, RowOf(b, done, encode))
           case Err(_) => s.(poller := Idle)
           case Ok((t, added)) => s.(poller := Writing(b, done + 1, inserted + (if added then 1 else 0), t))
         else s
       case _ => s)
    case CommitBatch =>
      if CanCommit(s) then
        var b := s.poller.batch;
        s.(poller := Idle, disk := AdvanceBookmark(s.poller.working, BookmarkName(b.channel), Number(MaxId(b.events))))
      else s
    case Crash => s.(poller := Idle)
  }

  function RunSteps(s: System, steps: seq<Step>, encode: Event -> string): System {
    if |steps| == 0 then s else Next(RunSteps(s, steps[..|steps| - 1], encode), steps[|steps| - 1], encode)
  }

  // ---- What the invariant says ----

  ghost predicate GoodLog(log: seq<Event>, channel: string) {
    && (forall i :: 0 <= i < |log| ==> log[i].channel == channel)
    && (forall i, j :: 0 <= i < j < |log| ==> log[i].recordId < log[j].recordId)
  }

  function FromChannel(channel: string): EvidenceRow -> bool {
    (r: EvidenceRow) => r.sourceId.EventSource? && r.sourceId.channel == channel
  }

  function RowSource(r: EvidenceRow): SourceId { r.sourceId }

  /** The events of a channel that the store holds, over all cases, in the order of insertion. */
  function StoredSources(t: Tables, channel: string): seq<SourceId> {
    Map(RowSource, Filter(FromChannel(channel), t.evidence))
  }

  /** What is stored is exactly the covered events, in log order, and the bookmark is the last of them. */
  ghost predicate CapturedAs(log: seq<Event>, channel: string, stored: seq<SourceId>, bookmark: Option<Position>) {
    var n := Covered(log, bookmark);
    && GoodLog(log, channel)
    && stored == Map(SourceOf, log[..n])
    && (bookmark.Some? ==> n > 0 && bookmark == Some(Number(log[n - 1].recordId)))
  }

  ghost predicate Captured(log: seq<Event>, t: Tables, channel: string) {
    CapturedAs(log, channel, StoredSources(t, channel), Bookmark(t, channel))
  }

  ghost predicate GoodBatch(s: System, b: Batch) {
    && 0 < |b.events| <= |b.ids|
    && b.events <= Log(s, b.channel)[CoveredIn(s, b.channel)..]
  }

  ghost predicate Inv(s: System, encode: Event -> string) {
    && SoundEvidence(s.disk)
    && (forall channel :: Captured(Log(s, channel), s.disk, channel))
    && match s.poller
       case Idle => true
       case Fetched(b) => GoodBatch(s, b)
       case Writing(b, done, inserted, working) =>
         GoodBatch(s, b) && done <= |b.events| && InsertFirst(s.disk, b, done, encode) == Ok((working, inserted))
  }

  ghost predicate Initial(s: System) {
    && s.poller.Idle? && SoundEvidence(s.disk)
    && (forall channel :: GoodLog(Log(s, channel), channel) && Bookmark(s.disk, channel) == None)
    && (forall r :: r in s.disk.evidence ==> !r.sourceId.EventSource?)
  }

  // ---- Lemmas about logs ----

  lemma {:induction false} CoveredIs(log: seq<Event>, bookmark: int, k: nat)
    requires k <= |log|
    requires forall i :: 0 <= i < k ==> log[i].recordId <= bookmark
    requires forall i :: k <= i < |log| ==> log[i].recordId > bookmark
    ensures Covered(log, Some(Number(bookmark))) == k
  {
    if |log| > 0 && k > 0 {
      CoveredIs(log[1..], bookmark, k - 1);
    }
  }

  // ---- Preservation ----

  lemma {:induction false} SourcesOfOthers(t: Tables, row: EvidenceRow, channel: string)
    ensures StoredSources(t.(evidence := t.evidence + [row]), channel)
         == StoredSources(t, channel) + if FromChannel(channel)(row) then [row.sourceId] else []
  {
    FilterConcat(FromChannel(channel), t.evidence, [row]);
  }

  lemma OneMoreSource(t: Tables, row: EvidenceRow)
    requires row.sourceId.EventSource? && row.sourceId !in StoredSources(t, row.sourceId.channel) && InsertEvidence(t, row).Ok?
    ensures var (t', added) := InsertEvidence(t, row).value;
      && added && t'.bookmarks == t.bookmarks
      && forall channel :: StoredSources(t', channel) == StoredSources(t, channel) + if channel == row.sourceId.channel then [row.sourceId] else []
  {
    NotStored(t, row);
    forall channel ensures StoredSources(t.(evidence := t.evidence + [row]), channel)
                        == StoredSources(t, channel) + if channel == row.sourceId.channel then [row.sourceId] else []
    {
      SourcesOfOthers(t, row, channel);
    }
  }

  lemma NewInPrefix(b: Batch, stored: seq<SourceId>, n: nat)
    requires 0 < n <= |b.events| && GoodLog(b.events, b.channel) && forall e :: e in b.events ==> SourceOf(e) !in stored
    ensures SourceOf(b.events[n - 1]) !in stored + Map(SourceOf, b.events[..n - 1])
    ensures Map(SourceOf, b.events[..n]) == Map(SourceOf, b.events[..n - 1]) + [SourceOf(b.events[n - 1])]
  {
    assert forall i :: 0 <= i < n - 1 ==> b.events[i].recordId < b.events[n - 1].recordId;
  }

  /** Inserting a batch of new events appends exactly its sources to its channel. */
  lemma {:induction false} InsertFirstSources(t: Tables, b: Batch, n: nat, encode: Event -> string)
    requires n <= |b.events| <= |b.ids| && GoodLog(b.events, b.channel) && InsertFirst(t, b, n, encode).Ok?
    requires forall e :: e in b.events ==> SourceOf(e) !in StoredSources(t, b.channel)
    ensures var (t', k) := InsertFirst(t, b, n, encode).value;
      && k == n && t'.bookmarks == t.bookmarks
      && StoredSources(t', b.channel) == StoredSources(t, b.channel) + Map(SourceOf, b.events[..n])
      && (forall channel :: channel != b.channel ==> StoredSources(t', channel) == StoredSources(t, channel))
  {
    if n > 0 {
      hide InsertEvidence, StoredSources, Map;
      InsertFirstSources(t, b, n - 1, encode);
      var t1 := InsertFirst(t, b, n - 1, encode).value.0;
      var row := RowOf(b, n - 1, encode);
      assert row.sourceId == SourceOf(b.events[n - 1]) && row.sourceId.channel == b.channel;
      NewInPrefix(b, StoredSources(t, b.channel), n);
      OneMoreSource(t1, row);
    }
  }

  lemma StoredIffRow(t: Tables, source: SourceId)
    requires source.EventSource?
    ensures source in StoredSources(t, source.channel) <==> exists i :: 0 <= i < |t.evidence| && t.evidence[i].sourceId == source
  {
    var kept := Filter(FromChannel(source.channel), t.evidence);
    if source in StoredSources(t, source.channel) {
      var j :| 0 <= j < |kept| && Map(RowSource, kept)[j] == source;
      assert kept[j] in t.evidence;
    }
    forall i | 0 <= i < |t.evidence| && t.evidence[i].sourceId == source ensures source in StoredSources(t, source.channel) {
      assert t.evidence[i] in kept;
      var j :| 0 <= j < |kept| && kept[j] == t.evidence[i];
      assert Map(RowSource, kept)[j] == source;
    }
  }

  /** A source that no case has stored does not conflict. */
  lemma NotStored(t: Tables, row: EvidenceRow)
    requires row.sourceId.EventSource? && row.sourceId !in StoredSources(t, row.sourceId.channel)
    ensures Pair(row) !in Map(Pair, t.evidence)
  {
    StoredIffRow(t, row.sourceId);
    forall i | 0 <= i < |t.evidence| ensures Map(Pair, t.evidence)[i] != Pair(row) {
    }
  }

  /** The uncovered events of a captured channel are new to the store. */
  lemma UncoveredIsNew(log: seq<Event>, channel: string, stored: seq<SourceId>, bookmark: Option<Position>, events: seq<Event>)
    requires CapturedAs(log, channel, stored, bookmark) && events <= log[Covered(log, bookmark)..]
    ensures GoodLog(events, channel) && forall e :: e in events ==> SourceOf(e) !in stored
  {
    var n := Covered(log, bookmark);
  }

  lemma SliceOf(log: seq<Event>, n: nat, events: seq<Event>)
    requires n <= |log| && events <= log[n..]
    ensures n + |events| <= |log| && events == log[n..n + |events|] && log[..n + |events|] == log[..n] + events
  {
  }

  ghost predicate Rising(events: seq<Event>) {
    forall i, j :: 0 <= i < j < |events| ==> events[i].recordId < events[j].recordId
  }

  lemma RisingTail(events: seq<Event>)
    requires Rising(events) && |events| > 1
    ensures Rising(events[1..]) && events[0].recordId < events[|events| - 1].recordId
  {
  }

  lemma RisingSlice(log: seq<Event>, n: nat, k: nat)
    requires Rising(log) && n + k <= |log|
    ensures Rising(log[n..n + k])
  {
  }

  lemma {:induction false} LastIsGreatest(events: seq<Event>)
    requires |events| > 0 && Rising(events)
    ensures MaxId(events) == events[|events| - 1].recordId
  {
    hide Rising;
    if |events| > 1 {
      RisingTail(events);
      LastIsGreatest(events[1..]);
    }
  }

  lemma {:induction false} CommitCovers(log: seq<Event>, channel: string, n: nat, events: seq<Event>)
    requires n <= |log| && |events| > 0 && events <= log[n..] && GoodLog(log, channel)
    ensures n + |events| <= |log| && MaxId(events) == log[n + |events| - 1].recordId
    ensures Covered(log, Some(Number(MaxId(events)))) == n + |events|
    ensures log[..n + |events|] == log[..n] + events
  {
    SliceOf(log, n, events);
    RisingSlice(log, n, |events|);
    LastIsGreatest(events);
    CoveredIs(log, log[n + |events| - 1].recordId, n + |events|);
  }

  lemma {:induction false} CommitKeepsCaptured(log: seq<Event>, t: Tables, b: Batch, encode: Event -> string)
    requires Captured(log, t, b.channel) && 0 < |b.events| <= |b.ids|
    requires b.events <= log[Covered(log, Bookmark(t, b.channel))..] && BatchEffect(t, b, encode).Ok?
    ensures var (t', k) := BatchEffect(t, b, encode).value;
      && k == |b.events| && Bookmark(t', b.channel) == Some(Number(MaxId(b.events)))
      && StoredSources(t', b.channel) == StoredSources(t, b.channel) + Map(SourceOf, b.events)
      && Captured(log, t', b.channel)
      && Covered(log, Bookmark(t', b.channel)) == Covered(log, Bookmark(t, b.channel)) + |b.events|
      && (forall channel :: channel != b.channel ==>
            StoredSources(t', channel) == StoredSources(t, channel) && Bookmark(t', channel) == Bookmark(t, channel))
  {
    hide StoredSources, BatchEffect, Bookmark, CapturedAs;
    UncoveredIsNew(log, b.channel, StoredSources(t, b.channel), Bookmark(t, b.channel), b.events);
    CommitAs(log, b.channel, StoredSources(t, b.channel), Bookmark(t, b.channel), b.events);
    BatchSources(t, b, encode);
  }

  lemma SourcesUpTo(log: seq<Event>, n: nat, events: seq<Event>)
    requires n + |events| <= |log| && log[..n + |events|] == log[..n] + events
    ensures Map(SourceOf, log[..n + |events|]) == Map(SourceOf, log[..n]) + Map(SourceOf, events)
  {
    MapConcat(SourceOf, log[..n], events);
  }

  lemma CapturedUpTo(log: seq<Event>, channel: string, stored: seq<SourceId>, last: int, n: nat)
    requires GoodLog(log, channel) && 0 < n <= |log| && stored == Map(SourceOf, log[..n])
    requires last == log[n - 1].recordId && Covered(log, Some(Number(last))) == n
    ensures CapturedAs(log, channel, stored, Some(Number(last)))
  {
  }

  lemma CapturedIs(log: seq<Event>, channel: string, stored: seq<SourceId>, bookmark: Option<Position>)
    requires CapturedAs(log, channel, stored, bookmark)
    ensures GoodLog(log, channel) && stored == Map(SourceOf, log[..Covered(log, bookmark)])
  {
  }

  lemma CommitAt(log: seq<Event>, channel: string, n: nat, events: seq<Event>)
    requires GoodLog(log, channel) && n <= |log| && |events| > 0 && events <= log[n..]
    ensures CapturedAs(log, channel, Map(SourceOf, log[..n]) + Map(SourceOf, events), Some(Number(MaxId(events))))
    ensures Covered(log, Some(Number(MaxId(events)))) == n + |events|
  {
    CommitCovers(log, channel, n, events);
    SourcesUpTo(log, n, events);
    hide Map, GoodLog, SourceOf, CapturedAs;
    CapturedUpTo(log, channel, Map(SourceOf, log[..n]) + Map(SourceOf, events), MaxId(events), n + |events|);
  }

  lemma CommitAs(log: seq<Event>, channel: string, stored: seq<SourceId>, bookmark: Option<Position>, events: seq<Event>)
    requires CapturedAs(log, channel, stored, bookmark) && |events| > 0 && events <= log[Covered(log, bookmark)..]
    ensures CapturedAs(log, channel, stored + Map(SourceOf, events), Some(Number(MaxId(events))))
    ensures Covered(log, Some(Number(MaxId(events)))) == Covered(log, bookmark) + |events|
  {
    CapturedIs(log, channel, stored, bookmark);
    hide Map, GoodLog, SourceOf, CapturedAs;
    CommitAt(log, channel, Covered(log, bookmark), events);
  }

  lemma {:induction false} BatchSources(t: Tables, b: Batch, encode: Event -> string)
    requires 0 < |b.events| <= |b.ids| && GoodLog(b.events, b.channel) && BatchEffect(t, b, encode).Ok?
    requires forall e :: e in b.events ==> SourceOf(e) !in StoredSources(t, b.channel)
    ensures var (t', k) := BatchEffect(t, b, encode).value;
      && k == |b.events|
      && Bookmark(t', b.channel) == Some(Number(MaxId(b.events)))
      && StoredSources(t', b.channel) == StoredSources(t, b.channel) + Map(SourceOf, b.events)
      && (forall channel :: channel != b.channel ==>
            StoredSources(t', channel) == StoredSources(t, channel) && Bookmark(t', channel) == Bookmark(t, channel))
  {
    InsertFirstSources(t, b, |b.events|, encode);
    assert b.events[..|b.events|] == b.events;
    forall channel | channel != b.channel ensures BookmarkName(channel) != BookmarkName(b.channel) {
      assert BookmarkName(channel)[9..] == channel && BookmarkName(b.channel)[9..] == b.channel;
    }
  }

  lemma {:induction false} AppendIsUncovered(log: seq<Event>, bookmark: Option<Position>, e: Event)
    requires bookmark.Some? && bookmark.value.Number? ==> e.recordId > bookmark.value.n
    ensures Covered(log + [e], bookmark) == Covered(log, bookmark)
  {
    if |log| > 0 {
      assert (log + [e])[1..] == log[1..] + [e];
      AppendIsUncovered(log[1..], bookmark, e);
    }
  }

  lemma LogAppendKeepsCaptured(log: seq<Event>, channel: string, stored: seq<SourceId>, bookmark: Option<Position>, e: Event)
    requires CapturedAs(log, channel, stored, bookmark) && e.channel == channel
    requires |log| > 0 ==> e.recordId > log[|log| - 1].recordId
    ensures CapturedAs(log + [e], channel, stored, bookmark)
    ensures Covered(log + [e], bookmark) == Covered(log, bookmark)
  {
    var n := Covered(log, bookmark);
    assert bookmark.Some? ==> log[n - 1].recordId < e.recordId;
    AppendIsUncovered(log, bookmark, e);
    assert (log + [e])[..n] == log[..n];
  }

  /** Rows of other kinds do not touch any channel. */
  lemma OtherInsertKeepsCaptured(s: System, row: EvidenceRow)
    requires SoundEvidence(s.disk) && !row.sourceId.EventSource? && InsertEvidence(s.disk, row).Ok?
    requires forall channel :: Captured(Log(s, channel), s.disk, channel)
    ensures var t := InsertEvidence(s.disk, row).value.0;
      SoundEvidence(t) && forall channel :: Captured(Log(s, channel), t, channel)
  {
    hide CapturedAs;
    var t := InsertEvidence(s.disk, row).value.0;
    InsertKeepsSound(s.disk, row);
    forall channel ensures Captured(Log(s, channel), t, channel) {
      SourcesOfOthers(s.disk, row, channel);
      assert StoredSources(t, channel) == StoredSources(s.disk, channel);
      assert Captured(Log(s, channel), s.disk, channel);
    }
  }

  lemma StillAhead(log: seq<Event>, longer: seq<Event>, n: nat, events: seq<Event>)
    requires log <= longer && n <= |log| && events <= log[n..]
    ensures events <= longer[n..]
  {
    assert log[n..] <= longer[n..];
  }

  lemma {:induction false} InvLogAppend(s: System, e: Event, encode: Event -> string)
    requires Inv(s, encode)
    ensures Inv(Next(s, LogAppend(e), encode), encode)
  {
    hide CapturedAs, StoredSources, SoundEvidence;
    var s' := Next(s, LogAppend(e), encode);
    if CanLog(s, e) {
      forall channel
        ensures Captured(Log(s', channel), s.disk, channel)
        ensures CoveredIn(s', channel) == CoveredIn(s, channel) && Log(s, channel) <= Log(s', channel)
      {
        assert Captured(Log(s, channel), s.disk, channel);
        if channel == e.channel {
          LogAppendKeepsCaptured(Log(s, channel), channel, StoredSources(s.disk, channel), Bookmark(s.disk, channel), e);
        }
      }
      if !s.poller.Idle? {
        var b := s.poller.batch;
        var n := CoveredIn(s, b.channel);
        StillAhead(Log(s, b.channel), Log(s', b.channel), n, b.events);
      }
    }
  }

  /** A commit that happens makes the whole batch, and nothing else, durable. */
  lemma CommitIsBatchEffect(s: System, encode: Event -> string)
    requires Inv(s, encode) && CanCommit(s)
    ensures s.poller.Writing? && GoodBatch(s, s.poller.batch) && BatchEffect(s.disk, s.poller.batch, encode).Ok?
    ensures Next(s, CommitBatch, encode)
         == s.(poller := Idle, disk := BatchEffect(s.disk, s.poller.batch, encode).value.0)
  {
  }

  lemma {:induction false} InvCommit(s: System, encode: Event -> string)
    requires Inv(s, encode)
    ensures Inv(Next(s, CommitBatch, encode), encode)
  {
    hide CapturedAs, StoredSources, SoundEvidence;
    var s' := Next(s, CommitBatch, encode);
    if CanCommit(s) {
      var b := s.poller.batch;
      CommitIsBatchEffect(s, encode);
      BatchIsIdempotent(s.disk, b, encode);
      CommitKeepsCaptured(Log(s, b.channel), s.disk, b, encode);
      forall channel ensures Captured(Log(s', channel), s'.disk, channel) {
        assert Captured(Log(s, channel), s.disk, channel);
      }
    }
  }

  lemma InvOther(s: System, row: EvidenceRow, encode: Event -> string)
    requires Inv(s, encode) && !s.poller.Writing? && !row.sourceId.EventSource? && InsertEvidence(s.disk, row).Ok?
    ensures Inv(s.(disk := InsertEvidence(s.disk, row).value.0), encode)
  {
    hide Captured, SoundEvidence;
    OtherInsertKeepsCaptured(s, row);
    var s' := s.(disk := InsertEvidence(s.disk, row).value.0);
    assert forall channel :: Log(s', channel) == Log(s, channel);
  }

  lemma InvNewCase(s: System, c: string, encode: Event -> string)
    requires Inv(s, encode)
    ensures Inv(Next(s, NewCase(c), encode), encode)
  {
    hide CapturedAs;
    var s' := Next(s, NewCase(c), encode);
    if c !in s.disk.cases && !s.poller.Writing? {
      forall channel ensures Captured(Log(s', channel), s'.disk, channel) {
        assert Captured(Log(s, channel), s.disk, channel);
      }
    }
  }

  /** Querying, inserting into an open transaction and crashing change nothing durable. */
  lemma UncommittedStepsKeepDisk(s: System, step: Step, encode: Event -> string)
    requires step.Query? || step.BeginBatch? || step.InsertNext? || step.Crash?
    ensures Next(s, step, encode).disk == s.disk && Next(s, step, encode).logs == s.logs
  {
  }

  /** The part of the invariant that is about the disk and the logs. */
  lemma InvOnDisk(s: System, s': System, encode: Event -> string)
    requires Inv(s, encode) && s'.disk == s.disk && s'.logs == s.logs
    requires s'.poller.Fetched? ==> GoodBatch(s, s'.poller.batch)
    requires s'.poller.Writing? ==> GoodBatch(s, s'.poller.batch) && s'.poller.done <= |s'.poller.batch.events|
    requires s'.poller.Writing? ==> InsertFirst(s.disk, s'.poller.batch, s'.poller.done, encode) == Ok((s'.poller.working, s'.poller.inserted))
    ensures Inv(s', encode)
  {
    hide Captured, SoundEvidence;
    assert forall channel :: Log(s', channel) == Log(s, channel);
  }

  lemma InvQuery(s: System, step: Step, encode: Event -> string)
    requires Inv(s, encode) && (step.Query? || step.BeginBatch? || step.Crash?)
    ensures Inv(Next(s, step, encode), encode)
  {
    var s' := Next(s, step, encode);
    if s'.poller.Fetched? {
      assert GoodBatch(s, s'.poller.batch);
    }
    hide Next, Captured, SoundEvidence;
    UncommittedStepsKeepDisk(s, step, encode);
    InvOnDisk(s, s', encode);
  }

  lemma InvInsert(s: System, encode: Event -> string)
    requires Inv(s, encode)
    ensures Inv(Next(s, InsertNext, encode), encode)
  {
    hide InsertEvidence, Captured, SoundEvidence;
    InvOnDisk(s, Next(s, InsertNext, encode), encode);
  }

  lemma {:induction false} InvPoller(s: System, step: Step, encode: Event -> string)
    requires Inv(s, encode) && (step.Query? || step.BeginBatch? || step.InsertNext? || step.Crash?)
    ensures Inv(Next(s, step, encode), encode)
  {
    hide Inv, Next;
    if step.InsertNext? {
      InvInsert(s, encode);
    } else {
      InvQuery(s, step, encode);
    }
  }

  lemma {:induction false} InvNext(s: System, step: Step, encode: Event -> string)
    requires Inv(s, encode)
    ensures Inv(Next(s, step, encode), encode)
  {
    match step
    case LogAppend(e) => InvLogAppend(s, e, encode);
    case NewCase(c) => InvNewCase(s, c, encode);
    case OtherRow(row) =>
      if !s.poller.Writing? && !row.sourceId.EventSource? && InsertEvidence(s.disk, row).Ok? {
        InvOther(s, row, encode);
      }
    case QueryFails(caseId, channel, status, reason, id, at) =>
      var row := CoverageRow(caseId, channel, status, reason, id, at);
      if !s.poller.Writing? && InsertEvidence(s.disk, row).Ok? {
        InvOther(s, row, encode);
      }
    case CommitBatch => InvCommit(s, encode);
    case _ => InvPoller(s, step, encode);
  }

  // ---- Main results, over every run ----

  lemma {:induction false} RunKeepsInv(s: System, steps: seq<Step>, encode: Event -> string)
    requires Initial(s)
    ensures Inv(RunSteps(s, steps, encode), encode)
  {
    if |steps| == 0 {
      forall channel ensures Captured(Log(s, channel), s.disk, channel) {
        FilterNone(FromChannel(channel), s.disk.evidence);
      }
    } else {
      hide Inv;
      RunKeepsInv(s, steps[..|steps| - 1], encode);
      InvNext(RunSteps(s, steps[..|steps| - 1], encode), steps[|steps| - 1], encode);
    }
  }

  /** After any run, what the store holds of a channel, over all cases, is its log up to the bookmark. */
  lemma {:induction false} CapturedExactly(s: System, steps: seq<Step>, channel: string, encode: Event -> string)
    requires Initial(s)
    ensures var s' := RunSteps(s, steps, encode);
      && StoredSources(s'.disk, channel) == Map(SourceOf, Log(s', channel)[..CoveredIn(s', channel)])
      && (forall i :: 0 <= i < |Log(s', channel)| ==>
            (i < CoveredIn(s', channel) <==>
             Bookmark(s'.disk, channel).Some? && Bookmark(s'.disk, channel).value.Number?
             && Log(s', channel)[i].recordId <= Bookmark(s'.disk, channel).value.n))
      && (Bookmark(s'.disk, channel).Some? ==> Bookmark(s'.disk, channel).value.Number?)
  {
    RunKeepsInv(s, steps, encode);
    var s' := RunSteps(s, steps, encode);
    assert Captured(Log(s', channel), s'.disk, channel);
  }

  /** An event at or below the bookmark is in exactly one row, hence in exactly one case; one above it is in none. */
  lemma ExactlyOnce(s: System, steps: seq<Step>, channel: string, i: nat, encode: Event -> string)
    requires Initial(s) && i < |Log(RunSteps(s, steps, encode), channel)|
    ensures var s' := RunSteps(s, steps, encode); var source := SourceOf(Log(s', channel)[i]);
      RowsWith(s'.disk, source) == if i < CoveredIn(s', channel) then 1 else 0
  {
    var s' := RunSteps(s, steps, encode);
    RunKeepsInv(s, steps, encode);
    var log, n := Log(s', channel), CoveredIn(s', channel);
    assert Captured(log, s'.disk, channel);
    RowsAreStoredSources(s'.disk.evidence, SourceOf(log[i]));
    OncePerPrefix(log, channel, n, i);
  }

  function WithSource(source: SourceId): EvidenceRow -> bool { (r: EvidenceRow) => r.sourceId == source }

  /** How many rows, in whatever cases, carry this source. */
  function RowsWith(t: Tables, source: SourceId): nat { |Filter(WithSource(source), t.evidence)| }

  lemma {:induction false} RowsAreStoredSources(rows: seq<EvidenceRow>, source: SourceId)
    requires source.EventSource?
    ensures |Filter(WithSource(source), rows)|
         == multiset(Map(RowSource, Filter(FromChannel(source.channel), rows)))[source]
  {
    if |rows| > 0 {
      RowsAreStoredSources(rows[1..], source);
      var rest := Filter(FromChannel(source.channel), rows[1..]);
      var head := if FromChannel(source.channel)(rows[0]) then [rows[0]] else [];
      assert Filter(FromChannel(source.channel), rows) == head + rest;
      MapConcat(RowSource, head, rest);
      assert multiset(Map(RowSource, head) + Map(RowSource, rest))[source]
          == multiset(Map(RowSource, head))[source] + multiset(Map(RowSource, rest))[source];
      assert multiset(Map(RowSource, head))[source] == if rows[0].sourceId == source then 1 else 0 by {
        if head != [] {
          assert Map(RowSource, head) == [rows[0].sourceId];
        }
      }
    }
  }

  lemma {:induction false} OncePerPrefix(log: seq<Event>, channel: string, n: nat, i: nat)
    requires GoodLog(log, channel) && n <= |log| && i < |log|
    ensures multiset(Map(SourceOf, log[..n]))[SourceOf(log[i])] == if i < n then 1 else 0
  {
    if n > 0 {
      OncePerPrefix(log, channel, n - 1, i);
      assert log[..n] == log[..n - 1] + [log[n - 1]];
      MapConcat(SourceOf, log[..n - 1], [log[n - 1]]);
      if i != n - 1 {
        assert log[if i < n then i else n - 1].recordId < log[if i < n then n - 1 else i].recordId;
      }
    }
  }

  function Inserts(n: nat): seq<Step> { seq(n, _ => InsertNext) }

  /** The system in the middle of a transaction that has done `n` inserts. */
  function Midway(s: System, b: Batch, n: nat, encode: Event -> string): System
    requires n <= |b.events| <= |b.ids| && InsertFirst(s.disk, b, n, encode).Ok?
  {
    var (working, inserted) := InsertFirst(s.disk, b, n, encode).value;
    s.(poller := Writing(b, n, inserted, working))
  }

  lemma OneInsert(s: System, b: Batch, n: nat, encode: Event -> string)
    requires 0 < n <= |b.events| <= |b.ids| && InsertFirst(s.disk, b, n, encode).Ok?
    ensures InsertFirst(s.disk, b, n - 1, encode).Ok?
    ensures Next(Midway(s, b, n - 1, encode), InsertNext, encode) == Midway(s, b, n, encode)
  {
  }

  lemma BeginReachesMidway(s: System, b: Batch, encode: Event -> string)
    requires s.poller == Fetched(b) && 0 <= |b.events| <= |b.ids|
    ensures InsertFirst(s.disk, b, 0, encode).Ok? && Next(s, BeginBatch, encode) == Midway(s, b, 0, encode)
  {
  }

  lemma CommitFromMidway(s: System, b: Batch, encode: Event -> string)
    requires 0 < |b.events| <= |b.ids| && BatchEffect(s.disk, b, encode).Ok?
    ensures InsertFirst(s.disk, b, |b.events|, encode).Ok?
    ensures Next(Midway(s, b, |b.events|, encode), CommitBatch, encode)
         == s.(poller := Idle, disk := BatchEffect(s.disk, b, encode).value.0)
  {
  }

  lemma {:induction false} StepsReachInsertFirst(s: System, b: Batch, n: nat, encode: Event -> string)
    requires s.poller == Fetched(b) && n <= |b.events| <= |b.ids| && InsertFirst(s.disk, b, n, encode).Ok?
    ensures RunSteps(s, [BeginBatch] + Inserts(n), encode) == Midway(s, b, n, encode)
  {
    hide Next, Midway, InsertFirst;
    if n == 0 {
      BeginReachesMidway(s, b, encode);
      assert [BeginBatch] + Inserts(0) == [] + [BeginBatch];
    } else {
      OneInsert(s, b, n, encode);
      StepsReachInsertFirst(s, b, n - 1, encode);
      assert [BeginBatch] + Inserts(n) == [BeginBatch] + Inserts(n - 1) + [InsertNext];
    }
  }

  /** The protocol's steps for one batch add up to `BatchEffect`, which `Sentinel.Poll` performs. */
  lemma {:induction false} PollIsProtocol(s: System, b: Batch, encode: Event -> string)
    requires s.poller == Fetched(b) && 0 < |b.events| <= |b.ids| && BatchEffect(s.disk, b, encode).Ok?
    ensures RunSteps(s, [BeginBatch] + Inserts(|b.events|) + [CommitBatch], encode)
         == s.(poller := Idle, disk := BatchEffect(s.disk, b, encode).value.0)
  {
    hide Next, Midway, BatchEffect, InsertFirst;
    CommitFromMidway(s, b, encode);
    StepsReachInsertFirst(s, b, |b.events|, encode);
  }

  /** The bookmark of the channel has not moved back. */
  ghost predicate Forward(s: System, s': System, channel: string) {
    var before, after := Bookmark(s.disk, channel), Bookmark(s'.disk, channel);
    && CoveredIn(s, channel) <= CoveredIn(s', channel)
    && (before.Some? ==> before.value.Number? && after.Some? && after.value.Number? && before.value.n <= after.value.n)
  }

  /** No step of any run moves a bookmark back. */
  lemma {:induction false} BookmarkNeverDecreases(s: System, step: Step, channel: string, encode: Event -> string)
    requires Inv(s, encode)
    ensures Forward(s, Next(s, step, encode), channel)
  {
    assert Captured(Log(s, channel), s.disk, channel);
    hide Inv, Captured, Forward, Next, CanLog, CanCommit;
    if step.CommitBatch? && CanCommit(s) {
      CommitMovesForward(s, channel, encode);
    } else if step.LogAppend? && CanLog(s, step.event) {
      LogStaysCovered(s, step.event, channel, encode);
    } else {
      OthersKeepBookmarks(s, step, encode);
      SameIsForward(s, Next(s, step, encode), channel);
    }
  }

  lemma OthersKeepBookmarks(s: System, step: Step, encode: Event -> string)
    requires !(step.CommitBatch? && CanCommit(s)) && !(step.LogAppend? && CanLog(s, step.event))
    ensures Next(s, step, encode).logs == s.logs && Next(s, step, encode).disk.bookmarks == s.disk.bookmarks
  {
  }

  lemma SameIsForward(s: System, s': System, channel: string)
    requires Captured(Log(s, channel), s.disk, channel) && s'.logs == s.logs && s'.disk.bookmarks == s.disk.bookmarks
    ensures Forward(s, s', channel)
  {
  }

  lemma LogStaysCovered(s: System, e: Event, channel: string, encode: Event -> string)
    requires Captured(Log(s, channel), s.disk, channel) && CanLog(s, e)
    ensures Forward(s, Next(s, LogAppend(e), encode), channel)
  {
    if channel == e.channel {
      LogAppendKeepsCaptured(Log(s, channel), channel, StoredSources(s.disk, channel), Bookmark(s.disk, channel), e);
    }
  }

  lemma {:induction false} CommitMovesForward(s: System, channel: string, encode: Event -> string)
    requires Inv(s, encode) && CanCommit(s)
    ensures Forward(s, Next(s, CommitBatch, encode), channel)
  {
    var b := s.poller.batch;
    CommitIsBatchEffect(s, encode);
    assert Captured(Log(s, b.channel), s.disk, b.channel) && Captured(Log(s, channel), s.disk, channel);
    hide Inv, Captured, BatchEffect, Bookmark, StoredSources;
    CommitKeepsCaptured(Log(s, b.channel), s.disk, b, encode);
  }

  // ---- A poll, against the log that its adapter reads ----

  /** The number that a stored bookmark stands for. */
  function NumberOf(bookmark: Option<Position>): Option<int> {
    if bookmark.Some? && bookmark.value.Number? then Some(bookmark.value.n) else None
  }

  ghost predicate IsMalformed(bookmark: Option<Position>) { bookmark.Some? && bookmark.value.Malformed? }

  /** The adapter's promise for any log: from a bookmark on it answers only with events above it. */
  ghost predicate AnswersAbove(answer: Option<int> -> EventQuery) {
    forall n, e :: e in answer(Some(n)).events ==> e.recordId > n
  }

  function RecordAbove(n: int): Event -> bool { (e: Event) => e.recordId > n }

  /** The events above a record ID, oldest first. */
  function Above(log: seq<Event>, after: Option<int>): seq<Event> {
    if after.None? then log else Filter(RecordAbove(after.value), log)
  }

  /** The adapter reads this log: it answers with the oldest events above its argument. */
  ghost predicate Reads(answer: Option<int> -> EventQuery, log: seq<Event>) {
    forall after :: answer(after).status == QueryOk ==> answer(after).events <= Above(log, after)
  }

  ghost predicate NotBack(before: Option<Position>, after: Option<Position>) {
    && (before.Some? ==> after.Some?)
    && (before.Some? && before.value.Number? ==> after.value.Number? && before.value.n <= after.value.n)
    && (IsMalformed(before) ==> after == before)
  }

  /** From a captured channel on, the poll has stored exactly the events that its bookmark has come to cover. */
  ghost predicate CapturedMore(log: seq<Event>, t: Tables, t': Tables, channel: string, fetched: nat, result: Result<PollResult, StoreError>) {
    var n, n' := Covered(log, Bookmark(t, channel)), Covered(log, Bookmark(t', channel));
    && Captured(log, t', channel) && n <= n'
    && StoredSources(t', channel) == StoredSources(t, channel) + Map(SourceOf, log[n..n'])
    && match result
       case Err(_) => n' == n
       case Ok(r) =>
         && n' == n + r.inserted
         && if r.coverage.Some? then r.inserted == 0 && r.bookmark == None
            else r.inserted == fetched && r.bookmark == NumberOf(Bookmark(t', channel))
  }

  /** New rows are of the polled case and moment: an observation of a fetched event, or a report. */
  ghost predicate AddedOwn(t: Tables, t': Tables, caseId: string, at: int, events: seq<Event>, encode: Event -> string) {
    && t.evidence <= t'.evidence
    && forall r :: r in t'.evidence && r !in t.evidence ==>
         && r.caseId == caseId && r.capturedAt == at
         && (r.record.Observed? ==> exists e :: e in events && r.sourceId == SourceOf(e) && r.record.json == encode(e))
  }

  /** The text of a report: what was wrong with the bookmark, or the adapter's reason if it gives one, redacted. */
  ghost predicate Explains(text: string, bookmark: Option<Position>, query: EventQuery, redactText: string -> string) {
    && (IsMalformed(bookmark) ==> text == redactText("stored bookmark is invalid"))
    && (!IsMalformed(bookmark) && query.reason.Some? && query.reason.value != "" ==> text == redactText(query.reason.value))
    && (!IsMalformed(bookmark) && (query.reason.None? || query.reason.value == "") ==> text == redactText("event query failed"))
  }

  ghost predicate ReportsExplain(t: Tables, t': Tables, bookmark: Option<Position>, query: EventQuery, redactText: string -> string) {
    forall r :: r in t'.evidence && r !in t.evidence && r.record.Reported? ==> Explains(r.record.json, bookmark, query, redactText)
  }

  lemma OtherBookmark(channel: string, other: string)
    requires channel != other
    ensures BookmarkName(channel) != BookmarkName(other)
  {
    assert BookmarkName(channel)[9..] == channel && BookmarkName(other)[9..] == other;
  }

  /** What a poll that asks at `after` and fetches nothing, or nothing new, leaves alone. */
  lemma ReportKeepsChannels(t: Tables, row: EvidenceRow, status: CoverageStatus)
    requires !row.sourceId.EventSource?
    ensures var t' := CoverageOutcome(t, row, status).0;
      && t'.bookmarks == t.bookmarks && t.evidence <= t'.evidence
      && (forall r :: r in t'.evidence && r !in t.evidence ==> r == row)
      && (forall channel :: StoredSources(t', channel) == StoredSources(t, channel) && Bookmark(t', channel) == Bookmark(t, channel))
  {
    forall channel ensures StoredSources(CoverageOutcome(t, row, status).0, channel) == StoredSources(t, channel) {
      SourcesOfOthers(t, row, channel);
    }
  }

  /** The three ends of a poll. */
  datatype PollBranch = Report(row: EvidenceRow, status: CoverageStatus) | Nothing(at: Option<int>) | Store(batch: Batch)

  ghost predicate Ends(t: Tables, encode: Event -> string, branch: PollBranch, end: (Tables, Result<PollResult, StoreError>)) {
    match branch
    case Report(row, status) => end == CoverageOutcome(t, row, status)
    case Nothing(at) => end == (t, Ok(PollResult(0, at, None)))
    case Store(b) =>
      && 0 < |b.events| <= |b.ids|
      && match BatchEffect(t, b, encode)
         case Err(e) => end == (t, Err(e))
         case Ok((t1, k)) => end == (t1, Ok(PollResult(k, Some(MaxId(b.events)), None)))
  }

  /** What a poll has to report: a stored bookmark that is no number counts as stale, a good answer is no trouble. */
  ghost function Trouble(bookmark: Option<Position>, status: QueryStatus): (r: Option<CoverageStatus>)
    ensures r.None? <==> !IsMalformed(bookmark) && status == QueryOk
    ensures r == Some(Stale) <==> IsMalformed(bookmark) || status == QueryStale
    ensures r == Some(Denied) <==> !IsMalformed(bookmark) && status == QueryDenied
    ensures r == Some(Failed) <==> !IsMalformed(bookmark) && status == QueryFailed
  {
    if IsMalformed(bookmark) then Some(Stale)
    else match status
      case QueryOk => None
      case QueryStale => Some(Stale)
      case QueryDenied => Some(Denied)
      case QueryFailed => Some(Failed)
  }

  /** Which of them: a broken bookmark or a failed query is reported, and a good answer is asked for above the bookmark. */
  ghost predicate Fits(bookmark: Option<Position>, query: EventQuery, caseId: string, channel: string, at: int, branch: PollBranch) {
    match branch
    case Report(row, status) =>
      && row.caseId == caseId && row.capturedAt == at && row.sourceId == EventCoverageSource(channel, status) && row.record.Reported?
      && row.record.status == status
      && Some(status) == Trouble(bookmark, query.status)
    case Nothing(after) => !IsMalformed(bookmark) && query.status == QueryOk && query.events == [] && after == NumberOf(bookmark)
    case Store(b) =>
      && !IsMalformed(bookmark) && query.status == QueryOk
      && b.caseId == caseId && b.channel == channel && b.events == query.events && b.capturedAt == at
  }

  lemma PollTakesABranch(t: Tables, encode: Event -> string, redactText: string -> string, caseId: string, channel: string,
                         answer: Option<int> -> EventQuery, capturedAt: int, ids: seq<string>, coverageId: string)
    returns (branch: PollBranch)
    requires forall after :: |answer(after).events| <= |ids|
    ensures Fits(Bookmark(t, channel), answer(NumberOf(Bookmark(t, channel))), caseId, channel, capturedAt, branch)
    ensures Ends(t, encode, branch, PollOutcome(t, encode, redactText, caseId, channel, answer, capturedAt, ids, coverageId))
    ensures branch.Store? ==> branch.batch.ids == ids
    ensures branch.Report? ==>
      Explains(branch.row.record.json, Bookmark(t, channel), answer(NumberOf(Bookmark(t, channel))), redactText)
  {
    hide CoverageOutcome, BatchEffect;
    var position := Bookmark(t, channel);
    var query := answer(NumberOf(position));
    if IsMalformed(position) {
      branch := Report(CoverageRow(caseId, channel, Stale, redactText("stored bookmark is invalid"), coverageId, capturedAt), Stale);
    } else if query.status != QueryOk {
      var reason := if query.reason.Some? && query.reason.value != "" then query.reason.value else "event query failed";
      var status := FailureStatus(query.status);
      branch := Report(CoverageRow(caseId, channel, status, redactText(reason), coverageId, capturedAt), status);
    } else if |query.events| == 0 {
      branch := Nothing(NumberOf(position));
    } else {
      branch := Store(Batch(caseId, channel, query.events, ids, capturedAt));
    }
  }

  /** Main result: a poll never moves its bookmark back, and moves no other. */
  lemma BranchIsNotBack(t: Tables, encode: Event -> string, caseId: string, channel: string, query: EventQuery, at: int,
                        branch: PollBranch, end: (Tables, Result<PollResult, StoreError>))
    requires Fits(Bookmark(t, channel), query, caseId, channel, at, branch) && Ends(t, encode, branch, end)
    requires forall e :: e in query.events && NumberOf(Bookmark(t, channel)).Some? ==> e.recordId > NumberOf(Bookmark(t, channel)).value
    ensures NotBack(Bookmark(t, channel), Bookmark(end.0, channel))
    ensures forall other :: other != channel ==> Bookmark(end.0, other) == Bookmark(t, other)
  {
    match branch
    case Report(row, status) => ReportKeepsChannels(t, row, status);
    case Nothing(_) =>
    case Store(b) =>
      if BatchEffect(t, b, encode).Ok? {
        InsertFirstKeepsBookmarks(t, b, |b.events|, encode);
        forall other | other != channel ensures BookmarkName(channel) != BookmarkName(other) {
          OtherBookmark(channel, other);
        }
        assert b.events[0] in b.events && b.events[0].recordId <= MaxId(b.events);
      }
  }

  lemma {:induction false} InsertFirstKeepsBookmarks(t: Tables, b: Batch, n: nat, encode: Event -> string)
    requires n <= |b.events| <= |b.ids| && InsertFirst(t, b, n, encode).Ok?
    ensures var t' := InsertFirst(t, b, n, encode).value.0; t'.bookmarks == t.bookmarks && t.evidence <= t'.evidence
  {
    if n > 0 {
      InsertFirstKeepsBookmarks(t, b, n - 1, encode);
    }
  }

  /** What a captured log holds above the bookmark is what the bookmark does not cover. */
  lemma {:induction false} AboveIsUncovered(log: seq<Event>, channel: string, bookmark: Option<Position>)
    requires GoodLog(log, channel) && !IsMalformed(bookmark)
    ensures Above(log, NumberOf(bookmark)) == log[Covered(log, bookmark)..]
  {
    if |log| > 0 && bookmark.Some? {
      var n := bookmark.value.n;
      if log[0].recordId > n {
        assert forall i :: 0 <= i < |log| ==> log[i].recordId >= log[0].recordId;
        FilterAll(RecordAbove(n), log);
      } else {
        AboveIsUncovered(log[1..], channel, bookmark);
      }
    }
  }

  /** Main result: a poll of a captured channel keeps it captured. */
  lemma BranchCapturesMore(log: seq<Event>, t: Tables, encode: Event -> string, caseId: string, channel: string, query: EventQuery, at: int,
                           branch: PollBranch, end: (Tables, Result<PollResult, StoreError>))
    requires Captured(log, t, channel) && Fits(Bookmark(t, channel), query, caseId, channel, at, branch) && Ends(t, encode, branch, end)
    requires query.status == QueryOk ==> query.events <= Above(log, NumberOf(Bookmark(t, channel)))
    ensures CapturedMore(log, t, end.0, channel, |query.events|, end.1)
  {
    match branch
    case Report(row, status) =>
      ReportKeepsChannels(t, row, status);
      SameIsCapturedMore(log, t, end.0, channel, |query.events|, end.1);
    case Nothing(_) => SameIsCapturedMore(log, t, end.0, channel, |query.events|, end.1);
    case Store(b) =>
      if BatchEffect(t, b, encode).Ok? {
        AboveIsUncovered(log, channel, Bookmark(t, channel));
        var (t', k) := BatchEffect(t, b, encode).value;
        BatchCapturesMore(log, t, b, encode, t', k);
      } else {
        SameIsCapturedMore(log, t, end.0, channel, |query.events|, end.1);
      }
  }

  lemma SameIsCapturedMore(log: seq<Event>, t: Tables, t': Tables, channel: string, fetched: nat, result: Result<PollResult, StoreError>)
    requires Captured(log, t, channel)
    requires StoredSources(t', channel) == StoredSources(t, channel) && Bookmark(t', channel) == Bookmark(t, channel)
    requires result.Ok? ==> result.value.inserted == 0
    requires result.Ok? && result.value.coverage.Some? ==> result.value.bookmark == None
    requires result.Ok? && result.value.coverage.None? ==> fetched == 0 && result.value.bookmark == NumberOf(Bookmark(t, channel))
    ensures CapturedMore(log, t, t', channel, fetched, result)
  {
    var n := Covered(log, Bookmark(t, channel));
    assert log[n..n] == [];
    assert Map(SourceOf, log[n..n]) == [];
  }

  lemma {:induction false} BatchCapturesMore(log: seq<Event>, t: Tables, b: Batch, encode: Event -> string, t': Tables, k: nat)
    requires Captured(log, t, b.channel) && 0 < |b.events| <= |b.ids| && BatchEffect(t, b, encode) == Ok((t', k))
    requires b.events <= log[Covered(log, Bookmark(t, b.channel))..]
    ensures CapturedMore(log, t, t', b.channel, |b.events|, Ok(PollResult(k, Some(MaxId(b.events)), None)))
  {
    hide StoredSources, BatchEffect, Bookmark, Captured, CapturedMore, MaxId;
    CommitKeepsCaptured(log, t, b, encode);
    BatchCapturesFrom(log, t, t', b.channel, Covered(log, Bookmark(t, b.channel)), b.events, MaxId(b.events), k);
  }

  lemma BatchCapturesFrom(log: seq<Event>, t: Tables, t': Tables, channel: string, n: nat, events: seq<Event>, last: int, k: nat)
    requires n == Covered(log, Bookmark(t, channel)) && k == |events| && n <= |log| && events <= log[n..]
    requires Captured(log, t', channel) && Covered(log, Bookmark(t', channel)) == n + k
    requires StoredSources(t', channel) == StoredSources(t, channel) + Map(SourceOf, events) && Bookmark(t', channel) == Some(Number(last))
    ensures CapturedMore(log, t, t', channel, |events|, Ok(PollResult(k, Some(last), None)))
  {
    SliceOf(log, n, events);
    hide StoredSources, Bookmark, Captured, CapturedMore, Map;
    StoredIsCapturedMore(log, t, t', channel, n, events, last, k);
  }

  lemma StoredIsCapturedMore(log: seq<Event>, t: Tables, t': Tables, channel: string, n: nat, events: seq<Event>, last: int, k: nat)
    requires n == Covered(log, Bookmark(t, channel)) && k == |events| && n + k <= |log| && events == log[n..n + k]
    requires Captured(log, t', channel) && Covered(log, Bookmark(t', channel)) == n + k
    requires StoredSources(t', channel) == StoredSources(t, channel) + Map(SourceOf, events) && Bookmark(t', channel) == Some(Number(last))
    ensures CapturedMore(log, t, t', channel, |events|, Ok(PollResult(k, Some(last), None)))
  {
  }

  /** Main result: what a poll adds is its own. */
  lemma BranchAddsOwn(t: Tables, encode: Event -> string, caseId: string, channel: string, query: EventQuery, at: int,
                      branch: PollBranch, end: (Tables, Result<PollResult, StoreError>))
    requires Fits(Bookmark(t, channel), query, caseId, channel, at, branch) && Ends(t, encode, branch, end)
    ensures AddedOwn(t, end.0, caseId, at, query.events, encode)
  {
    match branch
    case Report(row, status) => ReportKeepsChannels(t, row, status);
    case Nothing(_) =>
    case Store(b) =>
      if BatchEffect(t, b, encode).Ok? {
        InsertFirstKeepsBookmarks(t, b, |b.events|, encode);
        forall r | r in end.0.evidence && r !in t.evidence
          ensures r.caseId == caseId && r.capturedAt == at
          ensures exists e :: e in query.events && r.sourceId == SourceOf(e) && r.record.Observed? && r.record.json == encode(e)
        {
          var i := InsertFirstOnlyOwn(t, b, |b.events|, encode, r);
          assert b.events[i] in query.events;
        }
      }
  }

  /**
   What a poll promises. A report says what went wrong; a bookmark never moves back; new rows are its own; and for every log that
   the adapter reads, a captured channel stays captured, with exactly the fetched events added.
   */
  ghost predicate PollPromise(t: Tables, t': Tables, encode: Event -> string, redactText: string -> string, caseId: string, channel: string,
                              answer: Option<int> -> EventQuery, at: int, result: Result<PollResult, StoreError>) {
    var bookmark := Bookmark(t, channel);
    var query := answer(NumberOf(bookmark));
    && (result.Ok? ==> result.value.coverage == Trouble(bookmark, query.status))
    && (AnswersAbove(answer) ==> NotBack(bookmark, Bookmark(t', channel)))
    && AddedOwn(t, t', caseId, at, query.events, encode) && ReportsExplain(t, t', bookmark, query, redactText)
    && (forall log :: Reads(answer, log) && Captured(log, t, channel) ==> CapturedMore(log, t, t', channel, |query.events|, result))
  }

  lemma PollKeepsPromise(t: Tables, encode: Event -> string, redactText: string -> string, caseId: string, channel: string,
                         answer: Option<int> -> EventQuery, at: int, ids: seq<string>, coverageId: string)
    requires forall after :: |answer(after).events| <= |ids|
    ensures var (t', result) := PollOutcome(t, encode, redactText, caseId, channel, answer, at, ids, coverageId);
      PollPromise(t, t', encode, redactText, caseId, channel, answer, at, result)
  {
    var branch := PollTakesABranch(t, encode, redactText, caseId, channel, answer, at, ids, coverageId);
    var end := PollOutcome(t, encode, redactText, caseId, channel, answer, at, ids, coverageId);
    var query := answer(NumberOf(Bookmark(t, channel)));
    BranchExplains(t, encode, redactText, query, Bookmark(t, channel), branch, end, caseId, channel, at);
    hide PollOutcome, CapturedMore, AddedOwn, NotBack, Captured, BatchEffect, ReportsExplain, Explains;
    BranchReports(t, encode, caseId, channel, query, at, branch, end);
    BranchAddsOwn(t, encode, caseId, channel, query, at, branch, end);
    if AnswersAbove(answer) {
      BranchIsNotBack(t, encode, caseId, channel, query, at, branch, end);
    }
    forall log | Reads(answer, log) && Captured(log, t, channel) ensures CapturedMore(log, t, end.0, channel, |query.events|, end.1) {
      BranchCapturesMore(log, t, encode, caseId, channel, query, at, branch, end);
    }
  }

  lemma BranchExplains(t: Tables, encode: Event -> string, redactText: string -> string, query: EventQuery, bookmark: Option<Position>,
                       branch: PollBranch, end: (Tables, Result<PollResult, StoreError>), caseId: string, channel: string, at: int)
    requires Fits(bookmark, query, caseId, channel, at, branch) && Ends(t, encode, branch, end)
    requires branch.Report? ==> Explains(branch.row.record.json, bookmark, query, redactText)
    ensures ReportsExplain(t, end.0, bookmark, query, redactText)
  {
    match branch
    case Report(row, status) => ReportKeepsChannels(t, row, status);
    case Nothing(_) =>
    case Store(b) =>
      if BatchEffect(t, b, encode).Ok? {
        forall r | r in end.0.evidence && r !in t.evidence ensures !r.record.Reported? {
          var i := InsertFirstOnlyOwn(t, b, |b.events|, encode, r);
        }
      }
  }

  lemma BranchReports(t: Tables, encode: Event -> string, caseId: string, channel: string, query: EventQuery, at: int,
                      branch: PollBranch, end: (Tables, Result<PollResult, StoreError>))
    requires Fits(Bookmark(t, channel), query, caseId, channel, at, branch) && Ends(t, encode, branch, end)
    ensures end.1.Ok? ==> end.1.value.coverage == Trouble(Bookmark(t, channel), query.status)
  {
  }

  /** A poll by the sentinel is one run of the protocol, or changes nothing but what a crash may undo. */
  lemma {:induction false} PollIsARun(s: System, encode: Event -> string, redactText: string -> string, caseId: string, channel: string,
                                      answer: Option<int> -> EventQuery, capturedAt: int, ids: seq<string>, coverageId: string)
    returns (steps: seq<Step>)
    requires Inv(s, encode) && s.poller.Idle? && Reads(answer, Log(s, channel))
    requires forall after :: |answer(after).events| <= |ids|
    ensures RunSteps(s, steps, encode)
         == s.(disk := PollOutcome(s.disk, encode, redactText, caseId, channel, answer, capturedAt, ids, coverageId).0)
    ensures steps == [] || (|steps| == 1 && steps[0].QueryFails?)
         || exists k: nat :: steps == [Query(caseId, channel, k, ids, capturedAt), BeginBatch] + Inserts(k) + [CommitBatch]
  {
    var branch := PollTakesABranch(s.disk, encode, redactText, caseId, channel, answer, capturedAt, ids, coverageId);
    var end := PollOutcome(s.disk, encode, redactText, caseId, channel, answer, capturedAt, ids, coverageId);
    assert Captured(Log(s, channel), s.disk, channel);
    hide PollOutcome, Inv;
    match branch
    case Report(row, status) =>
      steps := ReportIsAStep(s, encode, row, status, channel, caseId, capturedAt);
    case Nothing(_) => steps := [];
    case Store(b) =>
      if BatchEffect(s.disk, b, encode).Ok? {
        AboveIsUncovered(Log(s, channel), channel, Bookmark(s.disk, channel));
        steps := [Query(caseId, channel, |b.events|, ids, capturedAt), BeginBatch] + Inserts(|b.events|) + [CommitBatch];
        BatchIsARun(s, encode, b);
      } else {
        steps := [];
      }
  }

  lemma ReportIsAStep(s: System, encode: Event -> string, row: EvidenceRow, status: CoverageStatus, channel: string, caseId: string, at: int)
    returns (steps: seq<Step>)
    requires s.poller.Idle? && row.caseId == caseId && row.capturedAt == at && row.sourceId == EventCoverageSource(channel, status)
    requires row.record.Reported? && row.record.status == status
    ensures |steps| == 1 && steps[0].QueryFails? && RunSteps(s, steps, encode) == s.(disk := CoverageOutcome(s.disk, row, status).0)
  {
    var step := QueryFails(caseId, channel, status, row.record.json, row.evidenceId, at);
    steps := [step];
    assert CoverageRow(caseId, channel, status, row.record.json, row.evidenceId, at) == row;
    assert steps[..0] == [];
    assert RunSteps(s, steps[..0], encode) == s;
  }

  lemma {:induction false} BatchIsARun(s: System, encode: Event -> string, b: Batch)
    requires s.poller.Idle? && 0 < |b.events| <= |b.ids| && BatchEffect(s.disk, b, encode).Ok?
    requires b.events <= Log(s, b.channel)[CoveredIn(s, b.channel)..]
    ensures RunSteps(s, [Query(b.caseId, b.channel, |b.events|, b.ids, b.capturedAt), BeginBatch] + Inserts(|b.events|) + [CommitBatch], encode)
         == s.(disk := BatchEffect(s.disk, b, encode).value.0)
  {
    var query := Query(b.caseId, b.channel, |b.events|, b.ids, b.capturedAt);
    var rest := [BeginBatch] + Inserts(|b.events|) + [CommitBatch];
    QueryFetches(s, b, encode);
    PollIsProtocol(Next(s, query, encode), b, encode);
    hide Next, BatchEffect;
    RunFrom(s, query, rest, encode);
    assert [query, BeginBatch] + Inserts(|b.events|) + [CommitBatch] == [query] + rest;
  }

  lemma QueryFetches(s: System, b: Batch, encode: Event -> string)
    requires s.poller.Idle? && 0 < |b.events| <= |b.ids| && b.events <= Log(s, b.channel)[CoveredIn(s, b.channel)..]
    ensures Next(s, Query(b.caseId, b.channel, |b.events|, b.ids, b.capturedAt), encode) == s.(poller := Fetched(b))
  {
    assert Log(s, b.channel)[CoveredIn(s, b.channel)..][..|b.events|] == b.events;
  }

  lemma RunOneMore(s: System, steps: seq<Step>, last: Step, encode: Event -> string)
    ensures RunSteps(s, steps + [last], encode) == Next(RunSteps(s, steps, encode), last, encode)
  {
    assert (steps + [last])[..|steps|] == steps;
  }

  lemma {:induction false} RunFrom(s: System, first: Step, rest: seq<Step>, encode: Event -> string)
    ensures RunSteps(s, [first] + rest, encode) == RunSteps(Next(s, first, encode), rest, encode)
  {
    hide Next;
    if |rest| == 0 {
      RunOneMore(s, [], first, encode);
      assert [] + [first] == [first] + rest;
      assert RunSteps(s, [], encode) == s;
    } else {
      var most, last := rest[..|rest| - 1], rest[|rest| - 1];
      RunFrom(s, first, most, encode);
      RunOneMore(s, [first] + most, last, encode);
      assert [first] + most + [last] == [first] + rest;
    }
  }

  /** Main result: a poll keeps the invariant of the protocol, for every channel. */
  lemma {:induction false} PollKeepsInv(s: System, encode: Event -> string, redactText: string -> string, caseId: string, channel: string,
                                        answer: Option<int> -> EventQuery, capturedAt: int, ids: seq<string>, coverageId: string)
    requires Inv(s, encode) && s.poller.Idle? && Reads(answer, Log(s, channel))
    requires forall after :: |answer(after).events| <= |ids|
    ensures Inv(s.(disk := PollOutcome(s.disk, encode, redactText, caseId, channel, answer, capturedAt, ids, coverageId).0), encode)
  {
    hide Inv;
    var steps := PollIsARun(s, encode, redactText, caseId, channel, answer, capturedAt, ids, coverageId);
    StepsKeepInv(s, steps, encode);
  }

  lemma {:induction false} StepsKeepInv(s: System, steps: seq<Step>, encode: Event -> string)
    requires Inv(s, encode)
    ensures Inv(RunSteps(s, steps, encode), encode)
  {
    if |steps| > 0 {
      hide Inv;
      StepsKeepInv(s, steps[..|steps| - 1], encode);
      InvNext(RunSteps(s, steps[..|steps| - 1], encode), steps[|steps| - 1], encode);
    }
  }
}
