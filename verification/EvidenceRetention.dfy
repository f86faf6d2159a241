/**
 The evidence side of src/systemsense/storage/retention.py: what one prune deletes and how many
 prunes suffice at a fixed time and policy.
 */
module EvidenceRetention {
  import opened Results
  import opened Sequences
  import opened Ordering
  import opened Store

  datatype Policy = Policy(maxAgeDays: int, maxEvidenceBytes: int, maxArtifactBytes: int, batchSize: nat)

  ghost predicate ValidPolicy(p: Policy) {
    1 <= p.maxAgeDays <= 3650 && p.maxEvidenceBytes >= 1 && p.maxArtifactBytes >= 1 && 1 <= p.batchSize <= 1000
  }

  function IsRaw(r: EvidenceRow): bool { r.record.Observed? }

  function IsReport(r: EvidenceRow): bool { r.record.Reported? }

  function Bytes(r: EvidenceRow): int { |r.record.json| }

  predicate Older(a: EvidenceRow, b: EvidenceRow) {
    a.capturedAt < b.capturedAt || (a.capturedAt == b.capturedAt && LexLeq(a.evidenceId, b.evidenceId))
  }

  function CapturedBefore(cutoff: int): EvidenceRow -> bool { (r: EvidenceRow) => r.capturedAt < cutoff }

  function Expired(cutoff: int): EvidenceRow -> bool { (r: EvidenceRow) => r.capturedAt < cutoff && IsRaw(r) }

  /** The raw rows, oldest first. */
  function Ages(t: Tables): seq<EvidenceRow> { Sort(Older, Filter(IsRaw, t.evidence)) }

  function RawBytes(t: Tables): int { Sum(Map(Bytes, Filter(IsRaw, t.evidence))) }

  function OldestExpired(t: Tables, cutoff: int, limit: nat): seq<EvidenceRow> {
    Take(Sort(Older, Filter(Expired(cutoff), t.evidence)), limit)
  }

  function OldestRaw(t: Tables, limit: nat): seq<EvidenceRow> { Take(Ages(t), limit) }

  /** The two evidence deletions of one prune. */
  function PruneEvidence(t: Tables, p: Policy, cutoff: int): Tables {
    var t1 := DeleteEvidence(t, OldestExpired(t, cutoff, p.batchSize));
    var deleted := |t.evidence| - |t1.evidence|;
    if RawBytes(t1) > p.maxEvidenceBytes && p.batchSize > deleted
    then DeleteEvidence(t1, OldestRaw(t1, p.batchSize - deleted)) else t1
  }

  /** Nothing is expired and the raw evidence is within its cap. */
  ghost predicate EvidenceSettled(t: Tables, p: Policy, cutoff: int) {
    (forall r :: r in t.evidence && IsRaw(r) ==> r.capturedAt >= cutoff) && RawBytes(t) <= p.maxEvidenceBytes
  }

  // ---- One prune ----

  lemma {:induction false} OlderIsTotal()
    ensures TotalPreorder(Older)
  {
    LexIsTotalOrder();
  }

  lemma {:induction false} NoAgeTies(t: Tables)
    requires SoundEvidence(t)
    ensures NoTies(Older, Filter(IsRaw, t.evidence))
  {
    var raw := Filter(IsRaw, t.evidence);
    LexIsTotalOrder();
    forall a, b | a in raw && b in raw && Older(a, b) && Older(b, a) ensures a == b {
      SameKey(Id, t.evidence, a, b);
    }
  }

  /** Deleting the `k` oldest raw rows by identifier leaves the younger ones and every coverage report. */
  lemma {:induction false} DeleteOldestPrefix(t: Tables, k: nat)
    requires SoundEvidence(t) && k <= |Ages(t)|
    ensures var t' := DeleteEvidence(t, Ages(t)[..k]);
      && SoundEvidence(t') && Ages(t') == Ages(t)[k..]
      && Filter(IsReport, t'.evidence) == Filter(IsReport, t.evidence)
      && |t'.evidence| == |t.evidence| - k
  {
    var ages := Ages(t);
    var keep := NotAmong(Map(Id, ages[..k]));
    var t' := DeleteEvidence(t, ages[..k]);
    var raw, reports := Filter(IsRaw, t.evidence), Filter(IsReport, t.evidence);
    OlderIsTotal();
    NoAgeTies(t);
    SortSorts(Older, raw);
    FilterCommutes(IsRaw, keep, t.evidence);
    FilterCommutes(IsReport, keep, t.evidence);
    SortOfFilter(Older, keep, raw);
    AgesHaveDistinctIds(t);
    KeepsSuffix(ages, k);
    forall r | r in reports ensures keep(r) {
      ReportsAreNotRaw(t, r, k);
    }
    FilterAll(keep, reports);
    FilterSplit(IsRaw, IsReport, t.evidence);
    FilterSplit(IsRaw, IsReport, t'.evidence);
    FilterDistinctKeys(Id, keep, t.evidence);
    FilterDistinctKeys(Pair, keep, t.evidence);
  }

  lemma AgesHaveDistinctIds(t: Tables)
    requires SoundEvidence(t)
    ensures Distinct(Map(Id, Ages(t)))
  {
    FilterDistinctKeys(Id, IsRaw, t.evidence);
    SortKeepsKeys(Older, Id, Filter(IsRaw, t.evidence));
  }

  /** The first `k` rows are gone from a list once their identifiers are deleted, the others stay. */
  lemma {:induction false} KeepsSuffix(xs: seq<EvidenceRow>, k: nat)
    requires k <= |xs| && Distinct(Map(Id, xs))
    ensures Filter(NotAmong(Map(Id, xs[..k])), xs) == xs[k..]
  {
    var keep := NotAmong(Map(Id, xs[..k]));
    SplitAt(xs, k);
    FilterConcat(keep, xs[..k], xs[k..]);
    FilterNone(keep, xs[..k]);
    FilterAll(keep, xs[k..]);
  }

  lemma ReportsAreNotRaw(t: Tables, r: EvidenceRow, k: nat)
    requires SoundEvidence(t) && r in t.evidence && IsReport(r) && k <= |Ages(t)|
    ensures r.evidenceId !in Map(Id, Ages(t)[..k])
  {
    OlderIsTotal();
    SortSorts(Older, Filter(IsRaw, t.evidence));
    forall i | 0 <= i < k ensures Map(Id, Ages(t)[..k])[i] != r.evidenceId {
      assert Ages(t)[i] in Ages(t);
      if Ages(t)[i].evidenceId == r.evidenceId {
        SameKey(Id, t.evidence, Ages(t)[i], r);
      }
    }
  }

  /** The expired rows are the first of the raw rows in age order. */
  lemma {:induction false} ExpiredComeFirst(t: Tables, cutoff: int)
    requires SoundEvidence(t)
    ensures var e := |Filter(Expired(cutoff), t.evidence)|;
      && e <= |Ages(t)|
      && Sort(Older, Filter(Expired(cutoff), t.evidence)) == Ages(t)[..e]
      && (forall i :: e <= i < |Ages(t)| ==> Ages(t)[i].capturedAt >= cutoff)
  {
    var raw := Filter(IsRaw, t.evidence);
    OlderIsTotal();
    NoAgeTies(t);
    FilterTwice(CapturedBefore(cutoff), IsRaw, Expired(cutoff), t.evidence);
    SortOfFilter(Older, CapturedBefore(cutoff), raw);
    SortSorts(Older, raw);
    FilterIsPrefix(Older, CapturedBefore(cutoff), Ages(t));
  }

  ghost predicate PruneEvidenceResult(t: Tables, t': Tables, k: nat) {
    && k <= |Ages(t)| && Ages(t') == Ages(t)[k..]
    && Filter(IsReport, t'.evidence) == Filter(IsReport, t.evidence)
    && |t'.evidence| == |t.evidence| - k
    && t' == t.(evidence := t'.evidence) && SoundEvidence(t')
  }

  lemma {:induction false} PrefixDeleted(t: Tables, k: nat)
    requires SoundEvidence(t) && k <= |Ages(t)|
    ensures PruneEvidenceResult(t, DeleteEvidence(t, Ages(t)[..k]), k)
  {
    DeleteOldestPrefix(t, k);
  }

  lemma NoneExpired(t: Tables, t': Tables, k: nat, cutoff: int)
    requires PruneEvidenceResult(t, t', k) && forall i :: k <= i < |Ages(t)| ==> Ages(t)[i].capturedAt >= cutoff
    ensures forall r :: r in t'.evidence && IsRaw(r) ==> r.capturedAt >= cutoff
  {
    OlderIsTotal();
    SortSorts(Older, Filter(IsRaw, t'.evidence));
    forall r | r in t'.evidence && IsRaw(r) ensures r.capturedAt >= cutoff {
      assert r in Ages(t');
      var i :| 0 <= i < |Ages(t')| && Ages(t')[i] == r;
      assert Ages(t)[k + i] == r;
    }
  }

  /**
   Main result: one prune removes the `k` oldest raw rows, at most a batch; either it removes exactly a
   batch or afterwards nothing is expired and the bytes are within the cap. Coverage reports stay.
   */
  lemma {:induction false} PruneEvidenceStep(t: Tables, p: Policy, cutoff: int) returns (k: nat)
    requires SoundEvidence(t) && ValidPolicy(p)
    ensures k <= p.batchSize && PruneEvidenceResult(t, PruneEvidence(t, p, cutoff), k)
    ensures k == p.batchSize || EvidenceSettled(PruneEvidence(t, p, cutoff), p, cutoff)
  {
    hide DeleteEvidence, OldestExpired, OldestRaw, SoundEvidence, Ages, RawBytes;
    k := FirstDeletion(t, p.batchSize, cutoff);
    var t1 := DeleteEvidence(t, OldestExpired(t, cutoff, p.batchSize));
    assert |t.evidence| - |t1.evidence| == k && SoundEvidence(t1);
    if RawBytes(t1) > p.maxEvidenceBytes && p.batchSize > k {
      var m := SecondDeletion(t1, p.batchSize - k);
      hide PruneEvidenceResult;
      k := k + m;
    }
  }

  // ---- Exactly how much one prune takes ----

  function Fresh(cutoff: int): EvidenceRow -> bool { (r: EvidenceRow) => IsRaw(r) && r.capturedAt >= cutoff }

  /** The bytes of the raw rows that are not expired. */
  function FreshBytes(t: Tables, cutoff: int): int { Sum(Map(Bytes, Filter(Fresh(cutoff), t.evidence))) }

  function ExpiredCount(t: Tables, cutoff: int): nat { |Filter(Expired(cutoff), t.evidence)| }

  /**
   How many rows go: the expired ones, as far as the batch reaches; and if it reaches further and the others alone
   exceed the cap, the whole batch.
   */
  function Quota(t: Tables, p: Policy, cutoff: int): nat {
    var expired := ExpiredCount(t, cutoff);
    if expired >= p.batchSize then p.batchSize
    else if FreshBytes(t, cutoff) <= p.maxEvidenceBytes then expired
    else if |Ages(t)| <= p.batchSize then |Ages(t)| else p.batchSize
  }

  /** Once the expired rows are deleted, the raw rows are the fresh ones. */
  lemma {:induction false} OnlyFreshLeft(t: Tables, cutoff: int)
    requires SoundEvidence(t)
    ensures ExpiredCount(t, cutoff) <= |Ages(t)|
    ensures var t1 := DeleteEvidence(t, Ages(t)[..ExpiredCount(t, cutoff)]);
      RawBytes(t1) == FreshBytes(t, cutoff)
  {
    ExpiredComeFirst(t, cutoff);
    var e := ExpiredCount(t, cutoff);
    var gone := Ages(t)[..e];
    var keep := NotAmong(Map(Id, gone));
    var raw := Filter(IsRaw, t.evidence);
    FilterCommutes(IsRaw, keep, t.evidence);
    FilterTwice(CapturedFrom(cutoff), IsRaw, Fresh(cutoff), t.evidence);
    forall r | r in raw ensures keep(r) <==> CapturedFrom(cutoff)(r) {
      GoneIffExpired(t, cutoff, r);
    }
    SameFilter(keep, CapturedFrom(cutoff), raw);
  }

  function CapturedFrom(cutoff: int): EvidenceRow -> bool { (r: EvidenceRow) => r.capturedAt >= cutoff }

  lemma {:induction false} SameFilter<T(!new)>(keep: T -> bool, keep': T -> bool, xs: seq<T>)
    requires forall x :: x in xs ==> keep(x) == keep'(x)
    ensures Filter(keep, xs) == Filter(keep', xs)
  {
    if |xs| > 0 {
      SameFilter(keep, keep', xs[1..]);
    }
  }

  lemma GoneIffExpired(t: Tables, cutoff: int, r: EvidenceRow)
    requires SoundEvidence(t) && r in Filter(IsRaw, t.evidence) && ExpiredCount(t, cutoff) <= |Ages(t)|
    requires Sort(Older, Filter(Expired(cutoff), t.evidence)) == Ages(t)[..ExpiredCount(t, cutoff)]
    ensures r.evidenceId !in Map(Id, Ages(t)[..ExpiredCount(t, cutoff)]) <==> r.capturedAt >= cutoff
  {
    var gone := Ages(t)[..ExpiredCount(t, cutoff)];
    OlderIsTotal();
    SortSorts(Older, Filter(Expired(cutoff), t.evidence));
    if r.evidenceId in Map(Id, gone) {
      var x := WithKey(Id, gone, r.evidenceId);
      SameKey(Id, t.evidence, x, r);
    }
    if r.capturedAt < cutoff {
      KeyIn(Id, gone, r);
    }
  }

  /** Main result: one prune takes exactly its quota, the oldest raw rows first, and nothing else. */
  lemma {:induction false} PruneTakesItsQuota(t: Tables, p: Policy, cutoff: int)
    requires SoundEvidence(t) && ValidPolicy(p)
    ensures Quota(t, p, cutoff) <= p.batchSize
    ensures PruneEvidenceResult(t, PruneEvidence(t, p, cutoff), Quota(t, p, cutoff))
  {
    hide DeleteEvidence, OldestExpired, OldestRaw, SoundEvidence, Ages, RawBytes, FreshBytes, ExpiredCount;
    var m := FirstDeletion(t, p.batchSize, cutoff);
    FirstTakes(t, p.batchSize, cutoff, m);
    var t1 := DeleteEvidence(t, OldestExpired(t, cutoff, p.batchSize));
    assert |t.evidence| - |t1.evidence| == m && SoundEvidence(t1);
    if m < p.batchSize {
      if RawBytes(t1) > p.maxEvidenceBytes {
        var k := SecondDeletion(t1, p.batchSize - m);
        SecondTakes(t1, p.batchSize - m, k);
      }
    }
  }

  lemma FirstTakes(t: Tables, slots: nat, cutoff: int, m: nat)
    requires SoundEvidence(t) && PruneEvidenceResult(t, DeleteEvidence(t, OldestExpired(t, cutoff, slots)), m)
    ensures ExpiredCount(t, cutoff) <= |Ages(t)|
    ensures m == if ExpiredCount(t, cutoff) < slots then ExpiredCount(t, cutoff) else slots
    ensures m < slots ==> RawBytes(DeleteEvidence(t, OldestExpired(t, cutoff, slots))) == FreshBytes(t, cutoff)
  {
    ExpiredComeFirst(t, cutoff);
    var e := ExpiredCount(t, cutoff);
    var n := if e < slots then e else slots;
    assert OldestExpired(t, cutoff, slots) == Ages(t)[..n];
    PrefixDeleted(t, n);
    OnlyFreshLeft(t, cutoff);
  }

  lemma SecondTakes(t: Tables, slots: nat, m: nat)
    requires SoundEvidence(t) && PruneEvidenceResult(t, DeleteEvidence(t, OldestRaw(t, slots)), m)
    ensures m == if |Ages(t)| < slots then |Ages(t)| else slots
  {
    var n := if |Ages(t)| < slots then |Ages(t)| else slots;
    assert OldestRaw(t, slots) == Ages(t)[..n];
    PrefixDeleted(t, n);
  }

  ghost predicate Gone(t: Tables, t': Tables, r: EvidenceRow) { r in t.evidence && r !in t'.evidence }

  /** Only raw rows go, and none that is younger than one that stays. */
  ghost predicate OldestRawGo(t: Tables, t': Tables) {
    && (forall r :: r in t'.evidence ==> r in t.evidence)
    && (forall r :: Gone(t, t', r) ==> r.record.Observed?)
    && (forall r, kept :: Gone(t, t', r) && kept in t'.evidence && kept.record.Observed? ==>
          r.capturedAt < kept.capturedAt || (r.capturedAt == kept.capturedAt && LexLeq(r.evidenceId, kept.evidenceId)))
  }

  ghost predicate OnlyExpiredGo(t: Tables, t': Tables, cutoff: int) { forall r :: Gone(t, t', r) ==> r.capturedAt < cutoff }

  /** What a caller can see of a prune: which rows are gone, why, and how many. */
  ghost predicate JustPruned(t: Tables, t': Tables, p: Policy, cutoff: int) {
    && OldestRawGo(t, t')
    && (FreshBytes(t, cutoff) <= p.maxEvidenceBytes || ExpiredCount(t, cutoff) >= p.batchSize ==> OnlyExpiredGo(t, t', cutoff))
    && |t.evidence| - |t'.evidence| == Quota(t, p, cutoff)
  }

  /** Main result, row by row. */
  lemma {:induction false} PruneIsJust(t: Tables, p: Policy, cutoff: int)
    requires SoundEvidence(t) && ValidPolicy(p)
    ensures JustPruned(t, PruneEvidence(t, p, cutoff), p, cutoff)
  {
    hide PruneEvidence, SoundEvidence, ValidPolicy;
    PruneTakesItsQuota(t, p, cutoff);
    ResultIsJust(t, PruneEvidence(t, p, cutoff), p, cutoff);
  }

  lemma ResultIsJust(t: Tables, t': Tables, p: Policy, cutoff: int)
    requires SoundEvidence(t) && PruneEvidenceResult(t, t', Quota(t, p, cutoff))
    ensures JustPruned(t, t', p, cutoff)
  {
    hide OldestRawGo, OnlyExpiredGo, SoundEvidence;
    GoneAreOldest(t, t', Quota(t, p, cutoff));
    if FreshBytes(t, cutoff) <= p.maxEvidenceBytes || ExpiredCount(t, cutoff) >= p.batchSize {
      QuotaOfExpired(t, p, cutoff);
      GoneAreExpired(t, t', Quota(t, p, cutoff), cutoff);
    }
  }

  lemma QuotaOfExpired(t: Tables, p: Policy, cutoff: int)
    requires FreshBytes(t, cutoff) <= p.maxEvidenceBytes || ExpiredCount(t, cutoff) >= p.batchSize
    ensures Quota(t, p, cutoff) <= ExpiredCount(t, cutoff)
  {
  }

  /** `gone` are the rows that go, and none of them is younger than a raw row that stays. */
  ghost predicate CutOff(t: Tables, t': Tables, gone: seq<EvidenceRow>) {
    && (forall r :: r in t'.evidence ==> r in t.evidence)
    && (forall r :: r in t.evidence && r !in t'.evidence ==> r in gone)
    && (forall r, kept :: r in gone && kept in t'.evidence && IsRaw(kept) ==> Older(r, kept))
  }

  lemma GoneAreOldest(t: Tables, t': Tables, k: nat)
    requires SoundEvidence(t) && PruneEvidenceResult(t, t', k)
    ensures OldestRawGo(t, t')
  {
    hide CutOff, OldestRawGo;
    KeptAndGone(t, t', k);
    RawPrefix(t, k);
    CutIsOldest(t, t', Ages(t)[..k]);
  }

  lemma CutIsOldest(t: Tables, t': Tables, gone: seq<EvidenceRow>)
    requires CutOff(t, t', gone) && forall r :: r in gone ==> r.record.Observed?
    ensures OldestRawGo(t, t')
  {
  }

  lemma GoneAreExpired(t: Tables, t': Tables, k: nat, cutoff: int)
    requires SoundEvidence(t) && PruneEvidenceResult(t, t', k) && k <= ExpiredCount(t, cutoff)
    ensures OnlyExpiredGo(t, t', cutoff)
  {
    hide CutOff, OnlyExpiredGo, SoundEvidence, Ages;
    KeptAndGone(t, t', k);
    ExpiredPrefix(t, cutoff, k);
    CutIsExpired(t, t', Ages(t)[..k], cutoff);
  }

  lemma CutIsExpired(t: Tables, t': Tables, gone: seq<EvidenceRow>, cutoff: int)
    requires CutOff(t, t', gone) && forall r :: r in gone ==> r.capturedAt < cutoff
    ensures OnlyExpiredGo(t, t', cutoff)
  {
  }

  lemma RawPrefix(t: Tables, k: nat)
    requires k <= |Ages(t)|
    ensures forall r :: r in Ages(t)[..k] ==> r.record.Observed?
  {
    RowsAreReportsAndAges(t);
    forall r | r in Ages(t)[..k] ensures r in Ages(t) {
    }
  }

  lemma ExpiredPrefix(t: Tables, cutoff: int, k: nat)
    requires SoundEvidence(t) && k <= |Ages(t)|
    ensures k <= ExpiredCount(t, cutoff) ==> forall r :: r in Ages(t)[..k] ==> r.capturedAt < cutoff
  {
    ExpiredComeFirst(t, cutoff);
    OlderIsTotal();
    SortSorts(Older, Filter(Expired(cutoff), t.evidence));
    hide Sort, SoundEvidence;
    if k <= ExpiredCount(t, cutoff) {
      forall r | r in Ages(t)[..k] ensures r in Ages(t)[..ExpiredCount(t, cutoff)] {
        var i :| 0 <= i < k && Ages(t)[..k][i] == r;
        assert Ages(t)[..ExpiredCount(t, cutoff)][i] == r;
      }
    }
  }

  lemma RowsAreReportsAndAges(t: Tables)
    ensures forall r :: r in t.evidence <==> r in Ages(t) || r in Filter(IsReport, t.evidence)
    ensures forall r :: r in Ages(t) <==> r in t.evidence && IsRaw(r)
  {
    OlderIsTotal();
    SortSorts(Older, Filter(IsRaw, t.evidence));
  }

  lemma KeptAndGone(t: Tables, t': Tables, k: nat)
    requires SoundEvidence(t) && PruneEvidenceResult(t, t', k)
    ensures CutOff(t, t', Ages(t)[..k])
  {
    RowsAreReportsAndAges(t);
    RowsAreReportsAndAges(t');
    OlderIsTotal();
    SortSorts(Older, Filter(IsRaw, t.evidence));
    assert Ages(t) == Ages(t)[..k] + Ages(t)[k..];
    SplitIsSorted(Ages(t), k);
  }

  lemma SplitIsSorted(ages: seq<EvidenceRow>, k: nat)
    requires Sorted(Older, ages) && k <= |ages|
    ensures forall r, kept :: r in ages[..k] && kept in ages[k..] ==> Older(r, kept)
  {
    forall r, kept | r in ages[..k] && kept in ages[k..] ensures Older(r, kept) {
      var i :| 0 <= i < k && ages[i] == r;
      var j :| k <= j < |ages| && ages[j] == kept;
    }
  }

  /** Deleting up to `slots` expired rows uses every slot or leaves no expired row. */
  lemma {:induction false} FirstDeletion(t: Tables, slots: nat, cutoff: int) returns (m: nat)
    requires SoundEvidence(t)
    ensures m <= slots && PruneEvidenceResult(t, DeleteEvidence(t, OldestExpired(t, cutoff, slots)), m)
    ensures m == slots ||
            forall r :: r in DeleteEvidence(t, OldestExpired(t, cutoff, slots)).evidence && IsRaw(r) ==> r.capturedAt >= cutoff
  {
    ExpiredComeFirst(t, cutoff);
    var e := |Filter(Expired(cutoff), t.evidence)|;
    m := if e < slots then e else slots;
    assert OldestExpired(t, cutoff, slots) == Ages(t)[..m];
    PrefixDeleted(t, m);
    if m < slots {
      NoneExpired(t, DeleteEvidence(t, Ages(t)[..m]), m, cutoff);
    }
  }

  /** Deleting up to `slots` of the oldest raw rows uses every slot or leaves no raw row. */
  lemma {:induction false} SecondDeletion(t: Tables, slots: nat) returns (m: nat)
    requires SoundEvidence(t)
    ensures var t' := DeleteEvidence(t, OldestRaw(t, slots));
      m <= slots && PruneEvidenceResult(t, t', m) && (m == slots || (RawBytes(t') == 0 && forall r :: r in t'.evidence ==> !IsRaw(r)))
  {
    m := if |Ages(t)| < slots then |Ages(t)| else slots;
    assert OldestRaw(t, slots) == Ages(t)[..m];
    PrefixDeleted(t, m);
  }

  // ---- Convergence ----

  function PruneEvidenceTimes(t: Tables, p: Policy, cutoff: int, n: nat): Tables
    decreases n
  {
    if n == 0 then t else PruneEvidenceTimes(PruneEvidence(t, p, cutoff), p, cutoff, n - 1)
  }

  /** Settled evidence is a fixpoint. */
  lemma SettledStays(t: Tables, p: Policy, cutoff: int)
    requires SoundEvidence(t) && ValidPolicy(p) && EvidenceSettled(t, p, cutoff)
    ensures PruneEvidence(t, p, cutoff) == t
  {
    FilterNone(Expired(cutoff), t.evidence);
    assert OldestExpired(t, cutoff, p.batchSize) == [];
    assert Map(Id, []) == [];
    FilterAll(NotAmong([]), t.evidence);
  }

  lemma {:induction false} SettledForever(t: Tables, p: Policy, cutoff: int, n: nat)
    requires SoundEvidence(t) && ValidPolicy(p) && EvidenceSettled(t, p, cutoff)
    ensures PruneEvidenceTimes(t, p, cutoff, n) == t
  {
    if n > 0 {
      SettledStays(t, p, cutoff);
      SettledForever(t, p, cutoff, n - 1);
    }
  }

  lemma ResultShrinks(t: Tables, t': Tables, k: nat)
    requires PruneEvidenceResult(t, t', k)
    ensures SoundEvidence(t') && |Ages(t')| == |Ages(t)| - k
  {
  }

  lemma NoRowsIsSettled(t: Tables, p: Policy, cutoff: int)
    requires |Ages(t)| == 0 && ValidPolicy(p)
    ensures EvidenceSettled(t, p, cutoff)
  {
  }

  lemma OneBatchLess(n: nat, batch: nat, rows: nat)
    requires n > 0 && rows <= n * batch
    ensures rows - batch <= (n - 1) * batch
  {
  }

  /** Main result: as soon as `n` batches cover the raw rows, `n` prunes settle the evidence, so ceil(rows / batch) suffice. */
  lemma {:induction false} EvidenceConverges(t: Tables, p: Policy, cutoff: int, n: nat)
    requires SoundEvidence(t) && ValidPolicy(p) && |Ages(t)| <= n * p.batchSize
    ensures EvidenceSettled(PruneEvidenceTimes(t, p, cutoff, n), p, cutoff)
    decreases n
  {
    hide PruneEvidence, EvidenceSettled, Ages, SoundEvidence, PruneEvidenceResult, ValidPolicy;
    if n == 0 {
      NoRowsIsSettled(t, p, cutoff);
    } else {
      var t1 := PruneEvidence(t, p, cutoff);
      var k := PruneEvidenceStep(t, p, cutoff);
      ResultShrinks(t, t1, k);
      if k == p.batchSize {
        OneBatchLess(n, p.batchSize, |Ages(t)|);
        EvidenceConverges(t1, p, cutoff, n - 1);
      } else {
        SettledForever(t1, p, cutoff, n - 1);
      }
    }
  }
}
