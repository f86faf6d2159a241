/** `RetentionManager` of src/systemsense/storage/retention.py on a store and a directory of files. */
module Retention {
  import opened Sequences
  import opened Ordering
  import opened Store
  import opened Artifacts
  import opened EvidenceRetention
  import opened ArtifactRetention
  import AS = ArtifactStore

  const SECONDS_PER_DAY := 86_400

  datatype Report = Report(evidenceDeleted: nat, metadataDeleted: nat, filesDeleted: nat, orphansDeleted: nat,
                           remainingEvidenceBytes: int, remainingArtifactBytes: int,
                           evidenceCapBlocked: bool, artifactCapBlocked: bool)

  /** Everything that `prune` keeps true of the committed tables and the files. */
  ghost predicate Healthy(t: Tables, files: Files, hash: Content -> string) {
    SoundEvidence(t) && Consistent(t, files, hash)
  }

  /** What one prune at a fixed cutoff makes of tables and files before the orphan walk. */
  function PruneBoth(t: Tables, files: Files, p: Policy, cutoff: int): Pruned {
    PruneArtifacts(PruneEvidence(t, p, cutoff), files, p, cutoff)
  }

  /** Only orphans are gone, at most `budget` of them, and fewer only when no orphan is left. */
  ghost predicate Swept(t: Tables, files: Files, files': Files, n: nat, budget: nat) {
    && n <= budget && |files'| == |files| - n
    && (forall path :: path in files' ==> path in files && files'[path] == files[path])
    && (forall path :: path in files && path !in files' ==> Orphan(t, path))
    && (n < budget ==> forall path :: path in files' ==> !Orphan(t, path))
  }

  lemma {:induction false} ListingIsCleaned(t: Tables, files: Files, listing: seq<Path>, budget: nat)
    requires AS.Lists(listing, files)
    ensures var (files', n) := CleanFiles(t, files, listing, budget); Swept(t, files, files', n, budget)
  {
    CleanFilesStep(t, files, listing, budget);
  }

  lemma {:induction false} EvidencePruneIsHealthy(t: Tables, files: Files, p: Policy, cutoff: int, hash: Content -> string)
    requires Healthy(t, files, hash) && ValidPolicy(p)
    ensures Healthy(PruneEvidence(t, p, cutoff), files, hash)
  {
    var _ := PruneEvidenceStep(t, p, cutoff);
    var t' := PruneEvidence(t, p, cutoff);
    assert t' == t.(evidence := t'.evidence);
  }

  lemma {:induction false} ArtifactPruneIsHealthy(t: Tables, files: Files, p: Policy, cutoff: int, hash: Content -> string)
    requires Healthy(t, files, hash) && ValidPolicy(p)
    ensures var r := PruneArtifacts(t, files, p, cutoff); Healthy(r.t, r.files, hash) && r.t.evidence == t.evidence
  {
    hide PruneArtifacts, Consistent;
    PruneArtifactsStep(t, files, p, cutoff, hash);
  }

  /** What a caller learns from the counts of one prune. */
  lemma {:induction false} CountsTell(t: Tables, files: Files, p: Policy, cutoff: int, hash: Content -> string)
    requires Healthy(t, files, hash) && ValidPolicy(p)
    ensures var t1 := PruneEvidence(t, p, cutoff); var r := PruneBoth(t, files, p, cutoff);
            var k := |t.evidence| - |t1.evidence|;
      && 0 <= k <= p.batchSize && (k == p.batchSize || EvidenceSettled(r.t, p, cutoff))
      && r.unlinked == r.rows <= p.batchSize && (r.rows == p.batchSize || ArtifactsSettled(r.t, p, cutoff))
      && RawBytes(r.t) == RawBytes(t1) && Filter(IsReport, r.t.evidence) == Filter(IsReport, t.evidence)
  {
    var k := PruneEvidenceStep(t, p, cutoff);
    EvidencePruneIsHealthy(t, files, p, cutoff, hash);
    hide PruneArtifacts, PruneEvidence, Consistent, ArtifactsSettled;
    PruneArtifactsStep(PruneEvidence(t, p, cutoff), files, p, cutoff, hash);
    ArtifactPruneIsHealthy(PruneEvidence(t, p, cutoff), files, p, cutoff, hash);
  }

  /** The loop has got to `i`; what is left of it makes `whole` of the state. */
  ghost predicate Pending(whole: Pruned, t: Tables, files: Files, todo: seq<ArtifactRow>, i: nat, bytes: int, rows: nat, unlinked: nat,
                          p: Policy, cutoff: int) {
    i <= |todo| &&
    var rest := PruneList(t, files, todo[i..], bytes, p, cutoff);
    whole == Pruned(rest.t, rest.files, rows + rest.rows, unlinked + rest.unlinked)
  }

  lemma PendingStart(t: Tables, files: Files, p: Policy, cutoff: int)
    ensures Pending(PruneArtifacts(t, files, p, cutoff), t, files, Take(Unreferenced(t), p.batchSize), 0, TotalBytes(t), 0, 0, p, cutoff)
  {
    var todo := Take(Unreferenced(t), p.batchSize);
    assert todo[0..] == todo;
  }

  /** One round, as its effect on the tables and the files. */
  function Round(t: Tables, files: Files, r: ArtifactRow, bytes: int, p: Policy, cutoff: int): Pruned {
    if (r.createdAt < cutoff || bytes > p.maxArtifactBytes) && DeleteUnreferenced(t, r.artifactId).1
    then Pruned(DeleteUnreferenced(t, r.artifactId).0, files - {Object(r.sha256)}, 1, if Object(r.sha256) in files then 1 else 0)
    else Pruned(t, files, 0, 0)
  }

  lemma PendingRound(whole: Pruned, t: Tables, files: Files, todo: seq<ArtifactRow>, i: nat, bytes: int, rows: nat, unlinked: nat,
                     p: Policy, cutoff: int)
    requires i < |todo| && Pending(whole, t, files, todo, i, bytes, rows, unlinked, p, cutoff)
    ensures var done := Round(t, files, todo[i], bytes, p, cutoff);
      Pending(whole, done.t, done.files, todo, i + 1, if done.rows == 1 then Max(0, bytes - todo[i].byteSize) else bytes,
              rows + done.rows, unlinked + done.unlinked, p, cutoff)
  {
    assert todo[i..][0] == todo[i] && todo[i..][1..] == todo[i + 1..];
  }

  lemma PendingDone(whole: Pruned, t: Tables, files: Files, todo: seq<ArtifactRow>, bytes: int, rows: nat, unlinked: nat, p: Policy, cutoff: int)
    requires Pending(whole, t, files, todo, |todo|, bytes, rows, unlinked, p, cutoff)
    ensures whole == Pruned(t, files, rows, unlinked)
  {
  }

  /** The same for the walk over the object directory. */
  ghost predicate Walking(whole: (Files, nat), t: Tables, files: Files, listing: seq<Path>, i: nat, deleted: nat, budget: nat) {
    && i <= |listing| && deleted <= budget
    && var rest := CleanFiles(t, files, listing[i..], budget - deleted); whole == (rest.0, rest.1 + deleted)
  }

  lemma WalkingStart(t: Tables, files: Files, listing: seq<Path>, budget: nat)
    ensures Walking(CleanFiles(t, files, listing, budget), t, files, listing, 0, 0, budget)
  {
    assert listing[0..] == listing;
  }

  lemma WalkingNext(whole: (Files, nat), t: Tables, files: Files, listing: seq<Path>, i: nat, deleted: nat, budget: nat)
    requires i < |listing| && deleted < budget && Walking(whole, t, files, listing, i, deleted, budget)
    ensures if Orphan(t, listing[i]) then Walking(whole, t, files - {listing[i]}, listing, i + 1, deleted + 1, budget)
            else Walking(whole, t, files, listing, i + 1, deleted, budget)
  {
    assert listing[i..][0] == listing[i] && listing[i..][1..] == listing[i + 1..];
  }

  lemma WalkingDone(whole: (Files, nat), t: Tables, files: Files, listing: seq<Path>, i: nat, deleted: nat, budget: nat)
    requires Walking(whole, t, files, listing, i, deleted, budget) && (i == |listing| || deleted == budget)
    ensures whole == (files, deleted)
  {
  }

  lemma JustCount(t: Tables, t': Tables, p: Policy, cutoff: int)
    requires JustPruned(t, t', p, cutoff)
    ensures |t.evidence| - |t'.evidence| == Quota(t, p, cutoff)
  {
  }

  /** Of the unreferenced artifacts none goes that is younger than one that stays. */
  ghost predicate OldestUnreferencedGo(t: Tables, t': Tables) {
    forall r, kept :: r in t.artifacts && r !in t'.artifacts && kept in t'.artifacts && !Referenced(t, kept.artifactId) ==> CreatedBefore(r, kept)
  }

  /** Only unreferenced artifacts go, and while the cap holds only expired ones. */
  ghost predicate OnlyUnneededGo(t: Tables, t': Tables, p: Policy, cutoff: int) {
    && (forall r :: r in t'.artifacts ==> r in t.artifacts)
    && (forall r :: r in t.artifacts && r !in t'.artifacts ==>
          !Referenced(t, r.artifactId) && (r.createdAt < cutoff || TotalBytes(t) > p.maxArtifactBytes))
  }

  ghost predicate JustPrunedArtifacts(t: Tables, t': Tables, p: Policy, cutoff: int) {
    OldestUnreferencedGo(t, t') && OnlyUnneededGo(t, t', p, cutoff)
  }

  ghost predicate CreatedBefore(a: ArtifactRow, b: ArtifactRow) {
    a.createdAt < b.createdAt || (a.createdAt == b.createdAt && LexLeq(a.artifactId, b.artifactId))
  }

  lemma SplitIsByCreation(list: seq<ArtifactRow>, k: nat, r: ArtifactRow, kept: ArtifactRow)
    requires Sorted(Created, list) && k <= |list| && r in list[..k] && kept in list && kept !in list[..k]
    ensures CreatedBefore(r, kept)
  {
    var i :| 0 <= i < k && list[..k][i] == r;
    var j :| 0 <= j < |list| && list[j] == kept;
    forall m | 0 <= m < k ensures list[m] != kept {
      assert list[..k][m] in list[..k];
    }
    assert Created(list[i], list[j]);
  }

  lemma CutByCreation(t: Tables, t': Tables, list: seq<ArtifactRow>, k: nat)
    requires Sorted(Created, list) && k <= |list|
    requires forall x :: x in t'.artifacts <==> x in t.artifacts && x !in list[..k]
    requires forall x :: x in t.artifacts && !Referenced(t, x.artifactId) ==> x in list
    ensures OldestUnreferencedGo(t, t')
  {
    hide Sorted, Referenced, CreatedBefore;
    forall r, kept | r in t.artifacts && r !in t'.artifacts && kept in t'.artifacts && !Referenced(t, kept.artifactId)
      ensures CreatedBefore(r, kept)
    {
      SplitIsByCreation(list, k, r, kept);
    }
  }

  lemma OldestGoFirst(t: Tables, files: Files, p: Policy, cutoff: int, hash: Content -> string)
    requires Consistent(t, files, hash) && ValidPolicy(p)
    ensures OldestUnreferencedGo(t, PruneArtifacts(t, files, p, cutoff).t)
  {
    hide PruneArtifacts, Unreferenced, TotalBytes, Consistent, OldestUnreferencedGo, ArtifactsSettled;
    PruneArtifactsStep(t, files, p, cutoff, hash);
    UnreferencedMembers(t);
    var r := PruneArtifacts(t, files, p, cutoff);
    CutByCreation(t, r.t, Unreferenced(t), r.rows);
  }

  lemma UnneededGo(t: Tables, files: Files, p: Policy, cutoff: int, hash: Content -> string)
    requires Consistent(t, files, hash) && ValidPolicy(p)
    ensures OnlyUnneededGo(t, PruneArtifacts(t, files, p, cutoff).t, p, cutoff)
  {
    var r := PruneArtifacts(t, files, p, cutoff);
    PruneArtifactsStep(t, files, p, cutoff, hash);
    UnreferencedMembers(t);
    hide PruneArtifacts, Unreferenced, TotalBytes;
    forall x | x in t.artifacts && x !in r.t.artifacts
      ensures !Referenced(t, x.artifactId) && (x.createdAt < cutoff || TotalBytes(t) > p.maxArtifactBytes)
    {
      assert x in Unreferenced(t)[..r.rows];
      var i :| 0 <= i < r.rows && Unreferenced(t)[i] == x;
      TakenForAReason(t, files, p, cutoff, hash, i);
    }
  }

  lemma PruneArtifactsIsJust(t: Tables, files: Files, p: Policy, cutoff: int, hash: Content -> string)
    requires Consistent(t, files, hash) && ValidPolicy(p)
    ensures JustPrunedArtifacts(t, PruneArtifacts(t, files, p, cutoff).t, p, cutoff)
  {
    hide OldestUnreferencedGo, OnlyUnneededGo, Consistent;
    OldestGoFirst(t, files, p, cutoff, hash);
    UnneededGo(t, files, p, cutoff, hash);
  }

  lemma TakenForAReason(t: Tables, files: Files, p: Policy, cutoff: int, hash: Content -> string, i: nat)
    requires Consistent(t, files, hash) && ValidPolicy(p)
    requires i < PruneArtifacts(t, files, p, cutoff).rows && i < |Unreferenced(t)|
    ensures Unreferenced(t)[i].createdAt < cutoff || TotalBytes(t) > p.maxArtifactBytes
  {
    var todo := Take(Unreferenced(t), p.batchSize);
    PruneListPrefix(t, files, todo, p, cutoff, hash);
    hide Unreferenced, TotalBytes;
    DeletedForAReason(t, files, todo, p, cutoff, hash, i);
    SumNonNegative(Map(Size, todo[..i]));
  }

  lemma PruneBothIsJust(t: Tables, files: Files, p: Policy, cutoff: int, hash: Content -> string)
    requires Healthy(t, files, hash) && ValidPolicy(p)
    ensures var t' := PruneBoth(t, files, p, cutoff).t;
      JustPruned(t, t', p, cutoff) && JustPrunedArtifacts(t, t', p, cutoff)
      && |t.evidence| - |t'.evidence| == Quota(t, p, cutoff)
  {
    var t1 := PruneEvidence(t, p, cutoff);
    var k := PruneEvidenceStep(t, p, cutoff);
    EvidencePruneIsHealthy(t, files, p, cutoff, hash);
    hide PruneEvidence, PruneArtifacts, SoundEvidence, Consistent, ValidPolicy;
    PruneIsJust(t, p, cutoff);
    JustCount(t, t1, p, cutoff);
    PruneArtifactsIsJust(t1, files, p, cutoff, hash);
    ArtifactPruneIsHealthy(t1, files, p, cutoff, hash);
    hide JustPruned, JustPrunedArtifacts;
    JustBySeparateTables(t, t1, PruneBoth(t, files, p, cutoff).t, p, cutoff);
  }

  /** The evidence side looks at evidence, the artifact side at artifacts and relations. */
  lemma JustBySeparateTables(t: Tables, t1: Tables, t2: Tables, p: Policy, cutoff: int)
    requires JustPruned(t, t1, p, cutoff) && JustPrunedArtifacts(t1, t2, p, cutoff)
    requires t2.evidence == t1.evidence && t1.artifacts == t.artifacts && t1.relations == t.relations
    ensures JustPruned(t, t2, p, cutoff) && JustPrunedArtifacts(t, t2, p, cutoff)
  {
  }

  class RetentionManager {
    const store: SQLiteStore
    const disk: AS.FileSystem
    const policy: Policy
    ghost const hash: Content -> string

    ghost predicate Valid()
      reads this, store, disk
    {
      store.Valid() && !store.inTransaction && ValidPolicy(policy) && Healthy(store.committed, disk.files, hash)
    }

    constructor (store: SQLiteStore, disk: AS.FileSystem, policy: Policy, ghost hash: Content -> string)
      ensures this.store == store && this.disk == disk && this.policy == policy && this.hash == hash
    {
      this.store, this.disk, this.policy, this.hash := store, disk, policy, hash;
    }

    method EvidencePhase(cutoff: int) returns (deleted: nat, bytes: int)
      requires store.Valid() && !store.inTransaction
      modifies store
      ensures store.Valid() && !store.inTransaction
      ensures store.committed == PruneEvidence(old(store.committed), policy, cutoff)
      ensures deleted == |old(store.committed).evidence| - |store.committed.evidence|
      ensures bytes == RawBytes(store.committed)
      ensures ValidPolicy(policy) && SoundEvidence(old(store.committed)) ==>
        JustPruned(old(store.committed), store.committed, policy, cutoff) && deleted == Quota(old(store.committed), policy, cutoff)
    {
      hide DeleteEvidence, OldestExpired, OldestRaw, RawBytes, JustPruned, Quota;
      if ValidPolicy(policy) && SoundEvidence(store.committed) {
        PruneIsJust(store.committed, policy, cutoff);
        JustCount(store.committed, PruneEvidence(store.committed, policy, cutoff), policy, cutoff);
      }
      deleted := store.DeleteEvidenceRows(OldestExpired(store.tables, cutoff, policy.batchSize));
      bytes := RawBytes(store.tables);
      if bytes > policy.maxEvidenceBytes && policy.batchSize - deleted > 0 {
        var more := store.DeleteEvidenceRows(OldestRaw(store.tables, policy.batchSize - deleted));
        deleted := deleted + more;
        bytes := RawBytes(store.tables);
      }
    }

    /** The body of the artifact loop. */
    method PruneArtifact(r: ArtifactRow, bytes: int, cutoff: int) returns (rows: nat, unlinked: nat)
      requires store.Valid() && !store.inTransaction
      modifies store, disk
      ensures store.Valid() && !store.inTransaction
      ensures Pruned(store.committed, disk.files, rows, unlinked)
           == Round(old(store.committed), old(disk.files), r, bytes, policy, cutoff)
    {
      hide DeleteUnreferenced;
      rows, unlinked := 0, 0;
      var expired := r.createdAt < cutoff;
      var overSize := bytes > policy.maxArtifactBytes;
      if expired || overSize {
        ghost var before := store.committed;
        var deleted := store.DeleteArtifact(r.artifactId);
        if deleted {
          rows := 1;
          if Object(r.sha256) in disk.files {
            disk.files := disk.files - {Object(r.sha256)};
            unlinked := 1;
          } else {
            assert disk.files - {Object(r.sha256)} == disk.files;
          }
        } else {
          DeleteNothing(before, r.artifactId);
        }
      }
    }

    method ArtifactPhase(cutoff: int) returns (rows: nat, unlinked: nat)
      requires store.Valid() && !store.inTransaction
      modifies store, disk
      ensures store.Valid() && !store.inTransaction
      ensures Pruned(store.committed, disk.files, rows, unlinked)
           == PruneArtifacts(old(store.committed), old(disk.files), policy, cutoff)
    {
      hide Pending, Round, PruneArtifacts, Unreferenced, TotalBytes, Take;
      rows, unlinked := 0, 0;
      var bytes := TotalBytes(store.tables);
      var todo := Take(Unreferenced(store.tables), policy.batchSize);
      ghost var whole := PruneArtifacts(store.committed, disk.files, policy, cutoff);
      PendingStart(store.committed, disk.files, policy, cutoff);
      for i := 0 to |todo|
        invariant store.Valid() && !store.inTransaction
        invariant Pending(whole, store.committed, disk.files, todo, i, bytes, rows, unlinked, policy, cutoff)
      {
        PendingRound(whole, store.committed, disk.files, todo, i, bytes, rows, unlinked, policy, cutoff);
        var row, file := PruneArtifact(todo[i], bytes, cutoff);
        rows, unlinked := rows + row, unlinked + file;
        if row == 1 {
          bytes := Max(0, bytes - todo[i].byteSize);
        }
      }
      PendingDone(whole, store.committed, disk.files, todo, bytes, rows, unlinked, policy, cutoff);
    }

    method CleanOrphanFiles() returns (deleted: nat)
      requires store.Valid() && !store.inTransaction
      modifies disk
      ensures Swept(store.committed, old(disk.files), disk.files, deleted, policy.batchSize)
    {
      hide Walking, Orphan, Swept, AS.Lists, Cleaned;
      var listing := disk.Rglob();
      ghost var t, files, budget := store.committed, disk.files, policy.batchSize;
      ghost var whole := CleanFiles(t, files, listing, budget);
      WalkingStart(t, files, listing, budget);
      deleted := 0;
      var i := 0;
      while i < |listing| && deleted != policy.batchSize
        invariant i <= |listing| && deleted <= budget
        invariant Walking(whole, t, disk.files, listing, i, deleted, budget)
        decreases |listing| - i
      {
        WalkingNext(whole, t, disk.files, listing, i, deleted, budget);
        if Orphan(store.tables, listing[i]) {
          disk.files := disk.files - {listing[i]};
          deleted := deleted + 1;
        }
        i := i + 1;
      }
      WalkingDone(whole, t, disk.files, listing, i, deleted, budget);
      ListingIsCleaned(t, files, listing, budget);
    }

    /** Main result: what a report says about the store it leaves behind. */
    method Prune(now: int) returns (report: Report)
      requires Valid()
      modifies store, disk
      ensures Valid()
      ensures var cutoff := now - policy.maxAgeDays * SECONDS_PER_DAY; var t, t' := old(store.committed), store.committed;
        && (report.evidenceDeleted == policy.batchSize || EvidenceSettled(t', policy, cutoff))
        && (report.metadataDeleted == policy.batchSize || ArtifactsSettled(t', policy, cutoff))
        && report.metadataDeleted == report.filesDeleted <= policy.batchSize && report.evidenceDeleted <= policy.batchSize
        && Filter(IsReport, t'.evidence) == Filter(IsReport, t.evidence)
        && t' == PruneBoth(t, old(disk.files), policy, cutoff).t
        && Swept(t', PruneBoth(t, old(disk.files), policy, cutoff).files, disk.files, report.orphansDeleted, policy.batchSize)
      ensures FullPrune(Root(old(store.committed), old(disk.files)), Root(store.committed, disk.files), policy,
                        now - policy.maxAgeDays * SECONDS_PER_DAY)
      ensures var cutoff := now - policy.maxAgeDays * SECONDS_PER_DAY; var t, t' := old(store.committed), store.committed;
        && JustPruned(t, t', policy, cutoff) && report.evidenceDeleted == Quota(t, policy, cutoff)
        && JustPrunedArtifacts(t, t', policy, cutoff)
      ensures report.remainingEvidenceBytes == RawBytes(store.committed)
           && report.remainingArtifactBytes == TotalBytes(store.committed)
      ensures report.evidenceCapBlocked <==> RawBytes(store.committed) > policy.maxEvidenceBytes
      ensures report.artifactCapBlocked <==> TotalBytes(store.committed) > policy.maxArtifactBytes
    {
      hide Healthy, ValidPolicy, EvidenceSettled, ArtifactsSettled, PruneEvidence, PruneArtifacts, Swept, RawBytes, TotalBytes,
           JustPruned, JustPrunedArtifacts, Quota, Consistent, SoundEvidence;
      ghost var t, files := store.committed, disk.files;
      var cutoff := now - policy.maxAgeDays * SECONDS_PER_DAY;
      CountsTell(t, files, policy, cutoff, hash);
      PruneBothIsJust(t, files, policy, cutoff, hash);
      EvidencePruneIsHealthy(t, files, policy, cutoff, hash);
      ArtifactPruneIsHealthy(PruneEvidence(t, policy, cutoff), files, policy, cutoff, hash);
      var evidenceDeleted, evidenceBytes := EvidencePhase(cutoff);
      var rows, unlinked := ArtifactPhase(cutoff);
      var orphans := CleanOrphanFiles();
      SweepingIsHealthy(store.committed, PruneBoth(t, files, policy, cutoff).files, disk.files, orphans, policy.batchSize, hash);
      var artifactBytes := TotalBytes(store.tables);
      report := Report(evidenceDeleted, rows, unlinked, orphans, evidenceBytes, artifactBytes,
                       evidenceBytes > policy.maxEvidenceBytes, artifactBytes > policy.maxArtifactBytes);
    }
  }

  lemma SweepingIsHealthy(t: Tables, files: Files, files': Files, n: nat, budget: nat, hash: Content -> string)
    requires Healthy(t, files, hash) && Swept(t, files, files', n, budget)
    ensures Healthy(t, files', hash)
  {
    forall r | r in t.artifacts ensures Described(r, files') {
      InRows(t.artifacts, r);
    }
  }

  lemma DeleteNothing(t: Tables, artifactId: string)
    requires !DeleteUnreferenced(t, artifactId).1
    ensures DeleteUnreferenced(t, artifactId).0 == t
  {
  }

  // ---- Convergence of full prunes ----

  /** The store and its files between two prunes. */
  datatype Root = Root(t: Tables, files: Files)

  /** One whole `prune` at a fixed cutoff, as `RetentionManager.Prune` promises it; which orphans go first is open. */
  ghost predicate FullPrune(before: Root, after: Root, p: Policy, cutoff: int) {
    var r := PruneBoth(before.t, before.files, p, cutoff);
    after.t == r.t && exists n: nat :: Swept(r.t, r.files, after.files, n, p.batchSize)
  }

  ghost predicate FullPrunes(roots: seq<Root>, p: Policy, cutoff: int) {
    |roots| > 0 && forall i :: 0 < i < |roots| ==> FullPrune(roots[i - 1], roots[i], p, cutoff)
  }

  ghost function Orphans(root: Root): set<Path> { set path | path in root.files && Orphan(root.t, path) }

  /** The raw rows, unreferenced artifacts and orphan files that may still have to go. */
  ghost function EvidenceLeft(t: Tables, p: Policy, cutoff: int): nat { if EvidenceSettled(t, p, cutoff) then 0 else |Ages(t)| }

  ghost function ArtifactsLeft(t: Tables, p: Policy, cutoff: int): nat { if ArtifactsSettled(t, p, cutoff) then 0 else |Unreferenced(t)| }

  lemma SameEvidence(t: Tables, t': Tables, p: Policy, cutoff: int)
    requires t.evidence == t'.evidence
    ensures EvidenceLeft(t, p, cutoff) == EvidenceLeft(t', p, cutoff)
  {
  }

  lemma SameArtifacts(t: Tables, t': Tables, p: Policy, cutoff: int)
    requires t.artifacts == t'.artifacts && t.relations == t'.relations
    ensures ArtifactsLeft(t, p, cutoff) == ArtifactsLeft(t', p, cutoff)
  {
  }

  lemma EvidenceLeftShrinks(t: Tables, p: Policy, cutoff: int)
    requires SoundEvidence(t) && ValidPolicy(p)
    ensures EvidenceLeft(PruneEvidence(t, p, cutoff), p, cutoff) <= Max(0, EvidenceLeft(t, p, cutoff) - p.batchSize)
    ensures var t' := PruneEvidence(t, p, cutoff); t' == t.(evidence := t'.evidence)
  {
    hide PruneEvidence, EvidenceSettled, Ages, SoundEvidence;
    var k := PruneEvidenceStep(t, p, cutoff);
    if EvidenceSettled(t, p, cutoff) {
      SettledStays(t, p, cutoff);
    }
  }

  lemma ArtifactsLeftShrinks(t: Tables, files: Files, p: Policy, cutoff: int, hash: Content -> string)
    requires Consistent(t, files, hash) && ValidPolicy(p)
    ensures ArtifactsLeft(PruneArtifacts(t, files, p, cutoff).t, p, cutoff) <= Max(0, ArtifactsLeft(t, p, cutoff) - p.batchSize)
    ensures PruneArtifacts(t, files, p, cutoff).t.evidence == t.evidence
  {
    hide PruneArtifacts, ArtifactsSettled, Unreferenced, Consistent;
    PruneArtifactsStep(t, files, p, cutoff, hash);
    if ArtifactsSettled(t, p, cutoff) {
      SettledArtifactsStay(t, files, p, cutoff);
    }
  }

  /** An artifact goes with its file, so deleting artifacts makes no orphan. */
  lemma PruningMakesNoOrphan(t: Tables, files: Files, p: Policy, cutoff: int, hash: Content -> string)
    requires Consistent(t, files, hash) && ValidPolicy(p)
    ensures var r := PruneArtifacts(t, files, p, cutoff); Orphans(Root(r.t, r.files)) <= Orphans(Root(t, files))
  {
    hide PruneArtifacts, ArtifactsSettled, Unreferenced, Consistent;
    PruneArtifactsStep(t, files, p, cutoff, hash);
    var r := PruneArtifacts(t, files, p, cutoff);
    var gone := Unreferenced(t)[..r.rows];
    forall path | path in Orphans(Root(r.t, r.files)) ensures path in Orphans(Root(t, files)) {
      if path.Object? && HasSha(t, path.digest) {
        assert forall x :: x in t.artifacts && x.sha256 == path.digest ==> x in gone;
      }
    }
  }

  lemma SweepTakesOrphans(t: Tables, files: Files, files': Files, n: nat, budget: nat)
    requires Swept(t, files, files', n, budget)
    ensures |Orphans(Root(t, files'))| <= Max(0, |Orphans(Root(t, files))| - budget)
  {
    var before, after, gone := Orphans(Root(t, files)), Orphans(Root(t, files')), files.Keys - files'.Keys;
    assert files'.Keys <= files.Keys && files.Keys - gone == files'.Keys;
    assert |gone| == n;
    assert after == before - gone && gone <= before;
    if n < budget {
      assert after == {};
    }
  }

  ghost function Left(root: Root, p: Policy, cutoff: int): (nat, nat, nat) {
    (EvidenceLeft(root.t, p, cutoff), ArtifactsLeft(root.t, p, cutoff), |Orphans(root)|)
  }

  /** Each component has gone down by `n`, or to nothing. */
  predicate Down(before: (nat, nat, nat), after: (nat, nat, nat), n: int) {
    after.0 <= Max(0, before.0 - n) && after.1 <= Max(0, before.1 - n) && after.2 <= Max(0, before.2 - n)
  }

  lemma {:induction false} FullPruneStep(before: Root, after: Root, p: Policy, cutoff: int, hash: Content -> string)
    requires Healthy(before.t, before.files, hash) && ValidPolicy(p) && FullPrune(before, after, p, cutoff)
    ensures Healthy(after.t, after.files, hash) && Down(Left(before, p, cutoff), Left(after, p, cutoff), p.batchSize)
  {
    hide PruneEvidence, PruneArtifacts, EvidenceLeft, ArtifactsLeft, Consistent, SoundEvidence, Swept, Orphans, ValidPolicy;
    var t1 := PruneEvidence(before.t, p, cutoff);
    var r := PruneArtifacts(t1, before.files, p, cutoff);
    var n: nat :| Swept(r.t, r.files, after.files, n, p.batchSize);
    EvidencePruneIsHealthy(before.t, before.files, p, cutoff, hash);
    ArtifactPruneIsHealthy(t1, before.files, p, cutoff, hash);
    SweepingIsHealthy(r.t, r.files, after.files, n, p.batchSize, hash);
    EvidenceLeftShrinks(before.t, p, cutoff);
    SameEvidence(t1, r.t, p, cutoff);
    SameArtifacts(before.t, t1, p, cutoff);
    ArtifactsLeftShrinks(t1, before.files, p, cutoff, hash);
    SweepTakesOrphans(r.t, r.files, after.files, n, p.batchSize);
    PruningMakesNoOrphan(t1, before.files, p, cutoff, hash);
    SameOrphans(before.t, t1, before.files);
    Subset(Orphans(Root(r.t, r.files)), Orphans(before));
  }

  lemma SameOrphans(t: Tables, t': Tables, files: Files)
    requires t.artifacts == t'.artifacts
    ensures Orphans(Root(t, files)) == Orphans(Root(t', files))
  {
  }

  lemma Subset(a: set<Path>, b: set<Path>)
    requires a <= b
    ensures |a| <= |b|
  {
    assert |b| == |b - a| + |a * b|;
    assert a * b == a;
  }

  /** `n` full prunes take `n` batches of each kind, or all that has to go. */
  lemma {:induction false} FullPrunesTake(roots: seq<Root>, p: Policy, cutoff: int, hash: Content -> string)
    requires FullPrunes(roots, p, cutoff) && ValidPolicy(p) && Healthy(roots[0].t, roots[0].files, hash)
    ensures Healthy(roots[|roots| - 1].t, roots[|roots| - 1].files, hash)
    ensures Down(Left(roots[0], p, cutoff), Left(roots[|roots| - 1], p, cutoff), (|roots| - 1) * p.batchSize)
  {
    hide Healthy, Left, FullPrune, ValidPolicy;
    var n := |roots| - 1;
    if n > 0 {
      hide Down;
      var most := roots[..n];
      assert most[0] == roots[0] && most[n - 1] == roots[n - 1];
      FullPrunesTake(most, p, cutoff, hash);
      FullPruneStep(roots[n - 1], roots[n], p, cutoff, hash);
      OneMoreBatch(n, p.batchSize);
      DownTwice(Left(roots[0], p, cutoff), Left(roots[n - 1], p, cutoff), Left(roots[n], p, cutoff), (n - 1) * p.batchSize, p.batchSize);
    }
  }

  lemma OneMoreBatch(n: int, batch: int)
    ensures n * batch == (n - 1) * batch + batch
  {
  }

  lemma DownTwice(a: (nat, nat, nat), b: (nat, nat, nat), c: (nat, nat, nat), m: int, n: int)
    requires Down(a, b, m) && Down(b, c, n) && n >= 0
    ensures Down(a, c, m + n)
  {
  }

  /**
   Main result: as soon as the batches of `n` full prunes cover the raw rows, the unreferenced artifacts and the orphans,
   evidence and artifacts are settled and no orphan file is left.
   */
  lemma {:induction false} FullPrunesConverge(roots: seq<Root>, p: Policy, cutoff: int, hash: Content -> string)
    requires FullPrunes(roots, p, cutoff) && ValidPolicy(p) && Healthy(roots[0].t, roots[0].files, hash)
    ensures var first, last, removed := roots[0], roots[|roots| - 1], (|roots| - 1) * p.batchSize;
      && (|Ages(first.t)| <= removed ==> EvidenceSettled(last.t, p, cutoff))
      && (|Unreferenced(first.t)| <= removed ==> ArtifactsSettled(last.t, p, cutoff))
      && (|Orphans(first)| <= removed ==> Orphans(last) == {})
  {
    hide EvidenceSettled, ArtifactsSettled, Ages, Unreferenced, Orphans, Healthy;
    var last := roots[|roots| - 1];
    FullPrunesTake(roots, p, cutoff, hash);
    if |Ages(last.t)| == 0 {
      NoRowsIsSettled(last.t, p, cutoff);
    }
    if |Unreferenced(last.t)| == 0 {
      NoneUnreferencedIsSettled(last.t, p, cutoff);
    }
  }
}
