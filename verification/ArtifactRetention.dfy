/**
 The artifact and orphan-file side of src/systemsense/storage/retention.py: what one prune deletes and
 how many prunes suffice at a fixed time and policy. Crash safety of the same steps is in module Artifacts.
 */
module ArtifactRetention {
  import opened Results
  import opened Sequences
  import opened Ordering
  import opened Store
  import opened Artifacts
  import opened EvidenceRetention

  predicate Created(a: ArtifactRow, b: ArtifactRow) {
    a.createdAt < b.createdAt || (a.createdAt == b.createdAt && LexLeq(a.artifactId, b.artifactId))
  }

  function UnreferencedIn(relations: set<Relation>): ArtifactRow -> bool {
    (r: ArtifactRow) => !exists rel :: rel in relations && rel.artifactId == r.artifactId
  }

  /** The unreferenced artifacts, oldest first. */
  function Unreferenced(t: Tables): seq<ArtifactRow> {
    Sort(Created, Filter(UnreferencedIn(t.relations), t.artifacts))
  }

  function Size(r: ArtifactRow): int { r.byteSize }

  function TotalBytes(t: Tables): int { Sum(Map(Size, t.artifacts)) }

  datatype Pruned = Pruned(t: Tables, files: Files, rows: nat, unlinked: nat)

  /** The loop of `prune` over the rest `todo` of its list, with `bytes` its running total. */
  function PruneList(t: Tables, files: Files, todo: seq<ArtifactRow>, bytes: int, p: Policy, cutoff: int): Pruned
    decreases |todo|
  {
    if |todo| == 0 then Pruned(t, files, 0, 0) else
      var r := todo[0];
      var (t1, deleted) := DeleteUnreferenced(t, r.artifactId);
      if (r.createdAt < cutoff || bytes > p.maxArtifactBytes) && deleted then
        var rest := PruneList(t1, files - {Object(r.sha256)}, todo[1..], Max(0, bytes - r.byteSize), p, cutoff);
        Pruned(rest.t, rest.files, 1 + rest.rows, (if Object(r.sha256) in files then 1 else 0) + rest.unlinked)
      else PruneList(t, files, todo[1..], bytes, p, cutoff)
  }

  function PruneArtifacts(t: Tables, files: Files, p: Policy, cutoff: int): Pruned {
    PruneList(t, files, Take(Unreferenced(t), p.batchSize), TotalBytes(t), p, cutoff)
  }

  /** No unreferenced artifact is expired, and the cap holds or none is left to delete. */
  ghost predicate ArtifactsSettled(t: Tables, p: Policy, cutoff: int) {
    && (forall r :: r in Unreferenced(t) ==> r.createdAt >= cutoff)
    && (TotalBytes(t) <= p.maxArtifactBytes || Unreferenced(t) == [])
  }

  // ---- One deletion ----

  lemma {:induction false} CreatedIsTotal()
    ensures TotalPreorder(Created)
  {
    LexIsTotalOrder();
  }

  lemma {:induction false} NoCreationTies(t: Tables)
    requires SoundArtifacts(t)
    ensures NoTies(Created, Filter(UnreferencedIn(t.relations), t.artifacts))
  {
    LexIsTotalOrder();
    var rows := Filter(UnreferencedIn(t.relations), t.artifacts);
    forall a, b | a in rows && b in rows && Created(a, b) && Created(b, a) ensures a == b {
      SameKey(ArtifactId, t.artifacts, a, b);
    }
  }

  lemma {:induction false} UnreferencedMembers(t: Tables)
    ensures forall r :: r in Unreferenced(t) <==> r in t.artifacts && !Referenced(t, r.artifactId)
    ensures Sorted(Created, Unreferenced(t))
  {
    CreatedIsTotal();
    SortSorts(Created, Filter(UnreferencedIn(t.relations), t.artifacts));
  }

  lemma ListHasDistinctIds(t: Tables)
    requires SoundArtifacts(t)
    ensures Distinct(Map(ArtifactId, Unreferenced(t)))
  {
    FilterDistinctKeys(ArtifactId, UnreferencedIn(t.relations), t.artifacts);
    SortKeepsKeys(Created, ArtifactId, Filter(UnreferencedIn(t.relations), t.artifacts));
  }

  lemma {:induction false} WithoutHead(list: seq<ArtifactRow>)
    requires |list| > 0 && Distinct(Map(ArtifactId, list))
    ensures Filter(NotArtifact(list[0].artifactId), list) == list[1..]
  {
    var keep := NotArtifact(list[0].artifactId);
    HeadKeyIsNew(ArtifactId, list, list[1..]);
    forall x | x in list[1..] ensures keep(x) {
      KeyIn(ArtifactId, list[1..], x);
    }
    FilterAll(keep, list[1..]);
  }

  lemma BytesOfCons(x: ArtifactRow, xs: seq<ArtifactRow>)
    ensures Sum(Map(Size, [x] + xs)) == x.byteSize + Sum(Map(Size, xs))
  {
    KeysOfCons(Size, x, xs);
    SumConcat([Size(x)], Map(Size, xs));
  }

  /** Deleting one row takes its bytes from the total. */
  lemma {:induction false} BytesWithout(rows: seq<ArtifactRow>, r: ArtifactRow)
    requires Distinct(Map(ArtifactId, rows)) && r in rows
    ensures Sum(Map(Size, Filter(NotArtifact(r.artifactId), rows))) == Sum(Map(Size, rows)) - r.byteSize
  {
    hide Map, Distinct;
    var head, rest := rows[0], rows[1..];
    assert rows == [head] + rest;
    KeysOfCons(ArtifactId, head, rest);
    BytesOfCons(head, rest);
    if head == r {
      WithoutHead(rows);
      assert Filter(NotArtifact(r.artifactId), rows) == rest;
    } else {
      KeyIn(ArtifactId, rest, r);
      BytesWithout(rest, r);
      BytesOfCons(head, Filter(NotArtifact(r.artifactId), rest));
    }
  }

  /** Deleting the oldest unreferenced artifact takes the head of the list and its bytes, nothing else. */
  lemma {:induction false} DeleteHead(t: Tables)
    requires SoundArtifacts(t) && |Unreferenced(t)| > 0
    ensures var r := Unreferenced(t)[0]; var t' := DeleteUnreferenced(t, r.artifactId).0;
      && DeleteUnreferenced(t, r.artifactId).1 && r in t.artifacts && !Referenced(t, r.artifactId)
      && t' == t.(artifacts := t'.artifacts)
      && (forall x :: x in t'.artifacts <==> x in t.artifacts && x != r)
      && Unreferenced(t') == Unreferenced(t)[1..]
      && TotalBytes(t') == TotalBytes(t) - r.byteSize
  {
    UnreferencedMembers(t);
    var list := Unreferenced(t);
    var r := list[0];
    DeleteTakesOneRow(t, r);
    CreatedIsTotal();
    NoCreationTies(t);
    FilterCommutes(UnreferencedIn(t.relations), NotArtifact(r.artifactId), t.artifacts);
    SortOfFilter(Created, NotArtifact(r.artifactId), Filter(UnreferencedIn(t.relations), t.artifacts));
    ListHasDistinctIds(t);
    WithoutHead(list);
    BytesWithout(t.artifacts, r);
  }

  lemma DeleteKeepsConsistent(t: Tables, files: Files, hash: Content -> string, r: ArtifactRow)
    requires Consistent(t, files, hash) && r in t.artifacts && !Referenced(t, r.artifactId)
    ensures Consistent(DeleteUnreferenced(t, r.artifactId).0, files - {Object(r.sha256)}, hash) && Object(r.sha256) in files
  {
    DeleteTakesOneRow(t, r);
    var t1 := DeleteUnreferenced(t, r.artifactId).0;
    forall x | x in t1.artifacts ensures Described(x, files - {Object(r.sha256)}) {
      InRows(t1.artifacts, x);
    }
  }

  lemma TotalIsNonNegative(t: Tables)
    ensures TotalBytes(t) >= 0
  {
    SumNonNegative(Map(Size, t.artifacts));
  }

  /** One round of the loop that deletes. */
  lemma {:induction false} DeleteRound(t: Tables, files: Files, todo: seq<ArtifactRow>, hash: Content -> string)
    requires Consistent(t, files, hash) && |todo| > 0 && todo <= Unreferenced(t)
    ensures var r := todo[0]; var (t1, deleted) := DeleteUnreferenced(t, r.artifactId);
      && deleted && Object(r.sha256) in files && Consistent(t1, files - {Object(r.sha256)}, hash)
      && t1 == t.(artifacts := t1.artifacts) && todo[1..] <= Unreferenced(t1)
      && Unreferenced(t1) == Unreferenced(t)[1..]
      && (forall x :: x in t1.artifacts <==> x in t.artifacts && x != r)
      && Max(0, TotalBytes(t) - r.byteSize) == TotalBytes(t1) == TotalBytes(t) - r.byteSize
  {
    var r := todo[0];
    assert Unreferenced(t)[0] == r;
    hide Unreferenced, TotalBytes, DeleteUnreferenced, Consistent;
    assert SoundArtifacts(t) by { ConsistentIsSound(t, files, hash); }
    DeleteHead(t);
    DeleteKeepsConsistent(t, files, hash, r);
    TotalIsNonNegative(DeleteUnreferenced(t, r.artifactId).0);
  }

  lemma ConsistentIsSound(t: Tables, files: Files, hash: Content -> string)
    requires Consistent(t, files, hash)
    ensures SoundArtifacts(t)
  {
  }

  // ---- One prune ----

  /** Once an artifact is neither expired nor over the cap, none of the younger ones is deleted. */
  lemma {:induction false} StopsForGood(t: Tables, files: Files, todo: seq<ArtifactRow>, bytes: int, p: Policy, cutoff: int)
    requires bytes <= p.maxArtifactBytes && forall r :: r in todo ==> r.createdAt >= cutoff
    ensures PruneList(t, files, todo, bytes, p, cutoff) == Pruned(t, files, 0, 0)
  {
    if |todo| > 0 {
      StopsForGood(t, files, todo[1..], bytes, p, cutoff);
    }
  }

  function Objects(rows: seq<ArtifactRow>): set<Path> { set r | r in rows :: Object(r.sha256) }

  /** The rows `gone` and their files, and nothing else, have been deleted. */
  ghost predicate Removed(t: Tables, files: Files, gone: seq<ArtifactRow>, r: Pruned, hash: Content -> string) {
    && r.rows == r.unlinked == |gone|
    && r.t == t.(artifacts := r.t.artifacts)
    && (forall x :: x in r.t.artifacts <==> x in t.artifacts && x !in gone)
    && r.files == files - Objects(gone)
    && Consistent(r.t, r.files, hash)
  }

  lemma RemovedOneMore(t: Tables, files: Files, t1: Tables, head: ArtifactRow, gone: seq<ArtifactRow>, r: Pruned, r': Pruned,
                       hash: Content -> string)
    requires t1 == t.(artifacts := t1.artifacts) && forall x :: x in t1.artifacts <==> x in t.artifacts && x != head
    requires Removed(t1, files - {Object(head.sha256)}, gone, r, hash)
    requires r' == Pruned(r.t, r.files, 1 + r.rows, 1 + r.unlinked)
    ensures Removed(t, files, [head] + gone, r', hash)
  {
    assert Objects([head] + gone) == {Object(head.sha256)} + Objects(gone);
    assert files - {Object(head.sha256)} - Objects(gone) == files - Objects([head] + gone);
  }

  /**
   Main result: the deleted artifacts are the first of the oldest-first unreferenced list, each with its
   file; and the loop stops short only when the next artifact is not expired and the true total, which the
   running counter equals, is within the cap.
   */
  lemma {:induction false} PruneListPrefix(t: Tables, files: Files, todo: seq<ArtifactRow>, p: Policy, cutoff: int,
                                           hash: Content -> string)
    requires Consistent(t, files, hash) && todo <= Unreferenced(t)
    ensures var r := PruneList(t, files, todo, TotalBytes(t), p, cutoff);
      && r.rows <= |todo| && Removed(t, files, todo[..r.rows], r, hash)
      && Unreferenced(r.t) == Unreferenced(t)[r.rows..]
      && (r.rows < |todo| ==> todo[r.rows].createdAt >= cutoff && TotalBytes(r.t) <= p.maxArtifactBytes)
    decreases |todo|
  {
    hide Unreferenced, TotalBytes, DeleteUnreferenced, Consistent, Removed;
    var bytes := TotalBytes(t);
    if |todo| == 0 {
      NothingRemoved(t, files, hash);
      assert todo[..0] == [];
    } else if todo[0].createdAt >= cutoff && bytes <= p.maxArtifactBytes {
      NoneYounger(t, todo);
      StopsForGood(t, files, todo, bytes, p, cutoff);
      NothingRemoved(t, files, hash);
      assert todo[..0] == [];
    } else {
      var head := todo[0];
      DeleteRound(t, files, todo, hash);
      var t1, files1 := DeleteUnreferenced(t, head.artifactId).0, files - {Object(head.sha256)};
      PruneListPrefix(t1, files1, todo[1..], p, cutoff, hash);
      var rest := PruneList(t1, files1, todo[1..], TotalBytes(t1), p, cutoff);
      var r := PruneList(t, files, todo, bytes, p, cutoff);
      assert r == Pruned(rest.t, rest.files, 1 + rest.rows, 1 + rest.unlinked);
      RemovedOneMore(t, files, t1, head, todo[1..][..rest.rows], rest, r, hash);
      assert todo[..r.rows] == [head] + todo[1..][..rest.rows];
    }
  }

  lemma NothingRemoved(t: Tables, files: Files, hash: Content -> string)
    requires Consistent(t, files, hash)
    ensures Removed(t, files, [], Pruned(t, files, 0, 0), hash)
  {
    assert Objects([]) == {};
  }

  lemma NoneYounger(t: Tables, todo: seq<ArtifactRow>)
    requires 0 < |todo| && todo <= Unreferenced(t)
    ensures forall x :: x in todo ==> todo[0].createdAt <= x.createdAt
  {
    UnreferencedMembers(t);
    forall x | x in todo ensures todo[0].createdAt <= x.createdAt {
    }
  }

  /** Main result: one prune deletes exactly a batch of artifacts, or it settles them. */
  lemma {:induction false} PruneArtifactsStep(t: Tables, files: Files, p: Policy, cutoff: int, hash: Content -> string)
    requires Consistent(t, files, hash) && ValidPolicy(p)
    ensures var r := PruneArtifacts(t, files, p, cutoff);
      && r.rows <= p.batchSize && r.rows <= |Unreferenced(t)|
      && Removed(t, files, Unreferenced(t)[..r.rows], r, hash)
      && Unreferenced(r.t) == Unreferenced(t)[r.rows..]
      && (r.rows == p.batchSize || ArtifactsSettled(r.t, p, cutoff))
  {
    hide Unreferenced, TotalBytes, DeleteUnreferenced, Consistent, Removed;
    var todo := Take(Unreferenced(t), p.batchSize);
    PruneListPrefix(t, files, todo, p, cutoff, hash);
    var r := PruneArtifacts(t, files, p, cutoff);
    assert todo[..r.rows] == Unreferenced(t)[..r.rows];
    if r.rows < |todo| {
      assert Unreferenced(r.t)[0] == todo[r.rows];
      NoneYounger(r.t, Unreferenced(r.t));
    } else if r.rows < p.batchSize {
      assert Unreferenced(r.t) == [];
    }
  }

  /**
   Main result: nothing is deleted without need. The `i`-th deleted artifact is expired, or the total without the ones
   before it still exceeds the cap.
   */
  lemma {:induction false} DeletedForAReason(t: Tables, files: Files, todo: seq<ArtifactRow>, p: Policy, cutoff: int,
                                             hash: Content -> string, i: nat)
    requires Consistent(t, files, hash) && todo <= Unreferenced(t)
    requires i < |todo| && i < PruneList(t, files, todo, TotalBytes(t), p, cutoff).rows
    ensures todo[i].createdAt < cutoff || TotalBytes(t) - Sum(Map(Size, todo[..i])) > p.maxArtifactBytes
    decreases |todo|
  {
    hide Unreferenced, TotalBytes, DeleteUnreferenced, Consistent;
    if todo[0].createdAt >= cutoff && TotalBytes(t) <= p.maxArtifactBytes {
      NoneYounger(t, todo);
      StopsForGood(t, files, todo, TotalBytes(t), p, cutoff);
    } else if i == 0 {
      assert Map(Size, todo[..0]) == [];
    } else {
      var head := todo[0];
      DeleteRound(t, files, todo, hash);
      var t1, files1 := DeleteUnreferenced(t, head.artifactId).0, files - {Object(head.sha256)};
      DeletedForAReason(t1, files1, todo[1..], p, cutoff, hash, i - 1);
      RestOfTotal(t, t1, todo, i);
    }
  }

  lemma RestOfTotal(t: Tables, t1: Tables, todo: seq<ArtifactRow>, i: nat)
    requires 0 < i <= |todo| && TotalBytes(t1) == TotalBytes(t) - todo[0].byteSize
    ensures TotalBytes(t1) - Sum(Map(Size, todo[1..][..i - 1])) == TotalBytes(t) - Sum(Map(Size, todo[..i]))
  {
    assert todo[..i] == [todo[0]] + todo[1..][..i - 1];
    BytesOfCons(todo[0], todo[1..][..i - 1]);
  }

  /** Once settled, a blocked artifact cap means that every remaining artifact is referenced. */
  lemma BlockedMeansReferenced(t: Tables, p: Policy, cutoff: int)
    requires ArtifactsSettled(t, p, cutoff) && TotalBytes(t) > p.maxArtifactBytes
    ensures forall r :: r in t.artifacts ==> Referenced(t, r.artifactId)
  {
    UnreferencedMembers(t);
    forall r | r in t.artifacts ensures Referenced(t, r.artifactId) {
      assert r !in Unreferenced(t);
    }
  }

  // ---- Convergence ----

  function PruneArtifactsTimes(t: Tables, files: Files, p: Policy, cutoff: int, n: nat): Tables
    decreases n
  {
    if n == 0 then t else
      var r := PruneArtifacts(t, files, p, cutoff);
      PruneArtifactsTimes(r.t, r.files, p, cutoff, n - 1)
  }

  lemma SettledArtifactsStay(t: Tables, files: Files, p: Policy, cutoff: int)
    requires ArtifactsSettled(t, p, cutoff)
    ensures PruneArtifacts(t, files, p, cutoff) == Pruned(t, files, 0, 0)
  {
    if TotalBytes(t) <= p.maxArtifactBytes {
      var todo := Take(Unreferenced(t), p.batchSize);
      assert forall r :: r in todo ==> r in Unreferenced(t);
      StopsForGood(t, files, todo, TotalBytes(t), p, cutoff);
    }
  }

  lemma {:induction false} SettledArtifactsForever(t: Tables, files: Files, p: Policy, cutoff: int, n: nat)
    requires ArtifactsSettled(t, p, cutoff)
    ensures PruneArtifactsTimes(t, files, p, cutoff, n) == t
  {
    hide ArtifactsSettled, PruneArtifacts;
    if n > 0 {
      SettledArtifactsStay(t, files, p, cutoff);
      SettledArtifactsForever(t, files, p, cutoff, n - 1);
    }
  }

  lemma NoneUnreferencedIsSettled(t: Tables, p: Policy, cutoff: int)
    requires |Unreferenced(t)| == 0
    ensures ArtifactsSettled(t, p, cutoff)
  {
  }

  lemma RemovedKeepsConsistent(t: Tables, files: Files, gone: seq<ArtifactRow>, r: Pruned, hash: Content -> string)
    requires Removed(t, files, gone, r, hash)
    ensures Consistent(r.t, r.files, hash)
  {
  }

  /** Main result: ceil(unreferenced / batch) prunes settle the artifacts. */
  lemma {:induction false} ArtifactsConverge(t: Tables, files: Files, p: Policy, cutoff: int, n: nat, hash: Content -> string)
    requires Consistent(t, files, hash) && ValidPolicy(p) && |Unreferenced(t)| <= n * p.batchSize
    ensures ArtifactsSettled(PruneArtifactsTimes(t, files, p, cutoff, n), p, cutoff)
    decreases n
  {
    hide ArtifactsSettled, PruneArtifacts, Unreferenced, Consistent, ValidPolicy, Removed;
    if n == 0 {
      NoneUnreferencedIsSettled(t, p, cutoff);
    } else {
      PruneArtifactsStep(t, files, p, cutoff, hash);
      var r := PruneArtifacts(t, files, p, cutoff);
      RemovedKeepsConsistent(t, files, Unreferenced(t)[..r.rows], r, hash);
      if r.rows == p.batchSize {
        OneBatchLess(n, p.batchSize, |Unreferenced(t)|);
        ArtifactsConverge(r.t, r.files, p, cutoff, n - 1, hash);
      } else {
        SettledArtifactsForever(r.t, r.files, p, cutoff, n - 1);
      }
    }
  }

  // ---- Orphan files ----

  predicate Orphan(t: Tables, path: Path) { !path.Temp? && !(path.Object? && HasSha(t, path.digest)) }

  /** The bounded walk over the object directory. */
  function CleanFiles(t: Tables, files: Files, listing: seq<Path>, budget: nat): (Files, nat)
    decreases |listing|
  {
    if |listing| == 0 || budget == 0 then (files, 0)
    else if Orphan(t, listing[0]) then
      var (files1, n) := CleanFiles(t, files - {listing[0]}, listing[1..], budget - 1);
      (files1, n + 1)
    else CleanFiles(t, files, listing[1..], budget)
  }

  /** Only orphans are gone, at most `budget` of them, and fewer only when no listed orphan is left. */
  ghost predicate Cleaned(t: Tables, files: Files, listing: seq<Path>, files': Files, n: nat, budget: nat) {
    && n <= budget && |files'| == |files| - n
    && (forall path :: path in files' ==> path in files && files'[path] == files[path])
    && (forall path :: path in files && path !in files' ==> path in listing && Orphan(t, path))
    && (n < budget ==> forall path :: path in listing && Orphan(t, path) ==> path !in files')
  }

  /** Main result about the walk. */
  lemma {:induction false} CleanFilesStep(t: Tables, files: Files, listing: seq<Path>, budget: nat)
    requires Distinct(listing) && forall path :: path in listing ==> path in files
    ensures var (files', n) := CleanFiles(t, files, listing, budget); Cleaned(t, files, listing, files', n, budget)
    decreases |listing|
  {
    if |listing| > 0 && budget > 0 {
      var path, rest := listing[0], listing[1..];
      assert listing == [path] + rest && path !in rest;
      if Orphan(t, path) {
        var smaller := files - {path};
        assert smaller.Keys == files.Keys - {path} && |files.Keys| == |files| && |smaller.Keys| == |smaller|;
        CleanFilesStep(t, smaller, rest, budget - 1);
      } else {
        CleanFilesStep(t, files, rest, budget);
      }
    }
  }
}
