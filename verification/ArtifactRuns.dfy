/**
 That `put` of src/systemsense/storage/artifact_store.py and the artifact side of `prune` of
 src/systemsense/storage/retention.py are runs of the protocol of module Artifacts, so that what holds at every
 step of the protocol holds while they run, and after a crash in the middle.
 */
module ArtifactRuns {
  import opened Results
  import opened Sequences
  import opened Store
  import opened Artifacts
  import opened EvidenceRetention
  import opened ArtifactRetention

  lemma {:induction false} RunsCompose(s: System, a: seq<Step>, b: seq<Step>, hash: Content -> string)
    ensures RunSteps(s, a + b, hash) == RunSteps(RunSteps(s, a, hash), b, hash)
  {
    hide Next;
    if |b| == 0 {
      assert a + b == a;
      assert RunSteps(RunSteps(s, a, hash), b, hash) == RunSteps(s, a, hash);
    } else {
      RunsCompose(s, a, b[..|b| - 1], hash);
      assert (a + b)[..|a + b| - 1] == a + b[..|b| - 1];
      assert RunSteps(s, a + b, hash) == Next(RunSteps(s, a + b[..|b| - 1], hash), b[|b| - 1], hash);
    }
  }

  lemma OneStep(s: System, step: Step, hash: Content -> string)
    ensures RunSteps(s, [step], hash) == Next(s, step, hash)
  {
    hide Next;
    assert [step][..0] == [];
    assert RunSteps(s, [step][..0], hash) == s;
  }

  // ---- put ----

  /** The steps of a `put` that is not interrupted. */
  function PutSteps(s: System, caseId: string, content: Content, mediaType: string, sensitivity: string, createdAt: int, n: nat,
                    hash: Content -> string): seq<Step> {
    [BeginPut(caseId, content)]
    + (if Object(hash(content)) in s.files then [] else [MakeTemp(n), WriteTemp(|content|), ReplaceObject])
    + [LinkRow(mediaType, sensitivity, createdAt)]
  }

  /** Main result: `put` is the run begin, write a temporary file, rename it, link the row; without the writing if the object is there. */
  lemma PutIsARun(s: System, caseId: string, content: Content, mediaType: string, sensitivity: string, createdAt: int, n: nat,
                  hash: Content -> string)
    requires Consistent(s.t, s.files, hash) && Injective(hash) && s.op.Idle? && Temp(n) !in s.files
    ensures var s' := RunSteps(s, PutSteps(s, caseId, content, mediaType, sensitivity, createdAt, n, hash), hash);
      var linked := LinkArtifact(s.t, NewRow(hash, content, mediaType, sensitivity, createdAt), caseId);
      && s'.op.Idle? && s'.files == s.files[Object(hash(content)) := content]
      && s'.t == (if linked.Ok? then linked.value else s.t) && s'.puts == s.puts + {(caseId, content)}
  {
    var begun := Next(s, BeginPut(caseId, content), hash);
    var writing := if Object(hash(content)) in s.files then [] else [MakeTemp(n), WriteTemp(|content|), ReplaceObject];
    var written := RunSteps(begun, writing, hash);
    OneStep(s, BeginPut(caseId, content), hash);
    WritingStores(begun, caseId, content, n, hash);
    RunsCompose(s, [BeginPut(caseId, content)], writing, hash);
    RunsCompose(s, [BeginPut(caseId, content)] + writing, [LinkRow(mediaType, sensitivity, createdAt)], hash);
    OneStep(written, LinkRow(mediaType, sensitivity, createdAt), hash);
    hide RunSteps, LinkArtifact, Consistent;
  }

  lemma ThroughTemp(files: Files, n: nat, target: Path, content: Content)
    requires Temp(n) !in files && target.Object?
    ensures (files[Temp(n) := ""][Temp(n) := content] - {Temp(n)})[target := content] == files[target := content]
  {
  }

  lemma MakingTemp(s: System, caseId: string, content: Content, n: nat, hash: Content -> string)
    requires s.op == Putting(caseId, content, NeedsTemp) && Temp(n) !in s.files
    ensures RunSteps(s, [MakeTemp(n)], hash) == s.(op := Putting(caseId, content, TempMade(n)), files := s.files[Temp(n) := ""])
  {
    OneStep(s, MakeTemp(n), hash);
  }

  lemma FillingTemp(s: System, caseId: string, content: Content, n: nat, hash: Content -> string)
    requires s.op == Putting(caseId, content, TempMade(n))
    ensures RunSteps(s, [WriteTemp(|content|)], hash) == s.(files := s.files[Temp(n) := content])
  {
    OneStep(s, WriteTemp(|content|), hash);
    assert content[..|content|] == content;
  }

  lemma Replacing(s: System, caseId: string, content: Content, n: nat, hash: Content -> string)
    requires s.op == Putting(caseId, content, TempMade(n)) && Temp(n) in s.files && s.files[Temp(n)] == content
    ensures RunSteps(s, [ReplaceObject], hash)
         == s.(op := Putting(caseId, content, Stored), files := (s.files - {Temp(n)})[Object(hash(content)) := content])
  {
    OneStep(s, ReplaceObject, hash);
  }

  lemma WritingStores(s: System, caseId: string, content: Content, n: nat, hash: Content -> string)
    requires Consistent(s.t, s.files, hash) && Injective(hash) && Temp(n) !in s.files
    requires s.op == Putting(caseId, content, if Object(hash(content)) in s.files then Stored else NeedsTemp)
    ensures var writing := if Object(hash(content)) in s.files then [] else [MakeTemp(n), WriteTemp(|content|), ReplaceObject];
      RunSteps(s, writing, hash) == s.(op := Putting(caseId, content, Stored), files := s.files[Object(hash(content)) := content])
  {
    if Object(hash(content)) in s.files {
      assert s.files[Object(hash(content)) := content] == s.files;
      assert RunSteps(s, [], hash) == s;
    } else {
      hide Consistent, Injective, RunSteps;
      MakingTemp(s, caseId, content, n, hash);
      var made := RunSteps(s, [MakeTemp(n)], hash);
      FillingTemp(made, caseId, content, n, hash);
      var filled := RunSteps(made, [WriteTemp(|content|)], hash);
      Replacing(filled, caseId, content, n, hash);
      ThroughTemp(s.files, n, Object(hash(content)), content);
      RunsCompose(s, [MakeTemp(n)], [WriteTemp(|content|)], hash);
      RunsCompose(s, [MakeTemp(n)] + [WriteTemp(|content|)], [ReplaceObject], hash);
      assert [MakeTemp(n)] + [WriteTemp(|content|)] + [ReplaceObject] == [MakeTemp(n), WriteTemp(|content|), ReplaceObject];
    }
  }

  // ---- prune ----

  /** One round of the loop, with the unlinking if a row was deleted. */
  lemma RoundIsARun(s: System, todo: seq<ArtifactRow>, bytes: int, p: Policy, cutoff: int, hash: Content -> string) returns (steps: seq<Step>)
    requires |todo| > 0 && s.op == Pruning(todo, bytes, None)
    ensures var r := todo[0]; var (t1, deleted) := DeleteUnreferenced(s.t, r.artifactId);
      RunSteps(s, steps, hash) ==
        if (r.createdAt < cutoff || bytes > p.maxArtifactBytes) && deleted
        then s.(t := t1, files := s.files - {Object(r.sha256)}, op := Pruning(todo[1..], Max(0, bytes - r.byteSize), None))
        else s.(op := Pruning(todo[1..], bytes, None))
  {
    var consider := ConsiderArtifact(cutoff, p.maxArtifactBytes);
    var considered := Next(s, consider, hash);
    OneStep(s, consider, hash);
    OneStep(considered, UnlinkObject, hash);
    RunsCompose(s, [consider], [UnlinkObject], hash);
    steps := if considered.op.unlink.Some? then [consider] + [UnlinkObject] else [consider];
    hide RunSteps, DeleteUnreferenced;
  }

  lemma {:induction false} PruneListIsARun(s: System, todo: seq<ArtifactRow>, bytes: int, p: Policy, cutoff: int, hash: Content -> string)
    returns (steps: seq<Step>)
    requires s.op == Pruning(todo, bytes, None)
    ensures var r := PruneList(s.t, s.files, todo, bytes, p, cutoff); var s' := RunSteps(s, steps, hash);
      s'.t == r.t && s'.files == r.files && s'.puts == s.puts && s'.op.Pruning? && s'.op.todo == [] && s'.op.unlink == None
    decreases |todo|
  {
    hide Next, DeleteUnreferenced;
    if |todo| == 0 {
      steps := [];
    } else {
      var round := RoundIsARun(s, todo, bytes, p, cutoff, hash);
      var next := RunSteps(s, round, hash);
      var rest := PruneListIsARun(next, todo[1..], next.op.bytes, p, cutoff, hash);
      RunsCompose(s, round, rest, hash);
      steps := round + rest;
    }
  }

  lemma CleaningStep(s: System, paths: seq<Path>, deleted: nat, batch: nat, hash: Content -> string)
    requires s.op == Cleaning(paths, deleted) && forall path :: path in paths ==> !path.Temp?
    ensures RunSteps(s, [CleanNext(batch)], hash) ==
              if |paths| == 0 || deleted == batch then s.(op := Idle)
              else if Orphan(s.t, paths[0]) then s.(op := Cleaning(paths[1..], deleted + 1), files := s.files - {paths[0]})
              else s.(op := Cleaning(paths[1..], deleted))
  {
    OneStep(s, CleanNext(batch), hash);
    assert |paths| > 0 ==> paths[0] in paths;
    hide RunSteps;
  }

  lemma {:induction false} CleaningIsARun(s: System, paths: seq<Path>, deleted: nat, batch: nat, hash: Content -> string) returns (steps: seq<Step>)
    requires s.op == Cleaning(paths, deleted) && deleted <= batch && forall path :: path in paths ==> !path.Temp?
    ensures RunSteps(s, steps, hash) == s.(op := Idle, files := CleanFiles(s.t, s.files, paths, batch - deleted).0)
    decreases |paths|
  {
    hide Next, Orphan;
    CleaningStep(s, paths, deleted, batch, hash);
    if |paths| == 0 || deleted == batch {
      steps := [CleanNext(batch)];
    } else {
      var next := RunSteps(s, [CleanNext(batch)], hash);
      var rest := CleaningIsARun(next, paths[1..], if Orphan(s.t, paths[0]) then deleted + 1 else deleted, batch, hash);
      RunsCompose(s, [CleanNext(batch)], rest, hash);
      steps := [CleanNext(batch)] + rest;
    }
  }

  lemma {:induction false} LoopIsARun(s: System, p: Policy, cutoff: int, hash: Content -> string) returns (steps: seq<Step>)
    requires s.op.Idle?
    ensures var r := PruneArtifacts(s.t, s.files, p, cutoff); var s' := RunSteps(s, steps, hash);
      s'.t == r.t && s'.files == r.files && s'.puts == s.puts && s'.op.Pruning? && s'.op.todo == [] && s'.op.unlink == None
  {
    var todo := Take(Unreferenced(s.t), p.batchSize);
    UnreferencedMembers(s.t);
    var begin := BeginPrune(todo, TotalBytes(s.t));
    var begun := Next(s, begin, hash);
    OneStep(s, begin, hash);
    assert begun == s.(op := Pruning(todo, TotalBytes(s.t), None));
    hide Next, Unreferenced, TotalBytes, RunSteps;
    var pruning := PruneListIsARun(begun, todo, TotalBytes(s.t), p, cutoff, hash);
    RunsCompose(s, [begin], pruning, hash);
    steps := [begin] + pruning;
  }

  lemma WalkBegins(s: System, listing: seq<Path>, hash: Content -> string)
    requires s.op.Pruning? && s.op.todo == [] && s.op.unlink == None
    requires forall path :: path in listing ==> path in s.files && !path.Temp?
    ensures RunSteps(s, [BeginClean(listing)], hash) == s.(op := Cleaning(listing, 0))
  {
    OneStep(s, BeginClean(listing), hash);
  }

  lemma {:induction false} WalkIsARun(s: System, batch: nat, listing: seq<Path>, hash: Content -> string) returns (steps: seq<Step>)
    requires s.op.Pruning? && s.op.todo == [] && s.op.unlink == None
    requires forall path :: path in listing ==> path in s.files && !path.Temp?
    ensures RunSteps(s, steps, hash) == s.(op := Idle, files := CleanFiles(s.t, s.files, listing, batch).0)
  {
    hide RunSteps, CleanFiles;
    WalkBegins(s, listing, hash);
    var cleaning := CleaningIsARun(RunSteps(s, [BeginClean(listing)], hash), listing, 0, batch, hash);
    RunsCompose(s, [BeginClean(listing)], cleaning, hash);
    steps := [BeginClean(listing)] + cleaning;
  }

  /** Main result: the artifact loop of `prune` and the orphan walk after it are one run of the protocol. */
  lemma {:induction false} PruneIsARun(s: System, p: Policy, cutoff: int, listing: seq<Path>, hash: Content -> string) returns (steps: seq<Step>)
    requires s.op.Idle?
    requires forall path :: path in listing ==> path in PruneArtifacts(s.t, s.files, p, cutoff).files && !path.Temp?
    ensures var r := PruneArtifacts(s.t, s.files, p, cutoff);
      RunSteps(s, steps, hash) == s.(t := r.t, files := CleanFiles(r.t, r.files, listing, p.batchSize).0)
  {
    hide RunSteps, CleanFiles, PruneArtifacts;
    var pruning := LoopIsARun(s, p, cutoff, hash);
    var cleaning := WalkIsARun(RunSteps(s, pruning, hash), p.batchSize, listing, hash);
    RunsCompose(s, pruning, cleaning, hash);
    steps := pruning + cleaning;
  }

  /** So a prune, like a put, keeps the invariant of the protocol. */
  lemma {:induction false} StepsKeepInv(s: System, steps: seq<Step>, hash: Content -> string)
    requires Inv(s, hash) && Injective(hash)
    ensures Inv(RunSteps(s, steps, hash), hash)
  {
    if |steps| > 0 {
      hide Inv, Next, Injective;
      StepsKeepInv(s, steps[..|steps| - 1], hash);
      InvNext(RunSteps(s, steps[..|steps| - 1], hash), steps[|steps| - 1], hash);
    }
  }
}
