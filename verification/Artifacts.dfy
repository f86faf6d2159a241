/**
 The content-addressed store of src/systemsense/storage/artifact_store.py, next to the pruning steps
 of src/systemsense/storage/retention.py: crash safety over every run of small steps.

 Contents are texts of bytes and `hash` is SHA-256. `Object(d)` is the canonical path
 objects/dd/d, `Stray` any other file below objects, `Temp` a file below temporary.
 */
module Artifacts {
  import opened Results
  import opened Sequences
  import opened Store

  type Content = string

  datatype Path = Object(digest: string) | Stray(name: string) | Temp(n: nat)

  type Files = map<Path, Content>

  function ArtifactIdOf(digest: string): string { "artifact_" + Take(digest, 32) }

  function NewRow(hash: Content -> string, content: Content, mediaType: string, sensitivity: string, createdAt: int): ArtifactRow {
    ArtifactRow(ArtifactIdOf(hash(content)), hash(content), |content|, mediaType, sensitivity, createdAt)
  }

  ghost predicate Injective(hash: Content -> string) {
    forall a, b :: hash(a) == hash(b) ==> a == b
  }

  /** Every artifact row's file is there and holds the content the row describes; object files are never mislabelled. */
  ghost predicate Consistent(t: Tables, files: Files, hash: Content -> string) {
    && SoundArtifacts(t)
    && (forall r :: r in t.artifacts ==> Described(r, files))
    && (forall d :: Object(d) in files ==> hash(files[Object(d)]) == d)
  }

  ghost predicate Described(r: ArtifactRow, files: Files) {
    && Object(r.sha256) in files
    && r.byteSize == |files[Object(r.sha256)]|
    && r.artifactId == ArtifactIdOf(r.sha256)
  }

  // ---- The steps ----

  datatype Stage = NeedsTemp | TempMade(n: nat) | Stored

  datatype Operation =
    | Idle
    | Putting(caseId: string, content: Content, stage: Stage)
    | Pruning(todo: seq<ArtifactRow>, bytes: int, unlink: Option<string>)
    | Cleaning(paths: seq<Path>, deleted: nat)

  /** `puts` records which contents each case has ever passed to `put`. */
  datatype System = System(t: Tables, files: Files, op: Operation, ghost puts: set<(string, Content)>)

  datatype Step =
    | BeginPut(caseId: string, content: Content)
    | MakeTemp(n: nat)
    | WriteTemp(upTo: nat)
    | ReplaceObject
    | LinkRow(mediaType: string, sensitivity: string, createdAt: int)
    | BeginPrune(todo: seq<ArtifactRow>, bytes: int)
    | ConsiderArtifact(cutoff: int, maxBytes: int)
    | UnlinkObject
    | BeginClean(listing: seq<Path>)
    | CleanNext(batchSize: nat)
    | NewCase(newCase: string)
    | RemoveRelation(relation: Relation)
    | Crash

  /** Steps that are not enabled leave the system as it is. */
  ghost function Next(s: System, step: Step, hash: Content -> string): System {
    match step
    case BeginPut(caseId, content) =>
      if !s.op.Idle? then s else
        s.(op := Putting(caseId, content, if Object(hash(content)) in s.files then Stored else NeedsTemp),
           puts := s.puts + {(caseId, content)})
    case MakeTemp(n) =>
      if s.op.Putting? && s.op.stage.NeedsTemp? && Temp(n) !in s.files
      then s.(op := s.op.(stage := TempMade(n)), files := s.files[Temp(n) := ""]) else s
    case WriteTemp(upTo) =>
      if s.op.Putting? && s.op.stage.TempMade? && upTo <= |s.op.content|
      then s.(files := s.files[Temp(s.op.stage.n) := s.op.content[..upTo]]) else s
    case ReplaceObject =>
      if s.op.Putting? && s.op.stage.TempMade? && Temp(s.op.stage.n) in s.files && s.files[Temp(s.op.stage.n)] == s.op.content
      then s.(op := s.op.(stage := Stored), files := (s.files - {Temp(s.op.stage.n)})[Object(hash(s.op.content)) := s.files[Temp(s.op.stage.n)]])
      else s
    case LinkRow(mediaType, sensitivity, createdAt) =>
      if s.op.Putting? && s.op.stage.Stored? then
        match LinkArtifact(s.t, NewRow(hash, s.op.content, mediaType, sensitivity, createdAt), s.op.caseId)
        case Ok(t) => s.(op := Idle, t := t)
        case Err(_) => s.(op := Idle)
      else s
    case BeginPrune(todo, bytes) =>
      if s.op.Idle? && forall r :: r in todo ==> r in s.t.artifacts then s.(op := Pruning(todo, bytes, None)) else s
    case ConsiderArtifact(cutoff, maxBytes) =>
      if s.op.Pruning? && |s.op.todo| > 0 && s.op.unlink.None? then
        var r, rest := s.op.todo[0], s.op.todo[1..];
        var (t, deleted) := DeleteUnreferenced(s.t, r.artifactId);
        if (r.createdAt < cutoff || s.op.bytes > maxBytes) && deleted
        then s.(t := t, op := Pruning(rest, Max(0, s.op.bytes - r.byteSize), Some(r.sha256)))
        else s.(op := Pruning(rest, s.op.bytes, None))
      else s
    case UnlinkObject =>
      if s.op.Pruning? && s.op.unlink.Some?
      then s.(op := s.op.(unlink := None), files := s.files - {Object(s.op.unlink.value)}) else s
    case BeginClean(listing) =>
      if s.op.Pruning? && |s.op.todo| == 0 && s.op.unlink.None? && forall p :: p in listing ==> p in s.files && !p.Temp?
      then s.(op := Cleaning(listing, 0)) else s
    case CleanNext(batchSize) =>
      if !s.op.Cleaning? then s
      else if |s.op.paths| == 0 || s.op.deleted == batchSize then s.(op := Idle)
      else
        var p, rest := s.op.paths[0], s.op.paths[1..];
        if p.Object? && HasSha(s.t, p.digest) then s.(op := Cleaning(rest, s.op.deleted))
        else s.(op := Cleaning(rest, s.op.deleted + 1), files := s.files - {p})
    case NewCase(c) => s.(t := s.t.(cases := s.t.cases + {c}))
    case RemoveRelation(r) => s.(t := s.t.(relations := s.t.relations - {r}))
    case Crash => s.(op := Idle)
  }

  ghost function RunSteps(s: System, steps: seq<Step>, hash: Content -> string): System {
    if |steps| == 0 then s else Next(RunSteps(s, steps[..|steps| - 1], hash), steps[|steps| - 1], hash)
  }

  ghost predicate GoodOperation(s: System, hash: Content -> string) {
    match s.op
    case Idle => true
    case Putting(caseId, content, stage) =>
      && (caseId, content) in s.puts
      && (stage.Stored? ==> Object(hash(content)) in s.files)
    case Pruning(todo, bytes, unlink) =>
      && (forall r :: r in todo ==> (r.artifactId in Map(ArtifactId, s.t.artifacts) ==> r in s.t.artifacts))
      && (unlink.Some? ==> !HasSha(s.t, unlink.value))
    case Cleaning(_, _) => true
  }

  /** A related case has put the very content that the artifact's file holds. */
  ghost predicate RelatedCasesPut(s: System) {
    forall rel, r :: rel in s.t.relations && r in s.t.artifacts && r.artifactId == rel.artifactId ==>
      Object(r.sha256) in s.files && (rel.caseId, s.files[Object(r.sha256)]) in s.puts
  }

  ghost predicate Inv(s: System, hash: Content -> string) {
    Consistent(s.t, s.files, hash) && GoodOperation(s, hash) && RelatedCasesPut(s)
  }

  ghost predicate Initial(s: System) {
    s.op.Idle? && s.t.artifacts == [] && s.t.relations == {} && forall d :: Object(d) !in s.files
  }

  // ---- Rows ----

  lemma InRows(rows: seq<ArtifactRow>, r: ArtifactRow)
    requires r in rows
    ensures r.artifactId in Map(ArtifactId, rows) && r.sha256 in Map(Sha, rows)
  {
    KeyIn(ArtifactId, rows, r);
    KeyIn(Sha, rows, r);
  }

  /** Deleting an unreferenced row keeps the tables sound and takes exactly that row. */
  lemma {:induction false} DeleteTakesOneRow(t: Tables, r: ArtifactRow)
    requires SoundArtifacts(t) && r in t.artifacts && !Referenced(t, r.artifactId)
    ensures var (t', deleted) := DeleteUnreferenced(t, r.artifactId);
      && deleted && SoundArtifacts(t') && t' == t.(artifacts := t'.artifacts)
      && (forall x :: x in t'.artifacts <==> x in t.artifacts && x != r)
      && !HasSha(t', r.sha256)
  {
    InRows(t.artifacts, r);
    var t' := DeleteUnreferenced(t, r.artifactId).0;
    FilterDistinctKeys(ArtifactId, NotArtifact(r.artifactId), t.artifacts);
    FilterDistinctKeys(Sha, NotArtifact(r.artifactId), t.artifacts);
    forall x ensures x in t'.artifacts <==> x in t.artifacts && x != r {
      if x in t.artifacts && x.artifactId == r.artifactId {
        SameKey(ArtifactId, t.artifacts, x, r);
      }
    }
    forall rel | rel in t'.relations ensures rel.artifactId in Map(ArtifactId, t'.artifacts) {
      var x := WithKey(ArtifactId, t.artifacts, rel.artifactId);
      InRows(t'.artifacts, x);
    }
    if HasSha(t', r.sha256) {
      var x := WithKey(Sha, t'.artifacts, r.sha256);
      SameKey(Sha, t.artifacts, x, r);
    }
  }

  lemma {:induction false} LinkKeepsSound(t: Tables, row: ArtifactRow, caseId: string)
    requires SoundArtifacts(t) && LinkArtifact(t, row, caseId).Ok?
    ensures var t' := LinkArtifact(t, row, caseId).value; var stored := RowWithSha(t'.artifacts, row.sha256);
      && SoundArtifacts(t')
      && (forall x :: x in t'.artifacts <==> x in t.artifacts || (x == row && !HasSha(t, row.sha256)))
      && HasSha(t', row.sha256)
      && t'.relations == t.relations + {Relation(stored.artifactId, caseId)}
  {
    var t' := LinkArtifact(t, row, caseId).value;
    if !HasSha(t, row.sha256) {
      NewRowKeepsUnique(t.artifacts, row);
    }
    hide Map, Distinct;
    KeyIn(ArtifactId, t'.artifacts, RowWithSha(t'.artifacts, row.sha256));
  }

  lemma NewRowKeepsUnique(rows: seq<ArtifactRow>, row: ArtifactRow)
    requires row.artifactId !in Map(ArtifactId, rows) && row.sha256 !in Map(Sha, rows)
    ensures Map(ArtifactId, rows + [row]) == Map(ArtifactId, rows) + [row.artifactId]
    ensures Map(Sha, rows + [row]) == Map(Sha, rows) + [row.sha256]
    ensures Distinct(Map(ArtifactId, rows)) ==> Distinct(Map(ArtifactId, rows + [row]))
    ensures Distinct(Map(Sha, rows)) ==> Distinct(Map(Sha, rows + [row]))
  {
  }

  // ---- Preservation ----

  lemma {:induction false} InvLink(s: System, step: Step, hash: Content -> string)
    requires Inv(s, hash) && Injective(hash) && step.LinkRow?
    ensures Inv(Next(s, step, hash), hash)
  {
    if s.op.Putting? && s.op.stage.Stored? {
      var row := NewRow(hash, s.op.content, step.mediaType, step.sensitivity, step.createdAt);
      if LinkArtifact(s.t, row, s.op.caseId).Ok? {
        LinkKeepsSound(s.t, row, s.op.caseId);
        var t' := LinkArtifact(s.t, row, s.op.caseId).value;
        assert s.files[Object(row.sha256)] == s.op.content;
        var stored := RowWithSha(t'.artifacts, row.sha256);
        forall rel, r | rel in t'.relations && r in t'.artifacts && r.artifactId == rel.artifactId
          ensures Object(r.sha256) in s.files && (rel.caseId, s.files[Object(r.sha256)]) in s.puts
        {
          if rel in s.t.relations {
            var x := WithKey(ArtifactId, s.t.artifacts, rel.artifactId);
            SameKey(ArtifactId, t'.artifacts, r, x);
          } else {
            SameKey(ArtifactId, t'.artifacts, r, stored);
          }
        }
      }
    }
  }

  lemma {:induction false} InvConsider(s: System, step: Step, hash: Content -> string)
    requires Inv(s, hash) && step.ConsiderArtifact?
    ensures Inv(Next(s, step, hash), hash)
  {
    if s.op.Pruning? && |s.op.todo| > 0 && s.op.unlink.None? {
      var r := s.op.todo[0];
      if DeleteUnreferenced(s.t, r.artifactId).1 {
        DeleteTakesOneRow(s.t, r);
        var t' := DeleteUnreferenced(s.t, r.artifactId).0;
        forall x | x in s.op.todo[1..] && x.artifactId in Map(ArtifactId, t'.artifacts) ensures x in t'.artifacts {
          var y := WithKey(ArtifactId, t'.artifacts, x.artifactId);
          InRows(s.t.artifacts, y);
          SameKey(ArtifactId, s.t.artifacts, x, y);
        }
      }
    }
  }

  /** Removing a file that no row names keeps every row described. */
  lemma InvRemoveFile(s: System, p: Path, op: Operation, hash: Content -> string)
    requires Inv(s, hash) && (p.Object? ==> !HasSha(s.t, p.digest))
    requires GoodOperation(s.(op := op, files := s.files - {p}), hash)
    ensures Inv(s.(op := op, files := s.files - {p}), hash)
  {
    forall r | r in s.t.artifacts ensures Object(r.sha256) != p {
      InRows(s.t.artifacts, r);
    }
    forall rel, r | rel in s.t.relations && r in s.t.artifacts && r.artifactId == rel.artifactId
      ensures Object(r.sha256) in s.files - {p} && (rel.caseId, (s.files - {p})[Object(r.sha256)]) in s.puts
    {
    }
  }

  lemma InvReplace(s: System, hash: Content -> string)
    requires Inv(s, hash) && Injective(hash)
    ensures Inv(Next(s, ReplaceObject, hash), hash)
  {
  }

  lemma {:induction false} InvNext(s: System, step: Step, hash: Content -> string)
    requires Inv(s, hash) && Injective(hash)
    ensures Inv(Next(s, step, hash), hash)
  {
    match step
    case LinkRow(_, _, _) => InvLink(s, step, hash);
    case ConsiderArtifact(_, _) => InvConsider(s, step, hash);
    case UnlinkObject =>
      if s.op.Pruning? && s.op.unlink.Some? {
        InvRemoveFile(s, Object(s.op.unlink.value), s.op.(unlink := None), hash);
      }
    case CleanNext(batchSize) =>
      if s.op.Cleaning? && |s.op.paths| > 0 && s.op.deleted != batchSize {
        var p, rest := s.op.paths[0], s.op.paths[1..];
        if !(p.Object? && HasSha(s.t, p.digest)) {
          InvRemoveFile(s, p, Cleaning(rest, s.op.deleted + 1), hash);
        }
      }
    case ReplaceObject => InvReplace(s, hash);
    case _ =>
  }

  // ---- Main results, over every run ----

  /** In every reachable state each row's object file exists and holds the content its digest names. */
  lemma {:induction false} RunKeepsInv(s: System, steps: seq<Step>, hash: Content -> string)
    requires Initial(s) && Injective(hash)
    ensures Inv(RunSteps(s, steps, hash), hash)
  {
    if |steps| > 0 {
      RunKeepsInv(s, steps[..|steps| - 1], hash);
      InvNext(RunSteps(s, steps[..|steps| - 1], hash), steps[|steps| - 1], hash);
    }
  }

  lemma LinkKeepsReferenced(s: System, step: Step, hash: Content -> string, r: ArtifactRow)
    requires Inv(s, hash) && r in s.t.artifacts && step.LinkRow?
    ensures var s' := Next(s, step, hash); r in s'.t.artifacts && s'.files == s.files
  {
    var LinkRow(mediaType, sensitivity, createdAt) := step;
    if s.op.Putting? && LinkArtifact(s.t, NewRow(hash, s.op.content, mediaType, sensitivity, createdAt), s.op.caseId).Ok? {
      LinkKeepsSound(s.t, NewRow(hash, s.op.content, mediaType, sensitivity, createdAt), s.op.caseId);
    }
  }

  lemma ReplaceKeepsReferenced(s: System, hash: Content -> string, r: ArtifactRow)
    requires Inv(s, hash) && Injective(hash) && r in s.t.artifacts && Object(r.sha256) in s.files
    ensures var s' := Next(s, ReplaceObject, hash);
      s'.t == s.t && Object(r.sha256) in s'.files && s'.files[Object(r.sha256)] == s.files[Object(r.sha256)]
  {
    InRows(s.t.artifacts, r);
  }

  lemma OthersKeepReferenced(s: System, step: Step, hash: Content -> string, r: ArtifactRow)
    requires GoodOperation(s, hash) && r in s.t.artifacts && Referenced(s.t, r.artifactId) && !step.LinkRow? && !step.ReplaceObject?
    requires HasSha(s.t, r.sha256) && Object(r.sha256) in s.files
    ensures var s' := Next(s, step, hash);
      r in s'.t.artifacts && Object(r.sha256) in s'.files && s'.files[Object(r.sha256)] == s.files[Object(r.sha256)]
  {
    hide LinkArtifact;
  }

  /** No step removes a referenced artifact's row or touches its file. */
  lemma ReferencedSurvives(s: System, step: Step, hash: Content -> string, r: ArtifactRow)
    requires Inv(s, hash) && Injective(hash) && r in s.t.artifacts && Referenced(s.t, r.artifactId)
    ensures var s' := Next(s, step, hash);
      r in s'.t.artifacts && Object(r.sha256) in s'.files && s'.files[Object(r.sha256)] == s.files[Object(r.sha256)]
  {
    InRows(s.t.artifacts, r);
    if step.LinkRow? {
      LinkKeepsReferenced(s, step, hash, r);
    } else if step.ReplaceObject? {
      ReplaceKeepsReferenced(s, hash, r);
    } else {
      OthersKeepReferenced(s, step, hash, r);
    }
  }

  lemma RelationSurvives(s: System, step: Step, hash: Content -> string, rel: Relation)
    requires rel in s.t.relations && step != RemoveRelation(rel)
    ensures rel in Next(s, step, hash).t.relations
  {
  }

  /** As long as a case keeps its relation, it can go on reading what it put. */
  lemma {:induction false} RelatedStaysReadable(s: System, steps: seq<Step>, hash: Content -> string, rel: Relation, r: ArtifactRow)
    requires Inv(s, hash) && Injective(hash) && rel in s.t.relations && r in s.t.artifacts && r.artifactId == rel.artifactId
    requires forall i :: 0 <= i < |steps| ==> steps[i] != RemoveRelation(rel)
    ensures var s' := RunSteps(s, steps, hash);
      && Inv(s', hash) && rel in s'.t.relations && r in s'.t.artifacts
      && Object(r.sha256) in s'.files && s'.files[Object(r.sha256)] == s.files[Object(r.sha256)]
  {
    if |steps| > 0 {
      hide Inv, Next, Injective;
      var n := |steps| - 1;
      RelatedStaysReadable(s, steps[..n], hash, rel, r);
      var s1 := RunSteps(s, steps[..n], hash);
      InvNext(s1, steps[n], hash);
      RelationSurvives(s1, steps[n], hash, rel);
      ReferencedSurvives(s1, steps[n], hash, r);
    }
  }
}
