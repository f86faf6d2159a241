/** The operations of src/systemsense/storage/artifact_store.py on a store and a directory of files. */
module ArtifactStore {
  import opened Results
  import opened Sequences
  import opened Store
  import opened Artifacts

  const MAX_EXCERPT_BYTES := 32_768

  datatype ReadError = NegativeOffset | BadLimit | AccessDenied | BinaryArtifact | ObjectMissing

  datatype Excerpt = Excerpt(artifact: ArtifactRow, text: string, offset: nat, truncated: bool, redactionCount: nat)

  ghost predicate Lists(listing: seq<Path>, files: Files) {
    Distinct(listing) && forall path :: path in listing <==> path in files && !path.Temp?
  }

  class FileSystem {
    var files: Files

    constructor ()
      ensures files == map[]
    {
      files := map[];
    }

    /** `rglob("*")` below objects: every file there once, in whatever order the directory gives. */
    method Rglob() returns (listing: seq<Path>)
      ensures Lists(listing, files)
    {
      listing := [];
      var rest := files.Keys;
      while rest != {}
        invariant rest <= files.Keys && Distinct(listing)
        invariant forall path :: path in listing <==> path in files.Keys - rest && !path.Temp?
        decreases |rest|
      {
        var path :| path in rest;
        if !path.Temp? {
          listing := listing + [path];
        }
        rest := rest - {path};
      }
    }
  }

  /** The row that `artifact_for_case` joins with the case's relation. */
  function ArtifactForCase(t: Tables, caseId: string, artifactId: string): (r: Option<ArtifactRow>)
    ensures r.Some? ==> r.value in t.artifacts && r.value.artifactId == artifactId && Relation(artifactId, caseId) in t.relations
    ensures r.None? ==> artifactId !in Map(ArtifactId, t.artifacts) || Relation(artifactId, caseId) !in t.relations
  {
    if Relation(artifactId, caseId) in t.relations then FindRow(t.artifacts, artifactId) else None
  }

  function FindRow(rows: seq<ArtifactRow>, artifactId: string): (r: Option<ArtifactRow>)
    ensures r.Some? ==> r.value in rows && r.value.artifactId == artifactId
    ensures r.None? ==> artifactId !in Map(ArtifactId, rows)
  {
    if |rows| == 0 then None
    else if rows[0].artifactId == artifactId then Some(rows[0])
    else
      assert Map(ArtifactId, rows) == [rows[0].artifactId] + Map(ArtifactId, rows[1..]);
      FindRow(rows[1..], artifactId)
  }

  /** The bytes that `seek(offset)` and `read(count)` return. */
  function ReadAt(content: Content, offset: nat, count: nat): Content {
    if offset >= |content| then "" else Take(content[offset..], count)
  }

  /** The bytes read, one by one. */
  lemma ReadAtMeans(content: Content, offset: nat, count: nat)
    ensures var read := ReadAt(content, offset, count);
      && |read| == Max(0, Min(count, |content| - offset))
      && forall i :: 0 <= i < |read| ==> offset + i < |content| && read[i] == content[offset + i]
  {
  }

  class ArtifactStore {
    const store: SQLiteStore
    const disk: FileSystem
    const hash: Content -> string

    ghost predicate Valid()
      reads this, store, disk
    {
      store.Valid() && !store.inTransaction && Injective(hash) && Consistent(store.committed, disk.files, hash)
    }

    constructor (store: SQLiteStore, disk: FileSystem, hash: Content -> string)
      ensures this.store == store && this.disk == disk && this.hash == hash
    {
      this.store, this.disk, this.hash := store, disk, hash;
    }

    /** `temp` is the unused name that `mkstemp` picks. */
    method WriteObject(path: Path, content: Content, temp: nat)
      requires Temp(temp) !in disk.files && path.Object?
      modifies disk
      ensures disk.files == if path in old(disk.files) then old(disk.files) else old(disk.files)[path := content]
    {
      if path in disk.files {
        return;
      }
      disk.files := disk.files[Temp(temp) := ""];
      disk.files := disk.files[Temp(temp) := content];
      disk.files := (disk.files - {Temp(temp)})[path := content];
      assert disk.files == old(disk.files)[path := content];
    }

    /**
     Afterwards the content is on disk whatever happens; on success the case can read the artifact back,
     on a store error the tables are unchanged.
     */
    method Put(caseId: string, content: Content, mediaType: string, sensitivity: string, createdAt: int, temp: nat)
      returns (r: Result<ArtifactRow, StoreError>)
      requires Valid() && Temp(temp) !in disk.files
      modifies store, disk
      ensures Valid()
      ensures disk.files == old(disk.files)[Object(hash(content)) := content]
      ensures var t := old(store.committed);
        r.Ok? <==> (caseId in t.cases && (HasSha(t, hash(content)) || ArtifactIdOf(hash(content)) !in Map(ArtifactId, t.artifacts)))
      ensures match LinkArtifact(old(store.committed), NewRow(hash, content, mediaType, sensitivity, createdAt), caseId)
        case Err(e) => r == Err(e) && store.committed == old(store.committed)
        case Ok(t) =>
          && store.committed == t
          && r.Ok? && r.value.sha256 == hash(content) && r.value.byteSize == |content|
          && ArtifactForCase(t, caseId, r.value.artifactId) == Some(r.value)
          && (if HasSha(old(store.committed), hash(content)) then r.value in old(store.committed).artifacts
              else r.value.mediaType == mediaType && r.value.sensitivity == sensitivity && r.value.createdAt == createdAt)
    {
      var digest := hash(content);
      var row := NewRow(hash, content, mediaType, sensitivity, createdAt);
      WriteObject(Object(digest), content, temp);
      store.Begin();
      var linked := store.Link(row, caseId);
      if linked.Err? {
        store.Rollback();
        return Err(linked.error);
      }
      LinkKeepsConsistent(old(store.committed), disk.files, hash, row, caseId, content);
      store.Commit();
      var found := ArtifactForCase(store.tables, caseId, ArtifactIdOf(digest));
      return Ok(found.value);
    }

    /**
     Returns the requested bytes of exactly the content the case put, redacted and bounded. Every error
     is the one the source raises, and a missing object file is impossible.
     */
    method GetTextExcerpt(caseId: string, artifactId: string, offset: int, maxBytes: int,
                          isText: string -> bool, redact: string -> (string, nat))
      returns (r: Result<Excerpt, ReadError>)
      requires Valid()
      ensures r == Err(NegativeOffset) <==> offset < 0
      ensures r == Err(BadLimit) <==> offset >= 0 && !(1 <= maxBytes <= MAX_EXCERPT_BYTES)
      ensures r == Err(AccessDenied) <==> offset >= 0 && 1 <= maxBytes <= MAX_EXCERPT_BYTES
                                          && Relation(artifactId, caseId) !in store.committed.relations
      ensures r == Err(BinaryArtifact) <==> offset >= 0 && 1 <= maxBytes <= MAX_EXCERPT_BYTES
                                            && Relation(artifactId, caseId) in store.committed.relations
                                            && forall row :: row in store.committed.artifacts && row.artifactId == artifactId ==> !isText(row.mediaType)
      ensures r != Err(ObjectMissing)
      ensures r.Ok? ==> var e := r.value;
        && e.artifact in store.committed.artifacts && e.artifact.artifactId == artifactId && isText(e.artifact.mediaType)
        && Object(e.artifact.sha256) in disk.files
        && var content := disk.files[Object(e.artifact.sha256)];
           var redacted := redact(ReadAt(content, offset, maxBytes));
           && hash(content) == e.artifact.sha256
           && e == Excerpt(e.artifact, Take(redacted.0, maxBytes), offset,
                           offset + maxBytes < |content| || |redacted.0| > maxBytes, redacted.1)
    {
      if offset < 0 {
        return Err(NegativeOffset);
      }
      if !(1 <= maxBytes <= MAX_EXCERPT_BYTES) {
        return Err(BadLimit);
      }
      var row := ArtifactForCase(store.tables, caseId, artifactId);
      if row.None? {
        return Err(AccessDenied);
      }
      var metadata := row.value;
      if !isText(metadata.mediaType) {
        return Err(BinaryArtifact);
      }
      if Object(metadata.sha256) !in disk.files {
        return Err(ObjectMissing);
      }
      var raw := ReadAt(disk.files[Object(metadata.sha256)], offset, maxBytes + 1);
      assert Take(raw, maxBytes) == ReadAt(disk.files[Object(metadata.sha256)], offset, maxBytes);
      var (text, replacements) := redact(Take(raw, maxBytes));
      var truncated := |raw| > maxBytes || offset + Min(|raw|, maxBytes) < metadata.byteSize || |text| > maxBytes;
      return Ok(Excerpt(metadata, Take(text, maxBytes), offset, truncated, replacements));
    }
  }

  lemma {:induction false} LinkKeepsConsistent(t: Tables, files: Files, hash: Content -> string, row: ArtifactRow, caseId: string, content: Content)
    requires Consistent(t, files, hash) && LinkArtifact(t, row, caseId).Ok?
    requires Object(hash(content)) in files && files[Object(hash(content))] == content
    requires row.sha256 == hash(content) && row.byteSize == |content| && row.artifactId == ArtifactIdOf(hash(content))
    ensures var t' := LinkArtifact(t, row, caseId).value; var found := ArtifactForCase(t', caseId, row.artifactId);
      Consistent(t', files, hash) && found.Some? && found.value.sha256 == hash(content) && found.value.byteSize == |content|
  {
    LinkKeepsSound(t, row, caseId);
    var t' := LinkArtifact(t, row, caseId).value;
    var stored := RowWithSha(t'.artifacts, row.sha256);
    InRows(t'.artifacts, stored);
    SameKey(ArtifactId, t'.artifacts, stored, ArtifactForCase(t', caseId, row.artifactId).value);
  }
}
