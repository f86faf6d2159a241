/**
 The tables of src/systemsense/storage/sqlite_store.py and their transactions.

 `Tables` is the database as a value, with one function for each statement that the other components
 need. The class holds what the open connection reads and what has been committed; a crash or a
 rollback falls back to the committed tables. Content hashes are written as the values they hash, so
 `stable_source_id` (src/systemsense/domain/ids.py:63-73) is a datatype constructor.
 */
module Store {
  import opened Results
  import opened Sequences
  import opened Ordering
  import opened Domain
  import Audit

  datatype SourceId =
    | EventSource(channel: string, provider: string, eventId: nat, recordId: nat)
    | EventCoverageSource(channel: string, status: CoverageStatus)
    | ProbeSource(caseId: string, probeId: string)
    | ProbeCoverageSource(caseId: string, probeId: string)

  /** A stored JSON text; coverage records are the ones with a `$.status`. */
  datatype Record = Observed(json: string) | Reported(status: CoverageStatus, json: string)

  datatype EvidenceRow = EvidenceRow(evidenceId: string, caseId: string, sourceId: SourceId, record: Record, capturedAt: int)

  /** A bookmark column: text that `int` accepts, or text that it rejects. */
  datatype Position = Number(n: int) | Malformed(text: string)

  datatype InventoryKey = InventoryKey(category: string, factKey: string)

  /** A JSON value as it is written: 1, 1.0 and true are three different texts. */
  datatype Json =
    | Null
    | Bool(b: bool)
    | Integer(n: int)
    | Float(x: real)
    | Text(s: string)
    | List(items: seq<Json>)
    | Dict(fields: map<string, Json>)

  /** What Python compares: numbers by value, and True and False are the numbers 1 and 0, at any depth. */
  datatype Plain = NoValue | Amount(x: real) | Words(s: string) | Sequence(items: seq<Plain>) | Mapping(fields: map<string, Plain>)

  function Decoded(v: Json): Plain {
    match v
    case Null => NoValue
    case Bool(b) => Amount(if b then 1.0 else 0.0)
    case Integer(n) => Amount(n as real)
    case Float(x) => Amount(x)
    case Text(s) => Words(s)
    case List(items) => Sequence(seq(|items|, i requires 0 <= i < |items| => Decoded(items[i])))
    case Dict(fields) => Mapping(map k | k in fields :: Decoded(fields[k]))
  }

  /** `==` on decoded values. */
  predicate SameValue(a: Json, b: Json) { Decoded(a) == Decoded(b) }

  /** What Python's `==` identifies: True with 1, False with 0, whole numbers with their floats, and nothing of different kinds. */
  lemma EqualToPython(b: bool, n: int, x: real, s: string, items: seq<Json>, fields: map<string, Json>)
    ensures SameValue(Bool(b), Integer(n)) <==> if b then n == 1 else n == 0
    ensures SameValue(Bool(b), Float(x)) <==> if b then x == 1.0 else x == 0.0
    ensures SameValue(Integer(n), Float(x)) <==> n as real == x
    ensures forall v :: v in {Bool(b), Integer(n), Float(x)} ==>
      !SameValue(v, Text(s)) && !SameValue(v, List(items)) && !SameValue(v, Dict(fields)) && !SameValue(v, Null)
  {
  }

  /** Lists are equal item by item, and objects field by field. */
  lemma EqualByParts(a: seq<Json>, b: seq<Json>, f: map<string, Json>, g: map<string, Json>)
    ensures SameValue(List(a), List(b)) <==> |a| == |b| && forall i :: 0 <= i < |a| ==> SameValue(a[i], b[i])
    ensures SameValue(Dict(f), Dict(g)) <==> f.Keys == g.Keys && forall k :: k in f && k in g ==> SameValue(f[k], g[k])
  {
    var xs, ys := Decoded(List(a)).items, Decoded(List(b)).items;
    if |a| == |b| && forall i :: 0 <= i < |a| ==> SameValue(a[i], b[i]) {
      assert xs == ys;
    }
    if xs == ys {
      assert |xs| == |a| && |ys| == |b| && forall i :: 0 <= i < |a| ==> xs[i] == Decoded(a[i]) && ys[i] == Decoded(b[i]);
    }
    var p, q := Decoded(Dict(f)).fields, Decoded(Dict(g)).fields;
    assert p.Keys == f.Keys && q.Keys == g.Keys;
    if f.Keys == g.Keys && forall k :: k in f && k in g ==> SameValue(f[k], g[k]) {
      assert p == q;
    }
    if p == q {
      assert forall k :: k in f && k in g ==> p[k] == Decoded(f[k]) && q[k] == Decoded(g[k]);
    }
  }

  datatype InventoryFact = InventoryFact(value: Json, observedAt: int, ttlSeconds: int, invalidatedAt: Option<int>)

  datatype HistoryRow = HistoryRow(key: InventoryKey, fact: InventoryFact)

  datatype AuditRow = AuditRow(eventId: string, caseId: string, entry: Audit.Entry)

  datatype ArtifactRow = ArtifactRow(artifactId: string, sha256: string, byteSize: nat, mediaType: string,
                                     sensitivity: string, createdAt: int)

  datatype Relation = Relation(artifactId: string, caseId: string)

  datatype Tables = Tables(
    cases: set<string>, evidence: seq<EvidenceRow>, bookmarks: map<string, Position>,
    current: map<InventoryKey, InventoryFact>, history: seq<HistoryRow>, audit: seq<AuditRow>,
    artifacts: seq<ArtifactRow>, relations: set<Relation>)

  const EMPTY := Tables({}, [], map[], map[], [], [], [], {})

  datatype StoreError = PrimaryKeyViolation | ForeignKeyViolation | UniqueViolation

  // ---- Evidence ----

  function Pair(r: EvidenceRow): (string, SourceId) { (r.caseId, r.sourceId) }

  function Id(r: EvidenceRow): string { r.evidenceId }

  /** `INSERT … ON CONFLICT (case_id, source_id) DO NOTHING`; the flag is `rowcount == 1`. */
  function InsertEvidence(t: Tables, row: EvidenceRow): Result<(Tables, bool), StoreError> {
    if Pair(row) in Map(Pair, t.evidence) then Ok((t, false))
    else if row.evidenceId in Map(Id, t.evidence) then Err(PrimaryKeyViolation)
    else if row.caseId !in t.cases then Err(ForeignKeyViolation)
    else Ok((t.(evidence := t.evidence + [row]), true))
  }

  ghost predicate SoundEvidence(t: Tables) {
    && Distinct(Map(Id, t.evidence))
    && Distinct(Map(Pair, t.evidence))
    && forall r :: r in t.evidence ==> r.caseId in t.cases
  }

  lemma InsertKeepsSound(t: Tables, row: EvidenceRow)
    requires SoundEvidence(t)
    ensures InsertEvidence(t, row).Ok? ==>
      && SoundEvidence(InsertEvidence(t, row).value.0)
      && Pair(row) in Map(Pair, InsertEvidence(t, row).value.0.evidence)
  {
    if Pair(row) !in Map(Pair, t.evidence) {
      MapConcat(Id, t.evidence, [row]);
      MapConcat(Pair, t.evidence, [row]);
      assert Map(Pair, t.evidence + [row])[|t.evidence|] == Pair(row);
    }
  }

  function NotAmong(ids: seq<string>): EvidenceRow -> bool { (r: EvidenceRow) => r.evidenceId !in ids }

  function DeleteEvidence(t: Tables, rows: seq<EvidenceRow>): Tables {
    t.(evidence := Filter(NotAmong(Map(Id, rows)), t.evidence))
  }

  // ---- Bookmarks, audit and cases ----

  function AdvanceBookmark(t: Tables, source: string, position: Position): Tables {
    t.(bookmarks := t.bookmarks[source := position])
  }

  function AuditId(r: AuditRow): string { r.eventId }

  function AppendAudit(t: Tables, row: AuditRow): Result<Tables, StoreError> {
    if row.eventId in Map(AuditId, t.audit) then Err(UniqueViolation)
    else if row.caseId !in t.cases then Err(ForeignKeyViolation)
    else Ok(t.(audit := t.audit + [row]))
  }

  function CreateCase(t: Tables, caseId: string): Result<Tables, StoreError> {
    if caseId in t.cases then Err(PrimaryKeyViolation) else Ok(t.(cases := t.cases + {caseId}))
  }

  // ---- Inventory ----

  /** The comparison that decides whether history is written. */
  predicate Changes(t: Tables, key: InventoryKey, fact: InventoryFact) {
    key !in t.current || !SameValue(t.current[key].value, fact.value)
  }

  /** Writes history only when the value changes; the flag tells whether it did. */
  function UpsertInventory(t: Tables, key: InventoryKey, fact: InventoryFact): (Tables, bool) {
    var changed := Changes(t, key, fact);
    (t.(history := if changed then t.history + [HistoryRow(key, fact)] else t.history,
        current := t.current[key := fact]),
     changed)
  }

  /** `json_set(record_json, '$.invalidated_at', ?)` on every row of the category, and the row count. */
  function InvalidateInventory(t: Tables, category: string, at: int): (Tables, nat) {
    var hit := set key | key in t.current && key.category == category;
    (t.(current := map key | key in t.current ::
          if key.category == category then t.current[key].(invalidatedAt := Some(at)) else t.current[key]),
     |hit|)
  }

  // ---- Artifacts ----

  function ArtifactId(r: ArtifactRow): string { r.artifactId }

  function Sha(r: ArtifactRow): string { r.sha256 }

  predicate HasSha(t: Tables, sha256: string) { sha256 in Map(Sha, t.artifacts) }

  predicate Referenced(t: Tables, artifactId: string) {
    exists r :: r in t.relations && r.artifactId == artifactId
  }

  function RowWithSha(rows: seq<ArtifactRow>, sha256: string): (r: ArtifactRow)
    requires sha256 in Map(Sha, rows)
    ensures r in rows && r.sha256 == sha256
  {
    if rows[0].sha256 == sha256 then rows[0] else
      assert Map(Sha, rows)[1..] == Map(Sha, rows[1..]);
      RowWithSha(rows[1..], sha256)
  }

  /** Inserts the metadata unless the content is known, then relates the stored artifact to the case. */
  function LinkArtifact(t: Tables, row: ArtifactRow, caseId: string): Result<Tables, StoreError> {
    if !HasSha(t, row.sha256) && row.artifactId in Map(ArtifactId, t.artifacts) then Err(PrimaryKeyViolation)
    else if caseId !in t.cases then Err(ForeignKeyViolation)
    else
      var artifacts := if HasSha(t, row.sha256) then t.artifacts else t.artifacts + [row];
      assert !HasSha(t, row.sha256) ==> Map(Sha, artifacts)[|t.artifacts|] == row.sha256;
      var stored := RowWithSha(artifacts, row.sha256);
      Ok(t.(artifacts := artifacts, relations := t.relations + {Relation(stored.artifactId, caseId)}))
  }

  function NotArtifact(artifactId: string): ArtifactRow -> bool { (r: ArtifactRow) => r.artifactId != artifactId }

  /** `DELETE … AND NOT EXISTS (a relation)`; the flag is `rowcount == 1`. */
  function DeleteUnreferenced(t: Tables, artifactId: string): (Tables, bool) {
    if artifactId in Map(ArtifactId, t.artifacts) && !Referenced(t, artifactId)
    then (t.(artifacts := Filter(NotArtifact(artifactId), t.artifacts)), true)
    else (t, false)
  }

  ghost predicate SoundArtifacts(t: Tables) {
    && Distinct(Map(ArtifactId, t.artifacts))
    && Distinct(Map(Sha, t.artifacts))
    && forall r :: r in t.relations ==> r.artifactId in Map(ArtifactId, t.artifacts)
  }

  // ---- Connections ----

  class SQLiteStore {
    var tables: Tables        // what the open connection reads
    var committed: Tables     // what survives a crash
    var inTransaction: bool

    ghost predicate Valid()
      reads this
    {
      !inTransaction ==> tables == committed
    }

    constructor ()
      ensures Valid() && !inTransaction && committed == EMPTY
    {
      tables, committed, inTransaction := EMPTY, EMPTY, false;
    }

    method Begin()
      requires Valid() && !inTransaction
      modifies this
      ensures Valid() && inTransaction && tables == old(tables) && committed == old(committed)
    {
      inTransaction := true;
    }

    method Commit()
      requires Valid() && inTransaction
      modifies this
      ensures Valid() && !inTransaction && tables == committed == old(tables)
    {
      committed, inTransaction := tables, false;
    }

    /** Also what the next connection finds after a crash. */
    method Rollback()
      requires Valid()
      modifies this
      ensures Valid() && !inTransaction && tables == committed == old(committed)
    {
      tables, inTransaction := committed, false;
    }

    method Insert(row: EvidenceRow) returns (r: Result<bool, StoreError>)
      requires Valid() && inTransaction
      modifies this
      ensures Valid() && inTransaction && committed == old(committed)
      ensures match InsertEvidence(old(tables), row)
        case Ok((t, inserted)) => r == Ok(inserted) && tables == t
        case Err(e) => r == Err(e) && tables == old(tables)
    {
      match InsertEvidence(tables, row)
      case Ok((t, inserted)) => tables := t; r := Ok(inserted);
      case Err(e) => r := Err(e);
    }

    method Advance(source: string, position: Position)
      requires Valid() && inTransaction
      modifies this
      ensures Valid() && inTransaction && committed == old(committed)
      ensures tables == AdvanceBookmark(old(tables), source, position)
    {
      tables := AdvanceBookmark(tables, source, position);
    }

    method Append(row: AuditRow) returns (r: Result<(), StoreError>)
      requires Valid() && inTransaction
      modifies this
      ensures Valid() && inTransaction && committed == old(committed)
      ensures match AppendAudit(old(tables), row)
        case Ok(t) => r == Ok(()) && tables == t
        case Err(e) => r == Err(e) && tables == old(tables)
    {
      match AppendAudit(tables, row)
      case Ok(t) => tables := t; r := Ok(());
      case Err(e) => r := Err(e);
    }

    method Upsert(key: InventoryKey, fact: InventoryFact) returns (changed: bool)
      requires Valid() && inTransaction
      modifies this
      ensures Valid() && inTransaction && committed == old(committed)
      ensures (tables, changed) == UpsertInventory(old(tables), key, fact)
    {
      changed := key !in tables.current || !SameValue(tables.current[key].value, fact.value);
      if changed {
        tables := tables.(history := tables.history + [HistoryRow(key, fact)]);
      }
      tables := tables.(current := tables.current[key := fact]);
    }

    method Invalidate(category: string, at: int) returns (rows: nat)
      requires Valid() && inTransaction
      modifies this
      ensures Valid() && inTransaction && committed == old(committed)
      ensures (tables, rows) == InvalidateInventory(old(tables), category, at)
    {
      var (t, n) := InvalidateInventory(tables, category, at);
      tables, rows := t, n;
    }

    method Link(row: ArtifactRow, caseId: string) returns (r: Result<(), StoreError>)
      requires Valid() && inTransaction
      modifies this
      ensures Valid() && inTransaction && committed == old(committed)
      ensures match LinkArtifact(old(tables), row, caseId)
        case Ok(t) => r == Ok(()) && tables == t
        case Err(e) => r == Err(e) && tables == old(tables)
    {
      match LinkArtifact(tables, row, caseId)
      case Ok(t) => tables := t; r := Ok(());
      case Err(e) => r := Err(e);
    }

    method DeleteArtifact(artifactId: string) returns (deleted: bool)
      requires Valid() && !inTransaction
      modifies this
      ensures Valid() && !inTransaction
      ensures (committed, deleted) == DeleteUnreferenced(old(committed), artifactId)
    {
      var (t, d) := DeleteUnreferenced(tables, artifactId);
      tables, committed, deleted := t, t, d;
    }

    method DeleteEvidenceRows(rows: seq<EvidenceRow>) returns (deleted: nat)
      requires Valid() && !inTransaction
      modifies this
      ensures Valid() && !inTransaction
      ensures committed == DeleteEvidence(old(committed), rows)
      ensures deleted == |old(committed).evidence| - |committed.evidence|
    {
      deleted := |tables.evidence| - |DeleteEvidence(tables, rows).evidence|;
      tables := DeleteEvidence(tables, rows);
      committed := tables;
    }

    /** Outside a transaction every statement commits by itself. */
    method InsertCase(caseId: string) returns (r: Result<(), StoreError>)
      requires Valid() && !inTransaction
      modifies this
      ensures Valid() && !inTransaction
      ensures match CreateCase(old(committed), caseId)
        case Ok(t) => r == Ok(()) && committed == t
        case Err(e) => r == Err(e) && committed == old(committed)
    {
      match CreateCase(tables, caseId)
      case Ok(t) => tables, committed := t, t; r := Ok(());
      case Err(e) => r := Err(e);
    }
  }
}
