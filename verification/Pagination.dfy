/**
 The paged reads of src/systemsense/mcp_server.py over the page queries of
 src/systemsense/storage/sqlite_store.py, and the signed cursors between the pages.
 */
module Pagination {
  import opened Results
  import opened Sequences
  import opened Ordering
  import opened Store
  import opened Text

  datatype AccessError = CaseUnavailable | EvidenceUnavailable | InvalidCursor | InvalidRecord

  // ---- Cursors ----

  type Bindings = map<string, string>

  datatype Token = Token(kind: string, offset: int, bindings: Bindings)

  const SIGNATURE_BYTES := 32

  /**
   The pieces of `_CursorCodec`: canonical JSON, its parser (None for anything that is not an object with an integer
   offset), the keyed hash, and base64 with its decoder (None when it raises).
   */
  datatype Codec = Codec(json: Token -> string, parse: string -> Option<Token>, mac: string -> string,
                         base64: string -> string, unbase64: string -> Option<string>)

  ghost predicate Lawful(codec: Codec) {
    && (forall t :: codec.parse(codec.json(t)) == Some(t))
    && (forall s :: |codec.mac(s)| == SIGNATURE_BYTES)
    && (forall s :: codec.unbase64(codec.base64(s)) == Some(s))
  }

  function Encode(codec: Codec, kind: string, offset: nat, bindings: Bindings): string {
    var payload := codec.json(Token(kind, offset, bindings));
    codec.base64(payload + codec.mac(payload))
  }

  function Decode(codec: Codec, cursor: string, kind: string, bindings: Bindings): Result<nat, AccessError> {
    match codec.unbase64(cursor)
    case None => Err(InvalidCursor)
    case Some(encoded) =>
      var cut := Max(0, |encoded| - SIGNATURE_BYTES);
      var payload, signature := encoded[..cut], encoded[cut..];
      if signature != codec.mac(payload) then Err(InvalidCursor)
      else match codec.parse(payload)
        case None => Err(InvalidCursor)
        case Some(token) =>
          if token.kind != kind || token.bindings != bindings || token.offset < 0 then Err(InvalidCursor) else Ok(token.offset)
  }

  /** Main result: an issued cursor decodes to its offset exactly for the kind and bindings it was issued for. */
  lemma DecodeOfEncode(codec: Codec, kind: string, offset: nat, bindings: Bindings, kind': string, bindings': Bindings)
    requires Lawful(codec)
    ensures Decode(codec, Encode(codec, kind, offset, bindings), kind', bindings')
         == if kind == kind' && bindings == bindings' then Ok(offset) else Err(InvalidCursor)
  {
    var payload := codec.json(Token(kind, offset, bindings));
    var encoded := payload + codec.mac(payload);
    assert encoded[..|encoded| - SIGNATURE_BYTES] == payload;
    assert encoded[|encoded| - SIGNATURE_BYTES..] == codec.mac(payload);
  }

  /** Whatever is accepted carries the keyed hash of a payload with this very kind, bindings and offset. */
  lemma AcceptedIsSigned(codec: Codec, cursor: string, kind: string, bindings: Bindings) returns (payload: string)
    requires Lawful(codec) && Decode(codec, cursor, kind, bindings).Ok?
    ensures codec.unbase64(cursor) == Some(payload + codec.mac(payload))
    ensures codec.parse(payload) == Some(Token(kind, Decode(codec, cursor, kind, bindings).value, bindings))
  {
    var encoded := codec.unbase64(cursor).value;
    var cut := Max(0, |encoded| - SIGNATURE_BYTES);
    payload := encoded[..cut];
    assert encoded == payload + encoded[cut..];
  }

  // ---- Queries ----

  datatype EvidenceQuery = EvidenceQuery(caseId: string, category: Option<string>, statementKind: Option<string>)

  function OrEmpty(o: Option<string>): string { if o.None? then "" else o.value }

  function QueryBindings(q: EvidenceQuery): Bindings {
    map["case_id" := q.caseId, "category" := OrEmpty(q.category), "statement_kind" := OrEmpty(q.statementKind)]
  }

  /** The tool surface admits no empty category and no empty statement kind; then a cursor fits one query only. */
  lemma BindingsDetermineTheQuery(a: EvidenceQuery, b: EvidenceQuery)
    ensures QueryBindings(a) == QueryBindings(b)
       <==> a.caseId == b.caseId && OrEmpty(a.category) == OrEmpty(b.category) && OrEmpty(a.statementKind) == OrEmpty(b.statementKind)
    ensures QueryBindings(a) == QueryBindings(b) && Some("") !in {a.category, b.category, a.statementKind, b.statementKind} ==> a == b
  {
    assert QueryBindings(a)["case_id"] == a.caseId && QueryBindings(a)["category"] == OrEmpty(a.category)
        && QueryBindings(a)["statement_kind"] == OrEmpty(a.statementKind);
    assert QueryBindings(b)["case_id"] == b.caseId && QueryBindings(b)["category"] == OrEmpty(b.category)
        && QueryBindings(b)["statement_kind"] == OrEmpty(b.statementKind);
  }

  function CoverageBindings(caseId: string): Bindings { map["case_id" := caseId] }

  datatype Fact = Fact(name: string, value: string, unit: Option<string>)

  /** What the JSON of a stored record says; `facts` is None when it is no evidence record. */
  datatype Document = Document(statementKind: Option<string>, collectorId: Option<string>, coverageCategory: Option<string>,
                               facts: Option<seq<Fact>>, coverage: bool)

  function Lower(c: char): char { if 'A' <= c <= 'Z' then c - 'A' + 'a' else c }

  ghost predicate IsLetter(c: char) { 'A' <= c <= 'Z' || 'a' <= c <= 'z' }

  /** Two characters compare equal if they are the same, or one letter in its two cases. */
  lemma LowerMeans(a: char, b: char)
    ensures Lower(a) == Lower(b) <==>
      a == b || (IsLetter(a) && IsLetter(b) && (a as int - b as int == 32 || b as int - a as int == 32))
  {
  }

  /** `id LIKE category || '.%'` of SQLite: ASCII letters compare without case, and `_` stands for any character. */
  predicate LikeCategory(id: string, category: string) {
    && |id| > |category| && id[|category|] == '.'
    && forall i :: 0 <= i < |category| ==> category[i] == '_' || Lower(category[i]) == Lower(id[i])
  }

  predicate HasCategory(id: string, category: string) { id == category || LikeCategory(id, category) }

  predicate Plain(s: string) { forall i :: 0 <= i < |s| ==> s[i] != '_' && !('A' <= s[i] <= 'Z') }

  predicate LowerCase(s: string) { forall i :: 0 <= i < |s| ==> !('A' <= s[i] <= 'Z') }

  /** For a category without `_` the filter is the category itself and everything below it. */
  lemma PlainCategoryIsExact(id: string, category: string)
    requires Plain(category) && LowerCase(id)
    ensures HasCategory(id, category) <==> id == category || category + "." <= id
  {
    if LikeCategory(id, category) {
      assert id[..|category|] == category;
      assert id[..|category| + 1] == category + ".";
    }
    if category + "." <= id {
      assert id[|category|] == '.' && forall i :: 0 <= i < |category| ==> id[i] == (category + ".")[i];
    }
  }

  /** What the filter is meant to keep: the category itself and everything below it. */
  predicate Within(id: string, category: string) { id == category || category + "." <= id }

  /** A collector that the filter takes for one below a category with `_`. */
  function Impostor(category: string): (id: string)
    ensures |id| == |category| && (LowerCase(category) ==> LowerCase(id))
    ensures forall i :: 0 <= i < |category| ==> id[i] == if category[i] == '_' then 'x' else category[i]
  {
    seq(|category|, i requires 0 <= i < |category| => if category[i] == '_' then 'x' else category[i])
  }

  lemma ImpostorIsKept(category: string, i: nat)
    requires LowerCase(category) && i < |category| && category[i] == '_'
    ensures var id := Impostor(category) + "."; LowerCase(id) && HasCategory(id, category) && !Within(id, category)
  {
    var id := Impostor(category) + ".";
    assert id[|category|] == '.' && |id| == |category| + 1;
    assert id[i] == 'x' && (category + ".")[i] == '_';
  }

  /** Main result: the filter of a category is exact for all collectors if and only if the category contains no `_`. */
  lemma FilterIsExactWithoutUnderscore(category: string)
    requires LowerCase(category)
    ensures (forall id | LowerCase(id) :: HasCategory(id, category) <==> Within(id, category)) <==> '_' !in category
  {
    if '_' in category {
      var i :| 0 <= i < |category| && category[i] == '_';
      ImpostorIsKept(category, i);
    } else {
      forall id | LowerCase(id) ensures HasCategory(id, category) <==> Within(id, category) {
        PlainCategoryIsExact(id, category);
      }
    }
  }

  /** The category of the local_ai probes, for one, also matches others. */
  lemma UnderscoreMatchesMore()
    ensures HasCategory("localxai.snapshot", "local_ai") && !Within("localxai.snapshot", "local_ai")
  {
    var id, category := "localxai.snapshot", "local_ai";
    assert |category| == 8 && id[8] == '.';
    assert id[5] == 'x' && (category + ".")[5] == '_';
  }

  predicate Matches(row: EvidenceRow, q: EvidenceQuery, read: Record -> Document) {
    var d := read(row.record);
    && row.caseId == q.caseId && d.statementKind.Some?
    && (q.category.Some? ==> d.collectorId.Some? && HasCategory(d.collectorId.value, q.category.value))
    && (q.statementKind.Some? ==> d.statementKind == q.statementKind)
  }

  /** The collector of a row, as far as the category says exactly which it means. */
  ghost predicate InCategory(collectorId: Option<string>, category: string) {
    collectorId.Some? && ('_' !in category && LowerCase(category) && LowerCase(collectorId.value) ==> Within(collectorId.value, category))
  }

  /** What a query may return: evidence of its own case, of the kind asked for and in the category asked for. */
  ghost predicate AskedFor(row: EvidenceRow, q: EvidenceQuery, read: Record -> Document) {
    && row.caseId == q.caseId && read(row.record).statementKind.Some?
    && (q.statementKind.Some? ==> read(row.record).statementKind == q.statementKind)
    && (q.category.Some? ==> InCategory(read(row.record).collectorId, q.category.value))
  }

  /** What it may not leave out. */
  ghost predicate MustReturn(row: EvidenceRow, q: EvidenceQuery, read: Record -> Document) {
    && row.caseId == q.caseId && read(row.record).statementKind.Some?
    && (q.statementKind.Some? ==> read(row.record).statementKind == q.statementKind)
    && (q.category.Some? ==> read(row.record).collectorId.Some? && Within(read(row.record).collectorId.value, q.category.value))
  }

  /** Main result: the filter lets through all it must and only what it may. */
  lemma MatchesMeans(row: EvidenceRow, q: EvidenceQuery, read: Record -> Document)
    ensures MustReturn(row, q, read) ==> Matches(row, q, read)
    ensures Matches(row, q, read) ==> AskedFor(row, q, read)
  {
    var collectorId := read(row.record).collectorId;
    if q.category.Some? && collectorId.Some? {
      if Within(collectorId.value, q.category.value) {
        WithinIsKept(collectorId.value, q.category.value);
      }
      if '_' !in q.category.value && LowerCase(q.category.value) && LowerCase(collectorId.value) {
        PlainCategoryIsExact(collectorId.value, q.category.value);
      }
    }
  }

  lemma WithinIsKept(id: string, category: string)
    requires Within(id, category)
    ensures HasCategory(id, category)
  {
    if category + "." <= id {
      assert id[|category|] == '.' && forall i :: 0 <= i < |category| ==> id[i] == (category + ".")[i];
    }
  }

  /** Newest first, and by identifier within a moment. */
  ghost predicate InPageOrder(rows: seq<EvidenceRow>) {
    forall i, j :: 0 <= i < j < |rows| ==>
      rows[i].capturedAt > rows[j].capturedAt || (rows[i].capturedAt == rows[j].capturedAt && LexLeq(rows[i].evidenceId, rows[j].evidenceId))
  }

  function MatchesQuery(q: EvidenceQuery, read: Record -> Document): EvidenceRow -> bool { (row: EvidenceRow) => Matches(row, q, read) }

  function IsCoverageOf(caseId: string, read: Record -> Document): EvidenceRow -> bool {
    (row: EvidenceRow) => row.caseId == caseId && row.record.Reported? && read(row.record).coverageCategory.Some?
  }

  /** `ORDER BY captured_at DESC, evidence_id` */
  predicate NewestFirst(a: EvidenceRow, b: EvidenceRow) {
    a.capturedAt > b.capturedAt || (a.capturedAt == b.capturedAt && LexLeq(a.evidenceId, b.evidenceId))
  }

  function EvidenceRows(t: Tables, q: EvidenceQuery, read: Record -> Document): seq<EvidenceRow> {
    Sort(NewestFirst, Filter(MatchesQuery(q, read), t.evidence))
  }

  function CoverageRows(t: Tables, caseId: string, read: Record -> Document): seq<EvidenceRow> {
    Sort(NewestFirst, Filter(IsCoverageOf(caseId, read), t.evidence))
  }

  /** Every matching row is there once, newest first, and the order does not depend on how the table is laid out. */
  lemma {:induction false} RowsAreTheMatches(t: Tables, keep: EvidenceRow -> bool)
    requires SoundEvidence(t)
    ensures var rows := Sort(NewestFirst, Filter(keep, t.evidence));
      && Sorted(NewestFirst, rows) && Distinct(rows) && Distinct(Map(Id, rows))
      && (forall r :: r in rows <==> r in t.evidence && keep(r))
  {
    LexIsTotalOrder();
    SortSorts(NewestFirst, Filter(keep, t.evidence));
    FilterDistinctKeys(Id, keep, t.evidence);
    SortKeepsKeys(NewestFirst, Id, Filter(keep, t.evidence));
    var rows := Sort(NewestFirst, Filter(keep, t.evidence));
    forall i, j | 0 <= i < j < |rows| ensures rows[i] != rows[j] {
      assert Map(Id, rows)[i] != Map(Id, rows)[j];
    }
  }

  /** `LIMIT limit OFFSET offset`, and slicing in Python. */
  function Slice<T>(xs: seq<T>, offset: nat, limit: nat): seq<T> {
    if offset >= |xs| then [] else Take(xs[offset..], limit)
  }

  // ---- Pages ----

  datatype Page<T> = Page(items: seq<T>, nextCursor: Option<string>)

  /** The body that the paged reads share: ask for one row more than the limit to see whether there is a next page. */
  function PageAt<T>(codec: Codec, xs: seq<T>, kind: string, bindings: Bindings, limit: nat, cursor: Option<string>, first: nat): Result<Page<T>, AccessError> {
    var offset := if cursor.None? then Ok(first) else Decode(codec, cursor.value, kind, bindings);
    if offset.Err? then Err(offset.error) else
      var rows := Slice(xs, offset.value, limit + 1);
      Ok(Page(Take(rows, limit), if |rows| > limit then Some(Encode(codec, kind, offset.value + limit, bindings)) else None))
  }

  /** Requests with the given limits, each with the cursor of the page before it, until a page has none. */
  function Follow<T>(codec: Codec, xs: seq<T>, kind: string, bindings: Bindings, limits: seq<nat>, cursor: Option<string>, first: nat): Result<Page<T>, AccessError>
    decreases |limits|
  {
    if |limits| == 0 then Ok(Page([], cursor))
    else match PageAt(codec, xs, kind, bindings, limits[0], cursor, first)
      case Err(e) => Err(e)
      case Ok(page) =>
        if page.nextCursor.None? then Ok(page)
        else match Follow(codec, xs, kind, bindings, limits[1..], page.nextCursor, first)
          case Err(e) => Err(e)
          case Ok(rest) => Ok(Page(page.items + rest.items, rest.nextCursor))
  }

  function Total(limits: seq<nat>): nat {
    if |limits| == 0 then 0 else limits[0] + Total(limits[1..])
  }

  lemma {:induction false} TotalAtLeast(limits: seq<nat>)
    requires forall i :: 0 <= i < |limits| ==> limits[i] >= 1
    ensures Total(limits) >= |limits|
  {
    if |limits| > 0 {
      TotalAtLeast(limits[1..]);
    }
  }

  /** No cursor stands for the first offset, a cursor for the one it was issued with. */
  predicate StandsAt(codec: Codec, kind: string, bindings: Bindings, cursor: Option<string>, first: nat, offset: nat) {
    if cursor.None? then offset == first else cursor.value == Encode(codec, kind, offset, bindings)
  }

  /** One page at a known offset. */
  lemma PageStep<T>(codec: Codec, xs: seq<T>, kind: string, bindings: Bindings, limit: nat, cursor: Option<string>, first: nat, offset: nat)
    requires Lawful(codec) && StandsAt(codec, kind, bindings, cursor, first, offset)
    ensures PageAt(codec, xs, kind, bindings, limit, cursor, first)
         == Ok(Page(Slice(xs, offset, limit),
                    if offset + limit < |xs| then Some(Encode(codec, kind, offset + limit, bindings)) else None))
  {
    DecodeOfEncode(codec, kind, offset, bindings, kind, bindings);
    var rows := Slice(xs, offset, limit + 1);
    assert Take(rows, limit) == Slice(xs, offset, limit);
  }

  lemma SliceTwice<T>(xs: seq<T>, offset: nat, a: nat, b: nat)
    requires offset + a <= |xs|
    ensures Slice(xs, offset, a) + Slice(xs, offset + a, b) == Slice(xs, offset, a + b)
  {
  }

  lemma SliceEnds<T>(xs: seq<T>, offset: nat, a: nat, b: nat)
    requires offset + a >= |xs| && b >= a
    ensures Slice(xs, offset, a) == Slice(xs, offset, b)
  {
  }

  /**
   Main result: with any positive limits, the pages put together are the rows from the starting offset in order, each once,
   up to the sum of the limits; and the last page has no cursor exactly when nothing is left.
   */
  lemma {:induction false} FollowCovers<T>(codec: Codec, xs: seq<T>, kind: string, bindings: Bindings, limits: seq<nat>,
                                           cursor: Option<string>, first: nat, offset: nat)
    requires Lawful(codec) && |limits| > 0 && forall i :: 0 <= i < |limits| ==> limits[i] >= 1
    requires StandsAt(codec, kind, bindings, cursor, first, offset)
    ensures var r := Follow(codec, xs, kind, bindings, limits, cursor, first);
      && r.Ok? && r.value.items == Slice(xs, offset, Total(limits))
      && (r.value.nextCursor.None? <==> offset + Total(limits) >= |xs|)
    decreases |limits|
  {
    hide Encode, PageAt, Lawful, Decode, Slice;
    PageStep(codec, xs, kind, bindings, limits[0], cursor, first, offset);
    var rest := limits[1..];
    var there := offset + limits[0];
    if there >= |xs| {
      SliceEnds(xs, offset, limits[0], Total(limits));
    } else {
      var next := Some(Encode(codec, kind, there, bindings));
      SliceTwice(xs, offset, limits[0], Total(rest));
      if |rest| > 0 {
        FollowCovers(codec, xs, kind, bindings, rest, next, first, there);
      } else {
        assert Follow(codec, xs, kind, bindings, rest, next, first) == Ok(Page([], next));
      }
    }
  }

  /** So following the cursors from the first page ends after at most one request for each row, with everything. */
  lemma FollowReturnsEverything<T>(codec: Codec, xs: seq<T>, kind: string, bindings: Bindings, limits: seq<nat>)
    requires Lawful(codec) && |limits| > 0 && forall i :: 0 <= i < |limits| ==> limits[i] >= 1
    ensures var r := Follow(codec, xs, kind, bindings, limits, None, 0);
      && r.Ok? && (r.value.nextCursor.None? ==> r.value.items == xs)
      && (|limits| >= |xs| ==> r.value.nextCursor.None?)
  {
    FollowCovers(codec, xs, kind, bindings, limits, None, 0, 0);
    TotalAtLeast(limits);
    if Total(limits) >= |xs| {
      assert Slice(xs, 0, Total(limits)) == xs;
    }
  }

  /**
   Main result, on an unchanged store: following the cursors of a query to the end gives every row that matches it, and no
   other, exactly once and newest first.
   */
  lemma {:induction false} EveryMatchOnce(codec: Codec, t: Tables, q: EvidenceQuery, read: Record -> Document, limits: seq<nat>)
    requires Lawful(codec) && SoundEvidence(t)
    requires |limits| > 0 && |limits| >= |t.evidence| && forall i :: 0 <= i < |limits| ==> limits[i] >= 1
    ensures var r := Follow(codec, EvidenceRows(t, q, read), "evidence", QueryBindings(q), limits, None, 0);
      && r.Ok? && r.value.nextCursor.None? && Distinct(r.value.items) && InPageOrder(r.value.items)
      && (forall row :: row in r.value.items ==> row in t.evidence && AskedFor(row, q, read))
      && (forall row :: row in t.evidence && MustReturn(row, q, read) ==> row in r.value.items)
      && (forall row :: row in r.value.items <==> row in t.evidence && Matches(row, q, read))
  {
    forall row ensures (MustReturn(row, q, read) ==> Matches(row, q, read)) && (Matches(row, q, read) ==> AskedFor(row, q, read)) {
      MatchesMeans(row, q, read);
    }
    FollowReturnsEverything(codec, EvidenceRows(t, q, read), "evidence", QueryBindings(q), limits);
    RowsAreTheMatches(t, MatchesQuery(q, read));
  }

  /** The same for the coverage map of a case. */
  lemma {:induction false} EveryReportOnce(codec: Codec, t: Tables, caseId: string, read: Record -> Document, limits: seq<nat>)
    requires Lawful(codec) && SoundEvidence(t)
    requires |limits| > 0 && |limits| >= |t.evidence| && forall i :: 0 <= i < |limits| ==> limits[i] >= 1
    ensures var r := Follow(codec, CoverageRows(t, caseId, read), "coverage", CoverageBindings(caseId), limits, None, 0);
      && r.Ok? && r.value.nextCursor.None? && Distinct(r.value.items) && InPageOrder(r.value.items)
      && forall row :: row in r.value.items <==>
           row in t.evidence && row.caseId == caseId && row.record.Reported? && read(row.record).coverageCategory.Some?
  {
    FollowReturnsEverything(codec, CoverageRows(t, caseId, read), "coverage", CoverageBindings(caseId), limits);
    RowsAreTheMatches(t, IsCoverageOf(caseId, read));
  }

  // ---- Facts ----

  const MAX_FACT_TEXT := 800

  const FIRST_FACTS := 12

  datatype BoundedFact = BoundedFact(name: string, value: string, unit: Option<string>, truncated: bool)

  /** `value` is the canonical JSON of the fact's value. */
  function Bounded(fact: Fact): (b: BoundedFact)
    ensures |b.value| <= MAX_FACT_TEXT && (b.truncated <==> |fact.value| > MAX_FACT_TEXT)
    ensures !b.truncated ==> b.value == fact.value
  {
    if |fact.value| <= MAX_FACT_TEXT then BoundedFact(fact.name, fact.value, fact.unit, false)
    else BoundedFact(fact.name, Clip(fact.value, MAX_FACT_TEXT), fact.unit, true)
  }

  function FactBindings(caseId: string, evidenceId: string): Bindings { map["case_id" := caseId, "evidence_id" := evidenceId] }

  /** The page of `get_evidence`. */
  function FirstFacts(codec: Codec, facts: seq<Fact>, caseId: string, evidenceId: string): Page<BoundedFact> {
    Page(Map(Bounded, Take(facts, FIRST_FACTS)),
         if |facts| > FIRST_FACTS then Some(Encode(codec, "facts", FIRST_FACTS, FactBindings(caseId, evidenceId))) else None)
  }

  /** The body of `inspect_more`. */
  function MoreFacts(codec: Codec, facts: seq<Fact>, caseId: string, evidenceId: string, limit: nat, cursor: Option<string>): Result<Page<BoundedFact>, AccessError> {
    var bindings := FactBindings(caseId, evidenceId);
    var offset := if cursor.None? then Ok(FIRST_FACTS) else Decode(codec, cursor.value, "facts", bindings);
    if offset.Err? then Err(offset.error)
    else Ok(Page(Map(Bounded, Slice(facts, offset.value, limit)),
                 if offset.value + limit < |facts| then Some(Encode(codec, "facts", offset.value + limit, bindings)) else None))
  }

  /** Looking at the remaining length and asking for one row more come to the same page. */
  lemma MoreFactsIsPageAt(codec: Codec, facts: seq<Fact>, caseId: string, evidenceId: string, limit: nat, cursor: Option<string>)
    ensures MoreFacts(codec, facts, caseId, evidenceId, limit, cursor)
         == PageAt(codec, Map(Bounded, facts), "facts", FactBindings(caseId, evidenceId), limit, cursor, FIRST_FACTS)
  {
    hide Encode, Decode, Bounded;
    var bindings := FactBindings(caseId, evidenceId);
    var offset := if cursor.None? then Ok(FIRST_FACTS) else Decode(codec, cursor.value, "facts", bindings);
    if offset.Ok? {
      var rows := Slice(Map(Bounded, facts), offset.value, limit + 1);
      assert Take(rows, limit) == Map(Bounded, Slice(facts, offset.value, limit));
    }
  }

  /** Main result: the facts of `get_evidence` followed by those of `inspect_more`, page by page, are all the facts once. */
  lemma {:induction false} EveryFactOnce(codec: Codec, facts: seq<Fact>, caseId: string, evidenceId: string, limits: seq<nat>)
    requires Lawful(codec) && |limits| > 0 && forall i :: 0 <= i < |limits| ==> limits[i] >= 1
    requires Total(limits) >= |facts| - FIRST_FACTS
    ensures var head := FirstFacts(codec, facts, caseId, evidenceId); |head.items| <= 12 && (head.nextCursor.None? <==> |facts| <= 12)
    ensures var head := FirstFacts(codec, facts, caseId, evidenceId);
      if head.nextCursor.None? then head.items == Map(Bounded, facts)
      else
        var tail := Follow(codec, Map(Bounded, facts), "facts", FactBindings(caseId, evidenceId), limits, head.nextCursor, FIRST_FACTS);
        tail.Ok? && tail.value.nextCursor.None? && head.items + tail.value.items == Map(Bounded, facts)
  {
    hide Bounded, Encode, Lawful;
    var all := Map(Bounded, facts);
    if |facts| > FIRST_FACTS {
      FollowCovers(codec, all, "facts", FactBindings(caseId, evidenceId), limits,
                   FirstFacts(codec, facts, caseId, evidenceId).nextCursor, FIRST_FACTS, FIRST_FACTS);
      assert Map(Bounded, facts[..FIRST_FACTS]) + all[FIRST_FACTS..] == all;
      assert Slice(all, FIRST_FACTS, Total(limits)) == all[FIRST_FACTS..];
    }
  }

  // ---- The workspace ----

  /** The row of the case with this identifier. */
  function EvidenceOf(rows: seq<EvidenceRow>, caseId: string, evidenceId: string): (r: Option<EvidenceRow>)
    ensures r.Some? ==> r.value in rows && r.value.caseId == caseId && r.value.evidenceId == evidenceId
    ensures r.None? ==> forall row :: row in rows ==> !(row.caseId == caseId && row.evidenceId == evidenceId)
  {
    if |rows| == 0 then None
    else if rows[0].caseId == caseId && rows[0].evidenceId == evidenceId then Some(rows[0])
    else EvidenceOf(rows[1..], caseId, evidenceId)
  }

  /** The row is an evidence row of the case with this identifier. */
  predicate Owned(t: Tables, caseId: string, evidenceId: string, row: EvidenceRow) {
    row in t.evidence && row.caseId == caseId && row.evidenceId == evidenceId
  }

  lemma PageIsAPart<T>(codec: Codec, xs: seq<T>, kind: string, bindings: Bindings, limit: nat, cursor: Option<string>) returns (offset: nat)
    ensures var page := PageAt(codec, xs, kind, bindings, limit, cursor, 0);
      page.Ok? ==>
        && page.value.items == Take(Slice(xs, offset, limit + 1), limit)
        && (cursor.None? && page.value.nextCursor.None? ==> page.value.items == xs)
  {
    hide Encode, Decode;
    var r := if cursor.None? then Ok(0) else Decode(codec, cursor.value, kind, bindings);
    offset := if r.Ok? then r.value else 0;
  }

  /** A page holds matching rows in order, and if it is the only one it holds them all. */
  lemma RowsOfPage(codec: Codec, t: Tables, keep: EvidenceRow -> bool, kind: string, bindings: Bindings, limit: nat, cursor: Option<string>)
    ensures var rows := Sort(NewestFirst, Filter(keep, t.evidence)); var page := PageAt(codec, rows, kind, bindings, limit, cursor, 0);
      page.Ok? ==>
        && InPageOrder(page.value.items)
        && (forall row :: row in page.value.items ==> row in t.evidence && keep(row))
        && (cursor.None? && page.value.nextCursor.None? ==> forall row :: row in t.evidence && keep(row) ==> row in page.value.items)
  {
    LexIsTotalOrder();
    SortSorts(NewestFirst, Filter(keep, t.evidence));
    var rows := Sort(NewestFirst, Filter(keep, t.evidence));
    var offset := PageIsAPart(codec, rows, kind, bindings, limit, cursor);
    hide PageAt, Sort, TotalPreorder;
    SliceInOrder(rows, offset, limit);
    hide Sorted, InPageOrder;
    PartsAreMembers(rows, offset, limit);
  }

  lemma PartsAreMembers<T>(xs: seq<T>, offset: nat, limit: nat)
    ensures forall x :: x in Take(Slice(xs, offset, limit + 1), limit) ==> x in xs
  {
  }

  lemma SliceInOrder(rows: seq<EvidenceRow>, offset: nat, limit: nat)
    requires Sorted(NewestFirst, rows)
    ensures InPageOrder(Take(Slice(rows, offset, limit + 1), limit))
  {
  }

  class MCPWorkspace {
    const store: SQLiteStore
    const codec: Codec
    const read: Record -> Document

    constructor (store: SQLiteStore, codec: Codec, read: Record -> Document)
      ensures this.store == store && this.codec == codec && this.read == read
    {
      this.store, this.codec, this.read := store, codec, read;
    }

    /** One signed page of rows, the rows parsed one by one. */
    method ReadPage(rows: seq<EvidenceRow>, kind: string, bindings: Bindings, limit: nat, cursor: Option<string>, valid: Document -> bool)
      returns (r: Result<Page<EvidenceRow>, AccessError>)
      requires limit >= 1
      ensures var page := PageAt(codec, rows, kind, bindings, limit, cursor, 0);
        && (page.Err? ==> r == Err(page.error))
        && (page.Ok? ==> if forall row :: row in page.value.items ==> valid(read(row.record)) then r == page else r == Err(InvalidRecord))
    {
      var offset := 0;
      if cursor.Some? {
        var decoded := Decode(codec, cursor.value, kind, bindings);
        if decoded.Err? {
          return Err(decoded.error);
        }
        offset := decoded.value;
      }
      var found := Slice(rows, offset, limit + 1);
      var records := Take(found, limit);
      for i := 0 to |records|
        invariant forall j :: 0 <= j < i ==> valid(read(records[j].record))
      {
        if !valid(read(records[i].record)) {
          assert records[i] in records;
          return Err(InvalidRecord);
        }
      }
      var nextCursor := None;
      if |found| > limit {
        nextCursor := Some(Encode(codec, kind, offset + limit, bindings));
      }
      return Ok(Page(records, nextCursor));
    }

    method QueryCaseEvidence(q: EvidenceQuery, limit: nat, cursor: Option<string>) returns (r: Result<Page<EvidenceRow>, AccessError>)
      requires store.Valid() && limit >= 1
      ensures q.caseId !in store.tables.cases ==> r == Err(CaseUnavailable)
      ensures r.Ok? ==> r == PageAt(codec, EvidenceRows(store.tables, q, read), "evidence", QueryBindings(q), limit, cursor, 0)
      ensures r.Ok? ==> InPageOrder(r.value.items) && forall row :: row in r.value.items ==> row in store.tables.evidence && AskedFor(row, q, read)
      ensures r.Ok? && cursor.None? && r.value.nextCursor.None? ==>
        forall row :: row in store.tables.evidence && MustReturn(row, q, read) ==> row in r.value.items
      ensures r.Ok? ==> forall row :: row in r.value.items ==> read(row.record).facts.Some?
      ensures q.caseId in store.tables.cases && r.Err? ==>
        var page := PageAt(codec, EvidenceRows(store.tables, q, read), "evidence", QueryBindings(q), limit, cursor, 0);
        if page.Err? then r == Err(page.error)
        else r == Err(InvalidRecord) && exists row :: row in page.value.items && read(row.record).facts.None?
    {
      if q.caseId !in store.tables.cases {
        return Err(CaseUnavailable);
      }
      forall row ensures (MustReturn(row, q, read) ==> Matches(row, q, read)) && (Matches(row, q, read) ==> AskedFor(row, q, read)) {
        MatchesMeans(row, q, read);
      }
      RowsOfPage(codec, store.tables, MatchesQuery(q, read), "evidence", QueryBindings(q), limit, cursor);
      hide Matches, AskedFor, MustReturn, PageAt;
      r := ReadPage(EvidenceRows(store.tables, q, read), "evidence", QueryBindings(q), limit, cursor, (d: Document) => d.facts.Some?);
    }

    method GetCoverageMap(caseId: string, limit: nat, cursor: Option<string>) returns (r: Result<Page<EvidenceRow>, AccessError>)
      requires store.Valid() && limit >= 1
      ensures caseId !in store.tables.cases ==> r == Err(CaseUnavailable)
      ensures r.Ok? ==> r == PageAt(codec, CoverageRows(store.tables, caseId, read), "coverage", CoverageBindings(caseId), limit, cursor, 0)
      ensures r.Ok? ==> InPageOrder(r.value.items) && forall row :: row in r.value.items ==>
        row in store.tables.evidence && row.caseId == caseId && row.record.Reported? && read(row.record).coverageCategory.Some?
      ensures r.Ok? && cursor.None? && r.value.nextCursor.None? ==> forall row :: row in store.tables.evidence ==>
        (row.caseId == caseId && row.record.Reported? && read(row.record).coverageCategory.Some? ==> row in r.value.items)
      ensures r.Ok? ==> forall row :: row in r.value.items ==> read(row.record).coverage
      ensures caseId in store.tables.cases && r.Err? ==>
        var page := PageAt(codec, CoverageRows(store.tables, caseId, read), "coverage", CoverageBindings(caseId), limit, cursor, 0);
        if page.Err? then r == Err(page.error)
        else r == Err(InvalidRecord) && exists row :: row in page.value.items && !read(row.record).coverage
    {
      if caseId !in store.tables.cases {
        return Err(CaseUnavailable);
      }
      RowsOfPage(codec, store.tables, IsCoverageOf(caseId, read), "coverage", CoverageBindings(caseId), limit, cursor);
      hide PageAt;
      r := ReadPage(CoverageRows(store.tables, caseId, read), "coverage", CoverageBindings(caseId), limit, cursor, (d: Document) => d.coverage);
    }

    /** The facts of the evidence row of the case with this identifier, of which there is at most one. */
    method FactsOf(caseId: string, evidenceId: string) returns (r: Result<seq<Fact>, AccessError>)
      requires store.Valid() && SoundEvidence(store.tables)
      ensures caseId !in store.tables.cases ==> r == Err(CaseUnavailable)
      ensures caseId in store.tables.cases && (forall row :: !Owned(store.tables, caseId, evidenceId, row)) ==> r == Err(EvidenceUnavailable)
      ensures caseId in store.tables.cases ==> forall row :: Owned(store.tables, caseId, evidenceId, row) ==>
        if read(row.record).facts.None? then r == Err(InvalidRecord) else r == Ok(read(row.record).facts.value)
    {
      if caseId !in store.tables.cases {
        return Err(CaseUnavailable);
      }
      var row := EvidenceOf(store.tables.evidence, caseId, evidenceId);
      if row.None? {
        return Err(EvidenceUnavailable);
      }
      assert Owned(store.tables, caseId, evidenceId, row.value);
      forall other | Owned(store.tables, caseId, evidenceId, other) ensures other == row.value {
        SameKey(Id, store.tables.evidence, other, row.value);
      }
      var facts := read(row.value.record).facts;
      return if facts.None? then Err(InvalidRecord) else Ok(facts.value);
    }

    /** An evidence row is read through the case that owns it, or not at all. */
    method GetEvidence(caseId: string, evidenceId: string) returns (r: Result<Page<BoundedFact>, AccessError>)
      requires store.Valid() && SoundEvidence(store.tables)
      ensures caseId !in store.tables.cases ==> r == Err(CaseUnavailable)
      ensures caseId in store.tables.cases && (forall row :: !Owned(store.tables, caseId, evidenceId, row)) ==> r == Err(EvidenceUnavailable)
      ensures caseId in store.tables.cases ==> forall row :: Owned(store.tables, caseId, evidenceId, row) ==>
        if read(row.record).facts.None? then r == Err(InvalidRecord)
        else r == Ok(FirstFacts(codec, read(row.record).facts.value, caseId, evidenceId))
    {
      var facts := FactsOf(caseId, evidenceId);
      if facts.Err? {
        return Err(facts.error);
      }
      return Ok(FirstFacts(codec, facts.value, caseId, evidenceId));
    }

    method InspectMore(caseId: string, evidenceId: string, limit: nat, cursor: Option<string>) returns (r: Result<Page<BoundedFact>, AccessError>)
      requires store.Valid() && SoundEvidence(store.tables) && limit >= 1
      ensures caseId !in store.tables.cases ==> r == Err(CaseUnavailable)
      ensures caseId in store.tables.cases && (forall row :: !Owned(store.tables, caseId, evidenceId, row)) ==> r == Err(EvidenceUnavailable)
      ensures caseId in store.tables.cases ==> forall row :: Owned(store.tables, caseId, evidenceId, row) ==>
        if read(row.record).facts.None? then r == Err(InvalidRecord)
        else r == PageAt(codec, Map(Bounded, read(row.record).facts.value), "facts", FactBindings(caseId, evidenceId), limit, cursor, FIRST_FACTS)
    {
      var facts := FactsOf(caseId, evidenceId);
      if facts.Err? {
        return Err(facts.error);
      }
      MoreFactsIsPageAt(codec, facts.value, caseId, evidenceId, limit, cursor);
      return MoreFacts(codec, facts.value, caseId, evidenceId, limit, cursor);
    }
  }
}
