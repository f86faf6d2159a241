/**
 The brief of src/systemsense/evidence/brief.py: greedy packing under a hard length budget, and a text
 from which the cited identifiers can be read back.
 */
module Brief {
  import opened Results
  import opened Sequences
  import opened Ordering
  import opened Text

  const ID_LENGTH := 35  // "ev_" and 32 hexadecimal digits

  datatype Item = Item(id: string, kind: string, category: string, observedAt: int, capturedAt: int, summary: string, score: real)

  datatype Coverage = Coverage(id: string, category: string, status: string, reason: Option<string>)

  datatype Case = Case(id: string, kind: string, windowStart: int, windowEnd: int, symptom: string, coverage: seq<Coverage>)

  datatype CaseBrief = CaseBrief(caseId: string, revision: nat, text: string, included: seq<string>, delta: seq<string>,
                                 omittedEvidence: nat, omittedCoverage: nat, omittedProbes: nat)

  datatype BriefError = DifferentCase | BudgetTooSmall

  /** How times are printed, and the word substitutions of `_neutralize`. */
  datatype Style = Style(iso: int -> string, substitute: string -> string)

  /** What does not change while one brief is packed. */
  datatype Context = Context(style: Style, subject: Case, revision: nat, previous: set<string>,
                             evidence: nat, coverage: nat, probes: nat)

  // ---- The text ----

  function Decimal(n: nat): (s: string)
    ensures OneLine(s) && |s| >= 1
  {
    var digit := [('0' as int + n % 10) as char];
    if n < 10 then digit else Decimal(n / 10) + digit
  }

  /** The number that decimal digits stand for. */
  function NumberOf(s: string): int {
    if |s| == 0 then 0 else 10 * NumberOf(s[..|s| - 1]) + (s[|s| - 1] as int - '0' as int)
  }

  /** A printed number consists of digits, has no leading zero and reads back. */
  lemma {:induction false} DecimalReadsBack(n: nat)
    ensures NumberOf(Decimal(n)) == n
    ensures forall i :: 0 <= i < |Decimal(n)| ==> '0' <= Decimal(n)[i] <= '9'
    ensures n > 0 ==> Decimal(n)[0] != '0'
  {
    if n >= 10 {
      DecimalReadsBack(n / 10);
      var digit := [('0' as int + n % 10) as char];
      assert Decimal(n) == Decimal(n / 10) + digit;
      assert Decimal(n)[..|Decimal(n)| - 1] == Decimal(n / 10);
    } else {
      assert Decimal(n)[..0] == [];
    }
  }

  function Neutralize(style: Style, value: string): string { style.substitute(Normalized(value)) }

  function Citation(id: string): string { "- [" + id + "]" }

  function EvidenceLine(style: Style): Item -> string {
    (i: Item) =>
      Citation(i.id) + (" " + i.kind + " " + i.category + " observed=" + style.iso(i.observedAt)
                        + " captured=" + style.iso(i.capturedAt) + " | " + Clip(Neutralize(style, i.summary), 240))
  }

  function CoverageLine(style: Style): Coverage -> string {
    (c: Coverage) =>
      Citation(c.id) + (" " + c.category + "=" + c.status
                        + if c.reason.Some? && c.reason.value != "" then " | " + Clip(Neutralize(style, c.reason.value), 180) else "")
  }

  /** A coverage line starts with its citation, category and status, and goes on exactly if there is a reason. */
  lemma ReasonIsPrintedIfAny(style: Style, c: Coverage)
    ensures var line, start := CoverageLine(style)(c), Citation(c.id) + (" " + c.category + "=" + c.status);
      && start <= line
      && (line == start <==> c.reason.None? || c.reason.value == "")
      && (line != start ==> line == start + " | " + Clip(Neutralize(style, c.reason.value), 180))
  {
  }

  function ProbeLine(): string -> string { (p: string) => "- " + p }

  function DeltaLine(): string -> string { (id: string) => "- added [" + id + "]" }

  function EmptyLine(section: string, hasCandidates: bool): string {
    if hasCandidates then "- " + section + " details omitted by brief budget" else "- none"
  }

  function OrEmptyLine(lines: seq<string>, line: string): seq<string> { if lines == [] then [line] else lines }

  function ItemId(i: Item): string { i.id }

  function CoverageId(c: Coverage): string { c.id }

  function Included(e: seq<Item>, c: seq<Coverage>): seq<string> { Unique(Map(ItemId, e) + Map(CoverageId, c)) }

  function NotIn(previous: set<string>): string -> bool { (id: string) => id !in previous }

  function Delta(x: Context, e: seq<Item>, c: seq<Coverage>): seq<string> { Filter(NotIn(x.previous), Included(e, c)) }

  function CaseLine(x: Context): string {
    "case=" + x.subject.id + " revision=" + Decimal(x.revision) + " kind=" + x.subject.kind
  }

  function WindowLine(x: Context): string {
    "window=" + x.style.iso(x.subject.windowStart) + ".." + x.style.iso(x.subject.windowEnd)
  }

  function SymptomLine(x: Context): string { "symptom=" + Clip(Neutralize(x.style, x.subject.symptom), 160) }

  function Header(x: Context): seq<string> {
    ["SYSTEMSENSE EVIDENCE BRIEF", "CASE", CaseLine(x), WindowLine(x), SymptomLine(x), "EVIDENCE"]
  }

  function EvidenceBlock(x: Context, e: seq<Item>): seq<string> {
    OrEmptyLine(Map(EvidenceLine(x.style), e), EmptyLine("evidence", x.evidence > 0))
  }

  function CoverageBlock(x: Context, c: seq<Coverage>): seq<string> {
    OrEmptyLine(Map(CoverageLine(x.style), c), EmptyLine("coverage", x.coverage > 0))
  }

  function ProbeBlock(x: Context, p: seq<string>): seq<string> {
    OrEmptyLine(Map(ProbeLine(), p), EmptyLine("probes", x.probes > 0))
  }

  function DeltaBlock(x: Context, e: seq<Item>, c: seq<Coverage>): seq<string> {
    OrEmptyLine(Map(DeltaLine(), Delta(x, e, c)), "- none")
  }

  const OBSERVATIONS := "- Evidence observations only; "

  const CONCLUSIONS := "causal conclusions and action "

  const INSTRUCTIONS := "instructions are intentionally absent."

  function OmittedLine(e: nat, c: nat, p: nat): string {
    "- Budget omitted evidence=" + Decimal(e) + (" coverage=" + Decimal(c)) + (" probes=" + Decimal(p) + ".")
  }

  function Footer(x: Context, e: nat, c: nat, p: nat): seq<string>
    requires e <= x.evidence && c <= x.coverage && p <= x.probes
  {
    ["LIMITATIONS", OBSERVATIONS + CONCLUSIONS + INSTRUCTIONS, OmittedLine(x.evidence - e, x.coverage - c, x.probes - p)]
  }

  /** A selection within the numbers of candidates. */
  predicate Within(x: Context, e: seq<Item>, c: seq<Coverage>, p: seq<string>) {
    |e| <= x.evidence && |c| <= x.coverage && |p| <= x.probes
  }

  /** The sections below the header lines. */
  function Body(e: seq<string>, c: seq<string>, p: seq<string>, d: seq<string>, footer: seq<string>): seq<string> {
    e + (["COVERAGE"] + (c + (["PENDING PROBES"] + (p + (["DELTA"] + (d + footer))))))
  }

  function Lines(x: Context, e: seq<Item>, c: seq<Coverage>, p: seq<string>): seq<string>
    requires Within(x, e, c, p)
  {
    Header(x) + Body(EvidenceBlock(x, e), CoverageBlock(x, c), ProbeBlock(x, p), DeltaBlock(x, e, c), Footer(x, |e|, |c|, |p|))
  }

  function Render(x: Context, e: seq<Item>, c: seq<Coverage>, p: seq<string>): string
    requires Within(x, e, c, p)
  {
    Join("\n", Lines(x, e, c, p))
  }

  // ---- Reading the text back ----

  datatype Parsed = Parsed(evidence: seq<string>, coverage: seq<string>, delta: seq<string>)

  /** The lines before and after the first line equal to `header`. */
  function UpTo(header: string, lines: seq<string>): seq<string> {
    if |lines| == 0 || lines[0] == header then [] else [lines[0]] + UpTo(header, lines[1..])
  }

  function Beyond(header: string, lines: seq<string>): seq<string> {
    if |lines| == 0 then [] else if lines[0] == header then lines[1..] else Beyond(header, lines[1..])
  }

  function Cites(prefix: string): string -> bool { (line: string) => prefix <= line && |line| >= |prefix| + ID_LENGTH }

  function Cited(prefix: string): string -> string {
    (line: string) => if |line| >= |prefix| + ID_LENGTH then line[|prefix|..|prefix| + ID_LENGTH] else ""
  }

  /** The identifiers on the lines that start with `prefix`. */
  function Ids(prefix: string, lines: seq<string>): seq<string> { Map(Cited(prefix), Filter(Cites(prefix), lines)) }

  function Parse(text: string): Parsed {
    var lines := Split('\n', text);
    var body := if |lines| < 6 then [] else lines[6..];
    var coverage := Beyond("COVERAGE", body);
    var delta := Beyond("DELTA", Beyond("PENDING PROBES", coverage));
    Parsed(Ids("- [", UpTo("COVERAGE", body)), Ids("- [", UpTo("PENDING PROBES", coverage)), Ids("- added [", UpTo("LIMITATIONS", delta)))
  }

  /** The printers produce no line breaks of their own. */
  ghost predicate SafeStyle(style: Style) {
    && (forall t :: OneLine(style.iso(t)))
    && (forall s :: OneLine(s) ==> OneLine(style.substitute(s)))
  }

  predicate IsId(id: string) { |id| == ID_LENGTH && OneLine(id) }

  predicate SafeItem(i: Item) { IsId(i.id) && OneLine(i.kind) && OneLine(i.category) }

  predicate SafeCoverage(c: Coverage) { IsId(c.id) && OneLine(c.category) && OneLine(c.status) }

  /** The fixed fields have the formats that their types demand: no line breaks, evidence identifiers of one length. */
  ghost predicate Safe(x: Context, e: seq<Item>, c: seq<Coverage>) {
    && SafeStyle(x.style) && OneLine(x.subject.id) && OneLine(x.subject.kind)
    && (forall i :: i in e ==> SafeItem(i))
    && (forall i :: i in c ==> SafeCoverage(i))
  }

  lemma ClippedIsOneLine(style: Style, s: string, limit: nat)
    requires SafeStyle(style) && limit >= 1
    ensures OneLine(Clip(Neutralize(style, s), limit))
  {
    NormalizedIsOneLine(s);
    ClipKeepsOneLine(Neutralize(style, s), limit);
  }

  ghost predicate AllOneLine(lines: seq<string>) { forall i :: 0 <= i < |lines| ==> OneLine(lines[i]) }

  /** Lines of a block: they all start with a dash, so none is a header. */
  ghost predicate Dashed(lines: seq<string>) { forall i :: 0 <= i < |lines| ==> |lines[i]| > 0 && lines[i][0] == '-' }

  lemma CitationFormat(id: string, rest: string)
    requires IsId(id) && OneLine(rest)
    ensures var line := Citation(id) + rest;
      OneLine(line) && |line| > 0 && line[0] == '-' && Cites("- [")(line) && Cited("- [")(line) == id
  {
    var line := Citation(id) + rest;
    assert line[..3] == "- [";
    assert line[3..38] == id;
  }

  lemma EvidenceLineFormat(style: Style, i: Item)
    requires SafeStyle(style) && SafeItem(i)
    ensures var line := EvidenceLine(style)(i);
      OneLine(line) && |line| > 0 && line[0] == '-' && Cites("- [")(line) && Cited("- [")(line) == i.id
  {
    ClippedIsOneLine(style, i.summary, 240);
    hide Clip, Neutralize, Cites, Cited, Citation;
    CitationFormat(i.id, " " + i.kind + " " + i.category + " observed=" + style.iso(i.observedAt)
                   + " captured=" + style.iso(i.capturedAt) + " | " + Clip(Neutralize(style, i.summary), 240));
  }

  lemma CoverageLineFormat(style: Style, c: Coverage)
    requires SafeStyle(style) && SafeCoverage(c)
    ensures var line := CoverageLine(style)(c);
      OneLine(line) && |line| > 0 && line[0] == '-' && Cites("- [")(line) && Cited("- [")(line) == c.id
  {
    hide Clip, Neutralize, Cites, Cited, Citation;
    if c.reason.Some? {
      ClippedIsOneLine(style, c.reason.value, 180);
    }
    CitationFormat(c.id, " " + c.category + "=" + c.status
                   + if c.reason.Some? && c.reason.value != "" then " | " + Clip(Neutralize(style, c.reason.value), 180) else "");
  }

  // ---- Blocks ----

  /** Every line of a block is one line that starts with a dash, and the block cites exactly `ids`. */
  ghost predicate BlockOf(prefix: string, lines: seq<string>, ids: seq<string>) {
    AllOneLine(lines) && Dashed(lines) && Ids(prefix, lines) == ids
  }

  /** `line` prints an element on one line that cites it. */
  ghost predicate CitesAt<T>(prefix: string, line: T -> string, id: T -> string, x: T) {
    OneLine(line(x)) && |line(x)| > 0 && line(x)[0] == '-' && Cites(prefix)(line(x)) && Cited(prefix)(line(x)) == id(x)
  }

  lemma CitingLines<T(!new)>(prefix: string, line: T -> string, id: T -> string, xs: seq<T>)
    requires forall x :: x in xs ==> CitesAt(prefix, line, id, x)
    ensures BlockOf(prefix, Map(line, xs), Map(id, xs))
  {
    hide Cites, Cited, OneLine;
    var lines := Map(line, xs);
    forall i | 0 <= i < |xs|
      ensures OneLine(lines[i]) && |lines[i]| > 0 && lines[i][0] == '-' && Cites(prefix)(lines[i]) && Cited(prefix)(lines[i]) == id(xs[i])
    {
      assert xs[i] in xs && CitesAt(prefix, line, id, xs[i]);
    }
    FilterAll(Cites(prefix), lines);
    assert Map(Cited(prefix), lines) == Map(id, xs);
  }

  /** A block made of one citing line for each element, or of one line that cites nothing. */
  lemma CitingBlock<T(!new)>(prefix: string, line: T -> string, id: T -> string, xs: seq<T>, empty: string)
    requires forall x :: x in xs ==> CitesAt(prefix, line, id, x)
    requires OneLine(empty) && |empty| > 0 && empty[0] == '-' && !Cites(prefix)(empty)
    ensures BlockOf(prefix, OrEmptyLine(Map(line, xs), empty), Map(id, xs))
  {
    hide Cites, Cited, OneLine;
    if xs == [] {
      assert Map(line, xs) == [] && Map(id, xs) == [];
      FilterNone(Cites(prefix), [empty]);
      assert Ids(prefix, [empty]) == [];
    } else {
      assert |Map(line, xs)| > 0;
      hide CitesAt, BlockOf;
      CitingLines(prefix, line, id, xs);
    }
  }

  /** A block ends where the next header is. */
  lemma {:induction false} BlockBefore(header: string, block: seq<string>, rest: seq<string>)
    requires Dashed(block) && (|header| == 0 || header[0] != '-')
    ensures UpTo(header, block + ([header] + rest)) == block
    ensures Beyond(header, block + ([header] + rest)) == rest
  {
    var lines := block + ([header] + rest);
    if block == [] {
      assert lines == [header] + rest;
    } else {
      assert lines[1..] == block[1..] + ([header] + rest);
      BlockBefore(header, block[1..], rest);
    }
  }

  ghost predicate CitesNothing(line: string) { OneLine(line) && |line| > 0 && line[0] == '-' && !Cites("- [")(line) }

  lemma NoneCitesNothing()
    ensures CitesNothing("- none")
  {
    assert "- none"[2] == 'n';
  }

  lemma EmptyLinesCiteNothing()
    ensures CitesNothing(EmptyLine("evidence", true)) && CitesNothing(EmptyLine("coverage", true))
  {
    assert EmptyLine("evidence", true)[2] == 'e' && EmptyLine("coverage", true)[2] == 'c';
  }

  lemma NoEmptyLineCites(has: bool)
    ensures CitesNothing(EmptyLine("evidence", has)) && CitesNothing(EmptyLine("coverage", has))
  {
    EmptyLinesCiteNothing();
    NoneCitesNothing();
    hide CitesNothing;
    assert !has ==> EmptyLine("evidence", has) == "- none" && EmptyLine("coverage", has) == "- none";
  }

  lemma {:induction false} EvidenceBlockCites(x: Context, e: seq<Item>)
    requires SafeStyle(x.style) && forall i :: i in e ==> SafeItem(i)
    ensures BlockOf("- [", EvidenceBlock(x, e), Map(ItemId, e))
  {
    forall i | i in e ensures CitesAt("- [", EvidenceLine(x.style), ItemId, i) {
      EvidenceLineFormat(x.style, i);
    }
    NoEmptyLineCites(x.evidence > 0);
    hide EmptyLine, Cites, EvidenceLine, BlockOf;
    CitingBlock("- [", EvidenceLine(x.style), ItemId, e, EmptyLine("evidence", x.evidence > 0));
  }

  lemma CoverageBlockCites(x: Context, c: seq<Coverage>)
    requires SafeStyle(x.style) && forall i :: i in c ==> SafeCoverage(i)
    ensures BlockOf("- [", CoverageBlock(x, c), Map(CoverageId, c))
  {
    forall i | i in c ensures CitesAt("- [", CoverageLine(x.style), CoverageId, i) {
      CoverageLineFormat(x.style, i);
    }
    NoEmptyLineCites(x.coverage > 0);
    hide EmptyLine, Cites, CoverageLine, BlockOf;
    CitingBlock("- [", CoverageLine(x.style), CoverageId, c, EmptyLine("coverage", x.coverage > 0));
  }

  lemma IncludedAreIds(e: seq<Item>, c: seq<Coverage>)
    requires (forall i :: i in e ==> SafeItem(i)) && (forall i :: i in c ==> SafeCoverage(i))
    ensures forall id :: id in Included(e, c) ==> IsId(id)
  {
    var a, b := Map(ItemId, e), Map(CoverageId, c);
    UniqueMembers(a + b);
    forall id | id in a + b ensures IsId(id) {
      if id in a {
        var i := WithKey(ItemId, e, id);
      } else {
        var i := WithKey(CoverageId, c, id);
      }
    }
  }

  function Same(id: string): string { id }

  lemma DeltaBlockCites(x: Context, e: seq<Item>, c: seq<Coverage>)
    requires (forall i :: i in e ==> SafeItem(i)) && (forall i :: i in c ==> SafeCoverage(i))
    ensures BlockOf("- added [", DeltaBlock(x, e, c), Delta(x, e, c))
  {
    IncludedAreIds(e, c);
    var delta := Delta(x, e, c);
    forall id | id in delta ensures CitesAt("- added [", DeltaLine(), Same, id) {
    }
    assert "- none"[2] == 'n';
    CitingBlock("- added [", DeltaLine(), Same, delta, "- none");
    assert Map(Same, delta) == delta;
  }

  lemma ProbeBlockIsDashed(x: Context, p: seq<string>)
    requires forall i :: i in p ==> OneLine(i)
    ensures AllOneLine(ProbeBlock(x, p)) && Dashed(ProbeBlock(x, p))
  {
    NoProbesLine(x.probes > 0);
    hide EmptyLine;
    var lines := Map(ProbeLine(), p);
    forall i | 0 <= i < |lines| ensures OneLine(lines[i]) && lines[i][0] == '-' {
      assert p[i] in p;
    }
  }

  lemma NoProbesLine(has: bool)
    ensures var line := EmptyLine("probes", has); OneLine(line) && |line| > 0 && line[0] == '-'
  {
  }

  lemma JoinedIsOneLine(a: string, b: string)
    requires OneLine(a) && OneLine(b)
    ensures OneLine(a + b)
  {
  }

  lemma HeaderWords()
    ensures OneLine("case=") && OneLine(" revision=") && OneLine(" kind=") && OneLine("window=") && OneLine("..") && OneLine("symptom=")
  {
  }

  lemma HeaderLinesAreOneLine(x: Context)
    requires SafeStyle(x.style) && OneLine(x.subject.id) && OneLine(x.subject.kind)
    ensures OneLine(CaseLine(x)) && OneLine(WindowLine(x)) && OneLine(SymptomLine(x))
  {
    ClippedIsOneLine(x.style, x.subject.symptom, 160);
    HeaderWords();
    hide Clip, Neutralize, Decimal, OneLine;
    var revision := Decimal(x.revision);
    JoinedIsOneLine("case=", x.subject.id);
    JoinedIsOneLine("case=" + x.subject.id, " revision=");
    JoinedIsOneLine("case=" + x.subject.id + " revision=", revision);
    JoinedIsOneLine("case=" + x.subject.id + " revision=" + revision, " kind=");
    JoinedIsOneLine("case=" + x.subject.id + " revision=" + revision + " kind=", x.subject.kind);
    var start, end := x.style.iso(x.subject.windowStart), x.style.iso(x.subject.windowEnd);
    JoinedIsOneLine("window=", start);
    JoinedIsOneLine("window=" + start, "..");
    JoinedIsOneLine("window=" + start + "..", end);
    JoinedIsOneLine("symptom=", Clip(Neutralize(x.style, x.subject.symptom), 160));
  }

  lemma HeaderIsSafe(x: Context)
    requires SafeStyle(x.style) && OneLine(x.subject.id) && OneLine(x.subject.kind)
    ensures AllOneLine(Header(x)) && |Header(x)| == 6
  {
    HeaderLinesAreOneLine(x);
    hide CaseLine, WindowLine, SymptomLine;
  }

  lemma OneLineConcat(a: seq<string>, b: seq<string>)
    requires AllOneLine(a) && AllOneLine(b)
    ensures AllOneLine(a + b)
  {
  }

  /** The sections below the coverage. */
  function Rest(p: seq<string>, d: seq<string>, footer: seq<string>): seq<string> { p + (["DELTA"] + (d + footer)) }

  lemma RestIsOneLine(p: seq<string>, d: seq<string>, footer: seq<string>)
    requires AllOneLine(p) && AllOneLine(d) && AllOneLine(footer)
    ensures AllOneLine(Rest(p, d, footer))
  {
    OneLineConcat(d, footer);
    OneLineConcat(["DELTA"], d + footer);
    OneLineConcat(p, ["DELTA"] + (d + footer));
  }

  /** The lines of a text that joins `parts`. */
  function AllLines(parts: seq<string>): seq<string> { Flat('\n', parts) }

  lemma FlatPrefix(a: seq<string>, b: seq<string>)
    requires AllOneLine(a)
    ensures AllLines(a + b) == a + AllLines(b)
  {
    FlatConcat('\n', a, b);
    FlatLines('\n', a);
  }

  lemma FlatSection(header: string, block: seq<string>, rest: seq<string>)
    requires OneLine(header) && AllOneLine(block)
    ensures AllLines([header] + (block + rest)) == [header] + (block + AllLines(rest))
  {
    FlatPrefix([header], block + rest);
    FlatPrefix(block, rest);
  }

  lemma HeadersAreOneLine()
    ensures OneLine("COVERAGE") && OneLine("PENDING PROBES")
  {
  }

  /** What comes before the rest is made of single lines, so splitting the text leaves it alone. */
  lemma FlatBody(header: seq<string>, e: seq<string>, c: seq<string>, rest: seq<string>)
    requires AllOneLine(header) && AllOneLine(e) && AllOneLine(c)
    ensures AllLines(header + (e + (["COVERAGE"] + (c + (["PENDING PROBES"] + rest)))))
         == header + (e + (["COVERAGE"] + (c + (["PENDING PROBES"] + AllLines(rest)))))
  {
    HeadersAreOneLine();
    hide AllLines, OneLine;
    var after, headers := ["PENDING PROBES"] + rest, ["COVERAGE"];
    FlatPrefix(header, e + (headers + (c + after)));
    FlatPrefix(e, headers + (c + after));
    FlatSection("COVERAGE", c, after);
    FlatSection("PENDING PROBES", [], rest);
    assert [] + rest == rest && [] + AllLines(rest) == AllLines(rest);
  }

  lemma CitationsParse(e: seq<string>, c: seq<string>, rest: seq<string>)
    requires Dashed(e) && Dashed(c)
    ensures var body := e + (["COVERAGE"] + (c + (["PENDING PROBES"] + rest))); var coverage := Beyond("COVERAGE", body);
      UpTo("COVERAGE", body) == e && UpTo("PENDING PROBES", coverage) == c && Beyond("PENDING PROBES", coverage) == rest
  {
    BlockBefore("COVERAGE", e, c + (["PENDING PROBES"] + rest));
    BlockBefore("PENDING PROBES", c, rest);
  }

  lemma DeltaParses(p: seq<string>, d: seq<string>, footer: seq<string>)
    requires Dashed(p) && Dashed(d) && |footer| > 0 && footer[0] == "LIMITATIONS"
    ensures UpTo("LIMITATIONS", Beyond("DELTA", Rest(p, d, footer))) == d
  {
    BlockBefore("DELTA", p, d + footer);
    assert footer == ["LIMITATIONS"] + footer[1..];
    BlockBefore("LIMITATIONS", d, footer[1..]);
  }

  lemma OmittedIsOneLine(e: nat, c: nat, p: nat)
    ensures OneLine(OmittedLine(e, c, p))
  {
    hide Decimal;
    assert OneLine("- Budget omitted evidence=" + Decimal(e));
    assert OneLine(" coverage=" + Decimal(c));
    assert OneLine(" probes=" + Decimal(p) + ".");
  }

  lemma ConclusionsIsOneLine()
    ensures OneLine(CONCLUSIONS)
  {
  }

  lemma InstructionsIsOneLine()
    ensures OneLine(INSTRUCTIONS)
  {
  }

  lemma ObservationsIsOneLine()
    ensures OneLine(OBSERVATIONS)
  {
  }

  lemma LimitationsIsOneLine()
    ensures OneLine("LIMITATIONS")
  {
  }

  lemma Appended(a: string, b: string)
    requires OneLine(a) && OneLine(b)
    ensures OneLine(a + b)
  {
  }

  lemma ThreeLines(a: string, b: string, c: string)
    requires OneLine(a) && OneLine(b) && OneLine(c)
    ensures AllOneLine([a, b, c])
  {
  }

  lemma FooterIsSafe(x: Context, e: nat, c: nat, p: nat)
    requires e <= x.evidence && c <= x.coverage && p <= x.probes
    ensures AllOneLine(Footer(x, e, c, p)) && |Footer(x, e, c, p)| > 0 && Footer(x, e, c, p)[0] == "LIMITATIONS"
  {
    OmittedIsOneLine(x.evidence - e, x.coverage - c, x.probes - p);
    ObservationsIsOneLine();
    ConclusionsIsOneLine();
    InstructionsIsOneLine();
    LimitationsIsOneLine();
    Appended(OBSERVATIONS, CONCLUSIONS);
    Appended(OBSERVATIONS + CONCLUSIONS, INSTRUCTIONS);
    ThreeLines("LIMITATIONS", OBSERVATIONS + CONCLUSIONS + INSTRUCTIONS, OmittedLine(x.evidence - e, x.coverage - c, x.probes - p));
    hide *;
  }

  /** The lines of a text, however many line breaks its probe identifiers bring in. */
  lemma LinesOfText(x: Context, e: seq<Item>, c: seq<Coverage>, p: seq<string>)
    requires Within(x, e, c, p) && Safe(x, e, c)
    ensures var rest := Rest(ProbeBlock(x, p), DeltaBlock(x, e, c), Footer(x, |e|, |c|, |p|));
      Split('\n', Render(x, e, c, p))
      == Header(x) + (EvidenceBlock(x, e) + (["COVERAGE"] + (CoverageBlock(x, c) + (["PENDING PROBES"] + AllLines(rest)))))
  {
    HeaderIsSafe(x);
    EvidenceBlockCites(x, e);
    CoverageBlockCites(x, c);
    var rest := Rest(ProbeBlock(x, p), DeltaBlock(x, e, c), Footer(x, |e|, |c|, |p|));
    FlatBody(Header(x), EvidenceBlock(x, e), CoverageBlock(x, c), rest);
    SplitOfJoinFlat('\n', Lines(x, e, c, p));
  }

  lemma RestOfSafe(x: Context, e: seq<Item>, c: seq<Coverage>, p: seq<string>)
    requires Within(x, e, c, p) && Safe(x, e, c) && forall i :: i in p ==> OneLine(i)
    ensures var rest := Rest(ProbeBlock(x, p), DeltaBlock(x, e, c), Footer(x, |e|, |c|, |p|));
      AllLines(rest) == rest && UpTo("LIMITATIONS", Beyond("DELTA", rest)) == DeltaBlock(x, e, c)
  {
    ProbeBlockIsDashed(x, p);
    DeltaBlockCites(x, e, c);
    FooterIsSafe(x, |e|, |c|, |p|);
    var pb, db, footer := ProbeBlock(x, p), DeltaBlock(x, e, c), Footer(x, |e|, |c|, |p|);
    RestIsOneLine(pb, db, footer);
    DeltaParses(pb, db, footer);
    FlatPrefix(Rest(pb, db, footer), []);
    assert Rest(pb, db, footer) + [] == Rest(pb, db, footer) && AllLines([]) == [];
  }

  /**
   Main result: splitting a brief's text at its line breaks recovers exactly the cited evidence and coverage identifiers,
   whatever the summaries, reasons, symptom and probe identifiers contain, and the added identifiers as well when no
   probe identifier contains a line break.
   */
  lemma {:induction false} ParseBack(x: Context, e: seq<Item>, c: seq<Coverage>, p: seq<string>)
    requires Within(x, e, c, p) && Safe(x, e, c)
    ensures Parse(Render(x, e, c, p)).evidence == Map(ItemId, e)
    ensures Parse(Render(x, e, c, p)).coverage == Map(CoverageId, c)
    ensures (forall i :: i in p ==> OneLine(i)) ==> Parse(Render(x, e, c, p)).delta == Delta(x, e, c)
  {
    EvidenceBlockCites(x, e);
    CoverageBlockCites(x, c);
    LinesOfText(x, e, c, p);
    var eb, cb := EvidenceBlock(x, e), CoverageBlock(x, c);
    var rest := Rest(ProbeBlock(x, p), DeltaBlock(x, e, c), Footer(x, |e|, |c|, |p|));
    ParseLines(x, Render(x, e, c, p), eb, cb, AllLines(rest));
    if forall i :: i in p ==> OneLine(i) {
      RestOfSafe(x, e, c, p);
      DeltaBlockCites(x, e, c);
    }
    hide EvidenceBlock, CoverageBlock, ProbeBlock, DeltaBlock, Footer, Header, Rest, Parse, Render, Safe, Delta, Lines, Body;
  }

  /** The parser, on a text whose lines are known. */
  lemma ParseLines(x: Context, text: string, e: seq<string>, c: seq<string>, rest: seq<string>)
    requires Dashed(e) && Dashed(c)
    requires Split('\n', text) == Header(x) + (e + (["COVERAGE"] + (c + (["PENDING PROBES"] + rest))))
    ensures Parse(text).evidence == Ids("- [", e) && Parse(text).coverage == Ids("- [", c)
    ensures Parse(text).delta == Ids("- added [", UpTo("LIMITATIONS", Beyond("DELTA", rest)))
  {
    var body := e + (["COVERAGE"] + (c + (["PENDING PROBES"] + rest)));
    assert |Header(x)| == 6;
    hide Header, Ids;
    assert Split('\n', text)[6..] == body;
    CitationsParse(e, c, rest);
  }

  // ---- Packing ----

  /** Takes each candidate in turn if it fits together with what has been taken before. */
  function Pack<T>(fits: seq<T> -> bool, candidates: seq<T>): (r: seq<T>)
    ensures |r| <= |candidates|
  {
    if |candidates| == 0 then [] else
      var before, next := Pack(fits, candidates[..|candidates| - 1]), candidates[|candidates| - 1];
      if fits(before + [next]) then before + [next] else before
  }

  /** The budget of a selection; selections beyond the numbers of candidates do not occur. */
  predicate Fits(x: Context, max: nat, e: seq<Item>, c: seq<Coverage>, p: seq<string>) {
    Within(x, e, c, p) && |Render(x, e, c, p)| <= max
  }

  function FitsEvidence(x: Context, max: nat): seq<Item> -> bool { (e: seq<Item>) => Fits(x, max, e, [], []) }

  function FitsCoverage(x: Context, max: nat, e: seq<Item>): seq<Coverage> -> bool { (c: seq<Coverage>) => Fits(x, max, e, c, []) }

  function FitsProbes(x: Context, max: nat, e: seq<Item>, c: seq<Coverage>): seq<string> -> bool {
    (p: seq<string>) => Fits(x, max, e, c, p)
  }

  datatype Selection = Selection(evidence: seq<Item>, coverage: seq<Coverage>, probes: seq<string>)

  /** The three packing passes, each under what the passes before it have taken. */
  function Select(x: Context, max: nat, evidence: seq<Item>, coverage: seq<Coverage>, probes: seq<string>): Selection {
    var e := Pack(FitsEvidence(x, max), evidence);
    var c := Pack(FitsCoverage(x, max, e), coverage);
    Selection(e, c, Pack(FitsProbes(x, max, e, c), probes))
  }

  /** Main result: a candidate is kept exactly when it fits with everything kept before it, and it then stays. */
  lemma {:induction false} KeptExactlyWhenItFits<T>(fits: seq<T> -> bool, candidates: seq<T>, i: nat)
    requires i < |candidates|
    ensures var before := Pack(fits, candidates[..i]);
      && Pack(fits, candidates[..i + 1]) == before + (if fits(before + [candidates[i]]) then [candidates[i]] else [])
      && Pack(fits, candidates[..i + 1]) <= Pack(fits, candidates)
  {
    assert candidates[..i + 1][..i] == candidates[..i];
    PackGrows(fits, candidates, i + 1);
  }

  lemma {:induction false} PackGrows<T>(fits: seq<T> -> bool, candidates: seq<T>, i: nat)
    requires i <= |candidates|
    ensures Pack(fits, candidates[..i]) <= Pack(fits, candidates)
  {
    if i == |candidates| {
      assert candidates[..i] == candidates;
    } else {
      var init := candidates[..|candidates| - 1];
      assert init[..i] == candidates[..i];
      PackGrows(fits, init, i);
    }
  }

  /** A packing fits if the empty one does, or if anything was taken; nothing is taken exactly when nothing fits alone. */
  lemma {:induction false} PackFits<T(!new)>(fits: seq<T> -> bool, candidates: seq<T>)
    ensures fits([]) || Pack(fits, candidates) != [] ==> fits(Pack(fits, candidates))
    ensures Pack(fits, candidates) == [] <==> forall x :: x in candidates ==> !fits([x])
  {
    if |candidates| > 0 {
      var n := |candidates| - 1;
      PackFits(fits, candidates[..n]);
      var before := Pack(fits, candidates[..n]);
      assert candidates == candidates[..n] + [candidates[n]];
      if before == [] {
        assert before + [candidates[n]] == [candidates[n]];
      }
    }
  }

  /**
   Main result: packing ends over the budget exactly when neither the empty envelope fits nor the envelope with any
   single candidate. (A single probe can be shorter than the line it replaces.)
   */
  lemma OverBudgetExactlyWhen(x: Context, max: nat, evidence: seq<Item>, coverage: seq<Coverage>, probes: seq<string>)
    ensures var s := Select(x, max, evidence, coverage, probes);
      !Fits(x, max, s.evidence, s.coverage, s.probes) <==>
        && !Fits(x, max, [], [], [])
        && (forall e :: e in evidence ==> !Fits(x, max, [e], [], []))
        && (forall c :: c in coverage ==> !Fits(x, max, [], [c], []))
        && (forall p :: p in probes ==> !Fits(x, max, [], [], [p]))
  {
    hide Fits;
    var s := Select(x, max, evidence, coverage, probes);
    PackFits(FitsEvidence(x, max), evidence);
    PackFits(FitsCoverage(x, max, s.evidence), coverage);
    PackFits(FitsProbes(x, max, s.evidence, s.coverage), probes);
  }

  // ---- A lone citation never shortens the text ----

  /** Characters of the lines, with one line break each. */
  function Weight(lines: seq<string>): nat {
    if |lines| == 0 then 0 else |lines[0]| + 1 + Weight(lines[1..])
  }

  lemma {:induction false} WeightConcat(a: seq<string>, b: seq<string>)
    ensures Weight(a + b) == Weight(a) + Weight(b)
  {
    if a == [] {
      assert a + b == b;
    } else {
      assert (a + b)[1..] == a[1..] + b;
      WeightConcat(a[1..], b);
    }
  }

  lemma {:induction false} JoinWeight(lines: seq<string>)
    requires |lines| > 0
    ensures |Join("\n", lines)| + 1 == Weight(lines)
  {
    if |lines| > 1 {
      JoinWeight(lines[1..]);
    }
  }

  lemma {:induction false} RenderWeight(x: Context, e: seq<Item>, c: seq<Coverage>, p: seq<string>)
    requires Within(x, e, c, p)
    ensures |Render(x, e, c, p)| + 1 == Weight(Header(x)) + Weight(EvidenceBlock(x, e)) + 9 + Weight(CoverageBlock(x, c)) + 15
              + Weight(ProbeBlock(x, p)) + 6 + Weight(DeltaBlock(x, e, c)) + Weight(Footer(x, |e|, |c|, |p|))
  {
    var eb, cb, pb, db := EvidenceBlock(x, e), CoverageBlock(x, c), ProbeBlock(x, p), DeltaBlock(x, e, c);
    var footer := Footer(x, |e|, |c|, |p|);
    hide EvidenceBlock, CoverageBlock, ProbeBlock, DeltaBlock, Footer, Header;
    BodyWeight(eb, cb, pb, db, footer);
    WeightConcat(Header(x), Body(eb, cb, pb, db, footer));
    hide Body;
    JoinWeight(Lines(x, e, c, p));
  }

  lemma BodyWeight(e: seq<string>, c: seq<string>, p: seq<string>, d: seq<string>, footer: seq<string>)
    ensures Weight(Body(e, c, p, d, footer)) == Weight(e) + 9 + Weight(c) + 15 + Weight(p) + 6 + Weight(d) + Weight(footer)
    ensures |Body(e, c, p, d, footer)| > 0
  {
    var r1 := d + footer;
    WeightConcat(d, footer);
    WeightConcat(["DELTA"], r1);
    var r2 := p + (["DELTA"] + r1);
    WeightConcat(p, ["DELTA"] + r1);
    WeightConcat(["PENDING PROBES"], r2);
    var r3 := c + (["PENDING PROBES"] + r2);
    WeightConcat(c, ["PENDING PROBES"] + r2);
    WeightConcat(["COVERAGE"], r3);
    WeightConcat(e, ["COVERAGE"] + r3);
  }

  lemma {:induction false} DecimalGrowsSlowly(n: nat)
    ensures |Decimal(n)| <= |Decimal(n + 1)| <= |Decimal(n)| + 1
  {
    if n >= 10 && (n + 1) / 10 != n / 10 {
      DecimalGrowsSlowly(n / 10);
    }
  }

  lemma FooterWeight(x: Context, e: nat, c: nat, p: nat)
    requires e <= x.evidence && c <= x.coverage && p <= x.probes
    ensures Weight(Footer(x, e, c, p)) == Weight(["LIMITATIONS", OBSERVATIONS + CONCLUSIONS + INSTRUCTIONS])
              + 46 + |Decimal(x.evidence - e)| + |Decimal(x.coverage - c)| + |Decimal(x.probes - p)|
  {
    hide Decimal, OBSERVATIONS, CONCLUSIONS, INSTRUCTIONS;
    var line := OmittedLine(x.evidence - e, x.coverage - c, x.probes - p);
    assert |line| == 45 + |Decimal(x.evidence - e)| + |Decimal(x.coverage - c)| + |Decimal(x.probes - p)|;
    hide OmittedLine;
    var start := ["LIMITATIONS", OBSERVATIONS + CONCLUSIONS + INSTRUCTIONS];
    assert Footer(x, e, c, p) == start + [line];
    WeightConcat(start, [line]);
  }

  lemma EvidenceLineLength(style: Style, i: Item)
    requires |i.id| == ID_LENGTH
    ensures |EvidenceLine(style)(i)| >= 64
  {
    hide Clip, Neutralize;
  }

  lemma CoverageLineLength(style: Style, c: Coverage)
    requires |c.id| == ID_LENGTH && c.category != "" && c.status != ""
    ensures |CoverageLine(style)(c)| >= 43
  {
    hide Clip, Neutralize;
  }

  lemma DeltaOfNone(x: Context)
    ensures Delta(x, [], []) == []
  {
    assert Map(ItemId, []) + Map(CoverageId, []) == [];
  }

  /** The delta section is never shorter than its empty line. */
  lemma DeltaBlockWeight(x: Context, e: seq<Item>, c: seq<Coverage>)
    ensures Weight(DeltaBlock(x, e, c)) >= 7
  {
    var delta := Delta(x, e, c);
    hide Delta;
    if delta != [] {
      assert Map(DeltaLine(), delta)[0] == DeltaLine()(delta[0]);
    }
  }

  lemma DeltaBlockOfNone(x: Context)
    ensures Weight(DeltaBlock(x, [], [])) == 7
  {
    DeltaOfNone(x);
    hide Delta;
    assert Map(DeltaLine(), []) == [];
  }

  lemma EvidenceBlockWeight(x: Context, i: Item)
    requires |i.id| == ID_LENGTH
    ensures Weight(EvidenceBlock(x, [i])) >= 65 && Weight(EvidenceBlock(x, [])) <= 43
  {
    EvidenceLineLength(x.style, i);
    hide EvidenceLine;
    assert EvidenceBlock(x, [i]) == [EvidenceLine(x.style)(i)];
    assert |EmptyLine("evidence", x.evidence > 0)| <= 42;
    hide EmptyLine;
    assert EvidenceBlock(x, []) == [EmptyLine("evidence", x.evidence > 0)];
  }

  lemma CoverageBlockWeight(x: Context, c: Coverage)
    requires |c.id| == ID_LENGTH && c.category != "" && c.status != ""
    ensures Weight(CoverageBlock(x, [c])) >= 44 && Weight(CoverageBlock(x, [])) <= 43
  {
    CoverageLineLength(x.style, c);
    hide CoverageLine;
    assert CoverageBlock(x, [c]) == [CoverageLine(x.style)(c)];
    assert |EmptyLine("coverage", x.coverage > 0)| <= 42;
    hide EmptyLine;
    assert CoverageBlock(x, []) == [EmptyLine("coverage", x.coverage > 0)];
  }

  /** One citation is always longer than the line it replaces. */
  lemma LoneEvidenceIsLonger(x: Context, max: nat, i: Item)
    requires |i.id| == ID_LENGTH && Fits(x, max, [i], [], [])
    ensures Fits(x, max, [], [], [])
  {
    hide Render, Header, EvidenceBlock, CoverageBlock, ProbeBlock, DeltaBlock, Footer, Decimal;
    RenderWeight(x, [i], [], []);
    RenderWeight(x, [], [], []);
    EvidenceBlockWeight(x, i);
    DeltaBlockWeight(x, [i], []);
    DeltaBlockOfNone(x);
    FooterWeight(x, 1, 0, 0);
    FooterWeight(x, 0, 0, 0);
    DecimalGrowsSlowly(x.evidence - 1);
  }

  lemma {:induction false} LoneCoverageIsLonger(x: Context, max: nat, c: Coverage)
    requires |c.id| == ID_LENGTH && c.category != "" && c.status != "" && Fits(x, max, [], [c], [])
    ensures Fits(x, max, [], [], [])
  {
    hide Render, Header, EvidenceBlock, CoverageBlock, ProbeBlock, DeltaBlock, Footer, Decimal;
    RenderWeight(x, [], [c], []);
    RenderWeight(x, [], [], []);
    CoverageBlockWeight(x, c);
    DeltaBlockWeight(x, [], [c]);
    DeltaBlockOfNone(x);
    FooterWeight(x, 0, 1, 0);
    FooterWeight(x, 0, 0, 0);
    DecimalGrowsSlowly(x.coverage - 1);
  }

  /**
   Main result: `generate` raises exactly when the empty envelope is over the budget and stays so with any one pending
   probe added.
   */
  lemma RaisesExactlyWhen(x: Context, max: nat, evidence: seq<Item>, coverage: seq<Coverage>, probes: seq<string>)
    requires forall e :: e in evidence ==> |e.id| == ID_LENGTH
    requires forall c :: c in coverage ==> |c.id| == ID_LENGTH && c.category != "" && c.status != ""
    ensures var s := Select(x, max, evidence, coverage, probes);
      !Fits(x, max, s.evidence, s.coverage, s.probes) <==>
        !Fits(x, max, [], [], []) && forall p :: p in probes ==> !Fits(x, max, [], [], [p])
  {
    OverBudgetExactlyWhen(x, max, evidence, coverage, probes);
    hide Fits, Select;
    forall e | e in evidence && Fits(x, max, [e], [], []) ensures Fits(x, max, [], [], []) {
      LoneEvidenceIsLonger(x, max, e);
    }
    forall c | c in coverage && Fits(x, max, [], [c], []) ensures Fits(x, max, [], [], []) {
      LoneCoverageIsLonger(x, max, c);
    }
  }

  // ---- One probe can shorten the text ----

  lemma ProbeBlockWeight(x: Context, p: string)
    requires x.probes > 0
    ensures Weight(ProbeBlock(x, [p])) == |p| + 3 && Weight(ProbeBlock(x, [])) == 41
  {
    assert ProbeBlock(x, [p]) == [ProbeLine()(p)];
    assert |EmptyLine("probes", x.probes > 0)| == 40;
    hide EmptyLine;
    assert ProbeBlock(x, []) == [EmptyLine("probes", x.probes > 0)];
  }

  /** A probe identifier of at most 37 characters makes the text shorter than the note that probes were omitted. */
  lemma ShortProbeShortens(x: Context, p: string)
    requires x.probes > 0
    ensures |Render(x, [], [], [p])| + 38 + |Decimal(x.probes)| == |Render(x, [], [], [])| + |p| + |Decimal(x.probes - 1)|
    ensures |p| <= 37 ==> |Render(x, [], [], [p])| < |Render(x, [], [], [])|
  {
    hide Render, Header, EvidenceBlock, CoverageBlock, ProbeBlock, DeltaBlock, Footer, Decimal;
    RenderWeight(x, [], [], [p]);
    RenderWeight(x, [], [], []);
    ProbeBlockWeight(x, p);
    FooterWeight(x, 0, 0, 1);
    FooterWeight(x, 0, 0, 0);
    DecimalGrowsSlowly(x.probes - 1);
  }

  // ---- The generator ----

  predicate ByScore(a: Item, b: Item) {
    a.score > b.score
    || (a.score == b.score && (a.observedAt < b.observedAt || (a.observedAt == b.observedAt && LexLeq(a.id, b.id))))
  }

  predicate ByCategory(a: Coverage, b: Coverage) {
    if a.category == b.category then LexLeq(a.id, b.id) else LexLeq(a.category, b.category)
  }

  function Revision(previous: Option<CaseBrief>): nat { if previous.None? then 1 else previous.value.revision + 1 }

  function IdsOf(previous: Option<CaseBrief>): set<string> {
    if previous.None? then {} else set id | id in previous.value.included
  }

  function Candidates(evidence: seq<Item>): seq<Item> { Sort(ByScore, evidence) }

  function CoverageCandidates(subject: Case): seq<Coverage> { Sort(ByCategory, subject.coverage) }

  /** `sorted(set(pending_probe_ids))` */
  function ProbeCandidates(pending: seq<string>): seq<string> { Sort(LexLeq, Unique(pending)) }

  function ContextOf(style: Style, subject: Case, evidence: seq<Item>, pending: seq<string>, previous: Option<CaseBrief>): Context {
    Context(style, subject, Revision(previous), IdsOf(previous), |evidence|, |subject.coverage|, |ProbeCandidates(pending)|)
  }

  /** Main result: the evidence offered is what was given, the best score first, then the oldest. */
  lemma {:induction false} BestIsOfferedFirst(evidence: seq<Item>)
    ensures multiset(Candidates(evidence)) == multiset(evidence)
    ensures forall i, j :: 0 <= i < j < |Candidates(evidence)| ==>
      var a, b := Candidates(evidence)[i], Candidates(evidence)[j];
      a.score > b.score || (a.score == b.score && (a.observedAt < b.observedAt || (a.observedAt == b.observedAt && LexLeq(a.id, b.id))))
  {
    LexIsTotalOrder();
    SortSorts(ByScore, evidence);
    hide Sort, TotalPreorder;
    forall i, j | 0 <= i < j < |Candidates(evidence)| ensures ByScore(Candidates(evidence)[i], Candidates(evidence)[j]) {
    }
  }

  lemma CategoryIsTotal()
    ensures TotalPreorder(ByCategory)
    ensures forall a, b :: ByCategory(a, b) ==> LexLeq(a.category, b.category)
  {
    LexIsTotalOrder();
    hide LexLeq;
    forall a, b ensures ByCategory(a, b) || ByCategory(b, a) {
    }
    forall a, b, c | ByCategory(a, b) && ByCategory(b, c) ensures ByCategory(a, c) {
    }
  }

  /** The coverage offered is what the case has, by category and identifier. */
  lemma {:induction false} CoverageIsOfferedByName(subject: Case)
    ensures multiset(CoverageCandidates(subject)) == multiset(subject.coverage)
    ensures forall i, j :: 0 <= i < j < |CoverageCandidates(subject)| ==>
      var a, b := CoverageCandidates(subject)[i], CoverageCandidates(subject)[j];
      LexLeq(a.category, b.category) && (a.category == b.category ==> LexLeq(a.id, b.id))
  {
    CategoryIsTotal();
    SortSorts(ByCategory, subject.coverage);
    hide Sort, TotalPreorder;
    forall i, j | 0 <= i < j < |CoverageCandidates(subject)| ensures ByCategory(CoverageCandidates(subject)[i], CoverageCandidates(subject)[j]) {
    }
  }

  /** The probes offered are the pending ones, each once, by name. */
  lemma {:induction false} ProbesAreOfferedOnce(pending: seq<string>)
    ensures Distinct(ProbeCandidates(pending)) && forall p :: p in ProbeCandidates(pending) <==> p in pending
    ensures Sorted(LexLeq, ProbeCandidates(pending))
  {
    LexIsTotalOrder();
    SortSorts(LexLeq, Unique(pending));
    UniqueMembers(pending);
    assert Map(Unchanged, Unique(pending)) == Unique(pending);
    SortKeepsKeys(LexLeq, Unchanged, Unique(pending));
    assert Map(Unchanged, ProbeCandidates(pending)) == ProbeCandidates(pending);
  }

  /** With distinct identifiers what is packed does not depend on the order in which the evidence is given. */
  lemma EvidenceOrderIrrelevant(a: seq<Item>, b: seq<Item>)
    requires multiset(a) == multiset(b) && Distinct(Map(ItemId, a))
    ensures Candidates(a) == Candidates(b)
  {
    LexIsTotalOrder();
    forall i, j | i in a && j in a && ByScore(i, j) && ByScore(j, i) ensures i == j {
      SameKey(ItemId, a, i, j);
    }
    SortForgetsOrder(ByScore, a, b);
  }

  /** What the finished brief of a selection says. */
  function BriefOf(x: Context, s: Selection): CaseBrief
    requires Within(x, s.evidence, s.coverage, s.probes)
  {
    CaseBrief(x.subject.id, x.revision, Render(x, s.evidence, s.coverage, s.probes), Included(s.evidence, s.coverage),
              Delta(x, s.evidence, s.coverage), x.evidence - |s.evidence|, x.coverage - |s.coverage|, x.probes - |s.probes|)
  }

  /** With distinct identifiers, cited and omitted add up to the candidates, and delta is what the brief before did not cite. */
  lemma {:induction false} BriefAddsUp(x: Context, s: Selection)
    requires Within(x, s.evidence, s.coverage, s.probes)
    requires Distinct(Map(ItemId, s.evidence) + Map(CoverageId, s.coverage))
    ensures var b := BriefOf(x, s);
      && |b.included| + b.omittedEvidence + b.omittedCoverage == x.evidence + x.coverage
      && b.omittedEvidence + |s.evidence| == x.evidence && b.omittedCoverage + |s.coverage| == x.coverage
      && b.omittedProbes + |s.probes| == x.probes
      && Distinct(b.delta) && forall id :: id in b.delta <==> id in b.included && id !in x.previous
  {
    UniqueOfDistinct(Map(ItemId, s.evidence) + Map(CoverageId, s.coverage));
    FilterDistinct(NotIn(x.previous), Included(s.evidence, s.coverage));
  }

  // ---- An envelope that fits only with a probe ----

  function PrintedTime(t: int): string { "2026-01-01T00:00:00Z" }

  function Unchanged(s: string): string { s }

  /** A case with the longest symptom that is printed whole. */
  function PlainCase(): Case {
    Case("case_" + seq(32, _ => '0'), "general", 0, 0, seq(160, _ => 'a'), [])
  }

  const PROBE := "core.system"

  function PlainContext(): Context { ContextOf(Style(PrintedTime, Unchanged), PlainCase(), [], [PROBE], None) }

  lemma OneWord(s: string)
    requires s != "" && forall i :: 0 <= i < |s| ==> !IsSpace(s[i])
    ensures Normalized(s) == s
  {
    assert WordEnd(s) == |s| && s[..|s|] == s && s[|s|..] == "";
    assert Words("") == [];
    assert Words(s) == [s];
  }

  lemma OneProbe()
    ensures ProbeCandidates([PROBE]) == [PROBE]
  {
    UniqueOfDistinct([PROBE]);
    assert [PROBE][1..] == [];
    assert Sort(LexLeq, []) == [];
  }

  lemma PlainHeaderWeight(x: Context)
    requires x == PlainContext()
    ensures Weight(Header(x)) >= 300
  {
    OneWord(x.subject.symptom);
    var lines := Header(x);
    assert |SymptomLine(x)| == 168;
    assert |CaseLine(x)| >= 60;
    assert |WindowLine(x)| == 49;
    hide SymptomLine, CaseLine, WindowLine;
    WeightOfSix(lines);
  }

  lemma WeightOfThree(a: string, b: string, c: string)
    ensures Weight([a, b]) == |a| + |b| + 2 && Weight([a, b, c]) == |a| + |b| + |c| + 3
  {
    assert [a, b][1..] == [b] && [a, b, c][1..] == [b, c] && [b, c][1..] == [c] && [b][1..] == [] && [c][1..] == [];
    assert Weight([b]) == |b| + 1 && Weight([c]) == |c| + 1;
  }

  lemma WeightOfSix(lines: seq<string>)
    requires |lines| == 6
    ensures Weight(lines) == |lines[0]| + |lines[1]| + |lines[2]| + |lines[3]| + |lines[4]| + |lines[5]| + 6
  {
    assert lines == [lines[0], lines[1], lines[2]] + [lines[3], lines[4], lines[5]];
    WeightConcat([lines[0], lines[1], lines[2]], [lines[3], lines[4], lines[5]]);
    WeightOfThree(lines[0], lines[1], lines[2]);
    WeightOfThree(lines[3], lines[4], lines[5]);
  }

  lemma FixedLinesWeight()
    ensures Weight(["LIMITATIONS", OBSERVATIONS + CONCLUSIONS + INSTRUCTIONS]) == 111
  {
    assert |OBSERVATIONS + CONCLUSIONS + INSTRUCTIONS| == 98 && |"LIMITATIONS"| == 11;
    WeightOfThree("LIMITATIONS", OBSERVATIONS + CONCLUSIONS + INSTRUCTIONS, "");
  }

  lemma PlainTextIsLong(x: Context)
    requires x == PlainContext() && x.probes == 1
    ensures |Render(x, [], [], [PROBE])| >= 512
  {
    RenderWeight(x, [], [], [PROBE]);
    PlainHeaderWeight(x);
    ProbeBlockWeight(x, PROBE);
    DeltaBlockOfNone(x);
    FooterWeight(x, 0, 0, 1);
    FixedLinesWeight();
    hide Render, Header, ProbeBlock, DeltaBlock, Footer, Decimal;
    assert EvidenceBlock(x, []) == ["- none"] by { assert Map(EvidenceLine(x.style), []) == []; }
    assert CoverageBlock(x, []) == ["- none"] by { assert Map(CoverageLine(x.style), []) == []; }
  }

  lemma PackOfOne<T>(fits: seq<T> -> bool, x: T)
    requires fits([x])
    ensures Pack(fits, [x]) == [x] && Pack(fits, []) == []
  {
    assert [x][..0] == [] && [] + [x] == [x];
  }

  /**
   It does happen: here is a case, and a budget of at least 512, for which the empty envelope is too long and `generate`
   succeeds, because it keeps the one pending probe.
   */
  lemma OnlyAProbeFits() returns (x: Context, max: nat)
    ensures x == PlainContext() && max >= 512
    ensures !Fits(x, max, [], [], [])
    ensures var s := Select(x, max, Candidates([]), CoverageCandidates(x.subject), ProbeCandidates([PROBE]));
      s == Selection([], [], [PROBE]) && Fits(x, max, s.evidence, s.coverage, s.probes)
  {
    x := PlainContext();
    OneProbe();
    max := |Render(x, [], [], [PROBE])|;
    PlainTextIsLong(x);
    ShortProbeShortens(x, PROBE);
    assert |PROBE| == 11;
    hide Render;
    PackOfOne(FitsProbes(x, max, [], []), PROBE);
  }

  lemma PackStep<T>(fits: seq<T> -> bool, candidates: seq<T>, i: nat)
    requires i < |candidates|
    ensures var before := Pack(fits, candidates[..i]);
      && (before + [candidates[i]])[..|before|] == before && |before| <= i
      && Pack(fits, candidates[..i + 1]) == if fits(before + [candidates[i]]) then before + [candidates[i]] else before
  {
    assert candidates[..i + 1][..i] == candidates[..i];
  }

  /** The citations that a brief lists can be read off its text. */
  lemma BriefReadsBack(x: Context, s: Selection)
    requires Within(x, s.evidence, s.coverage, s.probes) && Safe(x, s.evidence, s.coverage)
    ensures var b := BriefOf(x, s); var parsed := Parse(b.text);
      && Unique(parsed.evidence + parsed.coverage) == b.included
      && ((forall p :: p in s.probes ==> OneLine(p)) ==> parsed.delta == b.delta)
  {
    ParseBack(x, s.evidence, s.coverage, s.probes);
  }

  class BriefGenerator {
    const maxChars: nat

    constructor (maxChars: nat)
      requires maxChars >= 512
      ensures this.maxChars == maxChars
    {
      this.maxChars := maxChars;
    }

    method PackEvidence(x: Context, candidates: seq<Item>) returns (selected: seq<Item>)
      requires |candidates| == x.evidence
      ensures selected == Pack(FitsEvidence(x, maxChars), candidates)
    {
      hide Render;
      selected := [];
      for i := 0 to |candidates|
        invariant selected == Pack(FitsEvidence(x, maxChars), candidates[..i])
      {
        PackStep(FitsEvidence(x, maxChars), candidates, i);
        selected := selected + [candidates[i]];
        if |Render(x, selected, [], [])| > maxChars {
          selected := selected[..|selected| - 1];
        }
      }
      assert candidates[..|candidates|] == candidates;
    }

    method PackCoverage(x: Context, e: seq<Item>, candidates: seq<Coverage>) returns (selected: seq<Coverage>)
      requires |candidates| == x.coverage && |e| <= x.evidence
      ensures selected == Pack(FitsCoverage(x, maxChars, e), candidates)
    {
      hide Render;
      selected := [];
      for i := 0 to |candidates|
        invariant selected == Pack(FitsCoverage(x, maxChars, e), candidates[..i])
      {
        PackStep(FitsCoverage(x, maxChars, e), candidates, i);
        selected := selected + [candidates[i]];
        if |Render(x, e, selected, [])| > maxChars {
          selected := selected[..|selected| - 1];
        }
      }
      assert candidates[..|candidates|] == candidates;
    }

    method PackProbes(x: Context, e: seq<Item>, c: seq<Coverage>, candidates: seq<string>) returns (selected: seq<string>)
      requires |candidates| == x.probes && |e| <= x.evidence && |c| <= x.coverage
      ensures selected == Pack(FitsProbes(x, maxChars, e, c), candidates)
    {
      hide Render;
      selected := [];
      for i := 0 to |candidates|
        invariant selected == Pack(FitsProbes(x, maxChars, e, c), candidates[..i])
      {
        PackStep(FitsProbes(x, maxChars, e, c), candidates, i);
        selected := selected + [candidates[i]];
        if |Render(x, e, c, selected)| > maxChars {
          selected := selected[..|selected| - 1];
        }
      }
      assert candidates[..|candidates|] == candidates;
    }

    /** The three passes in their order, and the hard bound on the text. */
    method Generate(style: Style, subject: Case, evidence: seq<Item>, pending: seq<string>, previous: Option<CaseBrief>)
      returns (r: Result<CaseBrief, BriefError>)
      ensures previous.Some? && previous.value.caseId != subject.id ==> r == Err(DifferentCase)
      ensures r.Ok? ==> |r.value.text| <= maxChars && r.value.revision == Revision(previous) && r.value.caseId == subject.id
      ensures r.Ok? ==> r.value.revision == (match previous case None => 1 case Some(p) => p.revision + 1)
      ensures !(previous.Some? && previous.value.caseId != subject.id) ==>
        var x := ContextOf(style, subject, evidence, pending, previous);
        var s := Select(x, maxChars, Candidates(evidence), CoverageCandidates(subject), ProbeCandidates(pending));
        Within(x, s.evidence, s.coverage, s.probes) &&
        r == if Fits(x, maxChars, s.evidence, s.coverage, s.probes) then Ok(BriefOf(x, s)) else Err(BudgetTooSmall)
    {
      if previous.Some? && previous.value.caseId != subject.id {
        return Err(DifferentCase);
      }
      var x := ContextOf(style, subject, evidence, pending, previous);
      hide Render, Included, Delta, FitsEvidence, FitsCoverage, FitsProbes;
      var e := PackEvidence(x, Candidates(evidence));
      var c := PackCoverage(x, e, CoverageCandidates(subject));
      var p := PackProbes(x, e, c, ProbeCandidates(pending));
      var s := Selection(e, c, p);
      var text := Render(x, e, c, p);
      if |text| > maxChars {
        return Err(BudgetTooSmall);
      }
      return Ok(BriefOf(x, s));
    }
  }
}
