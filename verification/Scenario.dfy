/**
 The byte stream that benchmarks/ab/scenario.py hashes: every file of a scenario as a length-prefixed
 path and a length-prefixed content. `utf8` and `sha256` are arbitrary functions, injective where said.
 */
module Scenario {
  import opened Results
  import opened Sequences
  import opened Ordering

  newtype byte = i: int | 0 <= i < 256

  type Bytes = seq<byte>

  /** A member file: its path below the root in POSIX form, and its content. */
  datatype Member = Member(path: string, content: Bytes)

  datatype Entry = Entry(path: Bytes, content: Bytes)

  const LENGTH_BYTES := 8

  // ---- Big-endian lengths ----

  function Power(width: nat): nat { if width == 0 then 1 else 256 * Power(width - 1) }

  /** `n.to_bytes(width, "big")` */
  function BigEndian(n: nat, width: nat): (r: Bytes)
    ensures |r| == width
  {
    if width == 0 then [] else BigEndian(n / 256, width - 1) + [(n % 256) as byte]
  }

  function Number(bytes: Bytes): nat {
    if |bytes| == 0 then 0 else 256 * Number(bytes[..|bytes| - 1]) + bytes[|bytes| - 1] as nat
  }

  lemma {:induction false} NumberOfBigEndian(n: nat, width: nat)
    requires n < Power(width)
    ensures Number(BigEndian(n, width)) == n
  {
    if width > 0 {
      NumberOfBigEndian(n / 256, width - 1);
      assert BigEndian(n, width)[..width - 1] == BigEndian(n / 256, width - 1);
    }
  }

  // ---- The stream ----

  /** `to_bytes` raises for a length that does not fit. */
  predicate Encodable(e: Entry) { |e.path| < Power(LENGTH_BYTES) && |e.content| < Power(LENGTH_BYTES) }

  function Part(bytes: Bytes): Bytes { BigEndian(|bytes|, LENGTH_BYTES) + bytes }

  function Encode(entries: seq<Entry>): Bytes {
    if |entries| == 0 then [] else Part(entries[0].path) + (Part(entries[0].content) + Encode(entries[1..]))
  }

  /** A length-prefixed part and the rest of the stream. */
  function TakePart(stream: Bytes): (r: Option<(Bytes, Bytes)>)
    ensures r.Some? ==> |r.value.1| < |stream|
  {
    if |stream| < LENGTH_BYTES then None else
      var n, rest := Number(stream[..LENGTH_BYTES]), stream[LENGTH_BYTES..];
      if |rest| < n then None else Some((rest[..n], rest[n..]))
  }

  function Decode(stream: Bytes): Option<seq<Entry>>
    decreases |stream|
  {
    if |stream| == 0 then Some([]) else
      match TakePart(stream)
      case None => None
      case Some((path, rest)) =>
        match TakePart(rest)
        case None => None
        case Some((content, later)) =>
          match Decode(later)
          case None => None
          case Some(entries) => Some([Entry(path, content)] + entries)
  }

  lemma TakeAfterLength(length: Bytes, bytes: Bytes, rest: Bytes)
    requires |length| == LENGTH_BYTES && Number(length) == |bytes|
    ensures TakePart(length + bytes + rest) == Some((bytes, rest))
  {
    var stream := length + bytes + rest;
    assert stream[..LENGTH_BYTES] == length;
    assert stream[LENGTH_BYTES..] == bytes + rest;
  }

  lemma TakePartOfPart(bytes: Bytes, rest: Bytes)
    requires |bytes| < Power(LENGTH_BYTES)
    ensures TakePart(Part(bytes) + rest) == Some((bytes, rest))
  {
    NumberOfBigEndian(|bytes|, LENGTH_BYTES);
    hide TakePart;
    TakeAfterLength(BigEndian(|bytes|, LENGTH_BYTES), bytes, rest);
  }

  lemma TakeEntry(e: Entry, tail: Bytes)
    requires Encodable(e)
    ensures TakePart(Part(e.path) + (Part(e.content) + tail)) == Some((e.path, Part(e.content) + tail))
    ensures TakePart(Part(e.content) + tail) == Some((e.content, tail))
  {
    hide TakePart, Part, Power;
    TakePartOfPart(e.path, Part(e.content) + tail);
    TakePartOfPart(e.content, tail);
  }

  /** Main result: the stream delimits itself, so it decodes to exactly the entries that were written. */
  lemma {:induction false} DecodeOfEncode(entries: seq<Entry>)
    requires forall e :: e in entries ==> Encodable(e)
    ensures Decode(Encode(entries)) == Some(entries)
  {
    hide TakePart, Part, Encodable;
    if |entries| > 0 {
      TakeEntry(entries[0], Encode(entries[1..]));
      DecodeOfEncode(entries[1..]);
      assert entries == [entries[0]] + entries[1..];
    }
  }

  // ---- Scenarios ----

  predicate ByPath(a: Member, b: Member) { LexLeq(a.path, b.path) }

  function EntryOf(utf8: string -> Bytes): Member -> Entry { (m: Member) => Entry(utf8(m.path), m.content) }

  function Stream(utf8: string -> Bytes, members: seq<Member>): Bytes {
    Encode(Map(EntryOf(utf8), Sort(ByPath, members)))
  }

  /** A file listed twice is read twice, with the same content. */
  ghost predicate Consistent(members: seq<Member>) {
    forall a, b :: a in members && b in members && a.path == b.path ==> a.content == b.content
  }

  ghost predicate Injective<A(!new), B(!new)>(f: A -> B) {
    forall a, b :: f(a) == f(b) ==> a == b
  }

  ghost predicate Storable(utf8: string -> Bytes, members: seq<Member>) {
    forall m :: m in members ==> Encodable(EntryOf(utf8)(m))
  }

  lemma {:induction false} SortedByPath(members: seq<Member>)
    ensures Sorted(ByPath, Sort(ByPath, members)) && multiset(Sort(ByPath, members)) == multiset(members)
    ensures TotalPreorder(ByPath)
  {
    LexIsTotalOrder();
    SortSorts(ByPath, members);
  }

  /** Main result: the order in which the members are collected does not matter. */
  lemma MemberOrderIrrelevant(utf8: string -> Bytes, a: seq<Member>, b: seq<Member>)
    requires Consistent(a) && multiset(a) == multiset(b)
    ensures Stream(utf8, a) == Stream(utf8, b)
  {
    LexIsTotalOrder();
    forall x, y | x in a && y in a && ByPath(x, y) && ByPath(y, x) ensures x == y {
      assert x.path == y.path;
    }
    SortForgetsOrder(ByPath, a, b);
  }

  /** Main result: the stream is that of the members in ascending order of their paths. */
  lemma StreamInPathOrder(utf8: string -> Bytes, members: seq<Member>, ordered: seq<Member>)
    requires Consistent(members) && multiset(ordered) == multiset(members)
    requires forall i, j :: 0 <= i < j < |ordered| ==> LexLeq(ordered[i].path, ordered[j].path)
    ensures Stream(utf8, members) == Encode(Map(EntryOf(utf8), ordered))
  {
    SortedByPath(members);
    SameMembers(ordered, members);
    LexIsTotalOrder();
    forall x, y | x in ordered && y in ordered && ByPath(x, y) && ByPath(y, x) ensures x == y {
      assert x.path == y.path;
    }
    SortedUnique(ByPath, ordered, Sort(ByPath, members));
  }

  lemma SameSortedMembers(utf8: string -> Bytes, sa: seq<Member>, sb: seq<Member>)
    requires Injective(utf8) && Storable(utf8, sa) && Storable(utf8, sb)
    requires Encode(Map(EntryOf(utf8), sa)) == Encode(Map(EntryOf(utf8), sb))
    ensures sa == sb
  {
    DecodeOfEncode(Map(EntryOf(utf8), sa));
    DecodeOfEncode(Map(EntryOf(utf8), sb));
    EntryOfIsInjective(utf8);
  }

  lemma EntryOfIsInjective(utf8: string -> Bytes)
    requires Injective(utf8)
    ensures Injective(EntryOf(utf8))
  {
    forall a, b | EntryOf(utf8)(a) == EntryOf(utf8)(b) ensures a == b {
      assert utf8(a.path) == utf8(b.path);
      assert a.path == b.path;
    }
  }

  lemma {:induction false} StorableRearranged(utf8: string -> Bytes, members: seq<Member>)
    requires Storable(utf8, members)
    ensures Storable(utf8, Sort(ByPath, members)) && multiset(Sort(ByPath, members)) == multiset(members)
  {
    SortedByPath(members);
    SameMembers(Sort(ByPath, members), members);
  }

  /** Main result: equal streams come from the same files with the same contents, listed equally often. */
  lemma EqualStreams(utf8: string -> Bytes, a: seq<Member>, b: seq<Member>)
    requires Injective(utf8) && Storable(utf8, a) && Storable(utf8, b) && Stream(utf8, a) == Stream(utf8, b)
    ensures multiset(a) == multiset(b) && forall m :: m in a <==> m in b
  {
    StorableRearranged(utf8, a);
    StorableRearranged(utf8, b);
    hide Storable, Injective;
    SameSortedMembers(utf8, Sort(ByPath, a), Sort(ByPath, b));
    SameMembers(a, b);
  }

  /** The contents by path. */
  ghost function Contents(members: seq<Member>): map<string, Bytes>
    requires Consistent(members)
  {
    map m | m in members :: m.path := m.content
  }

  lemma ContentsAt(members: seq<Member>, m: Member)
    requires Consistent(members)
    ensures m in members <==> m.path in Contents(members) && Contents(members)[m.path] == m.content
  {
    if m.path in Contents(members) && Contents(members)[m.path] == m.content {
      var other :| other in members && other.path == m.path;
      assert other == m;
    }
  }

  lemma SameContents(a: seq<Member>, b: seq<Member>)
    requires Consistent(a) && Consistent(b) && Contents(a) == Contents(b)
    ensures forall m :: m in a <==> m in b
  {
    forall m ensures m in a <==> m in b {
      ContentsAt(a, m);
      ContentsAt(b, m);
    }
  }

  /**
   Main result: with an injective hash, content hashes are equal exactly when the same files are listed equally often; so
   for lists without repeats exactly when the contents by path are equal.
   */
  lemma {:induction false} HashIdentifiesTheFiles(utf8: string -> Bytes, sha256: Bytes -> string, a: seq<Member>, b: seq<Member>)
    requires Injective(utf8) && Injective(sha256) && Consistent(a) && Consistent(b) && Storable(utf8, a) && Storable(utf8, b)
    ensures sha256(Stream(utf8, a)) == sha256(Stream(utf8, b)) <==> multiset(a) == multiset(b)
    ensures sha256(Stream(utf8, a)) == sha256(Stream(utf8, b)) ==> Contents(a) == Contents(b)
    ensures Distinct(a) && Distinct(b) ==> (sha256(Stream(utf8, a)) == sha256(Stream(utf8, b)) <==> Contents(a) == Contents(b))
  {
    if Distinct(a) && Distinct(b) && Contents(a) == Contents(b) {
      SameContents(a, b);
      SameDistinctMembers(a, b);
    }
    if sha256(Stream(utf8, a)) == sha256(Stream(utf8, b)) {
      EqualStreams(utf8, a, b);
    }
    if multiset(a) == multiset(b) {
      MemberOrderIrrelevant(utf8, a, b);
    }
  }

  /** `_content_hash`: the digest object collects what it is updated with. */
  method ContentHash(members: seq<Member>, utf8: string -> Bytes, sha256: Bytes -> string) returns (hexdigest: string)
    requires Storable(utf8, members)
    ensures hexdigest == sha256(Stream(utf8, members))
  {
    var digest: Bytes := [];
    var sorted := Sort(ByPath, members);
    ghost var entries := Map(EntryOf(utf8), sorted);
    for i := 0 to |sorted|
      invariant digest == Encode(entries[..i])
    {
      var relative, content := utf8(sorted[i].path), sorted[i].content;
      EncodeOneMore(entries, i);
      digest := digest + BigEndian(|relative|, LENGTH_BYTES);
      digest := digest + relative;
      digest := digest + BigEndian(|content|, LENGTH_BYTES);
      digest := digest + content;
    }
    assert entries[..|sorted|] == entries;
    hexdigest := sha256(digest);
  }

  lemma EncodeOneMore(entries: seq<Entry>, i: nat)
    requires i < |entries|
    ensures var e := entries[i];
      Encode(entries[..i + 1]) == Encode(entries[..i]) + BigEndian(|e.path|, LENGTH_BYTES) + e.path + BigEndian(|e.content|, LENGTH_BYTES) + e.content
  {
    var e := entries[i];
    assert entries[..i + 1] == entries[..i] + [e];
    EncodeConcat(entries[..i], [e]);
    assert Encode([e]) == Part(e.path) + (Part(e.content) + []);
  }

  lemma {:induction false} EncodeConcat(a: seq<Entry>, b: seq<Entry>)
    ensures Encode(a + b) == Encode(a) + Encode(b)
  {
    if |a| == 0 {
      assert a + b == b;
    } else {
      assert (a + b)[1..] == a[1..] + b;
      EncodeConcat(a[1..], b);
    }
  }
}
