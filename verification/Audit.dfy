/**
 The hash-linked audit records of src/systemsense/audit.py.

 `hash` stands for SHA-256 of the canonical JSON of an entry without its event hash, and the two
 redaction functions for the Redactor; all three are arbitrary functions here.
 */
module Audit {
  import opened Results

  datatype Outcome = Allowed | Denied | Failed | TimedOut | Cancelled | Truncated

  datatype Payload = Payload(sequence: nat, eventId: string, caseId: Option<string>, probeId: string, outcome: Outcome,
                             occurredAt: int, parameters: map<string, string>, error: Option<string>, previousHash: string)

  datatype Entry = Entry(payload: Payload, eventHash: string)

  datatype Checkpoint = Checkpoint(entryCount: nat, headHash: string)

  datatype Reason = CountMismatch | SequenceMismatch | PreviousHashMismatch | EventHashMismatch | HeadMismatch

  datatype Verification = Verification(valid: bool, failureIndex: Option<nat>, reason: Option<Reason>)

  const GENESIS := "0000000000000000000000000000000000000000000000000000000000000000"

  function HeadHash(entries: seq<Entry>): string {
    if |entries| == 0 then GENESIS else entries[|entries| - 1].eventHash
  }

  function CheckpointOf(entries: seq<Entry>): Checkpoint { Checkpoint(|entries|, HeadHash(entries)) }

  /** Entry `i` continues the entries before it. */
  predicate LinkedAt(hash: Payload -> string, entries: seq<Entry>, i: nat)
    requires i < |entries|
  {
    && entries[i].payload.sequence == i + 1
    && entries[i].payload.previousHash == HeadHash(entries[..i])
    && entries[i].eventHash == hash(entries[i].payload)
  }

  ghost predicate Linked(hash: Payload -> string, entries: seq<Entry>) {
    forall i :: 0 <= i < |entries| ==> LinkedAt(hash, entries, i)
  }

  ghost predicate Accepts(hash: Payload -> string, entries: seq<Entry>, checkpoint: Checkpoint) {
    |entries| == checkpoint.entryCount && Linked(hash, entries) && HeadHash(entries) == checkpoint.headHash
  }

  /** The entry `append` adds after `entries`. */
  function NextEntry(hash: Payload -> string, entries: seq<Entry>, eventId: string, caseId: Option<string>, probeId: string,
                     outcome: Outcome, occurredAt: int, parameters: map<string, string>, error: Option<string>): Entry
  {
    var payload := Payload(|entries| + 1, eventId, caseId, probeId, outcome, occurredAt, parameters, error, HeadHash(entries));
    Entry(payload, hash(payload))
  }

  class AuditChain {
    const hash: Payload -> string
    const redactParameters: map<string, string> -> map<string, string>
    const redactText: string -> string
    var entries: seq<Entry>

    ghost predicate Valid()
      reads this
    {
      Linked(hash, entries)
    }

    constructor (hash: Payload -> string, redactParameters: map<string, string> -> map<string, string>, redactText: string -> string)
      ensures Valid() && entries == [] && this.hash == hash
      ensures this.redactParameters == redactParameters && this.redactText == redactText
    {
      this.hash, this.redactParameters, this.redactText := hash, redactParameters, redactText;
      entries := [];
    }

    method Append(eventId: string, caseId: Option<string>, probeId: string, outcome: Outcome, occurredAt: int,
                  parameters: map<string, string>, error: Option<string>) returns (entry: Entry)
      requires Valid()
      modifies this
      ensures Valid()
      ensures entries == old(entries) + [entry]
      ensures entry.payload.(sequence := 0, previousHash := "")
           == Payload(0, eventId, caseId, probeId, outcome, occurredAt, redactParameters(parameters),
                      if error == None then None else Some(redactText(error.value)), "")
    {
      var redacted := if error == None then None else Some(redactText(error.value));
      entry := NextEntry(hash, entries, eventId, caseId, probeId, outcome, occurredAt, redactParameters(parameters), redacted);
      AppendKeepsLinked(hash, entries, entry);
      entries := entries + [entry];
    }

    /** A chain built by appends is accepted against its own checkpoint. */
    method MakeCheckpoint() returns (checkpoint: Checkpoint)
      requires Valid()
      ensures Accepts(hash, entries, checkpoint)
    {
      checkpoint := Checkpoint(|entries|, HeadHash(entries));
    }
  }

  method Verify(hash: Payload -> string, entries: seq<Entry>, checkpoint: Checkpoint) returns (v: Verification)
    ensures v.valid <==> Accepts(hash, entries, checkpoint)
    ensures v.valid <==> v.reason.None?
    ensures v.reason == Some(CountMismatch) <==> |entries| != checkpoint.entryCount
    ensures v.failureIndex.Some? ==> |entries| == checkpoint.entryCount && FirstBadLink(hash, entries, v.failureIndex.value, v.reason)
    ensures v.reason == Some(HeadMismatch) <==>
      |entries| == checkpoint.entryCount && Linked(hash, entries) && HeadHash(entries) != checkpoint.headHash
  {
    if |entries| != checkpoint.entryCount {
      return Verification(false, None, Some(CountMismatch));
    }
    var previousHash := GENESIS;
    for i := 0 to |entries|
      invariant previousHash == HeadHash(entries[..i])
      invariant forall j :: 0 <= j < i ==> LinkedAt(hash, entries, j)
    {
      var entry := entries[i];
      ghost var linked := LinkedAt(hash, entries, i);
      if entry.payload.sequence != i + 1 {
        return Verification(false, Some(i), Some(SequenceMismatch));
      }
      if entry.payload.previousHash != previousHash {
        return Verification(false, Some(i), Some(PreviousHashMismatch));
      }
      if entry.eventHash != hash(entry.payload) {
        return Verification(false, Some(i), Some(EventHashMismatch));
      }
      previousHash := entry.eventHash;
    }
    assert entries[..|entries|] == entries;
    if previousHash != checkpoint.headHash {
      return Verification(false, None, Some(HeadMismatch));
    }
    return Verification(true, None, None);
  }

  /** Everything before `i` is correctly linked, and `reason` names the first check that entry `i` fails. */
  ghost predicate FirstBadLink(hash: Payload -> string, entries: seq<Entry>, i: nat, reason: Option<Reason>) {
    && i < |entries|
    && (forall j :: 0 <= j < i ==> LinkedAt(hash, entries, j))
    && var entry := entries[i];
       if entry.payload.sequence != i + 1 then reason == Some(SequenceMismatch)
       else if entry.payload.previousHash != HeadHash(entries[..i]) then reason == Some(PreviousHashMismatch)
       else entry.eventHash != hash(entry.payload) && reason == Some(EventHashMismatch)
  }

  lemma PrefixLinked(hash: Payload -> string, entries: seq<Entry>, n: nat)
    requires n <= |entries| && forall j :: 0 <= j < n ==> LinkedAt(hash, entries, j)
    ensures Linked(hash, entries[..n])
  {
    forall i | 0 <= i < n ensures LinkedAt(hash, entries[..n], i) {
      assert entries[..n][..i] == entries[..i];
      assert LinkedAt(hash, entries, i);
    }
  }

  lemma AppendKeepsLinked(hash: Payload -> string, entries: seq<Entry>, entry: Entry)
    requires Linked(hash, entries)
    requires entry.payload.sequence == |entries| + 1 && entry.payload.previousHash == HeadHash(entries)
    requires entry.eventHash == hash(entry.payload)
    ensures Linked(hash, entries + [entry])
  {
    var after := entries + [entry];
    forall i | 0 <= i < |after| ensures LinkedAt(hash, after, i) {
      assert after[..i] == entries[..i];
      if i < |entries| {
        assert LinkedAt(hash, entries, i);
      } else {
        assert entries[..i] == entries;
      }
    }
  }

  /** Two different entry bodies with one hash. */
  ghost predicate Collision(hash: Payload -> string, a: Payload, b: Payload) {
    a != b && hash(a) == hash(b)
  }

  /**
   Main result, without any assumption on the hash: two chains accepted against one checkpoint are
   equal, or some position of them exhibits a hash collision.
   */
  lemma {:induction false} TamperingNeedsACollision(hash: Payload -> string, a: seq<Entry>, b: seq<Entry>, checkpoint: Checkpoint)
    requires Accepts(hash, a, checkpoint) && Accepts(hash, b, checkpoint)
    ensures a == b || exists i :: 0 <= i < |a| && Collision(hash, a[i].payload, b[i].payload)
    decreases |a|
  {
    if |a| > 0 {
      var n := |a| - 1;
      assert LinkedAt(hash, a, n) && LinkedAt(hash, b, n);
      if a[n].payload == b[n].payload {
        PrefixLinked(hash, a, n);
        PrefixLinked(hash, b, n);
        TamperingNeedsACollision(hash, a[..n], b[..n], Checkpoint(n, HeadHash(a[..n])));
        if a[..n] == b[..n] {
          assert a == a[..n] + [a[n]] && b == b[..n] + [b[n]];
        } else {
          var i :| 0 <= i < n && Collision(hash, a[..n][i].payload, b[..n][i].payload);
          assert Collision(hash, a[i].payload, b[i].payload);
        }
      } else {
        assert Collision(hash, a[n].payload, b[n].payload);
      }
    }
  }

  ghost predicate Injective(hash: Payload -> string) {
    forall a, b :: hash(a) == hash(b) ==> a == b
  }

  /** Main result: with an injective hash the checkpoint determines the chain entry for entry. */
  lemma CheckpointDeterminesChain(hash: Payload -> string, a: seq<Entry>, b: seq<Entry>, checkpoint: Checkpoint)
    requires Injective(hash) && Accepts(hash, a, checkpoint) && Accepts(hash, b, checkpoint)
    ensures a == b
  {
    TamperingNeedsACollision(hash, a, b, checkpoint);
  }
}
