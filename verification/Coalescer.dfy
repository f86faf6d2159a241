/**
 The bounded grouping of repeated events of src/systemsense/collection/coalescer.py.

 The source's OrderedDict is the sequence of its values in dictionary order; a group carries its
 own key. The class proves, over every sequence of calls, that the dictionary is an exact LRU
 cache of the events added since the last flush.
 */
module Coalescer {
  import opened Results
  import opened Sequences
  import opened Domain

  datatype Key = Key(sourceId: string, fingerprint: Fingerprint)

  datatype Group = Group(sourceId: string, fingerprint: Fingerprint, representative: EvidenceEnvelope,
                         firstObservedAt: int, lastObservedAt: int, count: nat)

  function KeyOf(e: EvidenceEnvelope): Key { Key(e.header.sourceId, e.header.fingerprint) }

  function GroupKey(g: Group): Key { Key(g.sourceId, g.fingerprint) }

  function Keys(groups: seq<Group>): seq<Key> { Map(GroupKey, groups) }

  function Find(groups: seq<Group>, key: Key): (r: Option<nat>)
    ensures r.Some? ==> r.value < |groups| && GroupKey(groups[r.value]) == key
    ensures r.None? ==> key !in Keys(groups)
  {
    if groups == [] then None else if GroupKey(groups[0]) == key then Some(0) else
      var r := Find(groups[1..], key);
      assert groups == [groups[0]] + groups[1..];
      if r.Some? then Some(r.value + 1) else None
  }

  function Singleton(e: EvidenceEnvelope): Group {
    Group(e.header.sourceId, e.header.fingerprint, e, e.observedAt, e.observedAt, 1)
  }

  function Merge(g: Group, e: EvidenceEnvelope): Group {
    g.(lastObservedAt := Max(g.lastObservedAt, e.observedAt),
       firstObservedAt := Min(g.firstObservedAt, e.observedAt), count := g.count + 1)
  }

  // ---- What an event history means ----

  /** The distinct keys that arrived after the last occurrence of `key` (all of them if it never occurred). */
  ghost function Others(history: seq<EvidenceEnvelope>, key: Key): set<Key> {
    if history == [] then {} else
      var last := KeyOf(history[|history| - 1]);
      if last == key then {} else Others(history[..|history| - 1], key) + {last}
  }

  ghost predicate Seen(history: seq<EvidenceEnvelope>, key: Key) {
    exists i :: 0 <= i < |history| && KeyOf(history[i]) == key
  }

  /** Adding an event with this key would be a hit. */
  ghost predicate Hit(history: seq<EvidenceEnvelope>, key: Key, maxGroups: nat) {
    Seen(history, key) && |Others(history, key)| < maxGroups
  }

  /** The events with this key since it last entered the dictionary. */
  ghost function Residency(history: seq<EvidenceEnvelope>, key: Key, maxGroups: nat): seq<EvidenceEnvelope> {
    if history == [] then [] else
      var before, e := history[..|history| - 1], history[|history| - 1];
      if KeyOf(e) != key then Residency(before, key, maxGroups)
      else if Hit(before, key, maxGroups) then Residency(before, key, maxGroups) + [e]
      else [e]
  }

  /** The group summarises exactly these events. */
  ghost predicate Describes(g: Group, events: seq<EvidenceEnvelope>) {
    && g.count == |events| > 0
    && g.representative == events[0]
    && (forall i :: 0 <= i < |events| ==> KeyOf(events[i]) == GroupKey(g))
    && (forall i :: 0 <= i < |events| ==> g.firstObservedAt <= events[i].observedAt <= g.lastObservedAt)
    && (exists i :: 0 <= i < |events| && events[i].observedAt == g.firstObservedAt)
    && (exists i :: 0 <= i < |events| && events[i].observedAt == g.lastObservedAt)
  }

  ghost function KeySet(keys: seq<Key>): set<Key> { set k | k in keys }

  /** `keys` are exactly the recently seen keys, oldest use first. */
  ghost predicate RecencyOrder(keys: seq<Key>, history: seq<EvidenceEnvelope>, maxGroups: nat) {
    && |keys| <= maxGroups
    && Distinct(keys)
    && (forall p :: 0 <= p < |keys| ==> Seen(history, keys[p]))
    && (forall p :: 0 <= p < |keys| ==> Others(history, keys[p]) == KeySet(keys[p + 1..]))
    && (forall key :: Seen(history, key) && key !in keys ==> |keys| == maxGroups && KeySet(keys) <= Others(history, key))
  }

  ghost predicate Aggregates(groups: seq<Group>, history: seq<EvidenceEnvelope>, maxGroups: nat) {
    forall p :: 0 <= p < |groups| ==> Describes(groups[p], Residency(history, GroupKey(groups[p]), maxGroups))
  }

  ghost predicate Lru(groups: seq<Group>, history: seq<EvidenceEnvelope>, maxGroups: nat) {
    RecencyOrder(Keys(groups), history, maxGroups) && Aggregates(groups, history, maxGroups)
  }

  class EnvelopeCoalescer {
    const maxGroups: nat
    var groups: seq<Group>
    var evictedCount: nat
    ghost var history: seq<EvidenceEnvelope>  // the events added since the last flush
    ghost var adds: nat                       // how many were ever added
    ghost var evicted: seq<Group>             // the groups that left by eviction and by flush
    ghost var flushed: seq<Group>

    ghost predicate Valid()
      reads this
    {
      && 0 < maxGroups
      && Lru(groups, history, maxGroups)
      && Counts(groups) + Counts(evicted) + Counts(flushed) == adds
      && evictedCount == |evicted|
    }

    constructor (maxGroups: nat)
      requires 1 <= maxGroups
      ensures Valid() && this.maxGroups == maxGroups && history == [] && groups == []
      ensures adds == 0 && evicted == [] && flushed == []
    {
      this.maxGroups := maxGroups;
      EmptyIsLru(maxGroups);
      groups, evictedCount, history := [], 0, [];
      adds, evicted, flushed := 0, [], [];
    }

    method Length() returns (n: nat)
      requires Valid()
      ensures n == |groups|
    {
      n := |groups|;
    }

    /** The resident keys are those a further event would hit, ordered by last occurrence. */
    method KeysInOrder() returns (keys: seq<Key>)
      requires Valid()
      ensures keys == Keys(groups) && Distinct(keys)
      ensures forall key :: key in keys <==> Hit(history, key, maxGroups)
      ensures forall p :: 0 <= p < |keys| ==> Others(history, keys[p]) == KeySet(keys[p + 1..])
    {
      keys := Keys(groups);
      ResidentIffHit(Keys(groups), history, maxGroups);
    }

    method Add(e: EvidenceEnvelope) returns (group: Group)
      requires Valid()
      modifies this
      ensures Valid()
      ensures history == old(history) + [e]
      ensures groups != [] && groups[|groups| - 1] == group && GroupKey(group) == KeyOf(e)
      ensures Describes(group, Residency(history, KeyOf(e), maxGroups))
      ensures adds == old(adds) + 1 && flushed == old(flushed)
      ensures evicted == old(evicted) + if !Hit(old(history), KeyOf(e), maxGroups) && |old(groups)| == maxGroups
                                        then [old(groups)[0]] else []
    {
      hide Lru, Describes, Residency, Hit, Counts, Find;
      AddKeepsLru(groups, history, maxGroups, e);
      var found := Find(groups, KeyOf(e));
      if found.Some? {
        var i := found.value;
        group := Merge(groups[i], e);
        groups := groups[..i] + groups[i + 1..] + [group];
      } else {
        if |groups| == maxGroups {
          CountsConcat(evicted, [groups[0]]);
          evicted := evicted + [groups[0]];
          groups := groups[1..];
          evictedCount := evictedCount + 1;
        }
        group := Singleton(e);
        groups := groups + [group];
      }
      history, adds := history + [e], adds + 1;
    }

    method Flush() returns (result: seq<Group>)
      requires Valid()
      modifies this
      ensures Valid()
      ensures result == old(groups) && groups == [] && history == []
      ensures flushed == old(flushed) + old(groups) && evicted == old(evicted) && adds == old(adds)
    {
      hide Lru;
      EmptyIsLru(maxGroups);
      CountsConcat(flushed, groups);
      flushed := flushed + groups;
      result := groups;
      groups := [];
      history := [];
    }
  }

  // ---- Counting ----

  function Counts(groups: seq<Group>): nat {
    if groups == [] then 0 else groups[0].count + Counts(groups[1..])
  }

  lemma {:induction false} CountsConcat(a: seq<Group>, b: seq<Group>)
    ensures Counts(a + b) == Counts(a) + Counts(b)
  {
    if a == [] {
      assert a + b == b;
    } else {
      assert (a + b)[1..] == a[1..] + b;
      CountsConcat(a[1..], b);
    }
  }

  lemma {:induction false} CountsMove(groups: seq<Group>, i: nat, g: Group)
    requires i < |groups|
    ensures Counts(groups[..i] + groups[i + 1..] + [g]) == Counts(groups) - groups[i].count + g.count
  {
    assert groups == groups[..i] + ([groups[i]] + groups[i + 1..]);
    CountsConcat(groups[..i], [groups[i]] + groups[i + 1..]);
    CountsConcat(groups[..i], groups[i + 1..]);
    CountsConcat(groups[..i] + groups[i + 1..], [g]);
  }

  lemma KeysMove(groups: seq<Group>, i: nat, g: Group)
    requires i < |groups| && GroupKey(g) == GroupKey(groups[i])
    ensures var keys := Keys(groups);
      Keys(groups[..i] + groups[i + 1..] + [g]) == keys[..i] + keys[i + 1..] + [keys[i]]
  {
  }

  lemma KeysDropFirst(groups: seq<Group>)
    requires groups != []
    ensures Keys(groups[1..]) == Keys(groups)[1..]
  {
  }

  // ---- Recency ----

  lemma SeenAppend(history: seq<EvidenceEnvelope>, e: EvidenceEnvelope, key: Key)
    ensures Seen(history + [e], key) <==> key == KeyOf(e) || Seen(history, key)
    ensures Others(history + [e], key) == if key == KeyOf(e) then {} else Others(history, key) + {KeyOf(e)}
  {
    var after := history + [e];
    assert after[..|after| - 1] == history;
    assert after[|history|] == e;
    if Seen(history, key) {
      var i :| 0 <= i < |history| && KeyOf(history[i]) == key;
      assert after[i] == history[i];
    }
  }

  lemma {:induction false} KeySetSize(keys: seq<Key>)
    requires Distinct(keys)
    ensures |KeySet(keys)| == |keys|
  {
    if keys != [] {
      KeySetSize(keys[1..]);
      assert KeySet(keys) == KeySet(keys[1..]) + {keys[0]};
    }
  }

  lemma {:induction false} ResidentIffHit(keys: seq<Key>, history: seq<EvidenceEnvelope>, maxGroups: nat)
    requires RecencyOrder(keys, history, maxGroups)
    ensures forall key :: key in keys <==> Hit(history, key, maxGroups)
  {
    hide Seen, Others;
    forall key ensures key in keys <==> Hit(history, key, maxGroups) {
      if key in keys {
        var p :| 0 <= p < |keys| && keys[p] == key;
        KeySetSize(keys[p + 1..]);
      } else if Seen(history, key) {
        KeySetSize(keys);
        assert Others(history, key) == KeySet(keys) + (Others(history, key) - KeySet(keys));
      }
    }
  }

  /** One step of the recency argument: the used key moves or enters at the end. */
  lemma {:induction false} UseKeepsRecency(keys: seq<Key>, keys': seq<Key>, history: seq<EvidenceEnvelope>, maxGroups: nat, e: EvidenceEnvelope)
    requires RecencyOrder(keys, history, maxGroups)
    requires |keys'| <= maxGroups && Distinct(keys') && keys' != [] && keys'[|keys'| - 1] == KeyOf(e)
    // what stays keeps its place, and only the used key moves behind it
    requires forall p :: 0 <= p < |keys'| - 1 ==> Seen(history, keys'[p]) && Others(history, keys'[p]) + {KeyOf(e)} == KeySet(keys'[p + 1..])
    // what leaves or stays away saw everything that stays
    requires forall key :: Seen(history, key) && key !in keys' ==>
      |keys'| == maxGroups && KeySet(keys') <= Others(history, key) + {KeyOf(e)}
    ensures RecencyOrder(keys', history + [e], maxGroups)
  {
    hide Seen, Others;
    forall p | 0 <= p < |keys'|
      ensures Seen(history + [e], keys'[p]) && Others(history + [e], keys'[p]) == KeySet(keys'[p + 1..])
    {
      SeenAppend(history, e, keys'[p]);
    }
    forall key | Seen(history + [e], key) && key !in keys'
      ensures |keys'| == maxGroups && KeySet(keys') <= Others(history + [e], key)
    {
      SeenAppend(history, e, key);
    }
  }

  lemma MoveToEnd(keys: seq<Key>, i: nat)
    requires i < |keys| && Distinct(keys)
    ensures var keys' := keys[..i] + keys[i + 1..] + [keys[i]];
      && Distinct(keys') && (forall key :: key in keys' <==> key in keys)
      && (forall p :: 0 <= p < i ==> keys'[p] == keys[p] && KeySet(keys'[p + 1..]) == KeySet(keys[p + 1..]))
      && (forall p :: i <= p < |keys| - 1 ==> keys'[p] == keys[p + 1] && KeySet(keys'[p + 1..]) == KeySet(keys[p + 2..]) + {keys[i]})
  {
    var keys' := keys[..i] + keys[i + 1..] + [keys[i]];
    forall p | 0 <= p < i ensures keys'[p] == keys[p] && KeySet(keys'[p + 1..]) == KeySet(keys[p + 1..]) {
      assert keys'[p + 1..] == keys[p + 1..i] + keys[i + 1..] + [keys[i]];
      assert keys[p + 1..] == keys[p + 1..i] + [keys[i]] + keys[i + 1..];
    }
    forall p | i <= p < |keys| - 1
      ensures keys'[p] == keys[p + 1] && KeySet(keys'[p + 1..]) == KeySet(keys[p + 2..]) + {keys[i]}
    {
      assert keys'[p + 1..] == keys[p + 2..] + [keys[i]];
    }
    forall key ensures key in keys' <==> key in keys {
      if key in keys {
        var p :| 0 <= p < |keys| && keys[p] == key;
        assert keys'[if p < i then p else if p == i then |keys| - 1 else p - 1] == key;
      }
    }
  }

  lemma HitKeepsRecency(keys: seq<Key>, history: seq<EvidenceEnvelope>, maxGroups: nat, i: nat, e: EvidenceEnvelope)
    requires RecencyOrder(keys, history, maxGroups) && i < |keys| && keys[i] == KeyOf(e)
    ensures RecencyOrder(keys[..i] + keys[i + 1..] + [keys[i]], history + [e], maxGroups)
  {
    var keys' := keys[..i] + keys[i + 1..] + [keys[i]];
    MoveToEnd(keys, i);
    forall p | 0 <= p < i ensures Others(history, keys'[p]) + {KeyOf(e)} == KeySet(keys'[p + 1..]) {
      assert keys[p + 1..][i - p - 1] == KeyOf(e);
    }
    assert KeySet(keys') == KeySet(keys);
    UseKeepsRecency(keys, keys', history, maxGroups, e);
  }

  lemma {:induction false} MissKeepsRecency(keys: seq<Key>, history: seq<EvidenceEnvelope>, maxGroups: nat, e: EvidenceEnvelope)
    requires 0 < maxGroups && RecencyOrder(keys, history, maxGroups) && KeyOf(e) !in keys
    ensures RecencyOrder((if |keys| == maxGroups then keys[1..] else keys) + [KeyOf(e)], history + [e], maxGroups)
  {
    hide Seen, Others;
    var d := if |keys| == maxGroups then 1 else 0;
    var keys' := keys[d..] + [KeyOf(e)];
    assert Distinct(keys') && (forall key :: key in keys' <==> key in keys[d..] || key == KeyOf(e));
    forall p | 0 <= p < |keys'| - 1
      ensures Seen(history, keys'[p]) && Others(history, keys'[p]) + {KeyOf(e)} == KeySet(keys'[p + 1..])
    {
      assert keys'[p] == keys[p + d];
      assert keys'[p + 1..] == keys[p + d + 1..] + [KeyOf(e)];
    }
    forall key | Seen(history, key) && key !in keys'
      ensures |keys'| == maxGroups && KeySet(keys') <= Others(history, key) + {KeyOf(e)}
    {
      LeftOut(keys, history, maxGroups, key);
    }
    UseKeepsRecency(keys, keys', history, maxGroups, e);
  }

  /** A key seen before that is not among the keys kept by a miss saw all of them pass. */
  lemma LeftOut(keys: seq<Key>, history: seq<EvidenceEnvelope>, maxGroups: nat, key: Key)
    requires 0 < maxGroups && RecencyOrder(keys, history, maxGroups) && Seen(history, key)
    requires key !in (if |keys| == maxGroups then keys[1..] else keys)
    ensures |keys| == maxGroups && KeySet(keys[1..]) <= Others(history, key)
  {
    if key in keys {
      assert keys == [keys[0]] + keys[1..];
    }
  }

  // ---- Aggregates ----

  lemma ResidencyAppend(history: seq<EvidenceEnvelope>, e: EvidenceEnvelope, key: Key, maxGroups: nat)
    ensures Residency(history + [e], key, maxGroups)
         == if key != KeyOf(e) then Residency(history, key, maxGroups)
            else if Hit(history, key, maxGroups) then Residency(history, key, maxGroups) + [e] else [e]
  {
    var after := history + [e];
    assert after[..|after| - 1] == history && after[|history|] == e;
  }

  lemma MergeDescribes(g: Group, events: seq<EvidenceEnvelope>, e: EvidenceEnvelope)
    requires Describes(g, events) && KeyOf(e) == GroupKey(g)
    ensures Describes(Merge(g, e), events + [e])
  {
    var after, n := events + [e], |events|;
    var f :| 0 <= f < n && events[f].observedAt == g.firstObservedAt;
    var l :| 0 <= l < n && events[l].observedAt == g.lastObservedAt;
    assert after[f] == events[f] && after[l] == events[l] && after[n] == e;
  }

  lemma OtherGroupUnchanged(g: Group, history: seq<EvidenceEnvelope>, maxGroups: nat, e: EvidenceEnvelope)
    requires Describes(g, Residency(history, GroupKey(g), maxGroups)) && GroupKey(g) != KeyOf(e)
    ensures Describes(g, Residency(history + [e], GroupKey(g), maxGroups))
  {
    ResidencyAppend(history, e, GroupKey(g), maxGroups);
  }

  lemma HitKeepsAggregates(groups: seq<Group>, history: seq<EvidenceEnvelope>, maxGroups: nat, i: nat, e: EvidenceEnvelope)
    requires Distinct(Keys(groups)) && Aggregates(groups, history, maxGroups)
    requires i < |groups| && GroupKey(groups[i]) == KeyOf(e) && Hit(history, KeyOf(e), maxGroups)
    ensures Aggregates(groups[..i] + groups[i + 1..] + [Merge(groups[i], e)], history + [e], maxGroups)
    ensures Describes(Merge(groups[i], e), Residency(history + [e], KeyOf(e), maxGroups))
  {
    hide Describes, Residency, Hit;
    var groups' := groups[..i] + groups[i + 1..] + [Merge(groups[i], e)];
    MergeDescribes(groups[i], Residency(history, KeyOf(e), maxGroups), e);
    ResidencyAppend(history, e, KeyOf(e), maxGroups);
    forall p | 0 <= p < |groups'|
      ensures Describes(groups'[p], Residency(history + [e], GroupKey(groups'[p]), maxGroups))
    {
      if p < |groups| - 1 {
        var q := if p < i then p else p + 1;
        assert groups'[p] == groups[q];
        assert Keys(groups)[q] != Keys(groups)[i];
        OtherGroupUnchanged(groups[q], history, maxGroups, e);
      }
    }
  }

  lemma MissKeepsAggregates(groups: seq<Group>, history: seq<EvidenceEnvelope>, maxGroups: nat, e: EvidenceEnvelope)
    requires Aggregates(groups, history, maxGroups) && 0 < maxGroups
    requires KeyOf(e) !in Keys(groups) && !Hit(history, KeyOf(e), maxGroups)
    ensures var kept := if |groups| == maxGroups then groups[1..] else groups;
      Aggregates(kept + [Singleton(e)], history + [e], maxGroups)
    ensures Describes(Singleton(e), Residency(history + [e], KeyOf(e), maxGroups))
  {
    var d := if |groups| == maxGroups then 1 else 0;
    var groups' := groups[d..] + [Singleton(e)];
    ResidencyAppend(history, e, KeyOf(e), maxGroups);
    assert [e][0].observedAt == Singleton(e).firstObservedAt;
    assert Describes(Singleton(e), [e]);
    hide Describes, Residency, Hit;
    forall p | 0 <= p < |groups'|
      ensures Describes(groups'[p], Residency(history + [e], GroupKey(groups'[p]), maxGroups))
    {
      if p < |groups'| - 1 {
        assert groups'[p] == groups[p + d];
        assert Keys(groups)[p + d] != KeyOf(e);
        OtherGroupUnchanged(groups[p + d], history, maxGroups, e);
      }
    }
  }

  // ---- One call ----

  lemma EmptyIsLru(maxGroups: nat)
    ensures Lru([], [], maxGroups)
  {
  }

  lemma {:induction false} FoundIffHit(groups: seq<Group>, history: seq<EvidenceEnvelope>, maxGroups: nat, e: EvidenceEnvelope)
    requires Lru(groups, history, maxGroups)
    ensures KeyOf(e) in Keys(groups) <==> Hit(history, KeyOf(e), maxGroups)
    ensures Find(groups, KeyOf(e)).Some? <==> Hit(history, KeyOf(e), maxGroups)
    ensures |groups| <= maxGroups
  {
    ResidentIffHit(Keys(groups), history, maxGroups);
    var found := Find(groups, KeyOf(e));
    if found.Some? {
      assert Keys(groups)[found.value] == KeyOf(e);
    }
  }

  /** The dictionary after an `add`: the hit group moves to the end, a new one may push out the first. */
  function AddTo(groups: seq<Group>, maxGroups: nat, e: EvidenceEnvelope): (r: seq<Group>)
    ensures r != []
  {
    var found := Find(groups, KeyOf(e));
    if found.Some? then
      groups[..found.value] + groups[found.value + 1..] + [Merge(groups[found.value], e)]
    else
      (if |groups| == maxGroups > 0 then groups[1..] else groups) + [Singleton(e)]
  }

  lemma {:induction false} AddKeepsLru(groups: seq<Group>, history: seq<EvidenceEnvelope>, maxGroups: nat, e: EvidenceEnvelope)
    requires 0 < maxGroups && Lru(groups, history, maxGroups)
    ensures var groups' := AddTo(groups, maxGroups, e); var group := groups'[|groups'| - 1];
      && Lru(groups', history + [e], maxGroups)
      && Describes(group, Residency(history + [e], KeyOf(e), maxGroups)) && GroupKey(group) == KeyOf(e)
      && Counts(groups') + Counts(if !Hit(history, KeyOf(e), maxGroups) && |groups| == maxGroups then [groups[0]] else [])
         == Counts(groups) + 1
    ensures Find(groups, KeyOf(e)).Some? <==> Hit(history, KeyOf(e), maxGroups)
    ensures Counts([]) == 0
  {
    hide Lru, Describes, Residency, Hit, Find, Keys;
    FoundIffHit(groups, history, maxGroups, e);
    var found := Find(groups, KeyOf(e));
    if found.Some? {
      HitKeepsLru(groups, history, maxGroups, found.value, e);
      CountsMove(groups, found.value, Merge(groups[found.value], e));
    } else {
      MissKeepsLru(groups, history, maxGroups, e);
      CountsConcat(if |groups| == maxGroups then groups[1..] else groups, [Singleton(e)]);
    }
  }

  lemma {:induction false} HitKeepsLru(groups: seq<Group>, history: seq<EvidenceEnvelope>, maxGroups: nat, i: nat, e: EvidenceEnvelope)
    requires Lru(groups, history, maxGroups)
    requires i < |groups| && GroupKey(groups[i]) == KeyOf(e) && Hit(history, KeyOf(e), maxGroups)
    ensures Lru(groups[..i] + groups[i + 1..] + [Merge(groups[i], e)], history + [e], maxGroups)
    ensures Describes(Merge(groups[i], e), Residency(history + [e], KeyOf(e), maxGroups))
    ensures GroupKey(Merge(groups[i], e)) == KeyOf(e)
  {
    HitKeepsRecency(Keys(groups), history, maxGroups, i, e);
    HitKeepsAggregates(groups, history, maxGroups, i, e);
    KeysMove(groups, i, Merge(groups[i], e));
  }

  lemma {:induction false} MissKeepsLru(groups: seq<Group>, history: seq<EvidenceEnvelope>, maxGroups: nat, e: EvidenceEnvelope)
    requires 0 < maxGroups && Lru(groups, history, maxGroups)
    requires KeyOf(e) !in Keys(groups) && !Hit(history, KeyOf(e), maxGroups)
    ensures Lru((if |groups| == maxGroups then groups[1..] else groups) + [Singleton(e)], history + [e], maxGroups)
    ensures Describes(Singleton(e), Residency(history + [e], KeyOf(e), maxGroups))
    ensures GroupKey(Singleton(e)) == KeyOf(e) && Singleton(e).count == 1
  {
    hide RecencyOrder, Aggregates, Describes, Residency, Hit;
    var kept := if |groups| == maxGroups then groups[1..] else groups;
    MissKeepsRecency(Keys(groups), history, maxGroups, e);
    MissKeepsAggregates(groups, history, maxGroups, e);
    if |groups| == maxGroups {
      KeysDropFirst(groups);
    }
    MapConcat(GroupKey, kept, [Singleton(e)]);
    assert Keys(kept + [Singleton(e)]) == Keys(kept) + [KeyOf(e)];
  }

  /** `Others` read by positions: what lies after the last occurrence. */
  lemma {:induction false} OthersByPosition(history: seq<EvidenceEnvelope>, key: Key) returns (last: nat)
    requires Seen(history, key)
    ensures last < |history| && KeyOf(history[last]) == key
    ensures forall i :: last < i < |history| ==> KeyOf(history[i]) != key
    ensures Others(history, key) == set i | last < i < |history| :: KeyOf(history[i])
  {
    var n := |history| - 1;
    if KeyOf(history[n]) == key {
      last := n;
    } else {
      var i :| 0 <= i < |history| && KeyOf(history[i]) == key;
      assert history[..n][i] == history[i];
      last := OthersByPosition(history[..n], key);
      var before := set i | last < i < n :: KeyOf(history[..n][i]);
      forall k ensures k in before + {KeyOf(history[n])} <==> k in set i | last < i < |history| :: KeyOf(history[i]) {
        if k in before {
          var i :| last < i < n && KeyOf(history[..n][i]) == k;
          assert history[i] == history[..n][i];
        }
        if k in set i | last < i < |history| :: KeyOf(history[i]) {
          var i :| last < i < |history| && KeyOf(history[i]) == k;
          assert i == n || history[i] == history[..n][i];
        }
      }
    }
  }
}
