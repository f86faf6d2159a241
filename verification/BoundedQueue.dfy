/**
 The fixed-capacity priority queue of src/systemsense/collection/queue.py.

 The class keeps the source's list in arrival order and searches it for the worst or best element.
 `View` is what a client can observe: the elements in the order in which pops would return them.
 */
module BoundedQueue {
  import opened Results
  import opened Sequences
  import opened Ordering
  import opened Domain

  datatype Queued = Queued(sequence: nat, envelope: Envelope)

  datatype OfferResult = OfferResult(accepted: bool, evicted: Option<Envelope>, overflow: Option<CoverageEnvelope>)

  datatype State = State(items: seq<Queued>, nextSequence: nat)

  const EMPTY := State([], 0)

  /** The key (priority, sequence) that both searches compare. */
  predicate Before(a: Queued, b: Queued) {
    a.envelope.Header().priority < b.envelope.Header().priority
    || (a.envelope.Header().priority == b.envelope.Header().priority && a.sequence <= b.sequence)
  }

  predicate PriorityLeq(a: Envelope, b: Envelope) { a.Header().priority <= b.Header().priority }

  function WorstIndex(items: seq<Queued>): (w: nat)
    requires items != []
    ensures w < |items|
    ensures forall x :: x in items ==> Before(x, items[w])
  {
    if |items| == 1 then 0 else
      var w := 1 + WorstIndex(items[1..]);
      assert items == [items[0]] + items[1..];
      if Before(items[0], items[w]) then w else 0
  }

  function BestIndex(items: seq<Queued>): (b: nat)
    requires items != []
    ensures b < |items|
    ensures forall x :: x in items ==> Before(items[b], x)
  {
    if |items| == 1 then 0 else
      var b := 1 + BestIndex(items[1..]);
      assert items == [items[0]] + items[1..];
      if Before(items[0], items[b]) then 0 else b
  }

  function OverflowFor(dropped: Envelope): CoverageEnvelope {
    var h := dropped.Header();
    CreateCoverage(h.caseId, "ingestion", h.sourceId, Truncated, h.capturedAt,
                   "bounded queue dropped " + h.category + " envelope")
  }

  /** The element that an offer to this state removes or refuses. */
  function Dropped(s: State, maxSize: nat, envelope: Envelope): Option<Queued>
    requires 0 < maxSize
  {
    if |s.items| < maxSize then None else
      var worst := s.items[WorstIndex(s.items)];
      if envelope.Header().priority < worst.envelope.Header().priority then Some(worst) else Some(Queued(s.nextSequence, envelope))
  }

  function OfferStep(s: State, maxSize: nat, envelope: Envelope): (State, OfferResult)
    requires 0 < maxSize
  {
    var queued := Queued(s.nextSequence, envelope);
    if |s.items| < maxSize then
      (State(s.items + [queued], s.nextSequence + 1), OfferResult(true, None, None))
    else
      var w := WorstIndex(s.items);
      var worst := s.items[w].envelope;
      if envelope.Header().priority < worst.Header().priority then
        (State(s.items[..w] + s.items[w + 1..] + [queued], s.nextSequence + 1),
         OfferResult(true, Some(worst), Some(OverflowFor(worst))))
      else
        (State(s.items, s.nextSequence + 1), OfferResult(false, None, Some(OverflowFor(envelope))))
  }

  function PopStep(s: State): (State, Option<Envelope>) {
    if s.items == [] then (s, None) else
      var b := BestIndex(s.items);
      (State(s.items[..b] + s.items[b + 1..], s.nextSequence), Some(s.items[b].envelope))
  }

  ghost predicate ValidState(s: State, maxSize: nat) {
    && |s.items| <= maxSize
    && (forall i :: 0 <= i < |s.items| ==> s.items[i].sequence < s.nextSequence)
    && (forall i, j :: 0 <= i < j < |s.items| ==> s.items[i].sequence < s.items[j].sequence)
  }

  /** The queued elements in the order in which pops would return them. */
  function View(s: State): seq<Queued> { Sort(Before, s.items) }

  class BoundedEnvelopeQueue {
    const maxSize: nat
    var items: seq<Queued>
    var nextSequence: nat

    ghost predicate Valid()
      reads this
    {
      0 < maxSize && ValidState(Contents(), maxSize)
    }

    ghost function Contents(): State
      reads this
    {
      State(items, nextSequence)
    }

    constructor (maxSize: nat)
      requires 1 <= maxSize
      ensures Valid() && this.maxSize == maxSize && Contents() == EMPTY
    {
      this.maxSize := maxSize;
      items := [];
      nextSequence := 0;
    }

    method Offer(envelope: Envelope) returns (result: OfferResult)
      requires Valid()
      modifies this
      ensures Valid()
      ensures (Contents(), result) == OfferStep(old(Contents()), maxSize, envelope)
      ensures View(Contents())
           == Take(Insert(Before, Queued(old(nextSequence), envelope), View(old(Contents()))), maxSize)
      ensures Tells(old(Contents()), Contents(), maxSize, envelope, result)
    {
      OfferTells(Contents(), maxSize, envelope);
      hide Tells;
      OfferKeepsTheBest(Contents(), maxSize, envelope);
      OfferKeepsValid(Contents(), maxSize, envelope);
      var queued := Queued(nextSequence, envelope);
      nextSequence := nextSequence + 1;
      if |items| < maxSize {
        items := items + [queued];
        return OfferResult(true, None, None);
      }
      var w := WorstIndex(items);
      var worst := items[w].envelope;
      if envelope.Header().priority < worst.Header().priority {
        items := items[..w] + items[w + 1..];
        items := items + [queued];
        return OfferResult(true, Some(worst), Some(OverflowFor(worst)));
      }
      return OfferResult(false, None, Some(OverflowFor(envelope)));
    }

    /** `None` is the source's IndexError on an empty queue. */
    method Pop() returns (envelope: Option<Envelope>)
      requires Valid()
      modifies this
      ensures Valid()
      ensures (Contents(), envelope) == PopStep(old(Contents()))
      ensures View(old(Contents())) == [] ==> envelope == None && Contents() == old(Contents())
      ensures View(old(Contents())) != [] ==>
        && envelope == Some(View(old(Contents()))[0].envelope)
        && (forall x :: x in old(items) ==> envelope.value.Header().priority <= x.envelope.Header().priority)
        && View(Contents()) == View(old(Contents()))[1..]
    {
      if items == [] {
        return None;
      }
      hide View;
      PopTakesTheFirst(Contents(), maxSize);
      var b := BestIndex(items);
      var best := items[b];
      items := items[..b] + items[b + 1..];
      return Some(best.envelope);
    }
  }

  // ---- One step ----

  lemma BeforeIsTotal()
    ensures TotalPreorder(Before) && TotalPreorder(PriorityLeq)
  {
  }

  lemma NoQueuedTies(s: State, maxSize: nat)
    requires ValidState(s, maxSize)
    ensures NoTies(Before, s.items)
  {
    forall x, y | x in s.items && y in s.items && Before(x, y) && Before(y, x) ensures x == y {
      var i :| 0 <= i < |s.items| && s.items[i] == x;
      var j :| 0 <= j < |s.items| && s.items[j] == y;
    }
  }

  lemma {:induction false} OfferKeepsValid(s: State, maxSize: nat, e: Envelope)
    requires 0 < maxSize && ValidState(s, maxSize)
    ensures ValidState(OfferStep(s, maxSize, e).0, maxSize)
  {
    var q := Queued(s.nextSequence, e);
    if |s.items| < maxSize {
      EnterLast(s.items, q, maxSize);
    } else {
      var w := WorstIndex(s.items);
      LeaveOne(s.items, w, s.nextSequence, maxSize);
      EnterLast(s.items[..w] + s.items[w + 1..], q, maxSize);
    }
  }

  lemma EnterLast(items: seq<Queued>, q: Queued, maxSize: nat)
    requires |items| < maxSize && ValidState(State(items, q.sequence), maxSize)
    ensures ValidState(State(items + [q], q.sequence + 1), maxSize)
  {
  }

  lemma LeaveOne(items: seq<Queued>, w: nat, next: nat, maxSize: nat)
    requires w < |items| && ValidState(State(items, next), maxSize)
    ensures ValidState(State(items[..w] + items[w + 1..], next), maxSize)
  {
  }

  /** A full queue loses the greatest of the queued elements and the new one. */
  lemma OfferRemovesGreatest(s: State, maxSize: nat, e: Envelope) returns (k: nat)
    requires 0 < maxSize && ValidState(s, maxSize) && |s.items| == maxSize
    ensures var all := s.items + [Queued(s.nextSequence, e)];
      && k < |all| && (forall x :: x in all ==> Before(x, all[k]))
      && OfferStep(s, maxSize, e).0.items == all[..k] + all[k + 1..]
      && Dropped(s, maxSize, e) == Some(all[k])
  {
    var q := Queued(s.nextSequence, e);
    var all := s.items + [q];
    var w := WorstIndex(s.items);
    k := if e.Header().priority < s.items[w].envelope.Header().priority then w else maxSize;
    forall x | x in all ensures Before(x, all[k]) {
      if x in s.items {
        var i :| 0 <= i < |s.items| && s.items[i] == x;
      }
    }
  }

  /** An offer leaves exactly the `maxSize` best of what was queued and what was offered. */
  lemma OfferKeepsTheBest(s: State, maxSize: nat, e: Envelope)
    requires 0 < maxSize && ValidState(s, maxSize)
    ensures View(OfferStep(s, maxSize, e).0) == Take(Insert(Before, Queued(s.nextSequence, e), View(s)), maxSize)
  {
    var all := s.items + [Queued(s.nextSequence, e)];
    BeforeIsTotal();
    NoQueuedTies(State(all, s.nextSequence + 1), maxSize + 1);
    SortWithOneMore(Before, s.items, Queued(s.nextSequence, e));
    if |s.items| == maxSize {
      var k := OfferRemovesGreatest(s, maxSize, e);
      SortWithoutGreatest(Before, all, k);
    }
  }

  lemma PopKeepsValid(s: State, maxSize: nat)
    requires ValidState(s, maxSize) && s.items != []
    ensures ValidState(PopStep(s).0, maxSize)
  {
  }

  lemma PopTakesTheFirst(s: State, maxSize: nat)
    requires ValidState(s, maxSize) && s.items != []
    ensures ValidState(PopStep(s).0, maxSize)
    ensures View(s) != [] && PopStep(s).1 == Some(View(s)[0].envelope)
    ensures View(s)[0] == s.items[BestIndex(s.items)]
    ensures View(PopStep(s).0) == View(s)[1..]
  {
    hide TotalPreorder, NoTies, ValidState;
    BeforeIsTotal();
    NoQueuedTies(s, maxSize);
    PopKeepsValid(s, maxSize);
    SortWithoutLeast(Before, s.items, BestIndex(s.items));
  }

  /** A report of overflow says which case and source lost an envelope, and when. */
  ghost predicate ReportsOn(report: CoverageEnvelope, dropped: Envelope) {
    && report.status == Truncated
    && report.header.caseId == dropped.Header().caseId && report.header.sourceId == dropped.Header().sourceId
    && report.header.capturedAt == dropped.Header().capturedAt
    && report.header.category == "ingestion" && report.header.priority == CRITICAL
  }

  ghost predicate OnlyOneLeft(s: State, s': State, q: Queued) {
    q !in s'.items && forall other :: other in s.items && other != q ==> other in s'.items
  }

  /** What the answer to an offer says about the queue before and after. */
  ghost predicate Tells(s: State, s': State, maxSize: nat, e: Envelope, r: OfferResult) {
    var queued := Queued(s.nextSequence, e);
    && (r.accepted <==> queued in s'.items)
    && (r.overflow.Some? <==> |s.items| == maxSize)
    && (r.evicted.None? ==> forall q :: q in s.items ==> q in s'.items)
    && (r.evicted.Some? ==> r.accepted && exists q :: q in s.items && OnlyOneLeft(s, s', q) && q.envelope == r.evicted.value)
    && (r.overflow.Some? ==> (r.accepted <==> r.evicted.Some?) && ReportsOn(r.overflow.value, if r.accepted then r.evicted.value else e))
  }

  lemma OfferTells(s: State, maxSize: nat, e: Envelope)
    requires 0 < maxSize && ValidState(s, maxSize)
    ensures var (s', r) := OfferStep(s, maxSize, e); Tells(s, s', maxSize, e, r)
  {
    if |s.items| == maxSize {
      var w := WorstIndex(s.items);
      if e.Header().priority < s.items[w].envelope.Header().priority {
        OneLeaves(s.items, w, Queued(s.nextSequence, e));
        assert OnlyOneLeft(s, OfferStep(s, maxSize, e).0, s.items[w]);
      }
    }
  }

  lemma OneLeaves(items: seq<Queued>, w: nat, q: Queued)
    requires w < |items| && q !in items
    requires forall i, j :: 0 <= i < j < |items| ==> items[i].sequence < items[j].sequence
    ensures var left := items[..w] + items[w + 1..] + [q];
      q in left && items[w] !in left && forall other :: other in items && other != items[w] ==> other in left
  {
    var left := items[..w] + items[w + 1..] + [q];
    assert left[|left| - 1] == q;
    forall other | other in items && other != items[w] ensures other in left {
      var i :| 0 <= i < |items| && items[i] == other;
      assert left[if i < w then i else i - 1] == other;
    }
  }

  // ---- Offers, then a full drain ----

  function OfferAll(maxSize: nat, envelopes: seq<Envelope>): State
    requires 0 < maxSize
  {
    if envelopes == [] then EMPTY else
      OfferStep(OfferAll(maxSize, envelopes[..|envelopes| - 1]), maxSize, envelopes[|envelopes| - 1]).0
  }

  function Drain(s: State): seq<Envelope>
    decreases |s.items|
  {
    if s.items == [] then [] else [PopStep(s).1.value] + Drain(PopStep(s).0)
  }

  /** The offers tagged with their arrival numbers, counting from `first`. */
  function Tag(envelopes: seq<Envelope>, first: nat): seq<Queued> {
    seq(|envelopes|, i requires 0 <= i < |envelopes| => Queued(first + i, envelopes[i]))
  }

  function Untag(q: Queued): Envelope { q.envelope }

  lemma TagAppends(envelopes: seq<Envelope>, e: Envelope)
    ensures Tag(envelopes + [e], 0) == Tag(envelopes, 0) + [Queued(|envelopes|, e)]
  {
  }

  /** Keeping only the best k before an insertion does not change the best k after it. */
  lemma {:induction false} TakeInsert(q: Queued, xs: seq<Queued>, k: nat)
    ensures Take(Insert(Before, q, Take(xs, k)), k) == Take(Insert(Before, q, xs), k)
  {
    if xs != [] && k > 0 && !Before(q, xs[0]) {
      TakeInsert(q, xs[1..], k - 1);
      assert Take(xs, k)[1..] == Take(xs[1..], k - 1);
      assert Take(Insert(Before, q, xs), k) == [xs[0]] + Take(Insert(Before, q, xs[1..]), k - 1);
    }
  }

  lemma {:induction false} OffersKeepTheBest(maxSize: nat, envelopes: seq<Envelope>)
    requires 0 < maxSize
    ensures ValidState(OfferAll(maxSize, envelopes), maxSize)
    ensures OfferAll(maxSize, envelopes).nextSequence == |envelopes|
    ensures View(OfferAll(maxSize, envelopes)) == Take(Sort(Before, Tag(envelopes, 0)), maxSize)
  {
    if envelopes != [] {
      var n := |envelopes| - 1;
      var e := envelopes[n];
      var before := envelopes[..n];
      assert envelopes == before + [e];
      OffersKeepTheBest(maxSize, before);
      OfferKeepsTheBest(OfferAll(maxSize, before), maxSize, e);
      OfferKeepsValid(OfferAll(maxSize, before), maxSize, e);
      TakeInsert(Queued(n, e), Sort(Before, Tag(before, 0)), maxSize);
      SortOfAppend(before, e);
    }
  }

  lemma SortOfAppend(envelopes: seq<Envelope>, e: Envelope)
    ensures Sort(Before, Tag(envelopes + [e], 0))
         == Insert(Before, Queued(|envelopes|, e), Sort(Before, Tag(envelopes, 0)))
  {
    BeforeIsTotal();
    TagAppends(envelopes, e);
    SortWithOneMore(Before, Tag(envelopes, 0), Queued(|envelopes|, e));
  }

  /** Sorting by (priority, arrival) is the stable sort by priority. */
  lemma {:induction false} ArrivalOrderIsStability(envelopes: seq<Envelope>, first: nat)
    ensures Map(Untag, Sort(Before, Tag(envelopes, first))) == Sort(PriorityLeq, envelopes)
    ensures forall q :: q in Sort(Before, Tag(envelopes, first)) ==> first <= q.sequence
  {
    if envelopes != [] {
      assert Tag(envelopes, first)[1..] == Tag(envelopes[1..], first + 1);
      ArrivalOrderIsStability(envelopes[1..], first + 1);
      InsertUntagged(Queued(first, envelopes[0]), Sort(Before, Tag(envelopes[1..], first + 1)));
      InsertAdds(Before, Queued(first, envelopes[0]), Sort(Before, Tag(envelopes[1..], first + 1)));
    }
  }

  lemma {:induction false} InsertUntagged(q: Queued, xs: seq<Queued>)
    requires forall x :: x in xs ==> q.sequence < x.sequence
    ensures Map(Untag, Insert(Before, q, xs)) == Insert(PriorityLeq, q.envelope, Map(Untag, xs))
  {
    if xs != [] && !Before(q, xs[0]) {
      InsertUntagged(q, xs[1..]);
      assert Map(Untag, xs)[1..] == Map(Untag, xs[1..]);
    }
  }

  lemma {:induction false} DrainIsView(s: State, maxSize: nat)
    requires ValidState(s, maxSize)
    ensures Drain(s) == Map(Untag, View(s))
    decreases |s.items|
  {
    EmptyView(s);
    hide ValidState, View, PopStep;
    if s.items != [] {
      PopTakesTheFirst(s, maxSize);
      PopShrinks(s);
      DrainIsView(PopStep(s).0, maxSize);
      assert Map(Untag, View(s)) == [View(s)[0].envelope] + Map(Untag, View(s)[1..]);
    }
  }

  lemma EmptyView(s: State)
    ensures |View(s)| == |s.items|
  {
  }

  lemma PopShrinks(s: State)
    requires s.items != []
    ensures |PopStep(s).0.items| < |s.items|
  {
  }

  lemma PrioritiesRise(envelopes: seq<Envelope>, k: nat)
    ensures var taken := Take(Sort(PriorityLeq, envelopes), k);
      forall i, j :: 0 <= i < j < |taken| ==> taken[i].Header().priority <= taken[j].Header().priority
  {
    BeforeIsTotal();
    SortSorts(PriorityLeq, envelopes);
    var sorted := Sort(PriorityLeq, envelopes);
    hide Sort, TotalPreorder;
    forall i, j | 0 <= i < j < |Take(sorted, k)| ensures Take(sorted, k)[i].Header().priority <= Take(sorted, k)[j].Header().priority {
      assert PriorityLeq(sorted[i], sorted[j]);
    }
  }

  /** Main result: offers and then a full drain are "stable sort by priority, take maxSize". */
  lemma OfferThenDrain(maxSize: nat, envelopes: seq<Envelope>)
    requires 0 < maxSize
    ensures var drained := Drain(OfferAll(maxSize, envelopes));
      && drained == Take(Sort(PriorityLeq, envelopes), maxSize)
      && forall i, j :: 0 <= i < j < |drained| ==> drained[i].Header().priority <= drained[j].Header().priority
  {
    PrioritiesRise(envelopes, maxSize);
    OffersKeepTheBest(maxSize, envelopes);
    DrainIsView(OfferAll(maxSize, envelopes), maxSize);
    ArrivalOrderIsStability(envelopes, 0);
  }

  // ---- Any mix of offers and pops ----

  datatype Op = Offer(envelope: Envelope) | Pop

  datatype Run = Run(state: State, offered: seq<Envelope>, popped: seq<Queued>, dropped: seq<Queued>, reports: seq<CoverageEnvelope>)

  function Reports(r: OfferResult): seq<CoverageEnvelope> {
    if r.overflow.Some? then [r.overflow.value] else []
  }

  function RunOps(maxSize: nat, ops: seq<Op>): Run
    requires 0 < maxSize
  {
    if ops == [] then Run(EMPTY, [], [], [], []) else
      var r := RunOps(maxSize, ops[..|ops| - 1]);
      match ops[|ops| - 1]
      case Offer(e) =>
        var (s, result) := OfferStep(r.state, maxSize, e);
        var d := Dropped(r.state, maxSize, e);
        Run(s, r.offered + [e], r.popped, r.dropped + (if d.Some? then [d.value] else []), r.reports + Reports(result))
      case Pop =>
        if r.state.items == [] then r else
          Run(PopStep(r.state).0, r.offered, r.popped + [r.state.items[BestIndex(r.state.items)]], r.dropped, r.reports)
  }

  ghost predicate Accounted(maxSize: nat, r: Run) {
    && ValidState(r.state, maxSize)
    && r.state.nextSequence == |r.offered|
    && multiset(Tag(r.offered, 0)) == multiset(r.state.items) + multiset(r.popped) + multiset(r.dropped)
    && r.reports == Map(OverflowFor, Map(Untag, r.dropped))
  }

  /** What an offer does to the queued elements: the new one goes in, the dropped one goes out. */
  lemma {:induction false} OfferConserves(s: State, maxSize: nat, e: Envelope)
    requires 0 < maxSize && ValidState(s, maxSize)
    ensures var d := Dropped(s, maxSize, e); var (s', result) := OfferStep(s, maxSize, e);
      && multiset(s'.items) + (if d.Some? then multiset{d.value} else multiset{})
         == multiset(s.items) + multiset{Queued(s.nextSequence, e)}
      && s'.nextSequence == s.nextSequence + 1
      && Reports(result) == if d.Some? then [OverflowFor(d.value.envelope)] else []
  {
    if |s.items| == maxSize {
      var k := OfferRemovesGreatest(s, maxSize, e);
      RemoveAt(s.items + [Queued(s.nextSequence, e)], k);
    }
  }

  lemma {:induction false} AccountedOffer(maxSize: nat, r: Run, e: Envelope)
    requires 0 < maxSize && Accounted(maxSize, r)
    ensures var (s, result) := OfferStep(r.state, maxSize, e);
      var d := Dropped(r.state, maxSize, e);
      Accounted(maxSize, Run(s, r.offered + [e], r.popped, r.dropped + (if d.Some? then [d.value] else []), r.reports + Reports(result)))
  {
    hide ValidState, WorstIndex, OfferStep, Dropped, Tag;
    OfferKeepsValid(r.state, maxSize, e);
    OfferConserves(r.state, maxSize, e);
    TagAppends(r.offered, e);
    var d := Dropped(r.state, maxSize, e);
    var dropped := if d.Some? then [d.value] else [];
    assert multiset(r.dropped + dropped) == multiset(r.dropped) + multiset(dropped);
    MapConcat(Untag, r.dropped, dropped);
    MapConcat(OverflowFor, Map(Untag, r.dropped), Map(Untag, dropped));
    assert Map(OverflowFor, Map(Untag, dropped)) == Reports(OfferStep(r.state, maxSize, e).1);
    Exchange(multiset(r.state.items), multiset(r.popped), multiset(r.dropped),
             multiset(OfferStep(r.state, maxSize, e).0.items), multiset(dropped), multiset{Queued(r.state.nextSequence, e)});
  }

  lemma Exchange(items: multiset<Queued>, popped: multiset<Queued>, dropped: multiset<Queued>,
                 items': multiset<Queued>, loss: multiset<Queued>, gain: multiset<Queued>)
    requires items' + loss == items + gain
    ensures (items + popped + dropped) + gain == items' + popped + (dropped + loss)
  {
    assert (items + popped + dropped) + gain == (items + gain) + popped + dropped;
    assert (items' + loss) + popped + dropped == items' + popped + (dropped + loss);
  }

  lemma PopMoves(s: State, popped: seq<Queued>)
    requires s.items != []
    ensures var best := s.items[BestIndex(s.items)]; var s' := PopStep(s).0;
      && s'.nextSequence == s.nextSequence
      && multiset(s'.items) + multiset(popped + [best]) == multiset(s.items) + multiset(popped)
  {
    var b := BestIndex(s.items);
    MoveOne(s.items, b, popped);
  }

  lemma MoveOne(items: seq<Queued>, b: nat, popped: seq<Queued>)
    requires b < |items|
    ensures multiset(items[..b] + items[b + 1..]) + multiset(popped + [items[b]]) == multiset(items) + multiset(popped)
  {
    RemoveAt(items, b);
    var rest := items[..b] + items[b + 1..];
    assert multiset(items) == multiset(rest) + multiset{items[b]};
    assert multiset(popped + [items[b]]) == multiset(popped) + multiset{items[b]};
  }

  lemma {:induction false} AccountedPop(maxSize: nat, r: Run)
    requires Accounted(maxSize, r) && r.state.items != []
    ensures var best := r.state.items[BestIndex(r.state.items)];
      Accounted(maxSize, Run(PopStep(r.state).0, r.offered, r.popped + [best], r.dropped, r.reports))
  {
    hide ValidState, Tag, View, Map, PopStep;
    PopTakesTheFirst(r.state, maxSize);
    PopMoves(r.state, r.popped);
  }

  /**
   Main result: at any moment every offer is exactly one of queued, popped or dropped (arrival tags
   make the offers distinct), and the overflow reports are exactly those of the dropped envelopes.
   */
  lemma {:induction false} EveryEnvelopeAccountedFor(maxSize: nat, ops: seq<Op>)
    requires 0 < maxSize
    ensures Accounted(maxSize, RunOps(maxSize, ops))
    ensures Distinct(Tag(RunOps(maxSize, ops).offered, 0))
  {
    if ops != [] {
      hide Accounted, OfferStep, Dropped, PopStep;
      EveryEnvelopeAccountedFor(maxSize, ops[..|ops| - 1]);
      var r := RunOps(maxSize, ops[..|ops| - 1]);
      match ops[|ops| - 1]
      case Offer(e) =>
        AccountedOffer(maxSize, r, e);
        TagAppends(r.offered, e);
      case Pop =>
        if r.state.items != [] {
          AccountedPop(maxSize, r);
        }
    }
  }

  /** Main result: and each drop has its report. */
  lemma EveryDropReported(maxSize: nat, ops: seq<Op>)
    requires 0 < maxSize
    ensures var r := RunOps(maxSize, ops);
      |r.reports| == |r.dropped| && forall i :: 0 <= i < |r.reports| ==> ReportsOn(r.reports[i], r.dropped[i].envelope)
  {
    EveryEnvelopeAccountedFor(maxSize, ops);
  }

  /** Whatever an offer drops, everything kept at that moment comes before it; and only a full queue drops. */
  lemma DroppedNeverBeatsKept(s: State, maxSize: nat, e: Envelope)
    requires 0 < maxSize && ValidState(s, maxSize)
    ensures Dropped(s, maxSize, e).Some? <==> |s.items| == maxSize
    ensures Dropped(s, maxSize, e).Some? ==>
      forall x :: x in OfferStep(s, maxSize, e).0.items ==> NoLater(x, Dropped(s, maxSize, e).value)
  {
    if |s.items| == maxSize {
      var k := OfferRemovesGreatest(s, maxSize, e);
      var all := s.items + [Queued(s.nextSequence, e)];
      hide OfferStep, Dropped;
      forall x | x in OfferStep(s, maxSize, e).0.items ensures NoLater(x, Dropped(s, maxSize, e).value) {
        assert x in all;
        assert Before(x, all[k]);
      }
    }
  }

  /** At least as urgent, and if equally urgent no later. */
  ghost predicate NoLater(x: Queued, d: Queued) {
    && x.envelope.Header().priority <= d.envelope.Header().priority
    && (x.envelope.Header().priority == d.envelope.Header().priority ==> x.sequence <= d.sequence)
  }
}
