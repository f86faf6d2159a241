/**
 The single-writer thread of src/systemsense/storage/writer.py, as a concurrent protocol: any number
 of client threads in `execute` and `close`, one worker, and a step for each access to what they share.

 `run` is what an operation does to the database and what it returns or raises.
 */
module Writer {
  import opened Results

  /** What `_requests` carries: a request, or the None that stops the worker. */
  datatype Message<Op> = Request(op: Op) | Stop

  /** Where a client thread is. A future is named by the position of its request in the queue. */
  datatype Client<Op> =
    | Free
    | PassedCheck(op: Op)     // `execute`, before put
    | Waiting(ticket: nat)    // `execute`, in future.result()
    | SawOpen                 // `close`, before setting the flag
    | SetFlag                 // `close`, before put(None)
    | Joining                 // `close`, in join()

  datatype Worker<Answer> = Getting | Running(ticket: nat) | Answering(ticket: nat, answer: Answer) | Exited

  datatype Return<Answer> = Return(ticket: nat, answer: Answer)

  /**
   `log` is everything ever put on the queue and `head` how much of it has been taken; `answered` lists the
   calls that complete a future and `returned` what `execute` handed back. `late` are the requests that were
   put after the flag was set, and `owner` says which client put a request.
   */
  datatype System<Db, Op, Answer> = System(
    db: Db, log: seq<Message<Op>>, head: nat, closed: bool, worker: Worker<Answer>, clients: map<nat, Client<Op>>,
    answered: seq<Return<Answer>>, returned: seq<Return<Answer>>, ghost late: set<nat>, ghost owner: map<nat, nat>)

  datatype Step<Op> =
    | CheckExecute(c: nat, op: Op)
    | Put(c: nat)
    | Receive(c: nat)
    | CheckClose(c: nat)
    | Flag(c: nat)
    | PutStop(c: nat)
    | Joined(c: nat)
    | Get
    | Run
    | Complete

  function At<Db, Op, Answer>(s: System<Db, Op, Answer>, c: nat): Client<Op> {
    if c in s.clients then s.clients[c] else Free
  }

  function Move<Db, Op, Answer>(s: System<Db, Op, Answer>, c: nat, to: Client<Op>): System<Db, Op, Answer> {
    s.(clients := s.clients[c := to])
  }

  /** Steps that are not enabled leave the system as it is. */
  ghost function Next<Db, Op, Answer>(s: System<Db, Op, Answer>, step: Step<Op>, run: (Db, Op) -> (Db, Answer)): System<Db, Op, Answer> {
    match step
    case CheckExecute(c, op) => if At(s, c).Free? && !s.closed then Move(s, c, PassedCheck(op)) else s
    case Put(c) =>
      if At(s, c).PassedCheck?
      then Move(s, c, Waiting(|s.log|)).(log := s.log + [Request(At(s, c).op)], late := if s.closed then s.late + {|s.log|} else s.late,
                                            owner := s.owner[|s.log| := c])
      else s
    case Receive(c) =>
      if At(s, c).Waiting? && exists a :: a in s.answered && a.ticket == At(s, c).ticket then
        var a :| a in s.answered && a.ticket == At(s, c).ticket;
        Move(s, c, Free).(returned := s.returned + [a])
      else s
    case CheckClose(c) => if At(s, c).Free? && !s.closed then Move(s, c, SawOpen) else s
    case Flag(c) => if At(s, c).SawOpen? then Move(s, c, SetFlag).(closed := true) else s
    case PutStop(c) => if At(s, c).SetFlag? then Move(s, c, Joining).(log := s.log + [Stop]) else s
    case Joined(c) => if At(s, c).Joining? && s.worker.Exited? then Move(s, c, Free) else s
    case Get =>
      if s.worker.Getting? && s.head < |s.log|
      then s.(head := s.head + 1, worker := if s.log[s.head].Stop? then Exited else Running(s.head)) else s
    case Run =>
      if s.worker.Running? && s.worker.ticket < |s.log| && s.log[s.worker.ticket].Request? then
        var (db, answer) := run(s.db, s.log[s.worker.ticket].op);
        s.(db := db, worker := Answering(s.worker.ticket, answer))
      else s
    case Complete =>
      if s.worker.Answering?
      then s.(answered := s.answered + [Return(s.worker.ticket, s.worker.answer)], worker := Getting) else s
  }

  function Start<Db, Op, Answer>(db: Db): System<Db, Op, Answer> {
    System(db, [], 0, false, Getting, map[], [], [], {}, map[])
  }

  ghost function From<Db, Op, Answer>(s: System<Db, Op, Answer>, steps: seq<Step<Op>>, run: (Db, Op) -> (Db, Answer)): System<Db, Op, Answer> {
    if |steps| == 0 then s else Next(From(s, steps[..|steps| - 1], run), steps[|steps| - 1], run)
  }

  // ---- The sequential meaning ----

  /** The database after the operations of `log` in queue order. */
  function Fold<Db, Op, Answer>(db: Db, log: seq<Message<Op>>, run: (Db, Op) -> (Db, Answer)): Db {
    if |log| == 0 then db else
      var before := Fold(db, log[..|log| - 1], run);
      if log[|log| - 1].Request? then run(before, log[|log| - 1].op).0 else before
  }

  /** What request `k` returns when the operations are run one after another in queue order. */
  function AnswerAt<Db, Op, Answer>(db: Db, log: seq<Message<Op>>, k: nat, run: (Db, Op) -> (Db, Answer)): Answer
    requires k < |log| && log[k].Request?
  {
    run(Fold(db, log[..k], run), log[k].op).1
  }

  // ---- The invariant ----

  /** How many requests have been run. */
  function Ran<Db, Op, Answer>(s: System<Db, Op, Answer>): int {
    if s.worker.Running? || s.worker.Exited? then s.head - 1 else s.head
  }

  /** The worker has taken requests only, except for the marker that ended it. */
  ghost predicate WorkerInv<Db, Op, Answer>(s: System<Db, Op, Answer>) {
    && s.head <= |s.log|
    && (s.worker.Running? || s.worker.Answering? ==> s.head > 0 && s.worker.ticket == s.head - 1)
    && (s.worker.Exited? ==> s.head > 0 && s.log[s.head - 1].Stop?)
    && (forall k :: 0 <= k < s.head && !(s.worker.Exited? && k == s.head - 1) ==> s.log[k].Request?)
  }

  /** Futures complete once each, in queue order, with the answers of the sequential run. */
  ghost predicate AnswersInv<Db, Op, Answer>(s: System<Db, Op, Answer>, db: Db, run: (Db, Op) -> (Db, Answer)) {
    && WorkerInv(s)
    && s.db == Fold(db, s.log[..Ran(s)], run)
    && |s.answered| == (if s.worker.Getting? then s.head else s.head - 1)
    && (forall k :: 0 <= k < |s.answered| ==> s.answered[k] == Return(k, AnswerAt(db, s.log, k, run)))
    && (s.worker.Answering? ==> s.worker.answer == AnswerAt(db, s.log, s.worker.ticket, run))
  }

  /** Where the clients are, what they got, and which requests are late. */
  ghost predicate ClientsInv<Db, Op, Answer>(s: System<Db, Op, Answer>) {
    && (forall c :: c in s.clients && s.clients[c].Waiting? ==> s.clients[c].ticket < |s.log| && s.log[s.clients[c].ticket].Request?)
    && (forall c, d :: c in s.clients && d in s.clients && c != d && s.clients[c].Waiting? && s.clients[d].Waiting? ==>
          s.clients[c].ticket != s.clients[d].ticket)
    && (forall a :: a in s.returned ==> a in s.answered)
    && (forall c :: c in s.clients && (s.clients[c].SetFlag? || s.clients[c].Joining?) ==> s.closed)
    && (forall k :: 0 <= k < |s.log| && s.log[k].Stop? ==> s.closed)
    && (forall j, k :: 0 <= j < k < |s.log| && s.log[j].Stop? && s.log[k].Request? ==> k in s.late)
  }

  lemma FoldOne<Db, Op, Answer>(db: Db, log: seq<Message<Op>>, n: nat, run: (Db, Op) -> (Db, Answer))
    requires n < |log| && log[n].Request?
    ensures Fold(db, log[..n + 1], run) == run(Fold(db, log[..n], run), log[n].op).0
  {
    assert log[..n + 1][..n] == log[..n];
  }

  /** What is put on the queue does not change what has been taken from it. */
  lemma LogGrows<Db, Op, Answer>(s: System<Db, Op, Answer>, s': System<Db, Op, Answer>, m: Message<Op>, db: Db, run: (Db, Op) -> (Db, Answer))
    requires AnswersInv(s, db, run)
    requires s'.log == s.log + [m] && s'.db == s.db && s'.head == s.head && s'.worker == s.worker && s'.answered == s.answered
    ensures AnswersInv(s', db, run)
  {
    assert s'.log[..Ran(s)] == s.log[..Ran(s)];
    forall k | 0 <= k < s.head ensures s'.log[..k] == s.log[..k] && s'.log[k] == s.log[k] {
    }
  }

  lemma RunKeepsAnswers<Db, Op, Answer>(s: System<Db, Op, Answer>, db: Db, run: (Db, Op) -> (Db, Answer))
    requires AnswersInv(s, db, run)
    ensures AnswersInv(Next(s, Run, run), db, run)
  {
    if s.worker.Running? {
      FoldOne(db, s.log, s.worker.ticket, run);
    }
  }

  lemma GetKeepsAnswers<Db, Op, Answer>(s: System<Db, Op, Answer>, db: Db, run: (Db, Op) -> (Db, Answer))
    requires AnswersInv(s, db, run)
    ensures AnswersInv(Next(s, Get, run), db, run)
  {
  }

  lemma CompleteKeepsAnswers<Db, Op, Answer>(s: System<Db, Op, Answer>, db: Db, run: (Db, Op) -> (Db, Answer))
    requires AnswersInv(s, db, run)
    ensures AnswersInv(Next(s, Complete, run), db, run)
  {
  }

  ghost predicate SameQueue<Db, Op, Answer>(s: System<Db, Op, Answer>, s': System<Db, Op, Answer>) {
    s'.log == s.log && s'.db == s.db && s'.head == s.head && s'.worker == s.worker && s'.answered == s.answered
  }

  lemma SameQueueKeepsAnswers<Db, Op, Answer>(s: System<Db, Op, Answer>, s': System<Db, Op, Answer>, db: Db, run: (Db, Op) -> (Db, Answer))
    requires AnswersInv(s, db, run) && SameQueue(s, s')
    ensures AnswersInv(s', db, run)
  {
  }

  lemma {:induction false} NextKeepsAnswers<Db, Op, Answer>(s: System<Db, Op, Answer>, step: Step<Op>, db: Db, run: (Db, Op) -> (Db, Answer))
    requires AnswersInv(s, db, run)
    ensures AnswersInv(Next(s, step, run), db, run)
  {
    hide AnswersInv;
    var s' := Next(s, step, run);
    if step.Run? {
      RunKeepsAnswers(s, db, run);
    } else if step.Get? {
      GetKeepsAnswers(s, db, run);
    } else if step.Complete? {
      CompleteKeepsAnswers(s, db, run);
    } else if step.Put? && At(s, step.c).PassedCheck? {
      LogGrows(s, s', Request(At(s, step.c).op), db, run);
    } else if step.PutStop? && At(s, step.c).SetFlag? {
      LogGrows(s, s', Stop, db, run);
    } else {
      SameQueueKeepsAnswers(s, s', db, run);
    }
  }

  lemma MovePlain<Db, Op, Answer>(s: System<Db, Op, Answer>, s': System<Db, Op, Answer>, c: nat)
    requires ClientsInv(s) && s'.log == s.log && s'.late == s.late && (s.closed ==> s'.closed)
    requires s'.clients == s.clients[c := At(s', c)] && !At(s', c).Waiting?
    requires At(s', c).SetFlag? || At(s', c).Joining? ==> s'.closed
    requires forall a :: a in s'.returned ==> a in s'.answered
    ensures ClientsInv(s')
  {
  }

  lemma PutKeepsClients<Db, Op, Answer>(s: System<Db, Op, Answer>, c: nat, run: (Db, Op) -> (Db, Answer))
    requires ClientsInv(s) && At(s, c).PassedCheck?
    ensures ClientsInv(Next(s, Put(c), run))
  {
    var s' := Next(s, Put(c), run);
    assert forall k :: 0 <= k < |s.log| ==> s'.log[k] == s.log[k];
  }

  lemma PutStopKeepsClients<Db, Op, Answer>(s: System<Db, Op, Answer>, c: nat, run: (Db, Op) -> (Db, Answer))
    requires ClientsInv(s) && At(s, c).SetFlag?
    ensures ClientsInv(Next(s, PutStop(c), run))
  {
    var s' := Next(s, PutStop(c), run);
    assert forall k :: 0 <= k < |s.log| ==> s'.log[k] == s.log[k];
  }

  lemma WorkerKeepsClients<Db, Op, Answer>(s: System<Db, Op, Answer>, step: Step<Op>, run: (Db, Op) -> (Db, Answer))
    requires ClientsInv(s) && (step.Get? || step.Run? || step.Complete?)
    ensures ClientsInv(Next(s, step, run))
  {
  }

  lemma {:induction false} NextKeepsClients<Db, Op, Answer>(s: System<Db, Op, Answer>, step: Step<Op>, run: (Db, Op) -> (Db, Answer))
    requires ClientsInv(s)
    ensures ClientsInv(Next(s, step, run))
  {
    if step.Get? || step.Run? || step.Complete? {
      WorkerKeepsClients(s, step, run);
    } else if step.Receive? {
      if At(s, step.c).Waiting? {
        ReceiveKeepsClients(s, step.c, run);
      }
    } else if step.Put? {
      if At(s, step.c).PassedCheck? {
        PutKeepsClients(s, step.c, run);
      }
    } else if step.PutStop? {
      if At(s, step.c).SetFlag? {
        PutStopKeepsClients(s, step.c, run);
      }
    } else {
      CheckKeepsClients(s, step, run);
    }
  }

  lemma CheckKeepsClients<Db, Op, Answer>(s: System<Db, Op, Answer>, step: Step<Op>, run: (Db, Op) -> (Db, Answer))
    requires ClientsInv(s) && (step.CheckExecute? || step.CheckClose? || step.Flag? || step.Joined?)
    ensures ClientsInv(Next(s, step, run))
  {
    var s' := Next(s, step, run);
    if s' != s {
      hide ClientsInv;
      MovePlain(s, s', step.c);
    }
  }

  lemma ReceiveKeepsClients<Db, Op, Answer>(s: System<Db, Op, Answer>, c: nat, run: (Db, Op) -> (Db, Answer))
    requires ClientsInv(s) && At(s, c).Waiting?
    ensures ClientsInv(Next(s, Receive(c), run))
  {
    if exists a :: a in s.answered && a.ticket == At(s, c).ticket {
      MovePlain(s, Next(s, Receive(c), run), c);
    }
  }

  ghost predicate Inv<Db, Op, Answer>(s: System<Db, Op, Answer>, db: Db, run: (Db, Op) -> (Db, Answer)) {
    AnswersInv(s, db, run) && ClientsInv(s)
  }

  /** Main result: the invariant holds in every interleaving of clients, closers and worker. */
  lemma {:induction false} EveryInterleaving<Db, Op, Answer>(s: System<Db, Op, Answer>, steps: seq<Step<Op>>, db: Db, run: (Db, Op) -> (Db, Answer))
    requires Inv(s, db, run)
    ensures Inv(From(s, steps, run), db, run)
  {
    if |steps| > 0 {
      hide AnswersInv, ClientsInv, Next;
      var n := |steps| - 1;
      EveryInterleaving(s, steps[..n], db, run);
      NextKeepsAnswers(From(s, steps[..n], run), steps[n], db, run);
      NextKeepsClients(From(s, steps[..n], run), steps[n], run);
    }
  }

  lemma StartIsFine<Db, Op, Answer>(db: Db, run: (Db, Op) -> (Db, Answer))
    ensures Inv(Start<Db, Op, Answer>(db), db, run)
  {
  }

  // ---- What clients see ----

  /**
   Main result: whatever the interleaving, the database is the operations run one after another in queue order, and
   each `execute` that returns hands back what its operation returns at its place in that order.
   */
  lemma {:induction false} Linearizable<Db, Op, Answer>(db: Db, steps: seq<Step<Op>>, run: (Db, Op) -> (Db, Answer))
    ensures var s := From(Start(db), steps, run);
      && 0 <= Ran(s) <= |s.log| && s.db == Fold(db, s.log[..Ran(s)], run)
      && forall r :: r in s.returned ==>
           r.ticket < |s.log| && s.log[r.ticket].Request? && r.answer == AnswerAt(db, s.log, r.ticket, run)
  {
    StartIsFine<Db, Op, Answer>(db, run);
    EveryInterleaving(Start(db), steps, db, run);
    var s := From(Start(db), steps, run);
    forall r | r in s.returned
      ensures r.ticket < |s.log| && s.log[r.ticket].Request? && r.answer == AnswerAt(db, s.log, r.ticket, run)
    {
      var k :| 0 <= k < |s.answered| && s.answered[k] == r;
    }
  }

  /** How often future `k` was completed. */
  function Completions<Answer>(answered: seq<Return<Answer>>, k: nat): nat {
    if |answered| == 0 then 0
    else Completions(answered[..|answered| - 1], k) + if answered[|answered| - 1].ticket == k then 1 else 0
  }

  lemma {:induction false} CompletedOnce<Answer>(answered: seq<Return<Answer>>, k: nat)
    requires forall i :: 0 <= i < |answered| ==> answered[i].ticket == i
    ensures Completions(answered, k) == if k < |answered| then 1 else 0
  {
    if |answered| > 0 {
      CompletedOnce(answered[..|answered| - 1], k);
    }
  }

  /**
   Main result: no future is ever completed twice, and once the worker has exited every request ahead of its marker has
   been completed once and every request behind the marker not at all; those were put after the flag was set.
   */
  lemma AnsweredExactlyOnce<Db, Op, Answer>(s: System<Db, Op, Answer>, db: Db, run: (Db, Op) -> (Db, Answer), k: nat)
    requires Inv(s, db, run) && k < |s.log| && s.log[k].Request?
    ensures Completions(s.answered, k) <= 1
    ensures s.worker.Exited? ==> Completions(s.answered, k) == (if k < s.head - 1 then 1 else 0)
    ensures s.worker.Exited? && Completions(s.answered, k) == 0 ==> k in s.late
  {
    CompletedOnce(s.answered, k);
  }

  lemma ExitIsFinalStep<Db, Op, Answer>(s: System<Db, Op, Answer>, step: Step<Op>, run: (Db, Op) -> (Db, Answer))
    requires s.worker.Exited?
    ensures var s' := Next(s, step, run); s'.worker.Exited? && s'.answered == s.answered && s'.db == s.db
    ensures forall c :: At(s, c).Waiting? && (forall a :: a in s.answered ==> a.ticket != At(s, c).ticket) ==>
              At(Next(s, step, run), c) == At(s, c)
  {
  }

  /** Main result: a client whose request is behind the marker waits for ever. */
  lemma {:induction false} BehindTheMarkerHangs<Db, Op, Answer>(s: System<Db, Op, Answer>, steps: seq<Step<Op>>, db: Db,
                                                                run: (Db, Op) -> (Db, Answer), c: nat)
    requires Inv(s, db, run) && s.worker.Exited? && At(s, c).Waiting? && At(s, c).ticket >= s.head
    ensures var s' := From(s, steps, run); At(s', c) == At(s, c) && s'.db == s.db && s'.answered == s.answered && s'.worker.Exited?
  {
    if |steps| > 0 {
      hide Next;
      BehindTheMarkerHangs(s, steps[..|steps| - 1], db, run, c);
      ExitIsFinalStep(From(s, steps[..|steps| - 1], run), steps[|steps| - 1], run);
    }
  }

  /** It does happen: a client that checked the flag before `close` set it can put its request behind the marker. */
  lemma LostRequest<Db, Op, Answer>(db: Db, op: Op, run: (Db, Op) -> (Db, Answer)) returns (steps: seq<Step<Op>>)
    ensures var s := From(Start(db), steps, run);
      s.worker.Exited? && At(s, 0) == Waiting(1) && s.head == 1 && s.log == [Stop, Request(op)]
  {
    var s := Start<Db, Op, Answer>(db);
    steps := [];
    steps, s := Extend(db, steps, s, CheckExecute(0, op), run);
    steps, s := Extend(db, steps, s, CheckClose(1), run);
    steps, s := Extend(db, steps, s, Flag(1), run);
    steps, s := Extend(db, steps, s, PutStop(1), run);
    steps, s := Extend(db, steps, s, Put(0), run);
    steps, s := Extend(db, steps, s, Get, run);
  }

  lemma Extend<Db, Op, Answer>(db: Db, steps: seq<Step<Op>>, s: System<Db, Op, Answer>, step: Step<Op>, run: (Db, Op) -> (Db, Answer))
    returns (longer: seq<Step<Op>>, s': System<Db, Op, Answer>)
    requires s == From(Start(db), steps, run)
    ensures s' == Next(s, step, run) == From(Start(db), longer, run) && longer == steps + [step]
  {
    longer, s' := steps + [step], Next(s, step, run);
    assert longer[..|steps|] == steps;
  }

  /** Main result: an `execute` that returns has the answer to its own request, what its operation returns at its place. */
  lemma ExecuteReturnsItsOwn<Db, Op, Answer>(s: System<Db, Op, Answer>, step: Step<Op>, db: Db, run: (Db, Op) -> (Db, Answer), c: nat)
    requires Inv(s, db, run) && At(s, c).Waiting? && !At(Next(s, step, run), c).Waiting?
    ensures var k := At(s, c).ticket;
      && k < |s.log| && s.log[k].Request? && At(Next(s, step, run), c).Free?
      && Next(s, step, run).returned == s.returned + [Return(k, AnswerAt(db, s.log, k, run))]
  {
    hide AnswerAt, Fold;
  }

  // ---- What the closed check is for ----

  /**
   From a closed state on: a client that is in no call enters none, and every request comes from a client that had
   passed the check before, one from each.
   */
  ghost predicate ShutSince<Db, Op, Answer>(s: System<Db, Op, Answer>, s': System<Db, Op, Answer>) {
    && s'.closed && s.log <= s'.log
    && (forall c :: At(s, c).Free? ==> At(s', c).Free?)
    && (forall c :: At(s', c).PassedCheck? ==> At(s, c) == At(s', c))
    && (forall k :: IsNew(s, s', k) ==> k in s'.owner && HadPassed(s, s', k) && !At(s', s'.owner[k]).PassedCheck?)
    && (forall j, k :: IsNew(s, s', j) && IsNew(s, s', k) && j != k ==> s'.owner[j] != s'.owner[k])
  }

  /** A request put since `s`. */
  ghost predicate IsNew<Db, Op, Answer>(s: System<Db, Op, Answer>, s': System<Db, Op, Answer>, k: nat) {
    |s.log| <= k < |s'.log| && s'.log[k].Request?
  }

  /** Its client had passed the check in `s`, with this operation. */
  ghost predicate HadPassed<Db, Op, Answer>(s: System<Db, Op, Answer>, s': System<Db, Op, Answer>, k: nat)
    requires k in s'.owner && k < |s'.log| && s'.log[k].Request?
  {
    At(s, s'.owner[k]) == PassedCheck(s'.log[k].op)
  }

  lemma {:induction false} ShutStep<Db, Op, Answer>(s: System<Db, Op, Answer>, s': System<Db, Op, Answer>, step: Step<Op>, run: (Db, Op) -> (Db, Answer))
    requires ShutSince(s, s')
    ensures ShutSince(s, Next(s', step, run))
  {
    var next := Next(s', step, run);
    match step
    case Put(c) => if At(s', c).PassedCheck? { ShutPut(s, s', c, run); }
    case PutStop(c) => if At(s', c).SetFlag? { ShutPutStop(s, s', c, run); }
    case Receive(c) => if next != s' { ShutMove(s, s', next, c); }
    case Joined(c) => if next != s' { ShutMove(s, s', next, c); }
    case Flag(c) => if At(s', c).SawOpen? { ShutMove(s, s', next, c); }
    case _ =>
  }

  lemma ShutMove<Db, Op, Answer>(s: System<Db, Op, Answer>, s': System<Db, Op, Answer>, next: System<Db, Op, Answer>, c: nat)
    requires ShutSince(s, s') && next.log == s'.log && next.owner == s'.owner && next.closed
    requires next.clients == s'.clients[c := At(next, c)] && !At(next, c).PassedCheck?
    requires At(s', c).Free? ==> At(next, c).Free?
    ensures ShutSince(s, next)
  {
    assert forall x :: x != c ==> At(next, x) == At(s', x);
    assert forall k :: IsNew(s, next, k) ==> IsNew(s, s', k);
  }

  lemma ShutPut<Db, Op, Answer>(s: System<Db, Op, Answer>, s': System<Db, Op, Answer>, c: nat, run: (Db, Op) -> (Db, Answer))
    requires ShutSince(s, s') && At(s', c).PassedCheck?
    ensures ShutSince(s, Next(s', Put(c), run))
  {
    var next, n := Next(s', Put(c), run), |s'.log|;
    assert forall x :: x != c ==> At(next, x) == At(s', x);
    assert forall k :: IsNew(s, next, k) ==> k == n || IsNew(s, s', k);
  }

  lemma ShutPutStop<Db, Op, Answer>(s: System<Db, Op, Answer>, s': System<Db, Op, Answer>, c: nat, run: (Db, Op) -> (Db, Answer))
    requires ShutSince(s, s') && At(s', c).SetFlag?
    ensures ShutSince(s, Next(s', PutStop(c), run))
  {
    var next := Next(s', PutStop(c), run);
    assert forall x :: x != c ==> At(next, x) == At(s', x);
    assert forall k :: IsNew(s, next, k) ==> IsNew(s, s', k);
  }

  /** Main result: from a closed state on, no execute or close gets past its check any more. */
  lemma {:induction false} ClosedStaysShut<Db, Op, Answer>(s: System<Db, Op, Answer>, steps: seq<Step<Op>>, run: (Db, Op) -> (Db, Answer))
    requires s.closed
    ensures ShutSince(s, From(s, steps, run))
  {
    if |steps| > 0 {
      hide ShutSince, Next;
      ClosedStaysShut(s, steps[..|steps| - 1], run);
      ShutStep(s, From(s, steps[..|steps| - 1], run), steps[|steps| - 1], run);
    }
  }

  lemma {:induction false} FromSplit<Db, Op, Answer>(s: System<Db, Op, Answer>, steps: seq<Step<Op>>, i: nat, run: (Db, Op) -> (Db, Answer))
    requires i <= |steps|
    ensures From(s, steps, run) == From(From(s, steps[..i], run), steps[i..], run)
  {
    if i == |steps| {
      assert steps[..i] == steps;
    } else {
      hide Next;
      var most := steps[..|steps| - 1];
      FromSplit(s, most, i, run);
      assert most[..i] == steps[..i] && steps[i..][..|steps[i..]| - 1] == most[i..];
    }
  }

  /** A closed writer was closed by one step of one `close`. */
  lemma {:induction false} FlagWasSet<Db, Op, Answer>(db: Db, steps: seq<Step<Op>>, run: (Db, Op) -> (Db, Answer)) returns (i: nat)
    requires From(Start<Db, Op, Answer>(db), steps, run).closed
    ensures i < |steps| && steps[i].Flag?
    ensures !From(Start<Db, Op, Answer>(db), steps[..i], run).closed && From(Start<Db, Op, Answer>(db), steps[..i + 1], run).closed
  {
    var n := |steps| - 1;
    if From(Start<Db, Op, Answer>(db), steps[..n], run).closed {
      i := FlagWasSet(db, steps[..n], run);
      assert steps[..n][..i] == steps[..i] && steps[..n][..i + 1] == steps[..i + 1];
    } else {
      i := n;
      assert steps[..n + 1] == steps;
    }
  }

  /** Who may lose a request: `s` is the moment before the flag was set, `s'` any later one. */
  ghost predicate LostOnlyIfChecked<Db, Op, Answer>(s: System<Db, Op, Answer>, s': System<Db, Op, Answer>) {
    && (forall c :: At(s, c).Free? ==> At(s', c).Free?)
    && (forall k :: IsLost(s', k) ==> IsNew(s, s', k) && k in s'.owner && HadPassed(s, s', k))
    && (forall j, k :: IsLost(s', j) && IsLost(s', k) && j in s'.owner && k in s'.owner && j != k ==> s'.owner[j] != s'.owner[k])
  }

  ghost predicate IsLost<Db, Op, Answer>(s: System<Db, Op, Answer>, k: nat) {
    s.worker.Exited? && k < |s.log| && s.log[k].Request? && Completions(s.answered, k) == 0
  }

  /**
   Main result, over every run that closes the writer: a request is never answered only if its client had passed the closed
   check before the flag was set and had not yet put it; each such client loses at most one; and a client in no call at
   that moment is refused ever after.
   */
  lemma {:induction false} OnlyCheckedAreLost<Db, Op, Answer>(db: Db, steps: seq<Step<Op>>, run: (Db, Op) -> (Db, Answer)) returns (i: nat)
    requires From(Start<Db, Op, Answer>(db), steps, run).closed
    ensures i < |steps| && steps[i].Flag? && !From(Start<Db, Op, Answer>(db), steps[..i], run).closed
    ensures LostOnlyIfChecked(From(Start<Db, Op, Answer>(db), steps[..i], run), From(Start<Db, Op, Answer>(db), steps, run))
  {
    i := FlagWasSet(db, steps, run);
    var start := Start<Db, Op, Answer>(db);
    var before, after, last := From(start, steps[..i], run), From(start, steps[..i + 1], run), From(start, steps, run);
    hide Inv;
    StartIsFine<Db, Op, Answer>(db, run);
    EveryInterleaving(start, steps[..i], db, run);
    EveryInterleaving(start, steps, db, run);
    FromSplit(start, steps, i + 1, run);
    assert steps[..i + 1][..i] == steps[..i];
    assert after == Next(before, steps[i], run);
    ClosedStaysShut(after, steps[i + 1..], run);
    hide Next, ShutSince, LostOnlyIfChecked;
    FlagThenShut(before, after, last, steps[i], db, run);
  }

  lemma FlagThenShut<Db, Op, Answer>(before: System<Db, Op, Answer>, after: System<Db, Op, Answer>, last: System<Db, Op, Answer>, step: Step<Op>,
                                     db: Db, run: (Db, Op) -> (Db, Answer))
    requires Inv(before, db, run) && Inv(last, db, run) && !before.closed && step.Flag? && after == Next(before, step, run)
    requires ShutSince(after, last)
    ensures LostOnlyIfChecked(before, last)
  {
    assert after.log == before.log && forall c :: c != step.c ==> At(after, c) == At(before, c);
    forall k | IsLost(last, k) ensures IsNew(after, last, k) {
      AnsweredExactlyOnce(last, db, run, k);
      assert last.log[last.head - 1].Stop? && last.head - 1 < k;
      assert forall j :: 0 <= j < |before.log| ==> last.log[j] == before.log[j];
    }
  }

  // ---- Progress ----

  /** The position of the first marker, or the length of the queue. */
  function FirstStop<Op>(log: seq<Message<Op>>): (n: nat)
    ensures n <= |log| && (n < |log| ==> log[n].Stop?) && forall k :: 0 <= k < n ==> log[k].Request?
  {
    if |log| == 0 || log[0].Stop? then 0 else FirstStop(log[1..]) + 1
  }

  /** Worker steps left until it exits, once there is a marker. */
  ghost function Left<Db, Op, Answer>(s: System<Db, Op, Answer>): int {
    if s.worker.Exited? then 0
    else 3 * (FirstStop(s.log) - s.head) + 1 + (match s.worker case Running(_) => 2 case Answering(_, _) => 1 case _ => 0)
  }

  function WorkerStep<Db, Op, Answer>(s: System<Db, Op, Answer>): Step<Op> {
    match s.worker case Running(_) => Run case Answering(_, _) => Complete case _ => Get
  }

  lemma {:induction false} FirstStopStays<Op>(log: seq<Message<Op>>, m: Message<Op>)
    requires FirstStop(log) < |log|
    ensures FirstStop(log + [m]) == FirstStop(log)
  {
    var a, b := FirstStop(log), FirstStop(log + [m]);
    assert (log + [m])[a] == log[a];
    assert b < |log + [m]| ==> (log + [m])[b].Stop?;
  }

  lemma HeadBeforeMarker<Db, Op, Answer>(s: System<Db, Op, Answer>)
    requires WorkerInv(s) && !s.worker.Exited? && FirstStop(s.log) < |s.log|
    ensures s.head <= FirstStop(s.log)
  {
    assert s.log[FirstStop(s.log)].Stop?;
  }

  lemma OthersDoNotMoveTheWorker<Db, Op, Answer>(s: System<Db, Op, Answer>, step: Step<Op>, run: (Db, Op) -> (Db, Answer))
    requires !step.Get? && !step.Run? && !step.Complete? && FirstStop(s.log) < |s.log|
    ensures var s' := Next(s, step, run);
      s'.worker == s.worker && s'.head == s.head && FirstStop(s'.log) == FirstStop(s.log) < |s'.log|
  {
    match step
    case Put(c) => if At(s, c).PassedCheck? { FirstStopStays(s.log, Request(At(s, c).op)); }
    case PutStop(c) => FirstStopStays(s.log, Stop);
    case _ =>
  }

  lemma WorkerMoves<Db, Op, Answer>(s: System<Db, Op, Answer>, step: Step<Op>, run: (Db, Op) -> (Db, Answer))
    requires WorkerInv(s) && FirstStop(s.log) < |s.log| && (step.Get? || step.Run? || step.Complete?)
    ensures var s' := Next(s, step, run);
      s'.log == s.log && Left(s') == if step == WorkerStep(s) && !s.worker.Exited? then Left(s) - 1 else Left(s)
  {
    if !s.worker.Exited? {
      HeadBeforeMarker(s);
    }
  }

  /**
   Once a marker is on the queue the worker's next step is always enabled and brings it one step nearer its exit, and no
   other step moves it.
   */
  lemma {:induction false} WorkerGetsThere<Db, Op, Answer>(s: System<Db, Op, Answer>, step: Step<Op>, run: (Db, Op) -> (Db, Answer))
    requires WorkerInv(s) && FirstStop(s.log) < |s.log|
    ensures var s' := Next(s, step, run);
      && Left(s) >= 0 && (Left(s) == 0 <==> s.worker.Exited?)
      && FirstStop(s'.log) == FirstStop(s.log) < |s'.log|
      && Left(s') == if step == WorkerStep(s) && !s.worker.Exited? then Left(s) - 1 else Left(s)
  {
    if !s.worker.Exited? {
      HeadBeforeMarker(s);
    }
    if step.Get? || step.Run? || step.Complete? {
      WorkerMoves(s, step, run);
    } else {
      OthersDoNotMoveTheWorker(s, step, run);
    }
    hide Next;
  }

  /** How often the worker got a turn: the steps of a run that are its next one. */
  ghost function Turns<Db, Op, Answer>(s: System<Db, Op, Answer>, steps: seq<Step<Op>>, run: (Db, Op) -> (Db, Answer)): nat {
    if |steps| == 0 then 0 else
      var most := steps[..|steps| - 1];
      Turns(s, most, run) + if steps[|steps| - 1] == WorkerStep(From(s, most, run)) then 1 else 0
  }

  lemma {:induction false} TurnsCountDown<Db, Op, Answer>(s: System<Db, Op, Answer>, steps: seq<Step<Op>>, db: Db, run: (Db, Op) -> (Db, Answer))
    requires Inv(s, db, run) && FirstStop(s.log) < |s.log|
    ensures var s' := From(s, steps, run); var rest := Left(s) - Turns(s, steps, run);
      && FirstStop(s'.log) == FirstStop(s.log) < |s'.log| && Inv(s', db, run)
      && Left(s') == (if rest < 0 then 0 else rest) && (Left(s') == 0 <==> s'.worker.Exited?)
  {
    WorkerGetsThere(s, Get, run);
    EveryInterleaving(s, steps, db, run);
    if |steps| > 0 {
      hide Next, Left, AnswersInv, ClientsInv;
      var most := steps[..|steps| - 1];
      TurnsCountDown(s, most, db, run);
      EveryInterleaving(s, most, db, run);
      AnswersNeedTheWorker(From(s, most, run), db, run);
      AnswersNeedTheWorker(From(s, steps, run), db, run);
      WorkerGetsThere(From(s, most, run), steps[|steps| - 1], run);
      WorkerGetsThere(From(s, steps, run), Get, run);
    }
  }

  lemma AnswersNeedTheWorker<Db, Op, Answer>(s: System<Db, Op, Answer>, db: Db, run: (Db, Op) -> (Db, Answer))
    requires Inv(s, db, run)
    ensures WorkerInv(s)
  {
  }

  /**
   Main result: from any state with a marker on the queue, every run that gives the worker `Left(s)` turns, whatever the
   clients do in between, ends with the worker gone, each request ahead of the marker answered exactly once, and every
   waiting `close` able to return.
   */
  lemma {:induction false} CloseReturns<Db, Op, Answer>(s: System<Db, Op, Answer>, steps: seq<Step<Op>>, db: Db, run: (Db, Op) -> (Db, Answer))
    requires Inv(s, db, run) && FirstStop(s.log) < |s.log| && Turns(s, steps, run) >= Left(s)
    ensures var s' := From(s, steps, run);
      && s'.worker.Exited? && FirstStop(s'.log) == FirstStop(s.log)
      && (forall k :: 0 <= k < FirstStop(s.log) ==> Completions(s'.answered, k) == 1)
      && (forall c :: At(s', c).Joining? ==> At(Next(s', Joined(c), run), c).Free?)
  {
    var s' := From(s, steps, run);
    TurnsCountDown(s, steps, db, run);
    assert s'.head - 1 == FirstStop(s'.log);
    forall k | 0 <= k < FirstStop(s.log) ensures Completions(s'.answered, k) == 1 {
      AnsweredExactlyOnce(s', db, run, k);
    }
  }

  /**
   Main result: a `close` returns only when the worker is gone, so when all requests ahead of the marker have been run and
   answered, and no other.
   */
  lemma CloseWaits<Db, Op, Answer>(s: System<Db, Op, Answer>, step: Step<Op>, db: Db, run: (Db, Op) -> (Db, Answer), c: nat)
    requires Inv(s, db, run) && At(s, c).Joining? && !At(Next(s, step, run), c).Joining?
    ensures s.worker.Exited? && s.db == Fold(db, s.log[..FirstStop(s.log)], run)
    ensures forall k :: 0 <= k < |s.log| && s.log[k].Request? ==> Completions(s.answered, k) == if k < FirstStop(s.log) then 1 else 0
  {
    hide Fold;
    assert s.worker.Exited?;
    assert s.log[s.head - 1].Stop?;
    assert FirstStop(s.log) == s.head - 1;
    forall k | 0 <= k < |s.log| && s.log[k].Request? ensures Completions(s.answered, k) == if k < FirstStop(s.log) then 1 else 0 {
      AnsweredExactlyOnce(s, db, run, k);
    }
  }
}
