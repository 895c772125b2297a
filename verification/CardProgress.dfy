/** Every statement brings its transaction closer to the end, and safe workers leave everyone a way there. */
module CardProgress {
  import opened Prelude
  import opened CardApproval
  import opened CardRaces
  import opened CardSafety
  import opened CardDeadlock
  import opened CardWorkers

  /** An upper bound on the statements a transaction has left. */
  ghost function Remaining(lockId: Mvid -> int, db: Tables, x: Txn): nat {
    match x.pc
    case Start =>
      (match x.job
       case Approving(c, _) => if c in db.candidates then 5 + 4 * |db.candidates[c].sources| else 1
       case Rejecting(_, _, _) => 4
       case Forgetting(targets) => 3 + |LocksOf(lockId, db, targets)| + |StagesOf(targets)|)
    case Locking(todo, later) =>
      if x.job.Forgetting? then 2 + |todo| + |WorkList(lockId, db, later)| + |later|
      else 4 + 3 * |x.plan| + |todo|
    case WantRow => if x.job.Rejecting? then 3 else 3 + 3 * |x.plan|
    case Relocking(todo) => 3 + 3 * |x.plan| + |todo|
    case Checking(k) => if k <= |x.plan| then 2 + 3 * (|x.plan| - k) else 2
    case Sharing(k, _) => if k <= |x.plan| then 1 + 3 * (|x.plan| - k) else 1
    case Joining(k, _) => if k <= |x.plan| then 3 * (|x.plan| - k) else 0
    case Ready => 1
    case Ended(_) => 0
  }

  lemma SameRemaining(lockId: Mvid -> int, a: Tables, b: Tables, x: Txn)
    requires SameLayout(a, b) && a.candidates.Keys == b.candidates.Keys
    requires forall c :: c in a.candidates ==> a.candidates[c].sources == b.candidates[c].sources
    ensures Remaining(lockId, a, x) == Remaining(lockId, b, x)
  {
    match x.pc {
      case Start =>
        if x.job.Forgetting? {
          SameWorkList(lockId, a, b, StagesOf(x.job.targets));
        }
      case Locking(_, later) => SameWorkList(lockId, a, b, later);
      case _ =>
    }
  }

  lemma GoSources(lockId: Mvid -> int, s: System, t: TxnId)
    ensures var db, next := s.db, GoStep(lockId, s, t).db;
            && next.candidates.Keys == db.candidates.Keys
            && forall c :: c in db.candidates ==> next.candidates[c].sources == db.candidates[c].sources
  {
    if GoStep(lockId, s, t).db != s.db {
      assert GoStep(lockId, s, t) == CommitStep(s, t);
    }
  }

  ghost predicate Shorter(lockId: Mvid -> int, s: System, n: System, t: TxnId)
    requires t in s.txns && t in n.txns
  {
    Remaining(lockId, n.db, n.txns[t]) < Remaining(lockId, s.db, s.txns[t])
  }

  lemma StartShortens(lockId: Mvid -> int, s: System, t: TxnId)
    requires CanStep(s, t) && s.txns[t].pc.Start?
    ensures Shorter(lockId, s, GoStep(lockId, s, t), t)
  {
  }

  lemma LockingShortens(lockId: Mvid -> int, s: System, t: TxnId)
    requires Inv(lockId, s) && CanStep(s, t) && s.txns[t].pc.Locking?
    ensures Shorter(lockId, s, GoStep(lockId, s, t), t)
  {
    assert TxnOk(lockId, s, t);
    var todo, later := s.txns[t].pc.todo, s.txns[t].pc.later;
    if todo == [] && later != [] {
      assert WorkList(lockId, s.db, later) == Rows(lockId, s.db, later[0]) + WorkList(lockId, s.db, later[1..]);
    }
  }

  lemma RowShortens(lockId: Mvid -> int, s: System, t: TxnId)
    requires Inv(lockId, s) && CanStep(s, t) && s.txns[t].pc.WantRow?
    ensures Shorter(lockId, s, GoStep(lockId, s, t), t)
  {
    assert TxnOk(lockId, s, t);
  }

  lemma CheckShortens(lockId: Mvid -> int, s: System, t: TxnId)
    requires t in s.txns && TxnOk(lockId, s, t) && CanStep(s, t) && s.txns[t].pc.Checking?
    ensures Shorter(lockId, s, GoStep(lockId, s, t), t)
  {
    assert GoStep(lockId, s, t) == CheckStep(s, t);
  }

  lemma ShareShortens(lockId: Mvid -> int, s: System, t: TxnId)
    requires t in s.txns && TxnOk(lockId, s, t) && CanStep(s, t) && s.txns[t].pc.Sharing?
    ensures Shorter(lockId, s, GoStep(lockId, s, t), t)
  {
    assert GoStep(lockId, s, t) == ShareStep(s, t);
  }

  lemma JoinShortens(lockId: Mvid -> int, s: System, t: TxnId)
    requires t in s.txns && TxnOk(lockId, s, t) && CanStep(s, t) && s.txns[t].pc.Joining?
    ensures Shorter(lockId, s, GoStep(lockId, s, t), t)
  {
    assert GoStep(lockId, s, t) == JoinStep(s, t);
  }

  lemma GoShortens(lockId: Mvid -> int, s: System, t: TxnId)
    requires Inv(lockId, s) && CanStep(s, t)
    ensures Shorter(lockId, s, GoStep(lockId, s, t), t)
  {
    assert TxnOk(lockId, s, t);
    match s.txns[t].pc {
      case Start => StartShortens(lockId, s, t);
      case Locking(_, _) => LockingShortens(lockId, s, t);
      case WantRow => RowShortens(lockId, s, t);
      case Checking(_) => CheckShortens(lockId, s, t);
      case Sharing(_, _) => ShareShortens(lockId, s, t);
      case Joining(_, _) => JoinShortens(lockId, s, t);
      case Ready => assert GoStep(lockId, s, t) == CommitStep(s, t);
      case _ =>
    }
  }

  lemma GoIsProgress(lockId: Mvid -> int, s: System, t: TxnId)
    requires Inv(lockId, s) && CanStep(s, t)
    ensures var n := GoStep(lockId, s, t);
            && n.txns.Keys == s.txns.Keys && Shorter(lockId, s, n, t)
            && forall u :: u in s.txns && u != t ==>
                 Remaining(lockId, n.db, n.txns[u]) == Remaining(lockId, s.db, s.txns[u])
  {
    var n := GoStep(lockId, s, t);
    GoShortens(lockId, s, t);
    NoNewTxn(lockId, s, t);
    GoLayout(lockId, s, t);
    GoSources(lockId, s, t);
    forall u | u in s.txns && u != t ensures Remaining(lockId, n.db, n.txns[u]) == Remaining(lockId, s.db, s.txns[u]) {
      GoMovesOnlyItself(lockId, s, t, u);
      SameRemaining(lockId, s.db, n.db, s.txns[u]);
    }
  }

  ghost function TotalRemaining(lockId: Mvid -> int, s: System, ids: seq<TxnId>): nat
    requires forall t :: t in ids ==> t in s.txns
  {
    if ids == [] then 0 else Remaining(lockId, s.db, s.txns[ids[0]]) + TotalRemaining(lockId, s, ids[1..])
  }

  lemma {:induction false} TotalDrops(lockId: Mvid -> int, s: System, n: System, ids: seq<TxnId>, t: TxnId)
    requires (forall u :: u in ids ==> u in s.txns && u in n.txns)
    requires forall u :: u in ids && u != t ==>
               Remaining(lockId, n.db, n.txns[u]) == Remaining(lockId, s.db, s.txns[u])
    requires t in s.txns && t in n.txns && Shorter(lockId, s, n, t)
    ensures TotalRemaining(lockId, n, ids) <= TotalRemaining(lockId, s, ids)
    ensures t in ids ==> TotalRemaining(lockId, n, ids) < TotalRemaining(lockId, s, ids)
    decreases |ids|
  {
    if ids != [] {
      TotalDrops(lockId, s, n, ids[1..], t);
    }
  }

  ghost predicate OnlyGoes(acts: seq<Action>) {
    forall a :: a in acts ==> a.Go?
  }

  /** A state that has come about safely, with a worker whose further locks are safe too. */
  ghost predicate SafeState(lockId: Mvid -> int, s: System) {
    Inv(lockId, s) && HeldCovered(lockId, s) && SafeWorkers(lockId, s) && OneWorker(s)
  }

  lemma GoOneWorker(lockId: Mvid -> int, s: System, t: TxnId)
    requires OneWorker(s)
    ensures OneWorker(GoStep(lockId, s, t))
  {
    var n := GoStep(lockId, s, t);
    NoNewTxn(lockId, s, t);
    forall u | u in s.txns ensures Running(n, u) ==> Running(s, u) && n.txns[u].job == s.txns[u].job {
      if u != t {
        GoMovesOnlyItself(lockId, s, t, u);
      }
    }
  }

  lemma GoSafeState(lockId: Mvid -> int, s: System, t: TxnId)
    requires SafeState(lockId, s)
    ensures SafeState(lockId, GoStep(lockId, s, t)) && AsksSafely(lockId, s)
  {
    SafeWorkersAskSafely(lockId, s);
    GoKeeps(lockId, s, t);
    StepCovered(lockId, s, Go(t));
    StepSafe(lockId, s, Go(t));
    GoOneWorker(lockId, s, t);
  }

  /** From every safe state there is a schedule that ends every transaction. */
  lemma {:induction false} EveryoneCanFinish(lockId: Mvid -> int, s: System, ids: seq<TxnId>)
    returns (acts: seq<Action>)
    requires SafeState(lockId, s) && Elements(ids) == s.txns.Keys
    ensures OnlyGoes(acts)
    ensures forall t :: t in s.txns ==> t in Run(lockId, s, acts).txns && Run(lockId, s, acts).txns[t].pc.Ended?
    decreases TotalRemaining(lockId, s, ids)
  {
    acts := [];
    if t :| Running(s, t) {
      GoSafeState(lockId, s, t);
      var u := ChaseWaits(lockId, s, t);
      var n := GoStep(lockId, s, u);
      GoIsProgress(lockId, s, u);
      GoSafeState(lockId, s, u);
      TotalDrops(lockId, s, n, ids, u);
      var rest := EveryoneCanFinish(lockId, n, ids);
      acts := [Go(u)] + rest;
      GoThen(lockId, s, u, rest);
    } else {
      forall t | t in s.txns ensures s.txns[t].pc.Ended? { assert !Running(s, t); }
    }
  }
}
