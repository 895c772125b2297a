/**
 Waiting for locks.  A forget worker takes advisory locks of several targets in turn, ascending for
 each target only, and locks rows of versions whose advisory locks it may not hold; whether the review
 can deadlock depends on both.
 */
module CardDeadlock {
  import opened Prelude
  import opened CardApproval
  import opened CardRaces
  import opened CardSafety
  import opened CardEligibility

  ghost predicate Running(s: System, t: TxnId) {
    t in s.txns && !s.txns[t].pc.Ended?
  }

  /** Somebody is still running, and every running transaction waits for a lock that another holds. */
  ghost predicate Deadlocked(s: System) {
    (exists t :: Running(s, t)) && forall t :: !CanStep(s, t)
  }

  /** The exclusive locks of a transaction. */
  function Held(s: System, t: TxnId): set<Resource> {
    set r | r in s.holder && s.holder[r] == t
  }

  lemma HeldIff(s: System, t: TxnId, r: Resource)
    ensures r in Held(s, t) <==> Holds(s, t, r)
  {
  }

  // ------------------------------------------------------------------ how a worker has to ask

  /**
   A worker asks safely: for no advisory lock before one that it holds, and for rows only under the
   advisory locks of the versions concerned; for a message row, of all of its versions.
   */
  ghost predicate SafeNext(lockId: Mvid -> int, db: Tables, held: set<Resource>, r: Resource) {
    match r
    case Advisory(i) => r in held || forall h :: Advisory(h) in held ==> h <= i
    case RowOf(_) => true
    case MessageRow(g) =>
      forall m :: m in db.versions && db.versions[m].message == g ==> Advisory(lockId(m)) in held
    case VersionRow(m) => Advisory(lockId(m)) in held
  }

  ghost predicate AsksSafely(lockId: Mvid -> int, s: System) {
    forall t :: t in s.txns && s.txns[t].job.Forgetting? && Wants(s.db, s.txns[t]).Some? ==>
      SafeNext(lockId, s.db, Held(s, t), Wants(s.db, s.txns[t]).value)
  }

  ghost predicate OneWorker(s: System) {
    forall t, u :: Running(s, t) && Running(s, u) && s.txns[t].job.Forgetting? && s.txns[u].job.Forgetting? ==> t == u
  }

  ghost predicate HasVersion(db: Tables, g: MessageId) {
    exists m :: m in db.versions && db.versions[m].message == g
  }

  /** Workers do not meet at a message without versions, which no advisory lock stands for. */
  ghost predicate WorkersApart(s: System) {
    OneWorker(s) ||
    forall t :: t in s.txns && s.txns[t].job.Forgetting? && Wants(s.db, s.txns[t]).Some?
                && Wants(s.db, s.txns[t]).value.MessageRow? ==>
      HasVersion(s.db, Wants(s.db, s.txns[t]).value.message)
  }

  /** The advisory locks stand for the rows that are locked. */
  ghost predicate CoveredRow(lockId: Mvid -> int, db: Tables, held: set<Resource>, r: Resource) {
    (r.MessageRow? || r.VersionRow?) ==> SafeNext(lockId, db, held, r)
  }

  ghost predicate HeldCovered(lockId: Mvid -> int, s: System) {
    forall r :: r in s.holder ==> CoveredRow(lockId, s.db, Held(s, s.holder[r]), r)
  }

  // ------------------------------------------------------------------ locks that a step leaves alone

  /** The lock table a step can leave behind: of other transactions' locks it changes none. */
  ghost predicate SameForOthers(h: map<Resource, TxnId>, n: map<Resource, TxnId>, t: TxnId) {
    forall r :: (r in h && h[r] != t ==> r in n && n[r] == h[r]) && (r in n && n[r] != t ==> r in h && h[r] == n[r])
  }

  lemma TakeSame(s: System, t: TxnId, r: Resource)
    requires r !in s.holder || s.holder[r] == t
    ensures SameForOthers(s.holder, s.holder[r := t], t)
    ensures SameForOthers(s.holder, Release(s.holder[r := t], t), t)
  {
  }

  lemma EndSame(h: map<Resource, TxnId>, t: TxnId)
    ensures SameForOthers(h, Release(h, t), t)
  {
  }

  lemma GoSame(lockId: Mvid -> int, s: System, t: TxnId)
    ensures SameForOthers(s.holder, GoStep(lockId, s, t).holder, t)
  {
    if CanStep(s, t) {
      EndSame(s.holder, t);
      if Wants(s.db, s.txns[t]).Some? {
        TakeSame(s, t, Wants(s.db, s.txns[t]).value);
      }
      match s.txns[t].pc {
        case Start =>
        case Locking(_, _) =>
        case WantRow =>
        case Relocking(_) =>
        case Checking(_) =>
        case Sharing(_, _) =>
        case Joining(_, _) =>
        case Ready =>
      }
    }
  }

  lemma GoHeld(lockId: Mvid -> int, s: System, t: TxnId, u: TxnId)
    requires u != t
    ensures Held(GoStep(lockId, s, t), u) == Held(s, u)
  {
    GoSame(lockId, s, t);
  }

  /** What a step does to its own exclusive locks: it takes the one it asked for, or lets all go. */
  lemma GoOwnHeld(lockId: Mvid -> int, s: System, t: TxnId)
    requires Inv(lockId, s) && CanStep(s, t)
    ensures var n := GoStep(lockId, s, t);
            || Held(n, t) == Held(s, t)
            || Held(n, t) == {}
            || (Wants(s.db, s.txns[t]).Some? && Held(n, t) == Held(s, t) + {Wants(s.db, s.txns[t]).value}
                && !WantsShare(s.txns[t]))
  {
    assert TxnOk(lockId, s, t);
    match s.txns[t].pc {
      case Locking(_, _) => LockHeld(lockId, s, t);
      case WantRow => RowHeldAfter(lockId, s, t);
      case Ready => CommitHeld(s, t);
      case _ => CheckHeld(lockId, s, t);
    }
  }

  lemma EndHeld(s: System, t: TxnId, db: Tables, outcome: Outcome)
    requires t in s.txns
    ensures Held(End(s, t, db, outcome), t) == {}
  {
  }

  lemma LockHeld(lockId: Mvid -> int, s: System, t: TxnId)
    requires CanStep(s, t) && s.txns[t].pc.Locking?
    ensures var todo := s.txns[t].pc.todo;
            Held(GoStep(lockId, s, t), t) == if todo == [] then Held(s, t) else Held(s, t) + {todo[0]}
  {
    if s.txns[t].pc.todo != [] {
      assert GoStep(lockId, s, t).holder == s.holder[s.txns[t].pc.todo[0] := t];
    }
  }

  lemma RowHeldAfter(lockId: Mvid -> int, s: System, t: TxnId)
    requires CanStep(s, t) && s.txns[t].pc.WantRow? && !s.txns[t].job.Forgetting?
    ensures var n := GoStep(lockId, s, t);
            Held(n, t) == {} || Held(n, t) == Held(s, t) + {RowOf(s.txns[t].job.c)}
  {
    if !GoStep(lockId, s, t).txns[t].pc.Ended? {
      assert GoStep(lockId, s, t).holder == s.holder[RowOf(s.txns[t].job.c) := t];
    }
  }

  lemma CommitHeld(s: System, t: TxnId)
    requires t in s.txns
    ensures Held(CommitStep(s, t), t) == {}
  {
  }

  lemma CheckHeld(lockId: Mvid -> int, s: System, t: TxnId)
    requires CanStep(s, t) && (s.txns[t].pc.Start? || s.txns[t].pc.Checking? || WantsShare(s.txns[t]))
    ensures Held(GoStep(lockId, s, t), t) == Held(s, t) || Held(GoStep(lockId, s, t), t) == {}
  {
  }

  // ------------------------------------------------------------------ covered rows

  lemma CoveredByMore(lockId: Mvid -> int, db: Tables, held: set<Resource>, more: set<Resource>, r: Resource)
    requires held <= more && CoveredRow(lockId, db, held, r)
    ensures CoveredRow(lockId, db, more, r)
  {
  }

  /** Versions are added only to messages whose row nobody has locked. */
  ghost predicate SameVersionsOf(db: Tables, next: Tables, r: Resource) {
    r.MessageRow? ==> forall m :: m in next.versions && next.versions[m].message == r.message ==>
      m in db.versions && db.versions[m].message == r.message
  }

  lemma CoveredLater(lockId: Mvid -> int, db: Tables, next: Tables, held: set<Resource>, r: Resource)
    requires CoveredRow(lockId, db, held, r) && SameVersionsOf(db, next, r)
    ensures CoveredRow(lockId, next, held, r)
  {
  }

  lemma SameVersionsInStep(lockId: Mvid -> int, s: System, a: Action, r: Resource)
    requires Inv(lockId, s) && r in s.holder
    ensures SameVersionsOf(s.db, Step(lockId, s, a).db, r)
  {
    if a.Go? {
      SameVersionsInGo(lockId, s, a.t, r);
    }
  }

  lemma SameVersionsInGo(lockId: Mvid -> int, s: System, t: TxnId, r: Resource)
    ensures SameVersionsOf(s.db, GoStep(lockId, s, t).db, r)
  {
    if GoStep(lockId, s, t).db != s.db {
      assert GoStep(lockId, s, t) == CommitStep(s, t);
    }
  }

  lemma GoCovered(lockId: Mvid -> int, s: System, t: TxnId, r: Resource)
    requires Inv(lockId, s) && HeldCovered(lockId, s) && AsksSafely(lockId, s) && r in GoStep(lockId, s, t).holder
    ensures var n := GoStep(lockId, s, t);
            CoveredRow(lockId, s.db, Held(n, n.holder[r]), r)
  {
    var n := GoStep(lockId, s, t);
    var u := n.holder[r];
    if u != t {
      GoHeld(lockId, s, t, u);
      HeldIff(n, u, r);
      HeldIff(s, u, r);
    } else if CanStep(s, t) {
      GoOwnHeld(lockId, s, t);
      HeldIff(n, t, r);
      OwnCovered(lockId, s, t, Held(n, t), r);
    }
  }

  lemma OwnCovered(lockId: Mvid -> int, s: System, t: TxnId, held: set<Resource>, r: Resource)
    requires Inv(lockId, s) && HeldCovered(lockId, s) && AsksSafely(lockId, s) && CanStep(s, t) && r in held
    requires held == Held(s, t)
             || (Wants(s.db, s.txns[t]).Some? && held == Held(s, t) + {Wants(s.db, s.txns[t]).value}
                 && !WantsShare(s.txns[t]))
    ensures CoveredRow(lockId, s.db, held, r)
  {
    if r in Held(s, t) {
      CoveredByMore(lockId, s.db, Held(s, t), held, r);
    } else {
      assert TxnOk(lockId, s, t);
      if s.txns[t].job.Forgetting? {
        CoveredByMore(lockId, s.db, Held(s, t), held, r);
      }
    }
  }

  lemma OutsideCovered(lockId: Mvid -> int, s: System, a: Action, r: Resource)
    requires HeldCovered(lockId, s) && !a.Go? && r in Step(lockId, s, a).holder
    ensures var n := Step(lockId, s, a);
            r in s.holder && CoveredRow(lockId, s.db, Held(n, n.holder[r]), r)
  {
    var n := Step(lockId, s, a);
    assert Held(n, n.holder[r]) == Held(s, s.holder[r]) by {
      if a.Abort? {
        EndSame(s.holder, a.t);
      }
    }
  }

  lemma StepCovered(lockId: Mvid -> int, s: System, a: Action)
    requires Inv(lockId, s) && HeldCovered(lockId, s) && AsksSafely(lockId, s)
    ensures HeldCovered(lockId, Step(lockId, s, a))
  {
    var n := Step(lockId, s, a);
    forall r | r in n.holder ensures CoveredRow(lockId, n.db, Held(n, n.holder[r]), r) {
      if a.Go? {
        GoCovered(lockId, s, a.t, r);
        SameVersionsInGo(lockId, s, a.t, r);
      } else {
        OutsideCovered(lockId, s, a, r);
        SameVersionsInStep(lockId, s, a, r);
      }
      CoveredLater(lockId, s.db, n.db, Held(n, n.holder[r]), r);
    }
  }

  // ------------------------------------------------------------------ nobody waits for ever

  /** Every exclusive lock has an owner that is still running. */
  lemma HolderRuns(lockId: Mvid -> int, s: System, r: Resource)
    requires Inv(lockId, s) && r in s.holder
    ensures Running(s, s.holder[r])
  {
    assert HeldOk(s, r);
  }

  /** The advisory lock that stands for a row is held by whoever holds the row. */
  lemma StandsFor(lockId: Mvid -> int, s: System, u: TxnId, r: Resource, m: Mvid)
    requires HeldCovered(lockId, s) && Holds(s, u, r)
    requires r == VersionRow(m) || (m in s.db.versions && r == MessageRow(s.db.versions[m].message))
    ensures Holds(s, u, Advisory(lockId(m)))
  {
    assert CoveredRow(lockId, s.db, Held(s, u), r);
    HeldIff(s, u, Advisory(lockId(m)));
  }

  /** Under safe asking, an approval that has come to its checks never waits. */
  lemma ChecksNeverWait(lockId: Mvid -> int, s: System, t: TxnId)
    requires Inv(lockId, s) && HeldCovered(lockId, s) && Running(s, t) && WantsShare(s.txns[t])
    ensures CanStep(s, t)
  {
    assert TxnOk(lockId, s, t);
    var x := s.txns[t];
    var m := x.plan[x.pc.k];
    var r := Wants(s.db, x).value;
    assert Holds(s, t, Advisory(lockId(m)));
    if r in s.holder && s.holder[r] != t {
      StandsFor(lockId, s, s.holder[r], r, m);
    }
  }

  /** Under safe asking, a worker never waits for a row. */
  lemma RowsNeverWait(lockId: Mvid -> int, s: System, t: TxnId, r: Resource)
    requires Inv(lockId, s) && HeldCovered(lockId, s) && AsksSafely(lockId, s) && WorkersApart(s)
    requires Running(s, t) && s.txns[t].job.Forgetting? && Wants(s.db, s.txns[t]) == Some(r)
    requires r.MessageRow? || r.VersionRow?
    ensures CanStep(s, t)
  {
    forall u | u in s.txns && u != t ensures r !in s.txns[u].shared {
      NotShared(lockId, s, t, u, r);
    }
    if r in s.holder {
      NotHeldByOther(lockId, s, t, s.holder[r], r);
    }
  }

  lemma NotShared(lockId: Mvid -> int, s: System, t: TxnId, u: TxnId, r: Resource)
    requires Inv(lockId, s) && u in s.txns && u != t && (r.MessageRow? || r.VersionRow?)
    requires SafeNext(lockId, s.db, Held(s, t), r)
    ensures r !in s.txns[u].shared
  {
    assert TxnOk(lockId, s, u);
    var x := s.txns[u];
    if r in x.shared {
      var m :| m in x.plan && Present(s.db, m) && (r == VersionRow(m) || r == MessageRow(s.db.versions[m].message));
    }
  }

  lemma NotHeldByOther(lockId: Mvid -> int, s: System, t: TxnId, u: TxnId, r: Resource)
    requires Inv(lockId, s) && HeldCovered(lockId, s) && WorkersApart(s)
    requires Running(s, t) && s.txns[t].job.Forgetting? && Wants(s.db, s.txns[t]) == Some(r)
    requires SafeNext(lockId, s.db, Held(s, t), r) && (r.MessageRow? || r.VersionRow?)
    ensures Holds(s, u, r) ==> u == t
  {
    assert HeldOk(s, r);
    if r.VersionRow? {
      HeldIff(s, t, Advisory(lockId(r.mvid)));
      if Holds(s, u, r) {
        StandsFor(lockId, s, u, r, r.mvid);
      }
    } else if HasVersion(s.db, r.message) {
      var m :| m in s.db.versions && s.db.versions[m].message == r.message;
      HeldIff(s, t, Advisory(lockId(m)));
      if Holds(s, u, r) {
        StandsFor(lockId, s, u, r, m);
      }
    }
  }

  /** The order in which locks are waited for. */
  predicate Before(a: Resource, b: Resource) {
    match (a, b)
    case (Advisory(x), Advisory(y)) => x < y
    case (Advisory(_), RowOf(_)) => true
    case _ => false
  }

  /** The running transactions that wait for a lock later than `r`. */
  ghost function WaitingAfter(s: System, r: Resource): set<TxnId> {
    set u | u in s.txns && Wants(s.db, s.txns[u]).Some? && Before(r, Wants(s.db, s.txns[u]).value)
  }

  ghost predicate AllSafe(lockId: Mvid -> int, s: System) {
    Inv(lockId, s) && HeldCovered(lockId, s) && AsksSafely(lockId, s) && WorkersApart(s)
  }

  /** Whoever waits, waits for an advisory lock or for a candidate. */
  lemma WaitsInOrder(lockId: Mvid -> int, s: System, t: TxnId)
    requires AllSafe(lockId, s) && Running(s, t) && !CanStep(s, t)
    ensures Wants(s.db, s.txns[t]).Some? && !WantsShare(s.txns[t])
    ensures Wants(s.db, s.txns[t]).value.Advisory? || Wants(s.db, s.txns[t]).value.RowOf?
  {
    assert TxnOk(lockId, s, t);
    var r := Wants(s.db, s.txns[t]).value;
    if WantsShare(s.txns[t]) {
      ChecksNeverWait(lockId, s, t);
    } else if r.MessageRow? || r.VersionRow? {
      RowsNeverWait(lockId, s, t, r);
    }
  }

  lemma OnlyRowsShared(lockId: Mvid -> int, s: System, t: TxnId, r: Resource)
    requires Inv(lockId, s) && (r.Advisory? || r.RowOf?)
    ensures !SharedByOthers(s, t, r)
  {
    forall u | u in s.txns ensures r !in s.txns[u].shared {
      assert TxnOk(lockId, s, u);
    }
  }

  /** Such a lock is held by somebody else who runs. */
  lemma WaitsForHolder(lockId: Mvid -> int, s: System, t: TxnId)
    requires AllSafe(lockId, s) && Running(s, t) && !CanStep(s, t)
    ensures Wants(s.db, s.txns[t]).Some? && !WantsShare(s.txns[t])
    ensures var r := Wants(s.db, s.txns[t]).value;
            (r.Advisory? || r.RowOf?) && r in s.holder && s.holder[r] != t && Running(s, s.holder[r])
  {
    WaitsInOrder(lockId, s, t);
    var r := Wants(s.db, s.txns[t]).value;
    OnlyRowsShared(lockId, s, t, r);
    HolderRuns(lockId, s, r);
  }

  /** Whoever holds the lock a transaction waits for can step, or waits for a strictly later lock. */
  lemma HolderWaitsLater(lockId: Mvid -> int, s: System, t: TxnId)
    requires AllSafe(lockId, s) && Running(s, t) && !CanStep(s, t)
    ensures Wants(s.db, s.txns[t]).Some?
    ensures var r := Wants(s.db, s.txns[t]).value;
            && r in s.holder && Running(s, s.holder[r])
            && (CanStep(s, s.holder[r])
                || (Wants(s.db, s.txns[s.holder[r]]).Some? && Before(r, Wants(s.db, s.txns[s.holder[r]]).value)))
  {
    WaitsForHolder(lockId, s, t);
    var r := Wants(s.db, s.txns[t]).value;
    var u := s.holder[r];
    if !CanStep(s, u) {
      WaitsForHolder(lockId, s, u);
      WantsAfterHeld(lockId, s, u, r, Wants(s.db, s.txns[u]).value);
    }
  }

  lemma WantsAfterHeld(lockId: Mvid -> int, s: System, u: TxnId, r: Resource, w: Resource)
    requires AllSafe(lockId, s) && Running(s, u) && Holds(s, u, r) && Wants(s.db, s.txns[u]) == Some(w)
    requires !WantsShare(s.txns[u]) && (r.Advisory? || r.RowOf?) && (w.Advisory? || w.RowOf?)
    requires w in s.holder && s.holder[w] != u
    ensures Before(r, w)
  {
    assert TxnOk(lockId, s, u) && HeldOk(s, r);
    if s.txns[u].job.Forgetting? {
      HeldIff(s, u, r);
      HeldIff(s, u, w);
    }
  }

  /** Following the waits always ends at a transaction that can step. */
  lemma {:induction false} ChaseWaits(lockId: Mvid -> int, s: System, t: TxnId) returns (u: TxnId)
    requires AllSafe(lockId, s) && Running(s, t)
    ensures CanStep(s, u)
    decreases if CanStep(s, t) || Wants(s.db, s.txns[t]).None? then 0
              else 1 + |WaitingAfter(s, Wants(s.db, s.txns[t]).value)|
  {
    if CanStep(s, t) {
      return t;
    }
    HolderWaitsLater(lockId, s, t);
    var r := Wants(s.db, s.txns[t]).value;
    var v := s.holder[r];
    if CanStep(s, v) {
      return v;
    }
    var w := Wants(s.db, s.txns[v]).value;
    assert v in WaitingAfter(s, r) && v !in WaitingAfter(s, w);
    assert WaitingAfter(s, w) <= WaitingAfter(s, r) - {v};
    FewerElements(WaitingAfter(s, w), WaitingAfter(s, r), v);
    u := ChaseWaits(lockId, s, v);
  }

  // ------------------------------------------------------------------ runs

  ghost predicate AsksSafelyThroughout(lockId: Mvid -> int, s: System, acts: seq<Action>) {
    forall k: nat :: k <= |acts| ==> AsksSafely(lockId, StateAt(lockId, s, acts, k))
  }

  lemma {:induction false} RunCovered(lockId: Mvid -> int, s: System, acts: seq<Action>, k: nat)
    requires Initial(s) && AsksSafelyThroughout(lockId, s, acts) && k <= |acts|
    ensures HeldCovered(lockId, StateAt(lockId, s, acts, k))
    decreases k
  {
    if k == 0 {
      assert acts[..0] == [] && StateAt(lockId, s, acts, 0) == s;
    } else {
      RunCovered(lockId, s, acts, k - 1);
      StateIsSafe(lockId, s, acts, k - 1);
      StateNext(lockId, s, acts, k - 1);
      StepCovered(lockId, StateAt(lockId, s, acts, k - 1), acts[k - 1]);
    }
  }

  /**
   While workers ask safely, no run reaches a deadlock, however many transactions it has and whatever
   others write.
   */
  lemma NoDeadlock(lockId: Mvid -> int, s: System, acts: seq<Action>)
    requires Initial(s) && AsksSafelyThroughout(lockId, s, acts) && WorkersApart(Run(lockId, s, acts))
    ensures !Deadlocked(Run(lockId, s, acts))
  {
    var n := Run(lockId, s, acts);
    assert acts[..|acts|] == acts && StateAt(lockId, s, acts, |acts|) == n;
    RunCovered(lockId, s, acts, |acts|);
    StateIsSafe(lockId, s, acts, |acts|);
    if t :| Running(n, t) {
      var u := ChaseWaits(lockId, n, t);
    }
  }
}
