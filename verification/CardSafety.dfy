/** Every reachable state of the review system is safe. */
module CardSafety {
  import opened Prelude
  import opened CardApproval
  import opened CardRaces

  // ------------------------------------------------------------------ what a step leaves to the others

  ghost predicate SameSharedRows(db: Tables, next: Tables, x: Txn) {
    && (forall m :: m in db.versions && VersionRow(m) in x.shared ==>
          m in next.versions && next.versions[m] == db.versions[m])
    && (forall g :: g in db.messages && MessageRow(g) in x.shared ==>
          g in next.messages && next.messages[g] == db.messages[g])
  }

  /** A request whose cascade has just finished covers no validated source, and no pending one unseen. */
  ghost predicate NewlyForgotten(db: Tables, next: Tables, x: Txn) {
    forall target, m ::
      target in next.forgotten && target !in db.forgotten && Begun(x, m) && Covers(db, target, m) ==>
        && !Validated(x, m) && target.OneMessage?
        && db.versions[m].message in next.messages && next.messages[db.versions[m].message].isRedacted
  }

  ghost predicate SameStatus(db: Tables, next: Tables, x: Txn) {
    !x.job.Forgetting? && !x.pc.Start? && !x.pc.Locking? && !x.pc.WantRow? && !x.pc.Ended?
    && x.job.c in db.candidates ==>
      x.job.c in next.candidates && next.candidates[x.job.c].status == db.candidates[x.job.c].status
  }

  ghost predicate DbKeeps(db: Tables, next: Tables, x: Txn) {
    Extends(db, next) && SameStatus(db, next, x) && SameSharedRows(db, next, x) && NewlyForgotten(db, next, x)
  }

  lemma GoodSourceStays(db: Tables, next: Tables, x: Txn, m: Mvid)
    requires DbKeeps(db, next, x) && Validated(x, m) && Begun(x, m) && GoodSource(db, x, m)
    ensures GoodSource(next, x, m)
  {
    forall target | target in next.forgotten ensures !Covers(next, target, m) {
      CoversStays(db, next, target, m);
    }
  }

  lemma PendingSourceStays(db: Tables, next: Tables, x: Txn, m: Mvid)
    requires DbKeeps(db, next, x) && Begun(x, m) && PendingSource(db, m)
    ensures PendingSource(next, m)
  {
    forall target | target in next.forgotten && Covers(next, target, m)
      ensures target.OneMessage? && next.messages[next.versions[m].message].isRedacted
    {
      CoversStays(db, next, target, m);
    }
  }

  lemma ValidatedIsBegun(x: Txn, m: Mvid)
    ensures Validated(x, m) ==> Begun(x, m)
  {
  }

  lemma SourcesStay(db: Tables, next: Tables, x: Txn)
    requires DbKeeps(db, next, x) && SourcesOk(db, x)
    ensures SourcesOk(next, x)
  {
    forall m | Validated(x, m) ensures GoodSource(next, x, m) {
      ValidatedIsBegun(x, m);
      GoodSourceStays(db, next, x, m);
    }
    forall m | Begun(x, m) ensures PendingSource(next, m) {
      PendingSourceStays(db, next, x, m);
    }
    forall r | r in x.shared ensures SharesFor(next, x.plan, r) {
      var m :| m in x.plan && Present(db, m) && (r == VersionRow(m) || r == MessageRow(db.versions[m].message));
    }
    if (x.pc.Sharing? || x.pc.Joining?) && x.pc.hit {
      TombstonedStays(db, next, x.plan[x.pc.k]);
    }
  }

  lemma TxnFrame(lockId: Mvid -> int, s: System, n: System, t: TxnId)
    requires t in s.txns && t in n.txns && n.txns[t] == s.txns[t] && TxnOk(lockId, s, t)
    requires forall r :: Holds(s, t, r) <==> Holds(n, t, r)
    requires DbKeeps(s.db, n.db, s.txns[t])
    ensures TxnOk(lockId, n, t)
  {
    var x := s.txns[t];
    if x.job.Approving? && !x.pc.Start? && !x.pc.Locking? && !x.pc.WantRow? && !x.pc.Ended? {
      SourcesStay(s.db, n.db, x);
    }
  }

  /** The pair of a worker and an approval, when neither moves or loses a lock. */
  lemma GuardFrame(lockId: Mvid -> int, s: System, n: System, t: TxnId, u: TxnId)
    requires t in s.txns && u in s.txns && Guarded(lockId, s, t, u) && Extends(s.db, n.db)
    requires t in n.txns && u in n.txns && n.txns[t] == s.txns[t]
    requires forall m :: Begun(n.txns[u], m) ==> Begun(s.txns[u], m) && Present(s.db, m)
    requires forall r :: Holds(s, t, r) ==> Holds(n, t, r)
    ensures Guarded(lockId, n, t, u)
  {
    forall stage, m | Taken(n.txns[t], stage) && Begun(n.txns[u], m) && Covers(n.db, stage.target, m)
      ensures KeptApart(lockId, n, t, stage, m)
    {
      CoversStays(s.db, n.db, stage.target, m);
      assert KeptApart(lockId, s, t, stage, m);
    }
  }

  lemma BegunIsPresent(lockId: Mvid -> int, s: System, u: TxnId)
    requires u in s.txns && TxnOk(lockId, s, u)
    ensures forall m :: Begun(s.txns[u], m) ==> Present(s.db, m)
  {
  }

  lemma Guards(lockId: Mvid -> int, s: System, t: TxnId, u: TxnId)
    requires Inv(lockId, s) && t in s.txns && u in s.txns
    ensures Guarded(lockId, s, t, u) && TxnOk(lockId, s, t) && TxnOk(lockId, s, u)
    ensures forall m :: Begun(s.txns[u], m) ==> Present(s.db, m)
  {
    BegunIsPresent(lockId, s, u);
  }

  /** A transaction ends: it publishes `db` and lets go of its locks. */
  lemma EndKeeps(lockId: Mvid -> int, s: System, t: TxnId, db: Tables, outcome: Outcome)
    requires Inv(lockId, s) && t in s.txns && TablesOk(db) && Extends(s.db, db)
    requires forall u :: u in s.txns && u != t ==> DbKeeps(s.db, db, s.txns[u])
    ensures Inv(lockId, End(s, t, db, outcome))
  {
    var n := End(s, t, db, outcome);
    forall u | u in n.txns ensures TxnOk(lockId, n, u) && Exclusive(n, u) {
      assert TxnOk(lockId, s, u) && Exclusive(s, u);
      if u != t {
        TxnFrame(lockId, s, n, u);
      }
    }
    forall r ensures HeldOk(n, r) {
      assert HeldOk(s, r);
    }
    forall u, v | u in n.txns && v in n.txns ensures Guarded(lockId, n, u, v) {
      EndGuards(lockId, s, t, db, outcome, u, v);
    }
  }

  lemma EndGuards(lockId: Mvid -> int, s: System, t: TxnId, db: Tables, outcome: Outcome, u: TxnId, v: TxnId)
    requires Inv(lockId, s) && t in s.txns && Extends(s.db, db) && u in s.txns && v in s.txns
    ensures Guarded(lockId, End(s, t, db, outcome), u, v)
  {
    var n := End(s, t, db, outcome);
    Guards(lockId, s, u, v);
    if u != t {
      assert v != t ==> n.txns[v] == s.txns[v];
      GuardFrame(lockId, s, n, u, v);
    }
  }

  /** A transaction ends and publishes nothing. */
  lemma GivesUp(lockId: Mvid -> int, s: System, t: TxnId, outcome: Outcome)
    requires Inv(lockId, s) && t in s.txns
    ensures Inv(lockId, End(s, t, s.db, outcome))
  {
    EndKeeps(lockId, s, t, s.db, outcome);
  }

  /** A transaction moves on without publishing anything, possibly taking a free lock. */
  ghost predicate OwnMove(s: System, n: System, t: TxnId) {
    && t in s.txns && n.txns.Keys == s.txns.Keys && n.db == s.db && n.txns[t].job == s.txns[t].job
    && (forall u :: u in s.txns && u != t ==> n.txns[u] == s.txns[u])
    && (forall r :: r in s.holder ==> r in n.holder && n.holder[r] == s.holder[r])
    && (forall r :: r in n.holder && r !in s.holder ==> n.holder[r] == t && !SharedByOthers(s, t, r))
  }

  lemma OthersTxnOk(lockId: Mvid -> int, s: System, n: System, t: TxnId, u: TxnId)
    requires Inv(lockId, s) && OwnMove(s, n, t) && u in s.txns && u != t
    ensures TxnOk(lockId, n, u) && Exclusive(n, u)
  {
    assert TxnOk(lockId, s, u) && Exclusive(s, u);
    TxnFrame(lockId, s, n, u);
  }

  lemma OthersGuarded(lockId: Mvid -> int, s: System, n: System, t: TxnId, u: TxnId, v: TxnId)
    requires Inv(lockId, s) && OwnMove(s, n, t) && u in s.txns && u != t && v in s.txns && v != t
    ensures Guarded(lockId, n, u, v)
  {
    Guards(lockId, s, u, v);
    GuardFrame(lockId, s, n, u, v);
  }

  lemma OwnStepKeeps(lockId: Mvid -> int, s: System, n: System, t: TxnId)
    requires Inv(lockId, s) && OwnMove(s, n, t)
    requires TxnOk(lockId, n, t) && Exclusive(n, t)
    requires forall r :: Holds(n, t, r) ==> HeldOk(n, r)
    requires forall u :: u in s.txns ==> Guarded(lockId, n, t, u) && Guarded(lockId, n, u, t)
    ensures Inv(lockId, n)
  {
    forall u | u in n.txns ensures TxnOk(lockId, n, u) && Exclusive(n, u) {
      if u != t {
        OthersTxnOk(lockId, s, n, t, u);
      }
    }
    forall r ensures HeldOk(n, r) {
      OthersHeld(lockId, s, n, t, r);
    }
    forall u, v | u in n.txns && v in n.txns ensures Guarded(lockId, n, u, v) {
      if u != t && v != t {
        OthersGuarded(lockId, s, n, t, u, v);
      }
    }
  }

  lemma OthersHeld(lockId: Mvid -> int, s: System, n: System, t: TxnId, r: Resource)
    requires (forall q :: HeldOk(s, q)) && OwnMove(s, n, t) && (Holds(n, t, r) ==> HeldOk(n, r))
    ensures HeldOk(n, r)
  {
    assert HeldOk(s, r);
  }

  /** An approval or rejection that begins no check is guarded as before; it guards nobody. */
  lemma NoNewCheckGuards(lockId: Mvid -> int, s: System, n: System, t: TxnId)
    requires Inv(lockId, s) && OwnMove(s, n, t) && !s.txns[t].job.Forgetting?
    requires forall m :: Begun(n.txns[t], m) ==> Begun(s.txns[t], m)
    ensures forall u :: u in s.txns ==> Guarded(lockId, n, t, u) && Guarded(lockId, n, u, t)
  {
    forall u | u in s.txns ensures Guarded(lockId, n, t, u) && Guarded(lockId, n, u, t) {
      Guards(lockId, s, u, t);
      if u != t {
        GuardFrame(lockId, s, n, u, t);
      }
    }
  }

  // ------------------------------------------------------------------ an approval's own steps

  lemma HoldsNothing(lockId: Mvid -> int, s: System, t: TxnId)
    requires Inv(lockId, s) && t in s.txns && (s.txns[t].pc.Start? || s.txns[t].pc.Ended?)
    ensures forall r :: !Holds(s, t, r)
  {
    forall r ensures !Holds(s, t, r) { assert HeldOk(s, r); }
  }

  /** A move that takes no lock and stays on its side of the candidate's row. */
  lemma NothingTaken(lockId: Mvid -> int, s: System, n: System, t: TxnId)
    requires Inv(lockId, s) && OwnMove(s, n, t) && n.holder == s.holder
    requires !n.txns[t].pc.Start? && !n.txns[t].pc.Ended?
    requires (exists c :: Holds(s, t, RowOf(c))) ==> !n.txns[t].pc.Locking? && !n.txns[t].pc.WantRow?
    ensures forall r :: Holds(n, t, r) ==> HeldOk(n, r)
  {
    forall r | Holds(n, t, r) ensures HeldOk(n, r) {
      assert HeldOk(s, r);
      if r.RowOf? {
        assert Holds(s, t, RowOf(r.candidate));
      }
    }
  }

  lemma NoRowYet(lockId: Mvid -> int, s: System, t: TxnId)
    requires Inv(lockId, s) && t in s.txns
    requires s.txns[t].pc.Start? || s.txns[t].pc.Locking? || s.txns[t].pc.WantRow? || s.txns[t].job.Forgetting?
    ensures forall c :: !Holds(s, t, RowOf(c))
  {
    forall c ensures !Holds(s, t, RowOf(c)) { assert HeldOk(s, RowOf(c)); }
  }

  lemma StartApproval(lockId: Mvid -> int, s: System, t: TxnId)
    requires Inv(lockId, s) && CanStep(s, t) && s.txns[t].pc.Start? && s.txns[t].job.Approving?
    ensures Inv(lockId, GoStep(lockId, s, t))
  {
    var n := StartStep(lockId, s, t);
    if n.txns[t].pc.Ended? {
      GivesUp(lockId, s, t, n.txns[t].pc.outcome);
    } else {
      assert TxnOk(lockId, s, t) && Exclusive(s, t);
      ApprovalStarts(lockId, s, t);
      NoRowYet(lockId, s, t);
      NothingTaken(lockId, s, n, t);
      NoNewCheckGuards(lockId, s, n, t);
      OwnStepKeeps(lockId, s, n, t);
    }
  }

  lemma ApprovalStarts(lockId: Mvid -> int, s: System, t: TxnId)
    requires Inv(lockId, s) && CanStep(s, t) && s.txns[t].pc.Start? && s.txns[t].job.Approving?
    requires StartStep(lockId, s, t).txns[t].pc.Locking?
    ensures TxnOk(lockId, StartStep(lockId, s, t), t)
  {
    var n := StartStep(lockId, s, t);
    HoldsNothing(lockId, s, t);
    assert TxnOk(lockId, s, t);
    var plan := n.txns[t].plan;
    var ids := LockIds(lockId, plan);
    forall m | m in plan ensures InHand(n, t, Advisory(lockId(m))) {
      var i :| 0 <= i < |ids| && ids[i] == lockId(m);
      assert Advisories(ids)[i] == Advisory(lockId(m));
    }
    forall i ensures !Holds(n, t, Advisory(i)) {
      assert !Holds(s, t, Advisory(i));
    }
  }

  lemma TakeAdvisory(lockId: Mvid -> int, s: System, t: TxnId)
    requires Inv(lockId, s) && CanStep(s, t) && s.txns[t].job.Approving? && s.txns[t].pc.Locking?
    requires s.txns[t].pc.todo != []
    ensures TxnOk(lockId, LockStep(lockId, s, t), t)
  {
    var x, n := s.txns[t], LockStep(lockId, s, t);
    var todo := x.pc.todo;
    assert TxnOk(lockId, s, t);
    assert n.txns[t].pc.todo == todo[1..];
    forall m | m in x.plan ensures InHand(n, t, Advisory(lockId(m))) {
      assert InHand(s, t, Advisory(lockId(m)));
      assert forall r :: r in todo <==> r == todo[0] || r in todo[1..];
    }
    forall i, j | Holds(n, t, Advisory(i)) && 0 <= j < |todo| - 1 ensures i <= todo[1..][j].id {
      assert todo[1..][j] == todo[j + 1];
      if Advisory(i) != todo[0] {
        assert Holds(s, t, Advisory(i));
      }
    }
  }

  lemma ApprovalLocks(lockId: Mvid -> int, s: System, t: TxnId)
    requires Inv(lockId, s) && CanStep(s, t) && s.txns[t].job.Approving? && s.txns[t].pc.Locking?
    ensures Inv(lockId, GoStep(lockId, s, t))
  {
    var n := LockStep(lockId, s, t);
    assert TxnOk(lockId, s, t) && Exclusive(s, t);
    if s.txns[t].pc.todo != [] {
      TakeAdvisory(lockId, s, t);
    }
    forall r | Holds(n, t, r) ensures HeldOk(n, r) { assert HeldOk(s, r); }
    NoNewCheckGuards(lockId, s, n, t);
    OwnStepKeeps(lockId, s, n, t);
  }

  lemma RowTaken(lockId: Mvid -> int, s: System, t: TxnId)
    requires Inv(lockId, s) && CanStep(s, t) && s.txns[t].pc.WantRow?
    requires s.txns[t].job.c in s.db.candidates && s.db.candidates[s.txns[t].job.c].status.Pending?
    requires !s.txns[t].job.Forgetting?
    ensures Inv(lockId, RowStep(lockId, s, t))
  {
    var n := RowStep(lockId, s, t);
    assert TxnOk(lockId, s, t) && Exclusive(s, t);
    assert TxnOk(lockId, n, t);
    forall r | Holds(n, t, r) ensures HeldOk(n, r) { assert HeldOk(s, r); }
    NoNewCheckGuards(lockId, s, n, t);
    OwnStepKeeps(lockId, s, n, t);
  }

  /** The row read of an approval or a rejection. */
  lemma RowKeeps(lockId: Mvid -> int, s: System, t: TxnId)
    requires Inv(lockId, s) && CanStep(s, t) && s.txns[t].pc.WantRow?
    ensures Inv(lockId, GoStep(lockId, s, t))
  {
    assert TxnOk(lockId, s, t);
    var c := s.txns[t].job.c;
    if c in s.db.candidates && s.db.candidates[c].status.Pending? {
      RowTaken(lockId, s, t);
    } else {
      RowRefused(lockId, s, t);
      GivesUp(lockId, s, t, RowStep(lockId, s, t).txns[t].pc.outcome);
    }
  }

  lemma RowRefused(lockId: Mvid -> int, s: System, t: TxnId)
    requires CanStep(s, t) && s.txns[t].pc.WantRow? && !s.txns[t].job.Forgetting?
    requires var c := s.txns[t].job.c; c in s.db.candidates ==> !s.db.candidates[c].status.Pending?
    ensures var n := RowStep(lockId, s, t);
            n.txns[t].pc.Ended? && n == End(s, t, s.db, n.txns[t].pc.outcome)
  {
    var r := RowOf(s.txns[t].job.c);
    assert Release(Taking(s, t, r).holder, t) == Release(s.holder, t);
  }

  /** A check that begins without a tombstone is of a source that no recorded request covers. */
  lemma BeginsUnseen(lockId: Mvid -> int, s: System, n: System, t: TxnId, k: nat, u: TxnId)
    requires Inv(lockId, s) && OwnMove(s, n, t) && u in s.txns && s.txns[t].job.Approving?
    requires s.txns[t].pc == Checking(k) && k < |s.txns[t].plan| && Present(s.db, s.txns[t].plan[k])
    requires n.txns[t] == s.txns[t].(pc := Sharing(k, Tombstoned(s.db, s.txns[t].plan[k])))
    ensures Guarded(lockId, n, u, t)
  {
    Guards(lockId, s, u, t);
    var x := s.txns[t];
    forall stage, m | Taken(n.txns[u], stage) && Begun(n.txns[t], m) && Covers(s.db, stage.target, m)
      ensures KeptApart(lockId, n, u, stage, m)
    {
      if m in x.plan[..k] {
        assert KeptApart(lockId, s, u, stage, m);
      } else {
        TakenIsRequested(s.txns[u], stage);
        TombstonedMeansCovered(s.db, m);
      }
    }
  }

  lemma {:induction false} StageTargets(targets: seq<Target>, stage: Stage)
    ensures stage in StagesOf(targets) <==> stage.target in targets
    decreases |targets|
  {
    if targets != [] {
      StageTargets(targets[1..], stage);
      var t := targets[0];
      var first := [Stage(Locks, t), Stage(Messages, t), Stage(Versions, t)];
      assert StagesOf(targets) == first + StagesOf(targets[1..]);
      assert stage.target == t ==> stage == Stage(stage.kind, t) && stage in first by {
        match stage.kind {
          case Locks => assert first[0] == Stage(Locks, t);
          case Messages => assert first[1] == Stage(Messages, t);
          case Versions => assert first[2] == Stage(Versions, t);
        }
      }
      assert stage.target in targets <==> stage.target == t || stage.target in targets[1..];
    }
  }

  lemma TakenIsRequested(x: Txn, stage: Stage)
    requires Taken(x, stage)
    ensures stage.target in x.job.targets && stage.target in Elements(x.job.targets)
  {
    StageTargets(x.job.targets, stage);
  }

  lemma CheckBegins(lockId: Mvid -> int, s: System, t: TxnId)
    requires Inv(lockId, s) && CanStep(s, t) && s.txns[t].pc.Checking?
    ensures Inv(lockId, GoStep(lockId, s, t))
  {
    var n := CheckStep(s, t);
    assert TxnOk(lockId, s, t);
    if n.txns[t].pc.Ended? {
      GivesUp(lockId, s, t, n.txns[t].pc.outcome);
    } else if n.txns[t].pc.Sharing? {
      BegunKeeps(lockId, s, t);
    } else {
      ChecksDone(lockId, s, t);
    }
  }

  lemma ChecksDone(lockId: Mvid -> int, s: System, t: TxnId)
    requires Inv(lockId, s) && CanStep(s, t) && s.txns[t].pc.Checking? && CheckStep(s, t).txns[t].pc.Ready?
    ensures Inv(lockId, CheckStep(s, t))
  {
    var x, n := s.txns[t], CheckStep(s, t);
    assert TxnOk(lockId, s, t) && Exclusive(s, t);
    assert x.plan[..x.pc.k] == x.plan;
    assert forall m :: (Validated(n.txns[t], m) <==> Validated(x, m)) && (Begun(n.txns[t], m) <==> Begun(x, m));
    assert TxnOk(lockId, n, t);
    NothingTaken(lockId, s, n, t);
    NoNewCheckGuards(lockId, s, n, t);
    OwnStepKeeps(lockId, s, n, t);
  }

  lemma BegunKeeps(lockId: Mvid -> int, s: System, t: TxnId)
    requires Inv(lockId, s) && CanStep(s, t) && s.txns[t].pc.Checking? && CheckStep(s, t).txns[t].pc.Sharing?
    ensures Inv(lockId, CheckStep(s, t))
  {
    var x, n := s.txns[t], CheckStep(s, t);
    assert TxnOk(lockId, s, t) && Exclusive(s, t);
    CheckBegun(lockId, s, t);
    NothingTaken(lockId, s, n, t);
    forall u | u in s.txns ensures Guarded(lockId, n, u, t) && Guarded(lockId, n, t, u) {
      BeginsUnseen(lockId, s, n, t, x.pc.k, u);
    }
    OwnStepKeeps(lockId, s, n, t);
  }

  lemma CheckBegun(lockId: Mvid -> int, s: System, t: TxnId)
    requires Inv(lockId, s) && CanStep(s, t) && s.txns[t].pc.Checking? && CheckStep(s, t).txns[t].pc.Sharing?
    ensures TxnOk(lockId, CheckStep(s, t), t)
  {
    var x, n := s.txns[t], CheckStep(s, t);
    var y := n.txns[t];
    assert TxnOk(lockId, s, t);
    assert forall m :: Validated(y, m) <==> Validated(x, m);
    forall m | Begun(y, m) ensures PendingSource(s.db, m) {
      if !Begun(x, m) {
        TombstonedMeansCovered(s.db, m);
      }
    }
  }

  lemma VersionShared(lockId: Mvid -> int, s: System, t: TxnId)
    requires Inv(lockId, s) && CanStep(s, t) && s.txns[t].pc.Sharing?
    ensures Inv(lockId, GoStep(lockId, s, t))
  {
    assert TxnOk(lockId, s, t) && Exclusive(s, t);
    var x, n := s.txns[t], ShareStep(s, t);
    var y := n.txns[t];
    assert forall m :: (Validated(y, m) <==> Validated(x, m)) && (Begun(y, m) <==> Begun(x, m));
    assert TxnOk(lockId, n, t);
    assert VersionRow(x.plan[x.pc.k]) !in s.holder by { NotOwnRow(lockId, s, t, VersionRow(x.plan[x.pc.k])); }
    NothingTaken(lockId, s, n, t);
    NoNewCheckGuards(lockId, s, n, t);
    OwnStepKeeps(lockId, s, n, t);
  }

  lemma NotOwnRow(lockId: Mvid -> int, s: System, t: TxnId, r: Resource)
    requires Inv(lockId, s) && t in s.txns && !s.txns[t].job.Forgetting? && (r.VersionRow? || r.MessageRow?)
    ensures !Holds(s, t, r)
  {
    assert HeldOk(s, r);
  }

  lemma SourcePasses(lockId: Mvid -> int, s: System, t: TxnId)
    requires Inv(lockId, s) && CanStep(s, t) && s.txns[t].pc.Joining? && s.txns[t].pc.k < |s.txns[t].plan|
    requires JoinStep(s, t).txns[t].pc.Checking?
    ensures TxnOk(lockId, JoinStep(s, t), t) && Exclusive(JoinStep(s, t), t)
    ensures forall m :: Begun(JoinStep(s, t).txns[t], m) ==> Begun(s.txns[t], m)
  {
    assert TxnOk(lockId, s, t) && Exclusive(s, t);
    var x, n := s.txns[t], JoinStep(s, t);
    var k := x.pc.k;
    var y, m := n.txns[t], x.plan[k];
    assert x.plan[..k + 1] == x.plan[..k] + [m];
    NotOwnRow(lockId, s, t, MessageRow(s.db.versions[m].message));
    assert Begun(x, m) && PendingSource(s.db, m);
    assert GoodSource(s.db, y, m);
    forall v | Validated(y, v) ensures GoodSource(s.db, y, v) {
      if v != m {
        assert GoodSource(s.db, x, v);
      }
    }
  }

  lemma MessageJoined(lockId: Mvid -> int, s: System, t: TxnId)
    requires Inv(lockId, s) && CanStep(s, t) && s.txns[t].pc.Joining?
    ensures Inv(lockId, GoStep(lockId, s, t))
  {
    assert TxnOk(lockId, s, t);
    var n := JoinStep(s, t);
    if n.txns[t].pc.Ended? {
      GivesUp(lockId, s, t, n.txns[t].pc.outcome);
    } else {
      SourcePasses(lockId, s, t);
      NothingTaken(lockId, s, n, t);
      NoNewCheckGuards(lockId, s, n, t);
      OwnStepKeeps(lockId, s, n, t);
    }
  }

  lemma StartRejection(lockId: Mvid -> int, s: System, t: TxnId)
    requires Inv(lockId, s) && CanStep(s, t) && s.txns[t].pc.Start? && s.txns[t].job.Rejecting?
    ensures Inv(lockId, GoStep(lockId, s, t))
  {
    var n := StartStep(lockId, s, t);
    assert TxnOk(lockId, s, t) && Exclusive(s, t);
    NoRowYet(lockId, s, t);
    NothingTaken(lockId, s, n, t);
    NoNewCheckGuards(lockId, s, n, t);
    OwnStepKeeps(lockId, s, n, t);
  }

  // ------------------------------------------------------------------ a worker's own steps

  /** Every source that a stage's target covers is among the rows that the stage asks for. */
  lemma RowsCover(lockId: Mvid -> int, db: Tables, stage: Stage, m: Mvid)
    requires Covers(db, stage.target, m)
    ensures stage.kind.Locks? && !stage.target.OneMessage? ==> Advisory(lockId(m)) in Rows(lockId, db, stage)
    ensures stage.kind.Messages? && stage.target.OneMessage? ==>
              MessageRow(db.versions[m].message) in Rows(lockId, db, stage)
  {
    var rows := Rows(lockId, db, stage);
    if stage.kind.Locks? && !stage.target.OneMessage? {
      AdvisoryAsked(lockId, db, stage, m);
    }
    if stage.kind.Messages? && stage.target.OneMessage? {
      var g := db.versions[m].message;
      var gs := Listed(WrittenMessages(db, stage.target));
      assert g in gs;
      var i :| 0 <= i < |gs| && gs[i] == g;
      assert rows[i] == MessageRow(g);
    }
  }

  lemma AdvisoryAsked(lockId: Mvid -> int, db: Tables, stage: Stage, m: Mvid)
    requires stage.kind.Locks? && m in Resolved(db, stage.target)
    ensures Advisory(lockId(m)) in Rows(lockId, db, stage)
  {
    var ids := LockIds(lockId, Listed(Resolved(db, stage.target)));
    assert lockId(m) in ids;
    var i :| 0 <= i < |ids| && ids[i] == lockId(m);
    assert Rows(lockId, db, stage)[i] == Advisory(lockId(m));
  }

  lemma AsksNoCandidate(lockId: Mvid -> int, db: Tables, stage: Stage)
    ensures forall r :: r in Rows(lockId, db, stage) ==> !r.RowOf?
  {
  }

  /** A worker's move guards its covered sources when it keeps in hand what it had and adds its new rows. */
  lemma WorkerGuards(lockId: Mvid -> int, s: System, n: System, t: TxnId, u: TxnId)
    requires Inv(lockId, s) && OwnMove(s, n, t) && s.txns[t].job.Forgetting? && u in s.txns
    requires forall r :: InHand(s, t, r) ==> InHand(n, t, r)
    requires forall stage :: Taken(n.txns[t], stage) ==> Taken(s.txns[t], stage) || AllInHand(lockId, n, t, stage)
    ensures Guarded(lockId, n, t, u) && Guarded(lockId, n, u, t)
  {
    Guards(lockId, s, t, u);
    forall stage, m | Taken(n.txns[t], stage) && Begun(n.txns[u], m) && Covers(s.db, stage.target, m)
      ensures KeptApart(lockId, n, t, stage, m)
    {
      if Taken(s.txns[t], stage) && u != t {
        assert KeptApart(lockId, s, t, stage, m);
      } else {
        RowsCover(lockId, s.db, stage, m);
      }
    }
  }

  ghost predicate AllInHand(lockId: Mvid -> int, s: System, t: TxnId, stage: Stage) {
    forall r :: r in Rows(lockId, s.db, stage) ==> InHand(s, t, r)
  }

  lemma StartWorker(lockId: Mvid -> int, s: System, t: TxnId)
    requires Inv(lockId, s) && CanStep(s, t) && s.txns[t].pc.Start? && s.txns[t].job.Forgetting?
    ensures Inv(lockId, GoStep(lockId, s, t))
  {
    var n := StartStep(lockId, s, t);
    assert TxnOk(lockId, s, t) && Exclusive(s, t);
    var stages := StagesOf(s.txns[t].job.targets);
    assert stages[0..] == stages && stages[..0] == [];
    assert TxnOk(lockId, n, t);
    NoRowYet(lockId, s, t);
    NothingTaken(lockId, s, n, t);
    HoldsNothing(lockId, s, t);
    forall u | u in s.txns ensures Guarded(lockId, n, t, u) && Guarded(lockId, n, u, t) {
      WorkerGuards(lockId, s, n, t, u);
    }
    OwnStepKeeps(lockId, s, n, t);
  }

  lemma WorkerTakes(lockId: Mvid -> int, s: System, t: TxnId)
    requires Inv(lockId, s) && CanStep(s, t) && s.txns[t].pc.Locking? && s.txns[t].job.Forgetting?
    requires s.txns[t].pc.todo != []
    ensures Inv(lockId, LockStep(lockId, s, t))
  {
    var n, todo := LockStep(lockId, s, t), s.txns[t].pc.todo;
    assert Exclusive(s, t);
    TakesOk(lockId, s, t);
    RowTakenHeld(lockId, s, t);
    forall u | u in s.txns ensures Guarded(lockId, n, t, u) && Guarded(lockId, n, u, t) {
      WorkerGuards(lockId, s, n, t, u);
    }
    OwnStepKeeps(lockId, s, n, t);
  }

  lemma TakesOk(lockId: Mvid -> int, s: System, t: TxnId)
    requires CanStep(s, t) && s.txns[t].pc.Locking? && s.txns[t].job.Forgetting? && s.txns[t].pc.todo != []
    requires TxnOk(lockId, s, t)
    ensures var n := LockStep(lockId, s, t);
            && TxnOk(lockId, n, t) && (forall r :: InHand(s, t, r) ==> InHand(n, t, r))
            && forall stage :: Taken(n.txns[t], stage) <==> Taken(s.txns[t], stage)
  {
    var todo := s.txns[t].pc.todo;
    assert todo == [todo[0]] + todo[1..];
  }

  lemma RowTakenHeld(lockId: Mvid -> int, s: System, t: TxnId)
    requires Inv(lockId, s) && CanStep(s, t) && s.txns[t].pc.Locking? && s.txns[t].job.Forgetting?
    requires s.txns[t].pc.todo != []
    ensures forall r :: Holds(LockStep(lockId, s, t), t, r) ==> HeldOk(LockStep(lockId, s, t), r)
  {
    assert TxnOk(lockId, s, t);
    forall r | Holds(LockStep(lockId, s, t), t, r) ensures HeldOk(LockStep(lockId, s, t), r) { assert HeldOk(s, r); }
  }

  lemma WorkerAdvances(lockId: Mvid -> int, s: System, t: TxnId)
    requires Inv(lockId, s) && CanStep(s, t) && s.txns[t].pc.Locking? && s.txns[t].job.Forgetting?
    requires s.txns[t].pc.todo == []
    ensures Inv(lockId, LockStep(lockId, s, t))
  {
    var n := LockStep(lockId, s, t);
    assert TxnOk(lockId, s, t) && Exclusive(s, t);
    NextStage(lockId, s, t);
    NoRowYet(lockId, s, t);
    NothingTaken(lockId, s, n, t);
    forall u | u in s.txns ensures Guarded(lockId, n, t, u) && Guarded(lockId, n, u, t) {
      WorkerGuards(lockId, s, n, t, u);
    }
    OwnStepKeeps(lockId, s, n, t);
  }

  lemma NextStage(lockId: Mvid -> int, s: System, t: TxnId)
    requires CanStep(s, t) && s.txns[t].pc.Locking? && s.txns[t].job.Forgetting? && s.txns[t].pc.todo == []
    requires TxnOk(lockId, s, t)
    ensures var n := LockStep(lockId, s, t);
            && TxnOk(lockId, n, t)
            && forall stage :: Taken(n.txns[t], stage) ==> Taken(s.txns[t], stage) || AllInHand(lockId, n, t, stage)
  {
    var later, stages := s.txns[t].pc.later, StagesOf(s.txns[t].job.targets);
    if later != [] {
      AsksNoCandidate(lockId, s.db, later[0]);
      var k := |stages| - |later|;
      assert stages[..k + 1] == stages[..k] + [later[0]];
      assert later[1..] == stages[|stages| - |later[1..]|..];
    } else {
      assert stages[..|stages|] == stages;
    }
  }

  // ------------------------------------------------------------------ commits

  lemma ApproveTablesOk(db: Tables, c: CandidateId, admin: int)
    requires TablesOk(db) && c in db.candidates && db.candidates[c].status.Pending?
    requires db.candidates[c].sources != []
    requires forall m :: m in db.candidates[c].sources ==> CitationOk(db, m)
    ensures TablesOk(ApproveWrites(db, c, admin))
  {
    var n := ApproveWrites(db, c, admin);
    var rows := SourceRows(|db.cards|, db.candidates[c].sources);
    assert n.decisions[..|db.decisions|] == db.decisions;
    assert n.cardSources == db.cardSources + rows;
    forall i | 0 <= i < |n.cards| ensures n.cards[i].archived <==> !Cites(n.cardSources, i) {
      if i == |db.cards| {
        assert n.cardSources[|db.cardSources|] == rows[0];
      } else {
        if Cites(db.cardSources, i) {
          var j :| 0 <= j < |db.cardSources| && db.cardSources[j].card == i;
          assert n.cardSources[j].card == i;
        }
        if Cites(n.cardSources, i) {
          var j :| 0 <= j < |n.cardSources| && n.cardSources[j].card == i;
          assert j < |db.cardSources|;
          assert db.cardSources[j].card == i;
        }
      }
    }
    forall r | r in n.cardSources ensures r.card < |n.cards| && CitationOk(n, r.mvid) {
      if r !in db.cardSources {
        assert r in rows;
        var j :| 0 <= j < |rows| && rows[j] == r;
        assert db.candidates[c].sources[j] in db.candidates[c].sources;
      }
      SameRowsCitation(db, n, r.mvid);
    }
  }

  lemma SameRowsCitation(db: Tables, n: Tables, m: Mvid)
    requires n.messages == db.messages && n.versions == db.versions && n.forgotten == db.forgotten && CitationOk(db, m)
    ensures CitationOk(n, m)
  {
    forall target | target in n.forgotten && Covers(n, target, m) ensures target.OneMessage? && Superseded(n, m) {
      assert Covers(db, target, m);
    }
  }

  lemma RejectTablesOk(db: Tables, c: CandidateId, admin: int, reason: Option<string>)
    requires TablesOk(db) && c in db.candidates && db.candidates[c].status.Pending?
    ensures TablesOk(RejectWrites(db, c, admin, reason))
  {
    var n := RejectWrites(db, c, admin, reason);
    assert n.decisions[..|db.decisions|] == db.decisions;
    forall r | r in n.cardSources ensures CitationOk(n, r.mvid) {
      SameRowsCitation(db, n, r.mvid);
    }
  }

  /** A cascade's own tables: what it leaves cited is a superseded version of a message it was asked for. */
  ghost predicate UnlinksResolved(db: Tables, x: Cascade) {
    && x.targets <= db.requests
    && forall target, m :: target in x.targets && m in db.versions && m in Resolved(db, target) ==> m in x.unlinked
  }

  lemma ForgetExtends(db: Tables, x: Cascade)
    requires LinkedRows(db)
    ensures Extends(db, ForgetWrites(db, x))
  {
  }

  lemma LeftCited(db: Tables, x: Cascade, m: Mvid)
    requires UnlinksResolved(db, x) && LinkedRows(db) && CitationOk(db, m) && m !in x.unlinked
    ensures CitationOk(ForgetWrites(db, x), m)
  {
    var n := ForgetWrites(db, x);
    ForgetExtends(db, x);
    forall target | target in n.forgotten && Covers(n, target, m) ensures target.OneMessage? && Superseded(n, m) {
      CoversStays(db, n, target, m);
      if target in x.targets {
        assert m !in Resolved(db, target);
      }
    }
  }

  lemma ForgetTablesOk(db: Tables, x: Cascade)
    requires TablesOk(db) && UnlinksResolved(db, x)
    ensures TablesOk(ForgetWrites(db, x))
  {
    var n := ForgetWrites(db, x);
    ForgetExtends(db, x);
    forall i | 0 <= i < |n.cards| ensures n.cards[i].archived <==> !Cites(n.cardSources, i) {
      ArchivedIff(db, x, i);
    }
    forall r | r in n.cardSources ensures r.card < |n.cards| && CitationOk(n, r.mvid) {
      LeftCited(db, x, r.mvid);
    }
  }

  lemma ArchivedIff(db: Tables, x: Cascade, i: nat)
    requires TablesOk(db) && i < |db.cards|
    ensures var n := ForgetWrites(db, x);
            n.cards[i].archived <==> !Cites(n.cardSources, i)
  {
    CitesLess(db.cardSources, x.unlinked, i);
  }

  lemma OtherRows(lockId: Mvid -> int, s: System, t: TxnId, u: TxnId)
    requires Inv(lockId, s) && t in s.txns && u in s.txns && u != t && !s.txns[t].job.Forgetting? && RowHeld(s, t)
    requires !s.txns[u].job.Forgetting?
    requires !s.txns[u].pc.Start? && !s.txns[u].pc.Locking? && !s.txns[u].pc.WantRow? && !s.txns[u].pc.Ended?
    ensures s.txns[u].job.c != s.txns[t].job.c
  {
    assert TxnOk(lockId, s, u);
    assert RowHeld(s, u);
  }

  lemma ApproveCommitKeeps(lockId: Mvid -> int, s: System, t: TxnId)
    requires Inv(lockId, s) && CanStep(s, t) && s.txns[t].pc.Ready? && s.txns[t].job.Approving?
    ensures Inv(lockId, GoStep(lockId, s, t))
  {
    var x := s.txns[t];
    var c, admin := x.job.c, x.job.admin;
    assert TxnOk(lockId, s, t);
    if DistinctMvids(x.plan) {
      var db := ApproveWrites(s.db, c, admin);
      forall m | m in x.plan ensures CitationOk(s.db, m) {
        assert Validated(x, m) && GoodSource(s.db, x, m);
      }
      ApproveTablesOk(s.db, c, admin);
      DecidedEnds(lockId, s, t, db, ApprovedAs(|s.db.cards|));
    } else {
      GivesUp(lockId, s, t, DuplicateSource);
    }
  }

  /** The tables after a decision on candidate `c`. */
  ghost predicate Decides(db: Tables, next: Tables, c: CandidateId) {
    && next.messages == db.messages && next.versions == db.versions
    && next.requests == db.requests && next.forgotten == db.forgotten && next.candidates.Keys == db.candidates.Keys
    && (forall d :: d in next.candidates ==> next.candidates[d].sources == db.candidates[d].sources)
    && forall d :: d in next.candidates && d != c ==> next.candidates[d] == db.candidates[d]
  }

  lemma DecisionExtends(db: Tables, next: Tables, c: CandidateId, x: Txn)
    requires LinkedRows(db) && Decides(db, next, c)
    requires !x.job.Forgetting? && !x.pc.Start? && !x.pc.Locking? && !x.pc.WantRow? && !x.pc.Ended? ==> x.job.c != c
    ensures Extends(db, next) && DbKeeps(db, next, x)
  {
  }

  /** A decision on one candidate is nothing to the others. */
  lemma DecisionKeeps(lockId: Mvid -> int, s: System, t: TxnId, u: TxnId, db: Tables)
    requires Inv(lockId, s) && t in s.txns && u in s.txns && u != t && !s.txns[t].job.Forgetting? && RowHeld(s, t)
    requires Decides(s.db, db, s.txns[t].job.c)
    ensures Extends(s.db, db) && DbKeeps(s.db, db, s.txns[u])
  {
    var x := s.txns[u];
    if !x.job.Forgetting? && !x.pc.Start? && !x.pc.Locking? && !x.pc.WantRow? && !x.pc.Ended? {
      OtherRows(lockId, s, t, u);
    }
    DecisionExtends(s.db, db, s.txns[t].job.c, x);
  }

  lemma DecidedEnds(lockId: Mvid -> int, s: System, t: TxnId, db: Tables, outcome: Outcome)
    requires Inv(lockId, s) && t in s.txns && !s.txns[t].job.Forgetting? && RowHeld(s, t) && TablesOk(db)
    requires Decides(s.db, db, s.txns[t].job.c)
    ensures Inv(lockId, End(s, t, db, outcome))
  {
    forall u | u in s.txns && u != t ensures DbKeeps(s.db, db, s.txns[u]) {
      DecisionKeeps(lockId, s, t, u, db);
    }
    SameRowsExtend(s.db, db);
    EndKeeps(lockId, s, t, db, outcome);
  }

  lemma RejectCommitKeeps(lockId: Mvid -> int, s: System, t: TxnId)
    requires Inv(lockId, s) && CanStep(s, t) && s.txns[t].pc.Ready? && s.txns[t].job.Rejecting?
    ensures Inv(lockId, GoStep(lockId, s, t))
  {
    var x := s.txns[t];
    assert TxnOk(lockId, s, t);
    var db := RejectWrites(s.db, x.job.c, x.job.admin, x.job.reason);
    RejectTablesOk(s.db, x.job.c, x.job.admin, x.job.reason);
    DecidedEnds(lockId, s, t, db, RejectedNow);
  }

  /** The locks keep a cascade that may write apart from every source that an approval has validated. */
  lemma ForgetDisjointFromValidated(lockId: Mvid -> int, s: System, t: TxnId, u: TxnId, target: Target, m: Mvid)
    requires Inv(lockId, s) && t in s.txns && u in s.txns && t != u
    requires s.txns[t].pc.Ready? && s.txns[t].job.Forgetting? && target in s.txns[t].job.targets
    requires Begun(s.txns[u], m) && Covers(s.db, target, m)
    ensures !Validated(s.txns[u], m) && target.OneMessage? && Holds(s, t, MessageRow(s.db.versions[m].message))
  {
    Guards(lockId, s, t, u);
    assert Exclusive(s, u);
    assert Validated(s.txns[u], m) ==> GoodSource(s.db, s.txns[u], m);
    StageTargets(s.txns[t].job.targets, Stage(Locks, target));
    StageTargets(s.txns[t].job.targets, Stage(Messages, target));
    assert KeptApart(lockId, s, t, Stage(Locks, target), m);
    assert KeptApart(lockId, s, t, Stage(Messages, target), m);
    assert Holds(s, u, Advisory(lockId(m)));
  }

  lemma CascadeKeeps(lockId: Mvid -> int, s: System, t: TxnId, u: TxnId)
    requires Inv(lockId, s) && t in s.txns && s.txns[t].pc.Ready? && s.txns[t].job.Forgetting?
    requires u in s.txns && u != t
    ensures DbKeeps(s.db, ForgetWrites(s.db, CascadeOf(s, t)), s.txns[u])
  {
    var x, next := s.txns[u], ForgetWrites(s.db, CascadeOf(s, t));
    ForgetExtends(s.db, CascadeOf(s, t));
    assert Exclusive(s, u);
    forall target, m | target in next.forgotten && target !in s.db.forgotten && Begun(x, m) && Covers(s.db, target, m)
      ensures !Validated(x, m) && target.OneMessage? && s.db.versions[m].message in next.messages
              && next.messages[s.db.versions[m].message].isRedacted
    {
      ForgetDisjointFromValidated(lockId, s, t, u, target, m);
    }
  }

  lemma ForgetCommitKeeps(lockId: Mvid -> int, s: System, t: TxnId)
    requires Inv(lockId, s) && CanStep(s, t) && s.txns[t].pc.Ready? && s.txns[t].job.Forgetting?
    ensures Inv(lockId, GoStep(lockId, s, t))
  {
    var x := CascadeOf(s, t);
    assert TxnOk(lockId, s, t);
    assert UnlinksResolved(s.db, x);
    ForgetTablesOk(s.db, x);
    ForgetExtends(s.db, x);
    forall u | u in s.txns && u != t ensures DbKeeps(s.db, ForgetWrites(s.db, x), s.txns[u]) {
      CascadeKeeps(lockId, s, t, u);
    }
    EndKeeps(lockId, s, t, ForgetWrites(s.db, x), Forgotten);
  }

  // ------------------------------------------------------------------ steps of the surroundings

  lemma OutsideFrame(lockId: Mvid -> int, s: System, n: System)
    requires Inv(lockId, s) && n.txns == s.txns && n.holder == s.holder && TablesOk(n.db)
    requires forall t :: t in s.txns ==> DbKeeps(s.db, n.db, s.txns[t])
    requires Extends(s.db, n.db)
    ensures Inv(lockId, n)
  {
    forall t | t in n.txns ensures TxnOk(lockId, n, t) && Exclusive(n, t) {
      assert TxnOk(lockId, s, t) && Exclusive(s, t);
      TxnFrame(lockId, s, n, t);
    }
    forall r ensures HeldOk(n, r) { assert HeldOk(s, r); }
    forall t, u | t in n.txns && u in n.txns ensures Guarded(lockId, n, t, u) {
      Guards(lockId, s, t, u);
      GuardFrame(lockId, s, n, t, u);
    }
  }

  lemma WritesTablesOk(db: Tables, messages: map<MessageId, Message>, versions: map<Mvid, Version>)
    requires TablesOk(db) && RowsExtend(db, messages, versions)
    ensures var next := db.(messages := messages, versions := versions);
            TablesOk(next) && Extends(db, next)
  {
    var next := db.(messages := messages, versions := versions);
    forall r | r in next.cardSources ensures CitationOk(next, r.mvid) {
      CitationStays(db, next, r.mvid);
    }
  }

  lemma CitationStays(db: Tables, next: Tables, m: Mvid)
    requires Extends(db, next) && next.forgotten == db.forgotten && CitationOk(db, m)
    ensures CitationOk(next, m)
  {
    forall target | target in next.forgotten && Covers(next, target, m)
      ensures target.OneMessage? && Superseded(next, m)
    {
      CoversStays(db, next, target, m);
    }
  }

  lemma WritesDbKeeps(s: System, messages: map<MessageId, Message>, versions: map<Mvid, Version>, t: TxnId)
    requires MayWrite(s, messages, versions) && t in s.txns
    ensures DbKeeps(s.db, s.db.(messages := messages, versions := versions), s.txns[t])
  {
  }

  lemma WritesKeep(lockId: Mvid -> int, s: System, messages: map<MessageId, Message>, versions: map<Mvid, Version>)
    requires Inv(lockId, s)
    ensures Inv(lockId, Step(lockId, s, OtherWrites(messages, versions)))
  {
    if MayWrite(s, messages, versions) {
      var next := s.db.(messages := messages, versions := versions);
      WritesTablesOk(s.db, messages, versions);
      forall t | t in s.txns ensures DbKeeps(s.db, next, s.txns[t]) {
        WritesDbKeeps(s, messages, versions, t);
      }
      OutsideFrame(lockId, s, s.(db := next));
    }
  }

  lemma SameRowsTablesOk(db: Tables, next: Tables)
    requires TablesOk(db) && Extends(db, next) && next.messages == db.messages && next.versions == db.versions
    requires next.cards == db.cards && next.cardSources == db.cardSources && next.decisions == db.decisions
    requires next.forgotten == db.forgotten && forall g :: OneMessage(g) in next.requests ==> g in db.messages
    requires forall c :: c in db.candidates ==> next.candidates[c] == db.candidates[c]
    ensures TablesOk(next)
  {
    forall r | r in next.cardSources ensures CitationOk(next, r.mvid) {
      SameRowsCitation(db, next, r.mvid);
    }
  }

  lemma RequestExtends(db: Tables, target: Target)
    requires TablesOk(db) && (target.OneMessage? ==> target.message in db.messages)
    ensures var next := db.(requests := db.requests + {target});
            TablesOk(next) && Extends(db, next) && forall x: Txn :: DbKeeps(db, next, x)
  {
    SameRowsTablesOk(db, db.(requests := db.requests + {target}));
  }

  lemma RequestKeeps(lockId: Mvid -> int, s: System, target: Target)
    requires Inv(lockId, s)
    ensures Inv(lockId, Step(lockId, s, RequestForget(target)))
  {
    if target.OneMessage? ==> target.message in s.db.messages {
      RequestExtends(s.db, target);
      OutsideFrame(lockId, s, s.(db := s.db.(requests := s.db.requests + {target})));
    }
  }

  lemma CandidateExtends(db: Tables, c: CandidateId, cand: Candidate)
    requires TablesOk(db) && c !in db.candidates
    ensures var next := db.(candidates := db.candidates[c := cand]);
            TablesOk(next) && Extends(db, next) && forall x: Txn :: SameStatus(db, next, x)
  {
    SameRowsTablesOk(db, db.(candidates := db.candidates[c := cand]));
  }

  lemma CandidateKeeps(lockId: Mvid -> int, s: System, c: CandidateId, cand: Candidate)
    requires Inv(lockId, s)
    ensures Inv(lockId, Step(lockId, s, NewCandidate(c, cand)))
  {
    if c !in s.db.candidates && cand.status.Pending? {
      CandidateExtends(s.db, c, cand);
      OutsideFrame(lockId, s, Step(lockId, s, NewCandidate(c, cand)));
    }
  }

  lemma BeginKeeps(lockId: Mvid -> int, s: System, t: TxnId, job: Job)
    requires Inv(lockId, s) && t !in s.txns && (job.Forgetting? ==> Elements(job.targets) <= s.db.requests)
    ensures Inv(lockId, s.(txns := s.txns[t := Txn(job, [], {}, Start)]))
  {
    var n := s.(txns := s.txns[t := Txn(job, [], {}, Start)]);
    forall u | u in n.txns ensures TxnOk(lockId, n, u) && Exclusive(n, u) {
      if u != t {
        assert TxnOk(lockId, s, u) && Exclusive(s, u);
        TxnFrame(lockId, s, n, u);
      }
    }
    forall r ensures HeldOk(n, r) { assert HeldOk(s, r); }
    forall u, v | u in n.txns && v in n.txns ensures Guarded(lockId, n, u, v) {
      BeginGuards(lockId, s, n, t, u, v);
    }
  }

  lemma BeginGuards(lockId: Mvid -> int, s: System, n: System, t: TxnId, u: TxnId, v: TxnId)
    requires Inv(lockId, s) && t !in s.txns && n.db == s.db && n.holder == s.holder && u in n.txns && v in n.txns
    requires t in n.txns && n.txns == s.txns[t := n.txns[t]] && n.txns[t].pc.Start?
    ensures Guarded(lockId, n, u, v)
  {
    if u in s.txns && v in s.txns {
      Guards(lockId, s, u, v);
      GuardFrame(lockId, s, n, u, v);
    }
  }

  lemma LockingKeeps(lockId: Mvid -> int, s: System, t: TxnId)
    requires Inv(lockId, s) && CanStep(s, t) && s.txns[t].pc.Locking?
    ensures Inv(lockId, GoStep(lockId, s, t))
  {
    assert TxnOk(lockId, s, t);
    if s.txns[t].job.Approving? {
      ApprovalLocks(lockId, s, t);
    } else if s.txns[t].pc.todo != [] {
      WorkerTakes(lockId, s, t);
    } else {
      WorkerAdvances(lockId, s, t);
    }
  }

  lemma GoKeeps(lockId: Mvid -> int, s: System, t: TxnId)
    requires Inv(lockId, s)
    ensures Inv(lockId, GoStep(lockId, s, t))
  {
    if CanStep(s, t) {
      assert TxnOk(lockId, s, t);
      match s.txns[t].pc {
        case Start =>
          match s.txns[t].job {
            case Approving(_, _) => StartApproval(lockId, s, t);
            case Rejecting(_, _, _) => StartRejection(lockId, s, t);
            case Forgetting(_) => StartWorker(lockId, s, t);
          }
        case Locking(_, _) => LockingKeeps(lockId, s, t);
        case WantRow => RowKeeps(lockId, s, t);
        case Checking(_) => CheckBegins(lockId, s, t);
        case Sharing(_, _) => VersionShared(lockId, s, t);
        case Joining(_, _) => MessageJoined(lockId, s, t);
        case Ready =>
          match s.txns[t].job {
            case Approving(_, _) => ApproveCommitKeeps(lockId, s, t);
            case Rejecting(_, _, _) => RejectCommitKeeps(lockId, s, t);
            case Forgetting(_) => ForgetCommitKeeps(lockId, s, t);
          }
        case _ =>
      }
    }
  }

  lemma AbortKeeps(lockId: Mvid -> int, s: System, t: TxnId)
    requires Inv(lockId, s)
    ensures Inv(lockId, Step(lockId, s, Abort(t)))
  {
    if t in s.txns && !s.txns[t].pc.Ended? {
      GivesUp(lockId, s, t, RolledBack);
    }
  }

  lemma StepKeeps(lockId: Mvid -> int, s: System, a: Action)
    requires Inv(lockId, s)
    ensures Inv(lockId, Step(lockId, s, a))
  {
    match a {
      case Begin(t, job) =>
        if t !in s.txns && (job.Forgetting? ==> Elements(job.targets) <= s.db.requests) {
          BeginKeeps(lockId, s, t, job);
        }
      case Go(t) => GoKeeps(lockId, s, t);
      case Abort(t) => AbortKeeps(lockId, s, t);
      case RequestForget(target) => RequestKeeps(lockId, s, target);
      case OtherWrites(messages, versions) => WritesKeep(lockId, s, messages, versions);
      case NewCandidate(c, cand) => CandidateKeeps(lockId, s, c, cand);
    }
  }

  // ------------------------------------------------------------------ runs

  ghost predicate Initial(s: System) {
    s.txns == map[] && s.holder == map[] && TablesOk(s.db)
  }

  /** In every run the tables agree, and what a finished cascade left cited is a superseded version. */
  lemma {:induction false} EveryRunIsSafe(lockId: Mvid -> int, s: System, acts: seq<Action>)
    requires Inv(lockId, s)
    ensures Inv(lockId, Run(lockId, s, acts))
    ensures var db := Run(lockId, s, acts).db;
            && (forall r, target :: r in db.cardSources && target in db.forgotten && Covers(db, target, r.mvid) ==>
                  target.OneMessage? && Superseded(db, r.mvid))
            && |db.cards| == ApprovedCount(db.decisions)
            && (forall i, j :: 0 <= i < j < |db.decisions| ==>
                  db.decisions[i].candidate != db.decisions[j].candidate)
            && (forall i :: 0 <= i < |db.cards| ==> (db.cards[i].archived <==> !Cites(db.cardSources, i)))
    decreases |acts|
  {
    if acts != [] {
      StepKeeps(lockId, s, acts[0]);
      EveryRunIsSafe(lockId, Step(lockId, s, acts[0]), acts[1..]);
    }
  }

  lemma InitialIsSafe(lockId: Mvid -> int, s: System)
    requires Initial(s)
    ensures Inv(lockId, s)
  {
  }

  // ------------------------------------------------------------------ when a card is created

  ghost predicate Creates(lockId: Mvid -> int, s: System, a: Action) {
    |Step(lockId, s, a).db.cards| > |s.db.cards|
  }

  lemma OnlyApprovalsCreate(lockId: Mvid -> int, s: System, a: Action)
    requires Creates(lockId, s, a)
    ensures a.Go? && CanStep(s, a.t) && s.txns[a.t].pc.Ready? && s.txns[a.t].job.Approving?
    ensures s.txns[a.t].job.c in s.db.candidates && DistinctMvids(s.db.candidates[s.txns[a.t].job.c].sources)
  {
  }

  /**
   The commit that creates a card: every source is current, content-eligible, not redacted,
   under a normal policy and covered by no finished cascade; the candidate was pending; the
   card cites exactly the candidate's sources, in order.
   */
  lemma CardsComeFromCleanSources(lockId: Mvid -> int, s: System, a: Action)
    requires Inv(lockId, s) && Creates(lockId, s, a)
    ensures a.Go? && a.t in s.txns && s.txns[a.t].job.Approving?
    ensures var c := s.txns[a.t].job.c;
            var n := Step(lockId, s, a);
            && c in s.db.candidates && s.db.candidates[c].status.Pending? && n.db.candidates[c].status.Approved?
            && (forall m :: m in s.db.candidates[c].sources ==>
                  Clean(s.db, m) && forall target :: target in s.db.forgotten ==> !Covers(s.db, target, m))
            && n.db.cardSources == s.db.cardSources + SourceRows(|s.db.cards|, s.db.candidates[c].sources)
            && n.db.decisions == s.db.decisions + [Decision(c, Approved, s.txns[a.t].job.admin, None)]
            && s.txns[a.t].pc.Ready? && DistinctMvids(s.db.candidates[c].sources)
  {
    OnlyApprovalsCreate(lockId, s, a);
    assert TxnOk(lockId, s, a.t);
    var x := s.txns[a.t];
    forall m | m in x.plan
      ensures Clean(s.db, m) && forall target :: target in s.db.forgotten ==> !Covers(s.db, target, m)
    {
      assert Validated(x, m) && GoodSource(s.db, x, m);
    }
  }

  /** Every step that creates a card creates one, as the candidate and the deciding admin have it. */
  lemma NewCardIsTheCandidates(lockId: Mvid -> int, s: System, a: Action)
    requires Creates(lockId, s, a)
    ensures a.Go? && a.t in s.txns && s.txns[a.t].job.Approving?
    ensures Promoted(s.db, Step(lockId, s, a).db, s.txns[a.t].job.c, s.txns[a.t].job.admin)
  {
    OnlyApprovalsCreate(lockId, s, a);
    ApprovalPromotes(s.db, s.txns[a.t].job.c, s.txns[a.t].job.admin);
    assert GoStep(lockId, s, a.t) == CommitStep(s, a.t);
  }

  /** A rejection's commit: no card, and the decision with its reason. */
  lemma RejectionIsRecorded(lockId: Mvid -> int, s: System, t: TxnId)
    requires Inv(lockId, s) && t in s.txns && s.txns[t].pc.Ready? && s.txns[t].job.Rejecting?
    ensures var j := s.txns[t].job;
            TurnedDown(s.db, GoStep(lockId, s, t).db, j.c, j.admin, j.reason)
  {
    assert TxnOk(lockId, s, t);
    RejectionTurnsDown(s.db, s.txns[t].job.c, s.txns[t].job.admin, s.txns[t].job.reason);
    assert GoStep(lockId, s, t) == CommitStep(s, t);
  }

  /** A blocked or failed attempt, and every statement before the commit, leaves the tables alone. */
  lemma OnlyCommitsWrite(lockId: Mvid -> int, s: System, t: TxnId)
    requires Inv(lockId, s) && t in s.txns
    ensures var n := GoStep(lockId, s, t);
            && n.txns.Keys == s.txns.Keys
            && (n.db != s.db ==>
                  && s.txns[t].pc.Ready? && n.txns[t].pc.Ended?
                  && (n.txns[t].pc.outcome.ApprovedAs? || n.txns[t].pc.outcome.RejectedNow?
                      || n.txns[t].pc.outcome.Forgotten?))
            && (n.txns[t].pc.Ended? && n.txns[t].pc.outcome.Blocked? && !s.txns[t].pc.Ended? ==>
                  n.db == s.db && !Eligible(s.db, n.txns[t].pc.outcome.mvid))
  {
    assert TxnOk(lockId, s, t);
    if CanStep(s, t) {
      match s.txns[t].pc {
        case Ready =>
        case Checking(_) => BlockedIsIneligible(lockId, s, t);
        case Joining(_, _) => BlockedIsIneligible(lockId, s, t);
        case _ =>
      }
    }
  }

  lemma BlockedIsIneligible(lockId: Mvid -> int, s: System, t: TxnId)
    requires t in s.txns && TxnOk(lockId, s, t) && CanStep(s, t) && (s.txns[t].pc.Checking? || s.txns[t].pc.Joining?)
    ensures var n := GoStep(lockId, s, t);
            n.db == s.db && !n.txns[t].pc.Ready? ==>
            (n.txns[t].pc.Ended? && n.txns[t].pc.outcome.Blocked? ==> !Eligible(s.db, n.txns[t].pc.outcome.mvid))
    ensures GoStep(lockId, s, t).db == s.db
  {
  }

  /** The source list never changes, so the second round of source locks is never taken. */
  lemma NoSecondRoundOfLocks(lockId: Mvid -> int, s: System, acts: seq<Action>, t: TxnId)
    requires Inv(lockId, s) && t in Run(lockId, s, acts).txns
    ensures !Run(lockId, s, acts).txns[t].pc.Relocking?
  {
    EveryRunIsSafe(lockId, s, acts);
    assert TxnOk(lockId, Run(lockId, s, acts), t);
  }

  // ------------------------------------------------------------------ forget requests take no source lock

  /**
   A forget request takes none of these locks, so it can land between re-validation and commit:
   the card is then created although one of its sources is no longer eligible.
   */
  lemma RequestOvertakesApproval(lockId: Mvid -> int, s: System, t: TxnId, target: Target, m: Mvid)
    requires Inv(lockId, s) && t in s.txns && s.txns[t].pc.Ready? && s.txns[t].job.Approving?
    requires DistinctMvids(s.txns[t].plan) && m in s.txns[t].plan && Covers(s.db, target, m)
    ensures var mid := Step(lockId, s, RequestForget(target));
            && Creates(lockId, mid, Go(t)) && !Eligible(mid.db, m)
            && exists r :: r in Step(lockId, mid, Go(t)).db.cardSources && r.card == |s.db.cards| && r.mvid == m
  {
    assert TxnOk(lockId, s, t);
    var mid := Step(lockId, s, RequestForget(target));
    TombstonedMeansCovered(mid.db, m);
    assert Covers(mid.db, target, m);
    var rows := SourceRows(|s.db.cards|, s.txns[t].plan);
    var i :| 0 <= i < |s.txns[t].plan| && s.txns[t].plan[i] == m;
    var n := Step(lockId, mid, Go(t));
    assert n.db.cardSources == s.db.cardSources + rows;
    assert rows[i] in n.db.cardSources;
  }

  // ------------------------------------------------------------------ what a cascade does

  /**
   A worker's commit removes exactly the rows of the versions that its targets resolve to, archives the
   cards left without any, and leaves no version eligible that a target covers.
   */
  lemma CascadeUnlinks(lockId: Mvid -> int, s: System, t: TxnId)
    requires Inv(lockId, s) && t in s.txns && s.txns[t].pc.Ready? && s.txns[t].job.Forgetting?
    ensures var n := GoStep(lockId, s, t);
            var targets := s.txns[t].job.targets;
            && (forall r :: r in n.db.cardSources <==> r in s.db.cardSources && !Unlinks(s.db, targets, r.mvid))
            && |n.db.cards| == |s.db.cards|
            && (forall i :: 0 <= i < |s.db.cards| && Cites(s.db.cardSources, i) && !Cites(n.db.cardSources, i) ==>
                  n.db.cards[i].archived)
            && (forall target, m :: target in targets && Covers(n.db, target, m) ==> !Eligible(n.db, m))
            && n.db.candidates == s.db.candidates && n.db.decisions == s.db.decisions
  {
    assert TxnOk(lockId, s, t);
    var n, targets := GoStep(lockId, s, t), s.txns[t].job.targets;
    forall target, m | target in targets && Covers(n.db, target, m) ensures !Eligible(n.db, m) {
      TombstonedMeansCovered(n.db, m);
      assert target in Elements(targets) && target in n.db.requests;
    }
    forall r ensures r in n.db.cardSources <==> r in s.db.cardSources && !Unlinks(s.db, targets, r.mvid) {
      if r in s.db.cardSources {
        assert CitationOk(s.db, r.mvid);
      }
    }
  }

  /**
   What a worker's commit does to the rows it has locked, and to no others: a message is redacted and
   loses its normal policy, a version is redacted; who wrote them, what they are versions of and what
   is current stay.
   */
  lemma CascadeRedacts(lockId: Mvid -> int, s: System, t: TxnId)
    requires Inv(lockId, s) && t in s.txns && s.txns[t].pc.Ready? && s.txns[t].job.Forgetting?
    ensures var n := GoStep(lockId, s, t).db;
            && n.messages.Keys == s.db.messages.Keys && n.versions.Keys == s.db.versions.Keys
            && (forall g :: g in s.db.messages ==>
                  var x, y := s.db.messages[g], n.messages[g];
                  && y.user == x.user && y.current == x.current
                  && y.isRedacted == (x.isRedacted || Holds(s, t, MessageRow(g)))
                  && y.normalPolicy == (x.normalPolicy && !Holds(s, t, MessageRow(g))))
            && (forall m :: m in s.db.versions ==>
                  var x, y := s.db.versions[m], n.versions[m];
                  && y.message == x.message && y.hash == x.hash && y.contentEligible == x.contentEligible
                  && y.isRedacted == (x.isRedacted || Holds(s, t, VersionRow(m))))
            && n.requests == s.db.requests && n.forgotten == s.db.forgotten + Elements(s.txns[t].job.targets)
  {
    assert GoStep(lockId, s, t) == CommitStep(s, t);
  }

  ghost predicate CoveredBy(db: Tables, targets: seq<Target>, m: Mvid) {
    exists target :: target in targets && Covers(db, target, m)
  }

  /** A superseded version of a message that one of the targets is about. */
  ghost predicate LeftBehind(db: Tables, targets: seq<Target>, m: Mvid) {
    Superseded(db, m) && OneMessage(db.versions[m].message) in targets
  }

  /**
   What a finished cascade leaves cited: a covered version is still cited exactly when a card cited a
   superseded version of a message that the request was for, and nothing else in the batch unlinks it.
   */
  lemma CascadeLeavesCitationIff(lockId: Mvid -> int, s: System, t: TxnId, r: CardSource)
    requires Inv(lockId, s) && t in s.txns && s.txns[t].pc.Ready? && s.txns[t].job.Forgetting?
    ensures var n, targets := GoStep(lockId, s, t), s.txns[t].job.targets;
            r in n.db.cardSources && CoveredBy(n.db, targets, r.mvid) <==>
            r in s.db.cardSources && LeftBehind(s.db, targets, r.mvid) && !Unlinks(s.db, targets, r.mvid)
  {
    var next := CascadeFacts(lockId, s, t, r);
    if r in s.db.cardSources && !Unlinks(s.db, s.txns[t].job.targets, r.mvid) {
      LeftIffCovered(s.db, next, s.txns[t].job.targets, r.mvid);
    }
  }

  lemma CascadeFacts(lockId: Mvid -> int, s: System, t: TxnId, r: CardSource) returns (next: Tables)
    requires Inv(lockId, s) && t in s.txns && s.txns[t].pc.Ready? && s.txns[t].job.Forgetting?
    ensures next == GoStep(lockId, s, t).db && Extends(s.db, next)
    ensures r in next.cardSources <==> r in s.db.cardSources && !Unlinks(s.db, s.txns[t].job.targets, r.mvid)
    ensures r in s.db.cardSources ==> Present(s.db, r.mvid)
  {
    next := GoStep(lockId, s, t).db;
    CascadeUnlinks(lockId, s, t);
    GoExtends(lockId, s, t);
    assert r in s.db.cardSources ==> CitationOk(s.db, r.mvid);
  }

  lemma LeftIffCovered(db: Tables, next: Tables, targets: seq<Target>, m: Mvid)
    requires Extends(db, next) && Present(db, m) && !Unlinks(db, targets, m)
    ensures CoveredBy(next, targets, m) <==> LeftBehind(db, targets, m)
  {
    forall target | target in targets
      ensures Covers(next, target, m) <==> Covers(db, target, m)
      ensures Covers(db, target, m) ==> target.OneMessage? && Superseded(db, m)
    {
      CoversStays(db, next, target, m);
      if Covers(db, target, m) {
        NotResolved(db, target, m);
      }
    }
    if LeftBehind(db, targets, m) {
      assert Covers(db, OneMessage(db.versions[m].message), m);
    }
  }

  /** A covered version that a target does not resolve to. */
  lemma NotResolved(db: Tables, target: Target, m: Mvid)
    requires Covers(db, target, m)
    ensures m !in Resolved(db, target) <==> target.OneMessage? && Superseded(db, m)
  {
  }

  // ------------------------------------------------------------------ how the tables develop

  lemma CommitExtends(s: System, t: TxnId)
    requires LinkedRows(s.db) && t in s.txns
    ensures Extends(s.db, CommitStep(s, t).db)
  {
    if s.txns[t].job.Forgetting? {
      ForgetExtends(s.db, CascadeOf(s, t));
    }
  }

  lemma GoExtends(lockId: Mvid -> int, s: System, t: TxnId)
    requires LinkedRows(s.db)
    ensures Extends(s.db, GoStep(lockId, s, t).db)
  {
    if GoStep(lockId, s, t).db != s.db {
      CommitExtends(s, t);
    }
  }

  lemma SameRowsExtend(db: Tables, next: Tables)
    requires LinkedRows(db) && next.messages == db.messages && next.versions == db.versions
    requires db.requests <= next.requests && db.forgotten <= next.forgotten
    requires forall c :: c in db.candidates ==>
               c in next.candidates && next.candidates[c].sources == db.candidates[c].sources
    ensures Extends(db, next)
  {
  }

  lemma OutsideExtends(lockId: Mvid -> int, s: System, a: Action)
    requires LinkedRows(s.db) && !a.Go?
    ensures Extends(s.db, Step(lockId, s, a).db)
  {
    if !a.OtherWrites? {
      SameRowsExtend(s.db, Step(lockId, s, a).db);
    } else if !MayWrite(s, a.messages, a.versions) {
      SameRowsExtend(s.db, s.db);
    }
  }

  lemma StepExtends(lockId: Mvid -> int, s: System, a: Action)
    requires LinkedRows(s.db)
    ensures Extends(s.db, Step(lockId, s, a).db)
  {
    if a.Go? {
      GoExtends(lockId, s, a.t);
    } else {
      OutsideExtends(lockId, s, a);
    }
  }
}
