/** Forget requests against approvals, over whole runs: when a card's sources are eligible as it is written. */
module CardEligibility {
  import opened Prelude
  import opened CardApproval
  import opened CardRaces
  import opened CardSafety

  /** The state before the `k`-th action. */
  ghost function StateAt(lockId: Mvid -> int, s: System, acts: seq<Action>, k: nat): System
    requires k <= |acts|
  {
    Run(lockId, s, acts[..k])
  }

  lemma StateNext(lockId: Mvid -> int, s: System, acts: seq<Action>, k: nat)
    requires k < |acts|
    ensures StateAt(lockId, s, acts, k + 1) == Step(lockId, StateAt(lockId, s, acts, k), acts[k])
  {
    assert acts[..k + 1] == acts[..k] + [acts[k]];
    RunConcat(lockId, s, acts[..k], [acts[k]]);
    RunOne(lockId, Run(lockId, s, acts[..k]), acts[k]);
  }

  lemma StateIsSafe(lockId: Mvid -> int, s: System, acts: seq<Action>, k: nat)
    requires Initial(s) && k <= |acts|
    ensures Inv(lockId, StateAt(lockId, s, acts, k))
  {
    InitialIsSafe(lockId, s);
    EveryRunIsSafe(lockId, s, acts[..k]);
  }

  // ------------------------------------------------------------------ the check, the request and the commit

  /** The next statement of `t` is the one that re-validates source `m`. */
  ghost predicate Checks(s: System, t: TxnId, m: Mvid) {
    && t in s.txns && s.txns[t].pc.Checking? && s.txns[t].job.Approving?
    && var k := s.txns[t].pc.k; k < |s.txns[t].plan| && s.txns[t].plan[k] == m
  }

  /** In step `j`, transaction `t` begins to re-validate `m`. */
  ghost predicate ChecksAt(lockId: Mvid -> int, s: System, acts: seq<Action>, j: nat, t: TxnId, m: Mvid) {
    j < |acts| && acts[j] == Go(t) && Checks(StateAt(lockId, s, acts, j), t, m)
  }

  /** Somebody asks for something to be forgotten that `m` is part of, by the tables `db`. */
  predicate Requests(a: Action, db: Tables, m: Mvid) {
    a.RequestForget? && Covers(db, a.target, m)
  }

  /** Step `k` commits an approval by `t` and creates a card that cites `m`. */
  ghost predicate CreatesAt(lockId: Mvid -> int, s: System, acts: seq<Action>, k: nat, t: TxnId, m: Mvid) {
    && k < |acts| && acts[k] == Go(t)
    && var b := StateAt(lockId, s, acts, k);
       && Creates(lockId, b, acts[k]) && t in b.txns && b.txns[t].job.Approving?
       && b.txns[t].job.c in b.db.candidates && m in b.db.candidates[b.txns[t].job.c].sources
  }

  // ------------------------------------------------------------------ tombstones

  lemma SameCovers(db: Tables, next: Tables, m: Mvid)
    requires Extends(db, next) && Present(db, m)
    ensures Present(next, m) && forall target :: Covers(next, target, m) <==> Covers(db, target, m)
  {
    forall target ensures Covers(next, target, m) <==> Covers(db, target, m) {
      CoversStays(db, next, target, m);
    }
  }

  lemma {:induction false} CoversAt(lockId: Mvid -> int, s: System, acts: seq<Action>, j: nat, k: nat, m: Mvid)
    requires Initial(s) && j <= k <= |acts| && Present(StateAt(lockId, s, acts, j).db, m)
    ensures var a, b := StateAt(lockId, s, acts, j).db, StateAt(lockId, s, acts, k).db;
            Present(b, m) && forall target :: Covers(b, target, m) <==> Covers(a, target, m)
    decreases k
  {
    if j < k {
      CoversAt(lockId, s, acts, j, k - 1, m);
      StateExtends(lockId, s, acts, k - 1);
      SameCovers(StateAt(lockId, s, acts, k - 1).db, StateAt(lockId, s, acts, k).db, m);
    }
  }

  lemma StateExtends(lockId: Mvid -> int, s: System, acts: seq<Action>, k: nat)
    requires Initial(s) && k < |acts|
    ensures Extends(StateAt(lockId, s, acts, k).db, StateAt(lockId, s, acts, k + 1).db)
  {
    StateNext(lockId, s, acts, k);
    StateIsSafe(lockId, s, acts, k);
    StepExtends(lockId, StateAt(lockId, s, acts, k), acts[k]);
  }

  lemma TombstonedNext(lockId: Mvid -> int, s: System, acts: seq<Action>, j: nat, k: nat, m: Mvid)
    requires Initial(s) && j <= k < |acts| && Present(StateAt(lockId, s, acts, j).db, m)
    ensures Tombstoned(StateAt(lockId, s, acts, k + 1).db, m) <==>
            Tombstoned(StateAt(lockId, s, acts, k).db, m) || Requests(acts[k], StateAt(lockId, s, acts, j).db, m)
  {
    CoversAt(lockId, s, acts, j, k, m);
    StateNext(lockId, s, acts, k);
    StateIsSafe(lockId, s, acts, k);
    OnlyRequestsTombstone(lockId, StateAt(lockId, s, acts, k), acts[k], m);
  }

  ghost predicate RequestedBetween(acts: seq<Action>, db: Tables, m: Mvid, j: nat, k: nat)
    requires k <= |acts|
  {
    exists i :: j <= i < k && Requests(acts[i], db, m)
  }

  lemma RequestedNext(acts: seq<Action>, db: Tables, m: Mvid, j: nat, k: nat)
    requires j <= k < |acts|
    ensures RequestedBetween(acts, db, m, j, k + 1) <==> RequestedBetween(acts, db, m, j, k) || Requests(acts[k], db, m)
  {
    if RequestedBetween(acts, db, m, j, k + 1) && !Requests(acts[k], db, m) {
      var i :| j <= i < k + 1 && Requests(acts[i], db, m);
      assert i < k;
    }
  }

  ghost predicate TombstonedAt(lockId: Mvid -> int, s: System, acts: seq<Action>, k: nat, m: Mvid)
    requires k <= |acts|
  {
    Tombstoned(StateAt(lockId, s, acts, k).db, m)
  }

  lemma {:induction false} TombstonedIff(lockId: Mvid -> int, s: System, acts: seq<Action>, j: nat, k: nat, m: Mvid)
    requires Initial(s) && j <= k <= |acts| && Present(StateAt(lockId, s, acts, j).db, m)
    ensures TombstonedAt(lockId, s, acts, k, m) <==>
            TombstonedAt(lockId, s, acts, j, m) || RequestedBetween(acts, StateAt(lockId, s, acts, j).db, m, j, k)
    decreases k
  {
    if j < k {
      TombstonedIff(lockId, s, acts, j, k - 1, m);
      TombstonedNext(lockId, s, acts, j, k - 1, m);
      RequestedNext(acts, StateAt(lockId, s, acts, j).db, m, j, k - 1);
    }
  }

  lemma OnlyRequestsTombstone(lockId: Mvid -> int, s: System, a: Action, m: Mvid)
    requires Inv(lockId, s) && Present(s.db, m)
    ensures Tombstoned(Step(lockId, s, a).db, m) <==> Tombstoned(s.db, m) || Requests(a, s.db, m)
  {
    var n := Step(lockId, s, a);
    StepExtends(lockId, s, a);
    RequestsOnly(lockId, s, a);
    TombstonedMeansCovered(s.db, m);
    TombstonedMeansCovered(n.db, m);
    SameCovers(s.db, n.db, m);
  }

  lemma RequestsOnly(lockId: Mvid -> int, s: System, a: Action)
    ensures Step(lockId, s, a).db.requests ==
            s.db.requests + (if a.RequestForget? && (a.target.OneMessage? ==> a.target.message in s.db.messages)
                             then {a.target} else {})
  {
  }

  // ------------------------------------------------------------------ each source is checked once

  /** Transaction `t` approves the sources `ms` and has begun the check at position `p`, or ended. */
  ghost predicate Past(s: System, t: TxnId, ms: seq<Mvid>, p: nat) {
    && t in s.txns && s.txns[t].job.Approving? && s.txns[t].plan == ms
    && match s.txns[t].pc
       case Checking(k) => k > p
       case Sharing(k, _) => k >= p
       case Joining(k, _) => k >= p
       case Ready => true
       case Ended(_) => true
       case _ => false
  }

  lemma OthersStay(lockId: Mvid -> int, s: System, a: Action, t: TxnId)
    requires t in s.txns && a != Go(t) && a != Abort(t)
    ensures t in Step(lockId, s, a).txns && Step(lockId, s, a).txns[t] == s.txns[t]
  {
    if a.Go? {
      GoMovesOnlyItself(lockId, s, a.t, t);
    }
  }

  lemma OwnStepStaysPast(lockId: Mvid -> int, s: System, t: TxnId, ms: seq<Mvid>, p: nat)
    requires Past(s, t, ms, p)
    ensures Past(GoStep(lockId, s, t), t, ms, p)
    ensures s.txns[t].pc.Ended? ==> GoStep(lockId, s, t).txns[t] == s.txns[t]
  {
  }

  lemma StepStaysPast(lockId: Mvid -> int, s: System, a: Action, t: TxnId, ms: seq<Mvid>, p: nat)
    requires Past(s, t, ms, p)
    ensures Past(Step(lockId, s, a), t, ms, p)
    ensures s.txns[t].pc.Ended? ==> Step(lockId, s, a).txns[t] == s.txns[t]
  {
    if a == Go(t) {
      OwnStepStaysPast(lockId, s, t, ms, p);
    } else if a != Abort(t) {
      OthersStay(lockId, s, a, t);
    }
  }

  lemma {:induction false} StaysPast(lockId: Mvid -> int, s: System, acts: seq<Action>, j: nat, k: nat, t: TxnId,
                                     ms: seq<Mvid>, p: nat)
    requires j <= k <= |acts| && Past(StateAt(lockId, s, acts, j), t, ms, p)
    ensures Past(StateAt(lockId, s, acts, k), t, ms, p)
    ensures StateAt(lockId, s, acts, j).txns[t].pc.Ended? ==> StateAt(lockId, s, acts, k).txns[t].pc.Ended?
    decreases k
  {
    if j < k {
      StaysPast(lockId, s, acts, j, k - 1, t, ms, p);
      StateNext(lockId, s, acts, k - 1);
      StepStaysPast(lockId, StateAt(lockId, s, acts, k - 1), acts[k - 1], t, ms, p);
    }
  }

  /** A check begins: the statement sees exactly the tombstones of that moment. */
  lemma CheckSees(lockId: Mvid -> int, s: System, t: TxnId, m: Mvid)
    requires Checks(s, t, m)
    ensures var n, k := Step(lockId, s, Go(t)), s.txns[t].pc.k;
            && Past(n, t, s.txns[t].plan, k) && n.db == s.db
            && n.txns[t].pc == if Present(s.db, m) then Sharing(k, Tombstoned(s.db, m))
                               else Ended(Blocked(SourceMissing, m))
  {
  }

  /**
   A check ends, once its two rows are free: the approval goes on exactly when the statement saw no
   tombstone and the source is clean now.
   */
  lemma CheckOutcome(lockId: Mvid -> int, s: System, t: TxnId, m: Mvid)
    requires Inv(lockId, s) && CanStep(s, t) && s.txns[t].pc.Joining? && s.txns[t].plan[s.txns[t].pc.k] == m
    ensures var n, x := Step(lockId, s, Go(t)), s.txns[t];
            && n.db == s.db
            && n.txns[t].pc == (if !x.pc.hit && Clean(s.db, m) then Checking(x.pc.k + 1)
                                else Ended(Blocked(ReasonGiven(s.db, m, x.pc.hit).value, m)))
  {
    assert TxnOk(lockId, s, t);
  }

  lemma NewlyBegun(lockId: Mvid -> int, s: System, a: Action, t: TxnId, m: Mvid)
    requires Inv(lockId, s)
    requires t in Step(lockId, s, a).txns && Begun(Step(lockId, s, a).txns[t], m)
    ensures (t in s.txns && Begun(s.txns[t], m))
            || (a == Go(t) && Checks(s, t, m) && Present(s.db, m) && !Tombstoned(s.db, m))
  {
    if t in s.txns && a == Go(t) {
      OwnBegun(lockId, s, t, m);
    } else if t in s.txns && a != Abort(t) {
      OthersStay(lockId, s, a, t);
    } else if a.Go? {
      NoNewTxn(lockId, s, a.t);
    }
  }

  lemma OwnBegun(lockId: Mvid -> int, s: System, t: TxnId, m: Mvid)
    requires Inv(lockId, s) && t in s.txns && Begun(GoStep(lockId, s, t).txns[t], m)
    ensures Begun(s.txns[t], m) || (Checks(s, t, m) && Present(s.db, m) && !Tombstoned(s.db, m))
  {
    assert TxnOk(lockId, s, t);
    if CanStep(s, t) {
      match s.txns[t].pc {
        case Checking(_) => BegunByCheck(lockId, s, t, m);
        case Sharing(_, _) => BegunBefore(lockId, s, t, m);
        case Joining(_, _) => BegunBefore(lockId, s, t, m);
        case _ =>
      }
    }
  }

  lemma BegunByCheck(lockId: Mvid -> int, s: System, t: TxnId, m: Mvid)
    requires CanStep(s, t) && TxnOk(lockId, s, t) && s.txns[t].pc.Checking? && Begun(GoStep(lockId, s, t).txns[t], m)
    ensures Begun(s.txns[t], m) || (Checks(s, t, m) && Present(s.db, m) && !Tombstoned(s.db, m))
  {
    var x := s.txns[t];
    assert x.plan[..|x.plan|] == x.plan;
  }

  lemma BegunBefore(lockId: Mvid -> int, s: System, t: TxnId, m: Mvid)
    requires CanStep(s, t) && TxnOk(lockId, s, t) && (s.txns[t].pc.Sharing? || s.txns[t].pc.Joining?)
    requires Begun(GoStep(lockId, s, t).txns[t], m)
    ensures Begun(s.txns[t], m)
  {
    var x := s.txns[t];
    assert x.plan[..x.pc.k + 1] == x.plan[..x.pc.k] + [x.plan[x.pc.k]];
  }

  /** One step of a run: what has been begun after it was so before, or is being checked now. */
  lemma BegunInStep(lockId: Mvid -> int, s: System, acts: seq<Action>, i: nat, t: TxnId, m: Mvid)
    requires Initial(s) && i < |acts| && t in StateAt(lockId, s, acts, i + 1).txns
    requires Begun(StateAt(lockId, s, acts, i + 1).txns[t], m)
    ensures var b := StateAt(lockId, s, acts, i);
            (t in b.txns && Begun(b.txns[t], m)) ||
            (ChecksAt(lockId, s, acts, i, t, m) && Present(b.db, m) && !Tombstoned(b.db, m))
  {
    StateNext(lockId, s, acts, i);
    StateIsSafe(lockId, s, acts, i);
    NewlyBegun(lockId, StateAt(lockId, s, acts, i), acts[i], t, m);
  }

  lemma {:induction false} BegunWasChecked(lockId: Mvid -> int, s: System, acts: seq<Action>, n: nat, t: TxnId, m: Mvid)
    returns (j: nat)
    requires Initial(s) && n <= |acts| && t in StateAt(lockId, s, acts, n).txns
    requires Begun(StateAt(lockId, s, acts, n).txns[t], m)
    ensures j < n && ChecksAt(lockId, s, acts, j, t, m)
    ensures Present(StateAt(lockId, s, acts, j).db, m) && !Tombstoned(StateAt(lockId, s, acts, j).db, m)
    decreases n
  {
    assert acts[..0] == [] && StateAt(lockId, s, acts, 0) == s;
    BegunInStep(lockId, s, acts, n - 1, t, m);
    var b := StateAt(lockId, s, acts, n - 1);
    if t in b.txns && Begun(b.txns[t], m) {
      j := BegunWasChecked(lockId, s, acts, n - 1, t, m);
    } else {
      j := n - 1;
    }
  }

  lemma CheckedOnce(lockId: Mvid -> int, s: System, acts: seq<Action>, i: nat, j: nat, t: TxnId, m: Mvid)
    requires ChecksAt(lockId, s, acts, i, t, m) && ChecksAt(lockId, s, acts, j, t, m)
    requires DistinctMvids(StateAt(lockId, s, acts, i).txns[t].plan)
    ensures i >= j
  {
    if i < j {
      SamePlan(lockId, s, acts, i, j, t, m);
    }
  }

  /** Between two checks of a source, the plan stays and the position grows. */
  lemma SamePlan(lockId: Mvid -> int, s: System, acts: seq<Action>, i: nat, j: nat, t: TxnId, m: Mvid)
    requires i < j && ChecksAt(lockId, s, acts, i, t, m) && ChecksAt(lockId, s, acts, j, t, m)
    ensures var a, b := StateAt(lockId, s, acts, i).txns[t], StateAt(lockId, s, acts, j).txns[t];
            a.plan == b.plan && a.pc.k < b.pc.k
  {
    var a := StateAt(lockId, s, acts, i);
    StateNext(lockId, s, acts, i);
    CheckSees(lockId, a, t, m);
    StaysPast(lockId, s, acts, i + 1, j, t, a.txns[t].plan, a.txns[t].pc.k);
  }

  // ------------------------------------------------------------------ the theorems

  /** What the commit that creates a card says of the transaction. */
  lemma CreationFacts(lockId: Mvid -> int, s: System, t: TxnId, m: Mvid)
    requires Inv(lockId, s) && Creates(lockId, s, Go(t)) && t in s.txns && s.txns[t].job.Approving?
    requires s.txns[t].job.c in s.db.candidates && m in s.db.candidates[s.txns[t].job.c].sources
    ensures s.txns[t].pc.Ready? && Begun(s.txns[t], m) && Clean(s.db, m) && DistinctMvids(s.txns[t].plan)
  {
    CardsComeFromCleanSources(lockId, s, Go(t));
    assert TxnOk(lockId, s, t);
  }

  /**
   Each source of a new card was re-validated exactly once, in a statement begun in a step `j` before
   the commit `k`.  No request that covers it was on record then; and it is eligible at the commit
   exactly when none is made between the two.
   */
  lemma EligibleAtCommitIff(lockId: Mvid -> int, s: System, acts: seq<Action>, k: nat, t: TxnId, m: Mvid)
    returns (j: nat)
    requires Initial(s) && CreatesAt(lockId, s, acts, k, t, m)
    ensures j < k && ChecksAt(lockId, s, acts, j, t, m)
    ensures forall i :: ChecksAt(lockId, s, acts, i, t, m) <==> i == j
    ensures var a := StateAt(lockId, s, acts, j).db;
            && Present(a, m) && !Tombstoned(a, m)
            && (Eligible(StateAt(lockId, s, acts, k).db, m) <==> forall i :: j < i < k ==> !Requests(acts[i], a, m))
  {
    var b := StateAt(lockId, s, acts, k);
    StateIsSafe(lockId, s, acts, k);
    CreationFacts(lockId, b, t, m);
    j := BegunWasChecked(lockId, s, acts, k, t, m);
    OnlyCheck(lockId, s, acts, j, k, t, m);
    TombstonedIff(lockId, s, acts, j, k, m);
    assert !Requests(acts[j], StateAt(lockId, s, acts, j).db, m);
  }

  /** A check that precedes the creation is the only one. */
  lemma OnlyCheck(lockId: Mvid -> int, s: System, acts: seq<Action>, j: nat, k: nat, t: TxnId, m: Mvid)
    requires Initial(s) && j < k && CreatesAt(lockId, s, acts, k, t, m) && ChecksAt(lockId, s, acts, j, t, m)
    ensures forall i :: ChecksAt(lockId, s, acts, i, t, m) <==> i == j
  {
    var a, b := StateAt(lockId, s, acts, j), StateAt(lockId, s, acts, k);
    StateIsSafe(lockId, s, acts, k);
    CreationFacts(lockId, b, t, m);
    StateNext(lockId, s, acts, j);
    CheckSees(lockId, a, t, m);
    StaysPast(lockId, s, acts, j + 1, k, t, a.txns[t].plan, a.txns[t].pc.k);
    forall i: nat | ChecksAt(lockId, s, acts, i, t, m) ensures i == j {
      CheckedOnce(lockId, s, acts, j, i, t, m);
      if i < j {
        SamePlan(lockId, s, acts, i, j, t, m);
        CheckedOnce(lockId, s, acts, i, j, t, m);
      }
    }
  }

  /** A source that is tombstoned before an approval begins to check it never gets into its card. */
  lemma ForgottenBeforeCheckBlocks(lockId: Mvid -> int, s: System, acts: seq<Action>, i: nat, t: TxnId, m: Mvid)
    requires Initial(s) && i <= |acts| && Tombstoned(StateAt(lockId, s, acts, i).db, m)
    requires forall j: nat :: j < i ==> !ChecksAt(lockId, s, acts, j, t, m)
    ensures forall k: nat :: !CreatesAt(lockId, s, acts, k, t, m)
  {
    forall k: nat ensures !CreatesAt(lockId, s, acts, k, t, m) {
      if CreatesAt(lockId, s, acts, k, t, m) {
        var j := EligibleAtCommitIff(lockId, s, acts, k, t, m);
        TombstonedIff(lockId, s, acts, i, j, m);
      }
    }
  }
}
