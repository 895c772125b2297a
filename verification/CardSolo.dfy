/** Runs of one transaction after another, and a citation that outlives the cascade of its message. */
module CardSolo {
  import opened Prelude
  import opened CardApproval
  import opened CardRaces
  import opened CardSafety
  import opened CardDeadlock
  import opened CardWorkers
  import opened CardProgress
  import opened CardPairs
  import opened CardCitations
  import opened CardEdits

  // ------------------------------------------------------------------ a transaction alone

  /** Nothing refuses the approval; a worker is never refused. */
  ghost predicate OnTrack(db: Tables, x: Txn) {
    match x.job
    case Approving(c, _) =>
      && c in db.candidates && db.candidates[c].status.Pending? && db.candidates[c].sources != []
      && (forall m :: m in db.candidates[c].sources ==> Eligible(db, m))
      && (x.pc.Sharing? || x.pc.Joining? ==> !x.pc.hit)
    case Rejecting(_, _, _) => false
    case Forgetting(_) => true
  }

  lemma StaysOnTrack(lockId: Mvid -> int, s: System, t: TxnId)
    requires Inv(lockId, s) && CanStep(s, t) && OnTrack(s.db, s.txns[t]) && !s.txns[t].pc.Ready?
    ensures var n := GoStep(lockId, s, t);
            n.db == s.db && !n.txns[t].pc.Ended? && OnTrack(n.db, n.txns[t])
  {
    assert TxnOk(lockId, s, t);
    if s.txns[t].job.Forgetting? {
      OwnAhead(lockId, s, t);
    } else {
      match s.txns[t].pc {
        case Start =>
        case Locking(_, _) =>
        case WantRow => RowOnTrack(lockId, s, t);
        case _ => CheckOnTrack(lockId, s, t);
      }
    }
  }

  lemma RowOnTrack(lockId: Mvid -> int, s: System, t: TxnId)
    requires t in s.txns && TxnOk(lockId, s, t) && CanStep(s, t) && OnTrack(s.db, s.txns[t]) && s.txns[t].pc.WantRow?
    requires s.txns[t].job.Approving?
    ensures var n := GoStep(lockId, s, t);
            n.db == s.db && !n.txns[t].pc.Ended? && OnTrack(n.db, n.txns[t])
  {
  }

  lemma CheckOnTrack(lockId: Mvid -> int, s: System, t: TxnId)
    requires t in s.txns && TxnOk(lockId, s, t) && CanStep(s, t) && OnTrack(s.db, s.txns[t])
    requires s.txns[t].job.Approving? && (s.txns[t].pc.Checking? || WantsShare(s.txns[t]))
    ensures var n := GoStep(lockId, s, t);
            n.db == s.db && !n.txns[t].pc.Ended? && OnTrack(n.db, n.txns[t])
  {
    var x := s.txns[t];
    assert x.pc.k < |x.plan| ==> x.plan[x.pc.k] in s.db.candidates[x.job.c].sources;
  }

  ghost predicate Alone(s: System, t: TxnId) {
    forall u :: u in s.txns && u != t ==> Grip(s, u) == {}
  }

  lemma AloneCanStep(lockId: Mvid -> int, s: System, t: TxnId)
    requires Inv(lockId, s) && Running(s, t) && Alone(s, t)
    ensures CanStep(s, t)
  {
    if Wants(s.db, s.txns[t]).Some? {
      FreeOfOthers(lockId, s, t, Wants(s.db, s.txns[t]).value, WantsShare(s.txns[t]));
    }
  }

  /** At its commit, with everything that it asked for, and nobody else changed. */
  ghost predicate CameToCommit(lockId: Mvid -> int, s: System, n: System, t: TxnId)
    requires t in s.txns
  {
    && Inv(lockId, n) && n.db == s.db && n.txns.Keys == s.txns.Keys && n.txns[t].pc.Ready?
    && n.txns[t].job == s.txns[t].job
    && Grip(n, t) == Grip(s, t) + Elements(Ask(lockId, s.db, s.txns[t]))
    && forall u :: u in s.txns && u != t ==> n.txns[u] == s.txns[u] && Grip(n, u) == Grip(s, u)
  }

  lemma {:induction false} RunsToCommit(lockId: Mvid -> int, s: System, t: TxnId) returns (acts: seq<Action>)
    requires Inv(lockId, s) && Running(s, t) && Alone(s, t) && OnTrack(s.db, s.txns[t])
    ensures OnlyGoes(acts) && CameToCommit(lockId, s, Run(lockId, s, acts), t)
    decreases Remaining(lockId, s.db, s.txns[t])
  {
    acts := [];
    if s.txns[t].pc.Ready? {
      ReadyAsksNothing(lockId, s, t);
    } else {
      AloneCanStep(lockId, s, t);
      StaysOnTrack(lockId, s, t);
      GoAloneOnward(lockId, s, t);
      var n := GoStep(lockId, s, t);
      var rest := RunsToCommit(lockId, n, t);
      acts := [Go(t)] + rest;
      GoThen(lockId, s, t, rest);
      CameOn(lockId, s, n, Run(lockId, n, rest), t);
    }
  }

  lemma ReadyAsksNothing(lockId: Mvid -> int, s: System, t: TxnId)
    requires t in s.txns && s.txns[t].pc.Ready?
    ensures Ask(lockId, s.db, s.txns[t]) == []
  {
  }

  lemma GoAloneOnward(lockId: Mvid -> int, s: System, t: TxnId)
    requires Inv(lockId, s) && CanStep(s, t) && !s.txns[t].pc.Ready? && !GoStep(lockId, s, t).txns[t].pc.Ended?
    ensures Onward(lockId, s, GoStep(lockId, s, t), t)
  {
    GoAsks(lockId, s, t);
    GoKeeps(lockId, s, t);
    NoNewTxn(lockId, s, t);
    GoShortens(lockId, s, t);
    var n := GoStep(lockId, s, t);
    forall u | u in s.txns && u != t ensures n.txns[u] == s.txns[u] && Grip(n, u) == Grip(s, u) {
      OthersGrip(lockId, s, t, u);
    }
  }

  lemma CameOn(lockId: Mvid -> int, s: System, n: System, m: System, t: TxnId)
    requires t in s.txns && Onward(lockId, s, n, t) && CameToCommit(lockId, n, m, t)
    ensures CameToCommit(lockId, s, m, t)
  {
    var ask, rest := Ask(lockId, s.db, s.txns[t]), Ask(lockId, n.db, n.txns[t]);
    if Wants(s.db, s.txns[t]).Some? {
      assert Elements(ask) == {ask[0]} + Elements(rest);
    }
  }

  // ------------------------------------------------------------------ one after the other

  /** Nobody is at work. */
  ghost predicate Quiescent(lockId: Mvid -> int, s: System) {
    Inv(lockId, s) && forall u :: u in s.txns ==> s.txns[u].pc.Ended?
  }

  lemma QuietGrips(lockId: Mvid -> int, s: System, u: TxnId)
    requires Inv(lockId, s) && u in s.txns && s.txns[u].pc.Ended?
    ensures Grip(s, u) == {}
  {
    assert TxnOk(lockId, s, u);
    HoldsNothing(lockId, s, u);
    forall r ensures r !in Held(s, u) {
      HeldIff(s, u, r);
    }
  }

  lemma QuiescentIsFree(lockId: Mvid -> int, s: System, r: Resource)
    requires Quiescent(lockId, s)
    ensures Free(s, r)
  {
    assert HeldOk(s, r);
    forall u | u in s.txns ensures r !in s.txns[u].shared {
      assert TxnOk(lockId, s, u);
    }
  }

  lemma BeginAlone(lockId: Mvid -> int, s: System, t: TxnId, job: Job) returns (n: System)
    requires Quiescent(lockId, s) && t !in s.txns && (job.Forgetting? ==> Elements(job.targets) <= s.db.requests)
    ensures n == Step(lockId, s, Begin(t, job)) && Inv(lockId, n) && Alone(n, t) && n.db == s.db
    ensures n.txns == s.txns[t := Txn(job, [], {}, Start)] && Grip(n, t) == {}
  {
    n := Step(lockId, s, Begin(t, job));
    StepKeeps(lockId, s, Begin(t, job));
    NewHoldsNothing(lockId, s, t);
    forall u | u in n.txns && u != t ensures Grip(n, u) == {} {
      QuietGrips(lockId, n, u);
    }
  }

  /** A job begins, runs alone and comes to its commit. */
  lemma SoloToCommit(lockId: Mvid -> int, s: System, t: TxnId, job: Job) returns (acts: seq<Action>)
    requires Quiescent(lockId, s) && t !in s.txns && (job.Forgetting? ==> Elements(job.targets) <= s.db.requests)
    requires OnTrack(s.db, Txn(job, [], {}, Start))
    ensures var n := Run(lockId, s, acts);
            && Inv(lockId, n) && n.db == s.db && n.txns.Keys == s.txns.Keys + {t} && n.txns[t].pc.Ready?
            && n.txns[t].job == job && Grip(n, t) == Elements(AllAsks(lockId, s.db, job))
            && forall u :: u in s.txns ==> n.txns[u].pc.Ended?
  {
    var n := BeginAlone(lockId, s, t, job);
    var goes := RunsToCommit(lockId, n, t);
    acts := [Begin(t, job)] + goes;
    RunThen(lockId, s, Begin(t, job), goes);
    assert CameToCommit(lockId, n, Run(lockId, n, goes), t);
  }

  /** What a job writes that runs alone from start to end. */
  lemma SoloApproval(lockId: Mvid -> int, s: System, t: TxnId, c: CandidateId, admin: int) returns (acts: seq<Action>)
    requires Quiescent(lockId, s) && t !in s.txns && c in s.db.candidates && s.db.candidates[c].status.Pending?
    requires s.db.candidates[c].sources != [] && DistinctMvids(s.db.candidates[c].sources)
    requires forall m :: m in s.db.candidates[c].sources ==> Eligible(s.db, m)
    ensures var n := Run(lockId, s, acts);
            Quiescent(lockId, n) && n.db == ApproveWrites(s.db, c, admin) && n.txns.Keys == s.txns.Keys + {t}
  {
    var first := SoloToCommit(lockId, s, t, Approving(c, admin));
    var n := Run(lockId, s, first);
    acts := first + [Go(t)];
    RunConcat(lockId, s, first, [Go(t)]);
    RunOne(lockId, n, Go(t));
    GoKeeps(lockId, n, t);
    ApprovalCommits(lockId, n, t, c, admin);
  }

  lemma ApprovalCommits(lockId: Mvid -> int, n: System, t: TxnId, c: CandidateId, admin: int)
    requires t in n.txns && n.txns[t].pc.Ready? && n.txns[t].job == Approving(c, admin) && c in n.db.candidates
    requires DistinctMvids(n.db.candidates[c].sources) && forall u :: u in n.txns && u != t ==> n.txns[u].pc.Ended?
    ensures var m := GoStep(lockId, n, t);
            && m.db == ApproveWrites(n.db, c, admin) && m.txns.Keys == n.txns.Keys
            && forall u :: u in m.txns ==> m.txns[u].pc.Ended?
  {
    assert GoStep(lockId, n, t) == CommitStep(n, t);
  }

  lemma SoloWorker(lockId: Mvid -> int, s: System, t: TxnId, target: Target) returns (acts: seq<Action>, x: Cascade)
    requires Quiescent(lockId, s) && t !in s.txns && target in s.db.requests
    ensures Run(lockId, s, acts).db == ForgetWrites(s.db, x)
    ensures WrittenVersions(s.db, target) <= x.versions && WrittenMessages(s.db, target) <= x.messages
    ensures x.unlinked == (set m | m in s.db.versions && m in Resolved(s.db, target)) && x.targets == {target}
  {
    assert Elements([target]) == {target};
    var first := SoloToCommit(lockId, s, t, Forgetting([target]));
    var n := Run(lockId, s, first);
    acts := first + [Go(t)];
    RunConcat(lockId, s, first, [Go(t)]);
    RunOne(lockId, n, Go(t));
    x := WorkerCommits(lockId, n, t, target);
  }

  lemma WorkerCommits(lockId: Mvid -> int, n: System, t: TxnId, target: Target) returns (x: Cascade)
    requires Inv(lockId, n) && t in n.txns && n.txns[t].job == Forgetting([target]) && n.txns[t].pc.Ready?
    requires Grip(n, t) == Elements(LocksOf(lockId, n.db, [target]))
    ensures GoStep(lockId, n, t).db == ForgetWrites(n.db, x)
    ensures WrittenVersions(n.db, target) <= x.versions && WrittenMessages(n.db, target) <= x.messages
    ensures x.unlinked == (set m | m in n.db.versions && m in Resolved(n.db, target)) && x.targets == {target}
  {
    x := CascadeOf(n, t);
    assert Elements([target]) == {target};
    assert GoStep(lockId, n, t) == CommitStep(n, t);
    WorkerHeldAll(lockId, n, t, target);
    OneTargetUnlinks(n.db, target);
  }

  lemma OneTargetUnlinks(db: Tables, target: Target)
    ensures forall m :: Unlinks(db, [target], m) <==> m in Resolved(db, target)
  {
    assert target in [target];
  }

  lemma WorkerHeldAll(lockId: Mvid -> int, n: System, t: TxnId, target: Target)
    requires Inv(lockId, n) && t in n.txns && n.txns[t].job == Forgetting([target]) && n.txns[t].pc.Ready?
    requires Grip(n, t) == Elements(LocksOf(lockId, n.db, [target]))
    ensures WrittenVersions(n.db, target) <= CascadeOf(n, t).versions
    ensures WrittenMessages(n.db, target) <= CascadeOf(n, t).messages
  {
    WorkerSharesNothing(lockId, n, t);
    OneTargetLocks(lockId, n.db, target);
    forall m | m in WrittenVersions(n.db, target) ensures m in CascadeOf(n, t).versions {
      RowsIff(lockId, n.db, Stage(Versions, target), VersionRow(m));
      assert VersionRow(m) in LocksOf(lockId, n.db, [target]);
      assert VersionRow(m) in Held(n, t);
    }
    forall g | g in WrittenMessages(n.db, target) ensures g in CascadeOf(n, t).messages {
      RowsIff(lockId, n.db, Stage(Messages, target), MessageRow(g));
      assert MessageRow(g) in LocksOf(lockId, n.db, [target]);
      assert MessageRow(g) in Held(n, t);
    }
  }

  // ------------------------------------------------------------------ a citation that outlives its message

  /** After an approval, an edit of the source and a request to forget it. */
  lemma ApprovedThenEdited(lockId: Mvid -> int, s: System, c: CandidateId, admin: int, former: Mvid, later: Mvid)
    returns (acts: seq<Action>, n: System)
    requires Initial(s) && c in s.db.candidates && s.db.candidates[c].status.Pending?
    requires s.db.candidates[c].sources == [former] && Eligible(s.db, former) && later !in s.db.versions
    ensures n == Run(lockId, s, acts) && Quiescent(lockId, n) && n.txns.Keys == {0}
    ensures var g := s.db.versions[former].message;
            n.db == WithRequest(Edited(ApproveWrites(s.db, c, admin), g, later), OneMessage(g))
  {
    var g := s.db.versions[former].message;
    InitialIsSafe(lockId, s);
    var first := SoloApproval(lockId, s, 0, c, admin);
    var n1 := Run(lockId, s, first);
    var edit, ask;
    edit, ask, n := EditThenRequest(lockId, n1, g, later);
    acts := first + [edit, ask];
    RunConcat(lockId, s, first, [edit, ask]);
    RunTwo(lockId, n1, edit, ask);
  }

  lemma EditThenRequest(lockId: Mvid -> int, s: System, g: MessageId, later: Mvid)
    returns (edit: Action, ask: Action, n: System)
    requires Quiescent(lockId, s) && g in s.db.messages && later !in s.db.versions
    ensures n == Step(lockId, Step(lockId, s, edit), ask) && Quiescent(lockId, n) && n.txns == s.txns
    ensures n.db == WithRequest(Edited(s.db, g, later), OneMessage(g))
  {
    QuiescentIsFree(lockId, s, MessageRow(g));
    QuiescentIsFree(lockId, s, VersionRow(later));
    edit := EditHappens(lockId, s, g, later);
    ask := RequestForget(OneMessage(g));
    StepKeeps(lockId, Step(lockId, s, edit), ask);
    n := Step(lockId, Step(lockId, s, edit), ask);
  }

  function WithRequest(db: Tables, target: Target): Tables {
    db.(requests := db.requests + {target})
  }

  /**
   From any state with a clean candidate of one source: approve it, edit the message, forget it.  The
   cascade ends, the cited version is redacted, and the card still cites it and is not archived.
   */
  lemma CitationSurvives(lockId: Mvid -> int, s: System, c: CandidateId, admin: int, former: Mvid, later: Mvid)
    returns (acts: seq<Action>)
    requires Initial(s) && c in s.db.candidates && s.db.candidates[c].status.Pending?
    requires s.db.candidates[c].sources == [former] && Eligible(s.db, former) && later !in s.db.versions
    ensures var db, r := Run(lockId, s, acts).db, CardSource(|s.db.cards|, former, 0);
            && Stale(db, r) && Redacted(db, former)
            && r.card < |db.cards| && !db.cards[r.card].archived
            && OneMessage(s.db.versions[former].message) in db.forgotten
  {
    var g, r := s.db.versions[former].message, CardSource(|s.db.cards|, former, 0);
    var first, n := ApprovedThenEdited(lockId, s, c, admin, former, later);
    var second, x := SoloWorker(lockId, n, 1, OneMessage(g));
    acts := first + second;
    RunConcat(lockId, s, first, second);
    CitedRow(s.db, c, admin, former, n.db.cardSources);
    var db := ForgetWrites(n.db, x);
    assert r in db.cardSources;
    assert Covers(db, OneMessage(g), former);
    var i :| 0 <= i < |db.cardSources| && db.cardSources[i] == r;
    assert Cites(db.cardSources, r.card);
    ApprovalPromotes(s.db, c, admin);
    assert !n.db.cards[r.card].archived;
  }

  lemma CitedRow(db: Tables, c: CandidateId, admin: int, m: Mvid, rows: seq<CardSource>)
    requires c in db.candidates && db.candidates[c].sources == [m]
    requires rows == ApproveWrites(db, c, admin).cardSources
    ensures CardSource(|db.cards|, m, 0) in rows
  {
    assert SourceRows(|db.cards|, [m])[0] == CardSource(|db.cards|, m, 0);
    assert rows[|db.cardSources|] == CardSource(|db.cards|, m, 0);
  }
}
