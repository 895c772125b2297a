/**
 What cascades leave cited.  A forget request for a message redacts all of its versions but unlinks
 only the current one, so a card that cites an older version keeps citing it.
 */
module CardCitations {
  import opened Prelude
  import opened CardApproval
  import opened CardRaces
  import opened CardSafety
  import opened CardEligibility
  import opened CardDeadlock
  import opened CardWorkers
  import opened CardProgress
  import opened CardPairs

  // ------------------------------------------------------------------ over runs

  /** The row cites a version that a finished cascade covers. */
  ghost predicate Stale(db: Tables, r: CardSource) {
    r in db.cardSources && exists target :: target in db.forgotten && Covers(db, target, r.mvid)
  }

  /** In step `k` a cascade for the target ends. */
  ghost predicate FinishesAt(lockId: Mvid -> int, s: System, acts: seq<Action>, k: nat, target: Target) {
    && k < |acts| && acts[k].Go?
    && var b, t := StateAt(lockId, s, acts, k), acts[k].t;
       t in b.txns && b.txns[t].pc.Ready? && b.txns[t].job.Forgetting? && target in b.txns[t].job.targets
  }

  /** In step `k` a cascade ends for the message of the row's version, and the version is superseded then. */
  ghost predicate MissedAt(lockId: Mvid -> int, s: System, acts: seq<Action>, k: nat, r: CardSource) {
    k < |acts| &&
    var db := StateAt(lockId, s, acts, k).db;
    r in db.cardSources && Superseded(db, r.mvid)
    && FinishesAt(lockId, s, acts, k, OneMessage(db.versions[r.mvid].message))
  }

  /** A step that finishes a request is a worker's commit. */
  lemma OnlyCommitsFinish(lockId: Mvid -> int, s: System, a: Action, target: Target)
    requires target in Step(lockId, s, a).db.forgotten && target !in s.db.forgotten
    ensures a.Go? && a.t in s.txns && s.txns[a.t].pc.Ready? && s.txns[a.t].job.Forgetting?
    ensures target in s.txns[a.t].job.targets
  {
  }

  /** A new citation is of a version that no finished cascade covers. */
  lemma NewCitation(lockId: Mvid -> int, s: System, a: Action, r: CardSource)
    requires Inv(lockId, s) && r in Step(lockId, s, a).db.cardSources && r !in s.db.cardSources
    ensures !Stale(Step(lockId, s, a).db, r)
  {
    assert Creates(lockId, s, a);
    CardsComeFromCleanSources(lockId, s, a);
    var n := Step(lockId, s, a);
    var ms := s.db.candidates[s.txns[a.t].job.c].sources;
    var rows := SourceRows(|s.db.cards|, ms);
    var i :| 0 <= i < |rows| && rows[i] == r;
    assert ms[i] in ms && r.mvid == ms[i];
    SameForgotten(lockId, s, a.t, r.mvid);
  }

  lemma SameForgotten(lockId: Mvid -> int, s: System, t: TxnId, m: Mvid)
    requires t in s.txns && !s.txns[t].job.Forgetting?
    ensures var next := GoStep(lockId, s, t).db;
            next.forgotten == s.db.forgotten && forall target :: Covers(next, target, m) <==> Covers(s.db, target, m)
  {
    if GoStep(lockId, s, t).db != s.db {
      assert GoStep(lockId, s, t) == CommitStep(s, t);
    }
  }

  /** A stale row was stale before the step, or the step is a cascade that misses it. */
  lemma StaleStep(lockId: Mvid -> int, s: System, a: Action, r: CardSource)
    requires Inv(lockId, s) && Stale(Step(lockId, s, a).db, r)
    ensures r in s.db.cardSources
    ensures Stale(s.db, r)
            || (a.Go? && a.t in s.txns && s.txns[a.t].pc.Ready? && s.txns[a.t].job.Forgetting?
                && LeftBehind(s.db, s.txns[a.t].job.targets, r.mvid))
  {
    var n := Step(lockId, s, a);
    if r !in s.db.cardSources {
      NewCitation(lockId, s, a, r);
    }
    assert CitationOk(s.db, r.mvid);
    var target :| target in n.db.forgotten && Covers(n.db, target, r.mvid);
    StepExtends(lockId, s, a);
    CoversStays(s.db, n.db, target, r.mvid);
    if target !in s.db.forgotten {
      OnlyCommitsFinish(lockId, s, a, target);
      CascadeLeavesCitationIff(lockId, s, a.t, r);
    }
  }

  lemma {:induction false} StaleWasMissed(lockId: Mvid -> int, s: System, acts: seq<Action>, n: nat, r: CardSource)
    returns (k: nat)
    requires Initial(s) && n <= |acts| && Stale(StateAt(lockId, s, acts, n).db, r) && !Stale(s.db, r)
    ensures k < n && MissedAt(lockId, s, acts, k, r)
    decreases n
  {
    assert acts[..0] == [] && StateAt(lockId, s, acts, 0) == s;
    StateNext(lockId, s, acts, n - 1);
    StateIsSafe(lockId, s, acts, n - 1);
    StaleStep(lockId, StateAt(lockId, s, acts, n - 1), acts[n - 1], r);
    if Stale(StateAt(lockId, s, acts, n - 1).db, r) {
      k := StaleWasMissed(lockId, s, acts, n - 1, r);
    } else {
      k := n - 1;
    }
  }

  lemma {:induction false} ForgottenStays(lockId: Mvid -> int, s: System, acts: seq<Action>, j: nat, k: nat, target: Target)
    requires Initial(s) && j <= k <= |acts| && target in StateAt(lockId, s, acts, j).db.forgotten
    ensures target in StateAt(lockId, s, acts, k).db.forgotten
    decreases k
  {
    if j < k {
      ForgottenStays(lockId, s, acts, j, k - 1, target);
      StateExtends(lockId, s, acts, k - 1);
    }
  }

  lemma FinishedIsForgotten(lockId: Mvid -> int, s: System, acts: seq<Action>, k: nat, target: Target)
    requires Initial(s) && FinishesAt(lockId, s, acts, k, target)
    ensures target in Run(lockId, s, acts).db.forgotten
  {
    assert acts[..|acts|] == acts && StateAt(lockId, s, acts, |acts|) == Run(lockId, s, acts);
    StateNext(lockId, s, acts, k);
    CommitFinishes(lockId, StateAt(lockId, s, acts, k), acts[k].t, target);
    ForgottenStays(lockId, s, acts, k + 1, |acts|, target);
  }

  lemma CommitFinishes(lockId: Mvid -> int, s: System, t: TxnId, target: Target)
    requires t in s.txns && s.txns[t].pc.Ready? && s.txns[t].job.Forgetting? && target in s.txns[t].job.targets
    ensures target in GoStep(lockId, s, t).db.forgotten
  {
    assert GoStep(lockId, s, t) == CommitStep(s, t);
  }

  lemma MissedIsStale(lockId: Mvid -> int, s: System, acts: seq<Action>, k: nat, r: CardSource)
    requires Initial(s) && MissedAt(lockId, s, acts, k, r) && r in Run(lockId, s, acts).db.cardSources
    ensures Stale(Run(lockId, s, acts).db, r)
  {
    var db := StateAt(lockId, s, acts, k).db;
    var target := OneMessage(db.versions[r.mvid].message);
    FinishedIsForgotten(lockId, s, acts, k, target);
    assert acts[..|acts|] == acts && StateAt(lockId, s, acts, |acts|) == Run(lockId, s, acts);
    assert Covers(db, target, r.mvid);
    CoversAt(lockId, s, acts, k, |acts|, r.mvid);
  }

  /**
   Over every run: a card still cites a version that a finished cascade covers exactly when a cascade
   for the version's message ended while the version was cited and superseded.
   */
  lemma StaleIff(lockId: Mvid -> int, s: System, acts: seq<Action>, r: CardSource)
    requires Initial(s) && !Stale(s.db, r)
    requires r in Run(lockId, s, acts).db.cardSources
    ensures Stale(Run(lockId, s, acts).db, r) <==> exists k: nat :: MissedAt(lockId, s, acts, k, r)
  {
    assert acts[..|acts|] == acts && StateAt(lockId, s, acts, |acts|) == Run(lockId, s, acts);
    if Stale(Run(lockId, s, acts).db, r) {
      var k := StaleWasMissed(lockId, s, acts, |acts|, r);
    }
    if k: nat :| MissedAt(lockId, s, acts, k, r) {
      MissedIsStale(lockId, s, acts, k, r);
    }
  }

  // ------------------------------------------------------------------ and what is cited is redacted

  /** A cascade for a message has locked the message, and then all of its versions. */
  ghost predicate WritesAll(s: System, t: TxnId)
    requires t in s.txns
  {
    && (forall g :: Taken(s.txns[t], Stage(Messages, OneMessage(g))) ==> InHand(s, t, MessageRow(g)))
    && (forall g :: Taken(s.txns[t], Stage(Versions, OneMessage(g))) ==>
          Holds(s, t, MessageRow(g)) && VersionsInHand(s, t, g))
  }

  ghost predicate VersionsInHand(s: System, t: TxnId, g: MessageId) {
    forall m :: m in s.db.versions && s.db.versions[m].message == g ==> InHand(s, t, VersionRow(m))
  }

  ghost predicate AllWrite(s: System) {
    forall t :: t in s.txns ==> WritesAll(s, t)
  }

  lemma {:induction false} MessagesFirst(targets: seq<Target>, i: nat, target: Target)
    requires i < |StagesOf(targets)| && StagesOf(targets)[i] == Stage(Versions, target)
    ensures i > 0 && StagesOf(targets)[i - 1] == Stage(Messages, target)
    decreases |targets|
  {
    if i >= 3 {
      assert StagesOf(targets)[i] == StagesOf(targets[1..])[i - 3];
      MessagesFirst(targets[1..], i - 3, target);
    }
  }

  /** A worker's own move keeps what it has in hand. */
  lemma OwnWrites(lockId: Mvid -> int, s: System, t: TxnId)
    requires Inv(lockId, s) && CanStep(s, t) && WritesAll(s, t) && s.txns[t].job.Forgetting?
    ensures WritesAll(GoStep(lockId, s, t), t)
  {
    assert TxnOk(lockId, s, t);
    if s.txns[t].pc.Locking? {
      if s.txns[t].pc.todo != [] {
        TakeWrites(lockId, s, t);
      } else {
        NextWrites(lockId, s, t);
      }
    } else if s.txns[t].pc.Start? {
      var stages := StagesOf(s.txns[t].job.targets);
      assert stages[..0] == [];
    } else {
      assert GoStep(lockId, s, t) == CommitStep(s, t);
    }
  }

  lemma TakeWrites(lockId: Mvid -> int, s: System, t: TxnId)
    requires CanStep(s, t) && WritesAll(s, t) && s.txns[t].pc.Locking? && s.txns[t].pc.todo != []
    requires s.txns[t].job.Forgetting?
    ensures WritesAll(LockStep(lockId, s, t), t)
  {
    var todo, n := s.txns[t].pc.todo, LockStep(lockId, s, t);
    assert todo == [todo[0]] + todo[1..];
    assert forall r :: InHand(s, t, r) ==> InHand(n, t, r);
    assert forall stage :: Taken(n.txns[t], stage) <==> Taken(s.txns[t], stage);
    assert forall r :: Holds(s, t, r) ==> Holds(n, t, r);
  }

  lemma NextTaken(lockId: Mvid -> int, s: System, t: TxnId)
    requires CanStep(s, t) && s.txns[t].pc.Locking? && s.txns[t].pc.todo == [] && s.txns[t].job.Forgetting?
    requires TxnOk(lockId, s, t)
    ensures var n, later := LockStep(lockId, s, t), s.txns[t].pc.later;
            && (forall stage :: Taken(n.txns[t], stage) ==>
                  Taken(s.txns[t], stage) || (later != [] && stage == later[0] && stage in StagesOf(s.txns[t].job.targets)))
            && (later != [] && later[0].kind.Versions? ==> Taken(s.txns[t], Stage(Messages, later[0].target)))
            && forall r :: InHand(s, t, r) ==> Holds(s, t, r) && Holds(n, t, r)
  {
    var later, stages := s.txns[t].pc.later, StagesOf(s.txns[t].job.targets);
    if later == [] {
      assert stages[..|stages|] == stages;
    } else {
      var k := |stages| - |later|;
      assert stages[..k + 1] == stages[..k] + [later[0]] && stages[k] == later[0];
      if later[0].kind.Versions? {
        MessagesFirst(s.txns[t].job.targets, k, later[0].target);
        assert stages[..k][k - 1] == Stage(Messages, later[0].target);
      }
    }
  }

  lemma NextWrites(lockId: Mvid -> int, s: System, t: TxnId)
    requires Inv(lockId, s) && CanStep(s, t) && WritesAll(s, t) && s.txns[t].pc.Locking? && s.txns[t].pc.todo == []
    requires s.txns[t].job.Forgetting?
    ensures WritesAll(LockStep(lockId, s, t), t)
  {
    NextTaken(lockId, s, t);
    if s.txns[t].pc.later != [] {
      assert TxnOk(lockId, s, t);
      var stages, k := StagesOf(s.txns[t].job.targets), |StagesOf(s.txns[t].job.targets)| - |s.txns[t].pc.later|;
      assert stages[k] == s.txns[t].pc.later[0];
      StageInHand(lockId, s, LockStep(lockId, s, t), t, s.txns[t].pc.later[0]);
    }
  }

  lemma StageInHand(lockId: Mvid -> int, s: System, n: System, t: TxnId, stage: Stage)
    requires Inv(lockId, s) && t in s.txns && s.txns[t].job.Forgetting?
    requires stage in StagesOf(s.txns[t].job.targets) && n.db == s.db && t in n.txns
    requires n.txns[t].pc.Locking? && n.txns[t].pc.todo == Rows(lockId, s.db, stage)
    ensures stage.target.OneMessage? && stage.kind.Messages? ==> InHand(n, t, MessageRow(stage.target.message))
    ensures stage.target.OneMessage? && stage.kind.Versions? ==> VersionsInHand(n, t, stage.target.message)
  {
    assert TxnOk(lockId, s, t);
    StageTargets(s.txns[t].job.targets, stage);
    assert stage.target in Elements(s.txns[t].job.targets);
    if stage.target.OneMessage? {
      var g := stage.target.message;
      assert OneMessage(g) in s.db.requests && g in s.db.messages;
      if stage.kind.Messages? {
        RowsIff(lockId, s.db, stage, MessageRow(g));
      } else if stage.kind.Versions? {
        forall m | m in s.db.versions && s.db.versions[m].message == g ensures InHand(n, t, VersionRow(m)) {
          RowsIff(lockId, s.db, stage, VersionRow(m));
        }
      }
    }
  }

  /** Whoever else moves adds no version to a message whose row is held. */
  lemma OthersWrite(s: System, n: System, t: TxnId)
    requires t in s.txns && t in n.txns && n.txns[t] == s.txns[t] && WritesAll(s, t)
    requires forall r :: Holds(s, t, r) ==> Holds(n, t, r)
    requires forall m :: m in n.db.versions && Holds(s, t, MessageRow(n.db.versions[m].message)) ==>
               m in s.db.versions && s.db.versions[m].message == n.db.versions[m].message
    ensures WritesAll(n, t)
  {
    assert forall r :: InHand(s, t, r) ==> InHand(n, t, r);
    forall g | Taken(n.txns[t], Stage(Versions, OneMessage(g)))
      ensures Holds(n, t, MessageRow(g)) && VersionsInHand(n, t, g)
    {
      assert Taken(s.txns[t], Stage(Versions, OneMessage(g))) && VersionsInHand(s, t, g);
    }
  }

  lemma NothingTakenYet(s: System, t: TxnId)
    requires t in s.txns && (!s.txns[t].job.Forgetting? || s.txns[t].pc.Start? || s.txns[t].pc.Ended?)
    ensures WritesAll(s, t)
  {
  }

  lemma SameVersionsAll(lockId: Mvid -> int, s: System, a: Action, t: TxnId)
    requires Inv(lockId, s)
    ensures var n := Step(lockId, s, a);
            forall m :: m in n.db.versions && Holds(s, t, MessageRow(n.db.versions[m].message)) ==>
              m in s.db.versions && s.db.versions[m].message == n.db.versions[m].message
  {
    var n := Step(lockId, s, a);
    forall m | m in n.db.versions && Holds(s, t, MessageRow(n.db.versions[m].message))
      ensures m in s.db.versions && s.db.versions[m].message == n.db.versions[m].message
    {
      SameVersionsInStep(lockId, s, a, MessageRow(n.db.versions[m].message));
    }
  }

  lemma StepWrites(lockId: Mvid -> int, s: System, a: Action, t: TxnId)
    requires Inv(lockId, s) && AllWrite(s) && t in Step(lockId, s, a).txns
    ensures WritesAll(Step(lockId, s, a), t)
  {
    var n := Step(lockId, s, a);
    if t !in s.txns || !n.txns[t].job.Forgetting? || n.txns[t].pc.Ended? {
      NewOrEnded(lockId, s, a, t);
    } else {
      assert WritesAll(s, t);
      if a == Go(t) && CanStep(s, t) {
        OwnWrites(lockId, s, t);
      } else {
        SameVersionsAll(lockId, s, a, t);
        StillHeld(lockId, s, a, t);
        OthersWrite(s, n, t);
      }
    }
  }

  lemma NewOrEnded(lockId: Mvid -> int, s: System, a: Action, t: TxnId)
    requires t in Step(lockId, s, a).txns
    requires t !in s.txns || !Step(lockId, s, a).txns[t].job.Forgetting? || Step(lockId, s, a).txns[t].pc.Ended?
    ensures WritesAll(Step(lockId, s, a), t)
  {
    if a.Go? {
      NoNewTxn(lockId, s, a.t);
    }
    NothingTakenYet(Step(lockId, s, a), t);
  }

  lemma StillHeld(lockId: Mvid -> int, s: System, a: Action, t: TxnId)
    requires t in s.txns && t in Step(lockId, s, a).txns && !Step(lockId, s, a).txns[t].pc.Ended?
    requires a == Go(t) ==> !CanStep(s, t)
    ensures var n := Step(lockId, s, a);
            n.txns[t] == s.txns[t] && forall r :: Holds(s, t, r) ==> Holds(n, t, r)
  {
    if a.Go? && a.t != t {
      GoMovesOnlyItself(lockId, s, a.t, t);
      GoSame(lockId, s, a.t);
    }
  }

  lemma AllStillWrite(lockId: Mvid -> int, s: System, a: Action)
    requires Inv(lockId, s) && AllWrite(s)
    ensures AllWrite(Step(lockId, s, a))
  {
    forall t | t in Step(lockId, s, a).txns ensures WritesAll(Step(lockId, s, a), t) {
      StepWrites(lockId, s, a, t);
    }
  }

  lemma NextStateWrites(lockId: Mvid -> int, s: System, acts: seq<Action>, k: nat)
    requires Initial(s) && k < |acts| && AllWrite(StateAt(lockId, s, acts, k))
    ensures AllWrite(StateAt(lockId, s, acts, k + 1))
  {
    StateIsSafe(lockId, s, acts, k);
    StateNext(lockId, s, acts, k);
    AllStillWrite(lockId, StateAt(lockId, s, acts, k), acts[k]);
  }

  lemma {:induction false} StatesWrite(lockId: Mvid -> int, s: System, acts: seq<Action>, k: nat)
    requires Initial(s) && k <= |acts|
    ensures AllWrite(StateAt(lockId, s, acts, k))
    decreases k
  {
    if k == 0 {
      assert acts[..0] == [] && StateAt(lockId, s, acts, 0) == s;
    } else {
      StatesWrite(lockId, s, acts, k - 1);
      NextStateWrites(lockId, s, acts, k - 1);
    }
  }

  /** The commit of a cascade for a message redacts the message and every version of it. */
  lemma CommitRedacts(lockId: Mvid -> int, s: System, t: TxnId, g: MessageId, m: Mvid)
    requires Inv(lockId, s) && t in s.txns && WritesAll(s, t) && s.txns[t].pc.Ready? && s.txns[t].job.Forgetting?
    requires OneMessage(g) in s.txns[t].job.targets && m in s.db.versions && s.db.versions[m].message == g
    ensures var next := GoStep(lockId, s, t).db;
            m in next.versions && next.versions[m].isRedacted && g in next.messages && next.messages[g].isRedacted
  {
    StageTargets(s.txns[t].job.targets, Stage(Versions, OneMessage(g)));
    assert Taken(s.txns[t], Stage(Versions, OneMessage(g))) && VersionsInHand(s, t, g);
    assert GoStep(lockId, s, t) == CommitStep(s, t);
  }

  ghost predicate Redacted(db: Tables, m: Mvid) {
    Present(db, m) && db.versions[m].isRedacted && db.messages[db.versions[m].message].isRedacted
  }

  lemma {:induction false} RedactedStays(lockId: Mvid -> int, s: System, acts: seq<Action>, j: nat, k: nat, m: Mvid)
    requires Initial(s) && j <= k <= |acts| && Redacted(StateAt(lockId, s, acts, j).db, m)
    ensures Redacted(StateAt(lockId, s, acts, k).db, m)
    decreases k
  {
    if j < k {
      RedactedStays(lockId, s, acts, j, k - 1, m);
      StateExtends(lockId, s, acts, k - 1);
      RedactedOnward(StateAt(lockId, s, acts, k - 1).db, StateAt(lockId, s, acts, k).db, m);
    }
  }

  lemma RedactedOnward(db: Tables, next: Tables, m: Mvid)
    requires Extends(db, next) && Redacted(db, m)
    ensures Redacted(next, m)
  {
    assert VersionExtends(db, m, next.versions[m]);
    assert MessageExtends(db, db.versions[m].message, next.messages[db.versions[m].message]);
  }

  /** In every run: once a cascade for a message has ended, each version it had stays redacted, cited or not. */
  lemma MissedIsRedacted(lockId: Mvid -> int, s: System, acts: seq<Action>, k: nat, r: CardSource)
    requires Initial(s) && MissedAt(lockId, s, acts, k, r)
    ensures Redacted(Run(lockId, s, acts).db, r.mvid)
  {
    RedactedNext(lockId, s, acts, k, r);
    RedactedStays(lockId, s, acts, k + 1, |acts|, r.mvid);
    assert acts[..|acts|] == acts;
  }

  lemma RedactedNext(lockId: Mvid -> int, s: System, acts: seq<Action>, k: nat, r: CardSource)
    requires Initial(s) && MissedAt(lockId, s, acts, k, r)
    ensures Redacted(StateAt(lockId, s, acts, k + 1).db, r.mvid)
  {
    StateIsSafe(lockId, s, acts, k);
    StatesWrite(lockId, s, acts, k);
    StateNext(lockId, s, acts, k);
    RedactsNow(lockId, StateAt(lockId, s, acts, k), acts[k].t, r.mvid);
  }

  lemma RedactsNow(lockId: Mvid -> int, s: System, t: TxnId, m: Mvid)
    requires Inv(lockId, s) && AllWrite(s) && t in s.txns && s.txns[t].pc.Ready? && s.txns[t].job.Forgetting?
    requires Present(s.db, m) && OneMessage(s.db.versions[m].message) in s.txns[t].job.targets
    ensures Redacted(GoStep(lockId, s, t).db, m)
  {
    assert WritesAll(s, t);
    CommitRedacts(lockId, s, t, s.db.versions[m].message, m);
    GoExtends(lockId, s, t);
    assert VersionExtends(s.db, m, GoStep(lockId, s, t).db.versions[m]);
  }

  // ------------------------------------------------------------------ everything that was there is redacted

  /** The worker has not passed over the rows of `m`, which its target covers. */
  ghost predicate RowsInHand(s: System, t: TxnId, target: Target, m: Mvid) {
    t in s.txns && Covers(s.db, target, m) ==>
      && (Taken(s.txns[t], Stage(Messages, target)) ==> InHand(s, t, MessageRow(s.db.versions[m].message)))
      && (Taken(s.txns[t], Stage(Versions, target)) ==> InHand(s, t, VersionRow(m)))
  }

  /** The rows of a covered version are among those that the two writing stages ask for. */
  lemma WritesCovered(lockId: Mvid -> int, db: Tables, target: Target, m: Mvid)
    requires Covers(db, target, m) && !target.OneHash?
    ensures MessageRow(db.versions[m].message) in Rows(lockId, db, Stage(Messages, target))
    ensures VersionRow(m) in Rows(lockId, db, Stage(Versions, target))
  {
    RowsIff(lockId, db, Stage(Messages, target), MessageRow(db.versions[m].message));
    RowsIff(lockId, db, Stage(Versions, target), VersionRow(m));
  }

  lemma OwnRowsInHand(lockId: Mvid -> int, s: System, t: TxnId, target: Target, m: Mvid)
    requires Inv(lockId, s) && CanStep(s, t) && s.txns[t].job.Forgetting? && s.txns[t].pc.Locking?
    requires RowsInHand(s, t, target, m) && Covers(s.db, target, m) && !target.OneHash?
    ensures RowsInHand(LockStep(lockId, s, t), t, target, m)
  {
    assert TxnOk(lockId, s, t);
    if s.txns[t].pc.todo != [] {
      TakesOk(lockId, s, t);
    } else {
      NextTaken(lockId, s, t);
      WritesCovered(lockId, s.db, target, m);
    }
  }

  lemma StepRowsInHand(lockId: Mvid -> int, s: System, a: Action, t: TxnId, target: Target, m: Mvid)
    requires Inv(lockId, s) && Covers(s.db, target, m) && !target.OneHash?
    requires t in s.txns ==> RowsInHand(s, t, target, m)
    ensures t in Step(lockId, s, a).txns ==> RowsInHand(Step(lockId, s, a), t, target, m)
  {
    var n := Step(lockId, s, a);
    StepExtends(lockId, s, a);
    CoversStays(s.db, n.db, target, m);
    if t in n.txns && t in s.txns && n.txns[t].job.Forgetting? && !n.txns[t].pc.Ended? {
      if a == Go(t) && CanStep(s, t) {
        OwnGoRows(lockId, s, t, target, m);
      } else {
        StillHeld(lockId, s, a, t);
        assert forall r :: InHand(s, t, r) ==> InHand(n, t, r);
      }
    } else if t in n.txns {
      NewTakesNothing(lockId, s, a, t);
    }
  }

  lemma OwnGoRows(lockId: Mvid -> int, s: System, t: TxnId, target: Target, m: Mvid)
    requires Inv(lockId, s) && CanStep(s, t) && s.txns[t].job.Forgetting? && !GoStep(lockId, s, t).txns[t].pc.Ended?
    requires RowsInHand(s, t, target, m) && Covers(s.db, target, m) && !target.OneHash?
    ensures RowsInHand(GoStep(lockId, s, t), t, target, m)
  {
    assert TxnOk(lockId, s, t);
    if s.txns[t].pc.Locking? {
      OwnRowsInHand(lockId, s, t, target, m);
    } else {
      var stages := StagesOf(s.txns[t].job.targets);
      assert stages[..0] == [];
    }
  }

  lemma NewTakesNothing(lockId: Mvid -> int, s: System, a: Action, t: TxnId)
    requires t in Step(lockId, s, a).txns
    requires t !in s.txns || !Step(lockId, s, a).txns[t].job.Forgetting? || Step(lockId, s, a).txns[t].pc.Ended?
    ensures forall stage :: !Taken(Step(lockId, s, a).txns[t], stage)
  {
    if a.Go? {
      NoNewTxn(lockId, s, a.t);
    }
  }

  lemma {:induction false} StatesInHand(lockId: Mvid -> int, s: System, acts: seq<Action>, j: nat, k: nat, t: TxnId,
                                        target: Target, m: Mvid)
    requires Initial(s) && j <= k <= |acts| && t !in StateAt(lockId, s, acts, j).txns && !target.OneHash?
    requires Covers(StateAt(lockId, s, acts, j).db, target, m)
    ensures var b := StateAt(lockId, s, acts, k);
            Covers(b.db, target, m) && (t in b.txns ==> RowsInHand(b, t, target, m))
    decreases k
  {
    CoversAt(lockId, s, acts, j, k, m);
    if j < k {
      StatesInHand(lockId, s, acts, j, k - 1, t, target, m);
      StateIsSafe(lockId, s, acts, k - 1);
      StateNext(lockId, s, acts, k - 1);
      StepRowsInHand(lockId, StateAt(lockId, s, acts, k - 1), acts[k - 1], t, target, m);
    }
  }

  lemma FinishRedacts(lockId: Mvid -> int, s: System, t: TxnId, target: Target, m: Mvid)
    requires Inv(lockId, s) && t in s.txns && s.txns[t].pc.Ready? && s.txns[t].job.Forgetting?
    requires target in s.txns[t].job.targets && Covers(s.db, target, m) && RowsInHand(s, t, target, m)
    ensures Redacted(GoStep(lockId, s, t).db, m)
  {
    StageTargets(s.txns[t].job.targets, Stage(Messages, target));
    StageTargets(s.txns[t].job.targets, Stage(Versions, target));
    CascadeRedacts(lockId, s, t);
  }

  /**
   In every run: once a cascade for a message or a user has ended, every version that the request covers
   and that was there before the worker began is redacted, with its message, and stays so.
   */
  lemma CoveredIsRedacted(lockId: Mvid -> int, s: System, acts: seq<Action>, j: nat, k: nat, target: Target, m: Mvid)
    requires Initial(s) && j <= k && FinishesAt(lockId, s, acts, k, target) && !target.OneHash?
    requires acts[k].t !in StateAt(lockId, s, acts, j).txns && Covers(StateAt(lockId, s, acts, j).db, target, m)
    ensures Redacted(Run(lockId, s, acts).db, m)
  {
    StatesInHand(lockId, s, acts, j, k, acts[k].t, target, m);
    StateIsSafe(lockId, s, acts, k);
    StateNext(lockId, s, acts, k);
    FinishRedacts(lockId, StateAt(lockId, s, acts, k), acts[k].t, target, m);
    RedactedStays(lockId, s, acts, k + 1, |acts|, m);
    assert acts[..|acts|] == acts;
  }
}
