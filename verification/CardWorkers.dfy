/**
 Workers told in advance: while no message or version is added, the locks that a worker will ask for
 are fixed by the tables, and whether it asks safely can be seen before it begins.
 */
module CardWorkers {
  import opened Prelude
  import opened CardApproval
  import opened CardRaces
  import opened CardSafety
  import opened CardEligibility
  import opened CardDeadlock

  // ------------------------------------------------------------------ what cascades find

  /** The tables agree on everything that decides which rows a cascade finds. */
  ghost predicate SameLayout(a: Tables, b: Tables) {
    && a.messages.Keys == b.messages.Keys && a.versions.Keys == b.versions.Keys
    && (forall g :: g in a.messages ==>
          a.messages[g].user == b.messages[g].user && a.messages[g].current == b.messages[g].current)
    && (forall m :: m in a.versions ==>
          a.versions[m].message == b.versions[m].message && a.versions[m].hash == b.versions[m].hash)
  }

  lemma SameFinds(a: Tables, b: Tables, target: Target)
    requires SameLayout(a, b)
    ensures Resolved(a, target) == Resolved(b, target)
    ensures WrittenMessages(a, target) == WrittenMessages(b, target)
    ensures WrittenVersions(a, target) == WrittenVersions(b, target)
  {
    assert forall m :: Covers(a, target, m) <==> Covers(b, target, m);
    assert WrittenMessages(a, target) == WrittenMessages(b, target);
  }

  lemma SameRows(lockId: Mvid -> int, a: Tables, b: Tables, stage: Stage)
    requires SameLayout(a, b)
    ensures Rows(lockId, a, stage) == Rows(lockId, b, stage)
  {
    SameFinds(a, b, stage.target);
  }

  /** The locks that stages ask for, in order. */
  ghost function WorkList(lockId: Mvid -> int, db: Tables, stages: seq<Stage>): seq<Resource> {
    if stages == [] then [] else Rows(lockId, db, stages[0]) + WorkList(lockId, db, stages[1..])
  }

  lemma {:induction false} SameWorkList(lockId: Mvid -> int, a: Tables, b: Tables, stages: seq<Stage>)
    requires SameLayout(a, b)
    ensures WorkList(lockId, a, stages) == WorkList(lockId, b, stages)
    decreases |stages|
  {
    if stages != [] {
      SameRows(lockId, a, b, stages[0]);
      SameWorkList(lockId, a, b, stages[1..]);
    }
  }

  /** The locks of a worker for these targets, in order. */
  ghost function LocksOf(lockId: Mvid -> int, db: Tables, targets: seq<Target>): seq<Resource> {
    WorkList(lockId, db, StagesOf(targets))
  }

  // ------------------------------------------------------------------ safe in advance

  /** Asked for in this order, starting with these locks, everything is asked for safely. */
  ghost predicate SafeFrom(lockId: Mvid -> int, db: Tables, held: set<Resource>, ask: seq<Resource>)
    decreases |ask|
  {
    ask == [] || (SafeNext(lockId, db, held, ask[0]) && SafeFrom(lockId, db, held + {ask[0]}, ask[1..]))
  }

  ghost predicate SafeTargets(lockId: Mvid -> int, db: Tables, targets: seq<Target>) {
    SafeFrom(lockId, db, {}, LocksOf(lockId, db, targets))
  }

  lemma SameSafeNext(lockId: Mvid -> int, a: Tables, b: Tables, held: set<Resource>, r: Resource)
    requires SameLayout(a, b)
    ensures SafeNext(lockId, a, held, r) <==> SafeNext(lockId, b, held, r)
  {
  }

  lemma {:induction false} SameSafeFrom(lockId: Mvid -> int, a: Tables, b: Tables, held: set<Resource>, ask: seq<Resource>)
    requires SameLayout(a, b)
    ensures SafeFrom(lockId, a, held, ask) <==> SafeFrom(lockId, b, held, ask)
    decreases |ask|
  {
    if ask != [] {
      SameSafeNext(lockId, a, b, held, ask[0]);
      SameSafeFrom(lockId, a, b, held + {ask[0]}, ask[1..]);
    }
  }

  /** What a worker has still to ask for. */
  ghost function Ahead(lockId: Mvid -> int, db: Tables, x: Txn): seq<Resource>
    requires x.job.Forgetting?
  {
    match x.pc
    case Start => LocksOf(lockId, db, x.job.targets)
    case Locking(todo, later) => todo + WorkList(lockId, db, later)
    case _ => []
  }

  lemma SameAhead(lockId: Mvid -> int, a: Tables, b: Tables, x: Txn)
    requires SameLayout(a, b) && x.job.Forgetting?
    ensures Ahead(lockId, a, x) == Ahead(lockId, b, x)
  {
    SameWorkList(lockId, a, b, StagesOf(x.job.targets));
    if x.pc.Locking? {
      SameWorkList(lockId, a, b, x.pc.later);
    }
  }

  ghost predicate SafeWorker(lockId: Mvid -> int, s: System, t: TxnId)
    requires t in s.txns
  {
    s.txns[t].job.Forgetting? ==> SafeFrom(lockId, s.db, Held(s, t), Ahead(lockId, s.db, s.txns[t]))
  }

  ghost predicate SafeWorkers(lockId: Mvid -> int, s: System) {
    forall t :: t in s.txns ==> SafeWorker(lockId, s, t)
  }

  lemma SafeWorkersAskSafely(lockId: Mvid -> int, s: System)
    requires Inv(lockId, s) && SafeWorkers(lockId, s)
    ensures AsksSafely(lockId, s)
  {
    forall t | t in s.txns && s.txns[t].job.Forgetting? && Wants(s.db, s.txns[t]).Some?
      ensures SafeNext(lockId, s.db, Held(s, t), Wants(s.db, s.txns[t]).value)
    {
      assert SafeWorker(lockId, s, t) && TxnOk(lockId, s, t);
      assert Ahead(lockId, s.db, s.txns[t])[0] == s.txns[t].pc.todo[0];
    }
  }

  // ------------------------------------------------------------------ what steps do to it

  lemma GoLayout(lockId: Mvid -> int, s: System, t: TxnId)
    ensures SameLayout(s.db, GoStep(lockId, s, t).db)
  {
    if GoStep(lockId, s, t).db != s.db {
      assert GoStep(lockId, s, t) == CommitStep(s, t);
    }
  }

  /** The action adds no message and no version to those of `db`. */
  predicate AddsNothing(a: Action, db: Tables) {
    a.OtherWrites? ==> a.messages.Keys == db.messages.Keys && a.versions.Keys == db.versions.Keys
  }

  lemma StepLayout(lockId: Mvid -> int, s: System, a: Action)
    requires AddsNothing(a, s.db)
    ensures SameLayout(s.db, Step(lockId, s, a).db)
  {
    if a.Go? {
      GoLayout(lockId, s, a.t);
    } else if a.OtherWrites? && MayWrite(s, a.messages, a.versions) {
      forall g | g in s.db.messages ensures a.messages[g].current == s.db.messages[g].current {
        assert MessageExtends(s.db, g, a.messages[g]);
      }
      forall m | m in s.db.versions
        ensures a.versions[m].message == s.db.versions[m].message && a.versions[m].hash == s.db.versions[m].hash
      {
        assert VersionExtends(s.db, m, a.versions[m]);
      }
    }
  }

  lemma SafeElsewhere(lockId: Mvid -> int, s: System, n: System, t: TxnId)
    requires t in s.txns && t in n.txns && n.txns[t] == s.txns[t] && SafeWorker(lockId, s, t)
    requires SameLayout(s.db, n.db) && Held(n, t) == Held(s, t)
    ensures SafeWorker(lockId, n, t)
  {
    if s.txns[t].job.Forgetting? {
      SameAhead(lockId, s.db, n.db, s.txns[t]);
      SameSafeFrom(lockId, s.db, n.db, Held(s, t), Ahead(lockId, s.db, s.txns[t]));
    }
  }

  /** A worker's own step: the list gets shorter by the lock it takes, or stays. */
  lemma OwnAhead(lockId: Mvid -> int, s: System, t: TxnId)
    requires Inv(lockId, s) && CanStep(s, t) && s.txns[t].job.Forgetting? && !s.txns[t].pc.Ready?
    ensures var n, ask := GoStep(lockId, s, t), Ahead(lockId, s.db, s.txns[t]);
            && n.db == s.db && !n.txns[t].pc.Ended?
            && match Wants(s.db, s.txns[t])
               case None => Ahead(lockId, s.db, n.txns[t]) == ask && Held(n, t) == Held(s, t)
               case Some(r) => ask == [r] + Ahead(lockId, s.db, n.txns[t]) && Held(n, t) == Held(s, t) + {r}
  {
    assert TxnOk(lockId, s, t);
    if s.txns[t].pc.Locking? {
      LockHeld(lockId, s, t);
      AheadLocking(lockId, s, t);
    } else {
      var stages := StagesOf(s.txns[t].job.targets);
      assert [] + WorkList(lockId, s.db, stages) == WorkList(lockId, s.db, stages);
    }
  }

  lemma AheadLocking(lockId: Mvid -> int, s: System, t: TxnId)
    requires CanStep(s, t) && s.txns[t].job.Forgetting? && s.txns[t].pc.Locking?
    ensures var n, ask := GoStep(lockId, s, t), Ahead(lockId, s.db, s.txns[t]);
            && !n.txns[t].pc.Ended?
            && match Wants(s.db, s.txns[t])
               case None => Ahead(lockId, s.db, n.txns[t]) == ask
               case Some(r) => ask == [r] + Ahead(lockId, s.db, n.txns[t])
  {
    var todo, later := s.txns[t].pc.todo, s.txns[t].pc.later;
    if todo != [] {
      assert todo + WorkList(lockId, s.db, later) == [todo[0]] + (todo[1..] + WorkList(lockId, s.db, later));
    }
  }

  lemma OwnStepSafe(lockId: Mvid -> int, s: System, t: TxnId)
    requires Inv(lockId, s) && CanStep(s, t) && SafeWorker(lockId, s, t)
    ensures SafeWorker(lockId, GoStep(lockId, s, t), t)
  {
    var x := s.txns[t];
    if x.job.Forgetting? && !x.pc.Ready? {
      OwnAhead(lockId, s, t);
      var n := GoStep(lockId, s, t);
      if Wants(s.db, x).Some? {
        assert Ahead(lockId, s.db, x)[1..] == Ahead(lockId, s.db, n.txns[t]);
      }
    }
  }

  lemma GoSafe(lockId: Mvid -> int, s: System, t: TxnId, u: TxnId)
    requires Inv(lockId, s) && SafeWorkers(lockId, s) && u in s.txns
    ensures SafeWorker(lockId, GoStep(lockId, s, t), u)
  {
    assert SafeWorker(lockId, s, u);
    if CanStep(s, t) {
      if u == t {
        OwnStepSafe(lockId, s, t);
      } else {
        GoHeld(lockId, s, t, u);
        GoMovesOnlyItself(lockId, s, t, u);
        GoLayout(lockId, s, t);
        SafeElsewhere(lockId, s, GoStep(lockId, s, t), u);
      }
    }
  }

  lemma OutsideSafe(lockId: Mvid -> int, s: System, a: Action, u: TxnId)
    requires Inv(lockId, s) && SafeWorkers(lockId, s) && !a.Go? && AddsNothing(a, s.db) && u in Step(lockId, s, a).txns
    requires a.Begin? && a.job.Forgetting? ==> SafeTargets(lockId, s.db, a.job.targets)
    ensures SafeWorker(lockId, Step(lockId, s, a), u)
  {
    var n := Step(lockId, s, a);
    if u in s.txns && n.txns[u] == s.txns[u] {
      assert SafeWorker(lockId, s, u);
      StepLayout(lockId, s, a);
      HeldElsewhere(lockId, s, a, u);
      SafeElsewhere(lockId, s, n, u);
    } else if u !in s.txns {
      NewHoldsNothing(lockId, s, u);
    }
  }

  lemma HeldElsewhere(lockId: Mvid -> int, s: System, a: Action, u: TxnId)
    requires !a.Go? && u in s.txns && Step(lockId, s, a).txns[u] == s.txns[u]
    ensures Held(Step(lockId, s, a), u) == Held(s, u)
  {
    if a.Abort? {
      EndSame(s.holder, a.t);
    }
  }

  lemma NewHoldsNothing(lockId: Mvid -> int, s: System, u: TxnId)
    requires Inv(lockId, s) && u !in s.txns
    ensures Held(s, u) == {}
  {
    forall r ensures r !in Held(s, u) { assert HeldOk(s, r); }
  }

  lemma StepSafe(lockId: Mvid -> int, s: System, a: Action)
    requires Inv(lockId, s) && SafeWorkers(lockId, s) && AddsNothing(a, s.db)
    requires a.Begin? && a.job.Forgetting? ==> SafeTargets(lockId, s.db, a.job.targets)
    ensures SafeWorkers(lockId, Step(lockId, s, a))
  {
    forall u | u in Step(lockId, s, a).txns ensures SafeWorker(lockId, Step(lockId, s, a), u) {
      if a.Go? {
        NoNewTxn(lockId, s, a.t);
        GoSafe(lockId, s, a.t, u);
      } else {
        OutsideSafe(lockId, s, a, u);
      }
    }
  }

  // ------------------------------------------------------------------ runs that add nothing

  ghost predicate QuietRun(acts: seq<Action>, db: Tables) {
    forall a :: a in acts ==> AddsNothing(a, db)
  }

  ghost predicate WorkersSafe(lockId: Mvid -> int, acts: seq<Action>, db: Tables) {
    forall a :: a in acts && a.Begin? && a.job.Forgetting? ==> SafeTargets(lockId, db, a.job.targets)
  }

  lemma SameSafeTargets(lockId: Mvid -> int, a: Tables, b: Tables, targets: seq<Target>)
    requires SameLayout(a, b)
    ensures SafeTargets(lockId, a, targets) <==> SafeTargets(lockId, b, targets)
  {
    SameWorkList(lockId, a, b, StagesOf(targets));
    SameSafeFrom(lockId, a, b, {}, LocksOf(lockId, a, targets));
  }

  lemma {:induction false} QuietStates(lockId: Mvid -> int, s: System, acts: seq<Action>, k: nat)
    requires Initial(s) && QuietRun(acts, s.db) && k <= |acts|
    ensures SameLayout(s.db, StateAt(lockId, s, acts, k).db)
    decreases k
  {
    if k == 0 {
      assert acts[..0] == [] && StateAt(lockId, s, acts, 0) == s;
    } else {
      QuietStates(lockId, s, acts, k - 1);
      StateNext(lockId, s, acts, k - 1);
      assert AddsNothing(acts[k - 1], s.db);
      StepLayout(lockId, StateAt(lockId, s, acts, k - 1), acts[k - 1]);
    }
  }

  lemma {:induction false} SafeStates(lockId: Mvid -> int, s: System, acts: seq<Action>, k: nat)
    requires Initial(s) && QuietRun(acts, s.db) && WorkersSafe(lockId, acts, s.db) && k <= |acts|
    ensures SafeWorkers(lockId, StateAt(lockId, s, acts, k))
    decreases k
  {
    if k == 0 {
      assert acts[..0] == [] && StateAt(lockId, s, acts, 0) == s;
    } else {
      SafeStates(lockId, s, acts, k - 1);
      var b, a := StateAt(lockId, s, acts, k - 1), acts[k - 1];
      StateNext(lockId, s, acts, k - 1);
      StateIsSafe(lockId, s, acts, k - 1);
      QuietStates(lockId, s, acts, k - 1);
      assert AddsNothing(a, s.db);
      if a.Begin? && a.job.Forgetting? {
        SameSafeTargets(lockId, s.db, b.db, a.job.targets);
      }
      StepSafe(lockId, b, a);
    }
  }

  /** Workers that are safe by the tables they find: no deadlock while nothing is added. */
  lemma SafeTargetsNeverDeadlock(lockId: Mvid -> int, s: System, acts: seq<Action>)
    requires Initial(s) && QuietRun(acts, s.db) && WorkersSafe(lockId, acts, s.db)
    requires WorkersApart(Run(lockId, s, acts))
    ensures !Deadlocked(Run(lockId, s, acts))
  {
    forall k: nat | k <= |acts| ensures AsksSafely(lockId, StateAt(lockId, s, acts, k)) {
      StateIsSafe(lockId, s, acts, k);
      SafeStates(lockId, s, acts, k);
      SafeWorkersAskSafely(lockId, StateAt(lockId, s, acts, k));
    }
    NoDeadlock(lockId, s, acts);
  }

  // ------------------------------------------------------------------ what makes targets safe

  /** Every advisory lock is asked for after all earlier ones, or is one of them. */
  ghost predicate OrderedLocks(ask: seq<Resource>) {
    forall i, j :: 0 <= i < j < |ask| && ask[i].Advisory? && ask[j].Advisory? ==>
      ask[i].id <= ask[j].id || ask[j] in ask[..j]
  }

  /** Every row is asked for after the advisory locks of the versions concerned. */
  ghost predicate CoveredRows(lockId: Mvid -> int, db: Tables, ask: seq<Resource>) {
    forall j :: 0 <= j < |ask| ==> CoveredRow(lockId, db, Elements(ask[..j]), ask[j])
  }

  lemma {:induction false} SafeFromIff(lockId: Mvid -> int, db: Tables, ask: seq<Resource>, k: nat)
    requires k <= |ask|
    ensures SafeFrom(lockId, db, Elements(ask[..k]), ask[k..]) <==>
            forall j :: k <= j < |ask| ==> SafeNext(lockId, db, Elements(ask[..j]), ask[j])
    decreases |ask| - k
  {
    if k < |ask| {
      SafeFromIff(lockId, db, ask, k + 1);
      assert ask[..k + 1] == ask[..k] + [ask[k]];
      assert Elements(ask[..k + 1]) == Elements(ask[..k]) + {ask[k]};
      assert ask[k..][1..] == ask[k + 1..];
    }
  }

  /**
   Targets are safe exactly when their advisory locks are in order and, before each row is written,
   the locks taken cover all versions of the message.
   */
  lemma SafeTargetsIff(lockId: Mvid -> int, db: Tables, targets: seq<Target>)
    ensures var ask := LocksOf(lockId, db, targets);
            SafeTargets(lockId, db, targets) <==> OrderedLocks(ask) && CoveredRows(lockId, db, ask)
  {
    var ask := LocksOf(lockId, db, targets);
    assert ask[..0] == [] && ask[0..] == ask && Elements(ask[..0]) == {};
    SafeFromIff(lockId, db, ask, 0);
    forall j | 0 <= j < |ask|
      ensures SafeNext(lockId, db, Elements(ask[..j]), ask[j]) <==>
              CoveredRow(lockId, db, Elements(ask[..j]), ask[j])
              && (ask[j].Advisory? ==>
                    forall i :: 0 <= i < j && ask[i].Advisory? ==> ask[i].id <= ask[j].id || ask[j] in ask[..j])
    {
      NextIff(lockId, db, ask, j);
    }
  }

  lemma NextIff(lockId: Mvid -> int, db: Tables, ask: seq<Resource>, j: nat)
    requires j < |ask|
    ensures SafeNext(lockId, db, Elements(ask[..j]), ask[j]) <==>
            CoveredRow(lockId, db, Elements(ask[..j]), ask[j])
            && (ask[j].Advisory? ==>
                  forall i :: 0 <= i < j && ask[i].Advisory? ==> ask[i].id <= ask[j].id || ask[j] in ask[..j])
  {
    if ask[j].Advisory? {
      forall i | 0 <= i < j && ask[i].Advisory? ensures Advisory(ask[i].id) in Elements(ask[..j]) {
        assert ask[..j][i] == Advisory(ask[i].id);
      }
      forall h | Advisory(h) in Elements(ask[..j]) ensures exists i :: 0 <= i < j && ask[i] == Advisory(h) {
        var i :| 0 <= i < j && ask[..j][i] == Advisory(h);
        assert ask[i] == Advisory(h);
      }
    }
  }

  // ------------------------------------------------------------------ a worker with one target

  /** The locks of one target: advisory locks in ascending order, then message rows, then version rows. */
  lemma OneTargetLocks(lockId: Mvid -> int, db: Tables, target: Target)
    ensures LocksOf(lockId, db, [target]) ==
            Rows(lockId, db, Stage(Locks, target))
            + (Rows(lockId, db, Stage(Messages, target)) + Rows(lockId, db, Stage(Versions, target)))
  {
    var a, b, c := Stage(Locks, target), Stage(Messages, target), Stage(Versions, target);
    assert [target][1..] == [] && StagesOf([]) == [] && StagesOf([target]) == [a, b, c];
    assert [a, b, c][1..] == [b, c] && [b, c][1..] == [c] && [c][1..] == [];
    assert WorkList(lockId, db, []) == [];
    assert WorkList(lockId, db, [c]) == Rows(lockId, db, c) + [];
    assert WorkList(lockId, db, [b, c]) == Rows(lockId, db, b) + WorkList(lockId, db, [c]);
    assert WorkList(lockId, db, [a, b, c]) == Rows(lockId, db, a) + WorkList(lockId, db, [b, c]);
  }

  /** Which rows a stage asks for. */
  lemma RowsIff(lockId: Mvid -> int, db: Tables, stage: Stage, r: Resource)
    ensures r in Rows(lockId, db, stage) <==>
            match stage.kind
            case Locks => r.Advisory? && exists m :: m in Resolved(db, stage.target) && lockId(m) == r.id
            case Messages => r.MessageRow? && r.message in WrittenMessages(db, stage.target)
            case Versions => r.VersionRow? && r.mvid in WrittenVersions(db, stage.target)
  {
    match stage.kind {
      case Locks => AdvisoryRowsIff(lockId, db, stage, r);
      case Messages =>
        var gs := Listed(WrittenMessages(db, stage.target));
        if r.MessageRow? && r.message in WrittenMessages(db, stage.target) {
          assert r.message in gs;
          var i :| 0 <= i < |gs| && gs[i] == r.message;
          assert Rows(lockId, db, stage)[i] == r;
        }
      case Versions =>
        var ms := Listed(WrittenVersions(db, stage.target));
        if r.VersionRow? && r.mvid in WrittenVersions(db, stage.target) {
          assert r.mvid in ms;
          var i :| 0 <= i < |ms| && ms[i] == r.mvid;
          assert Rows(lockId, db, stage)[i] == r;
        }
    }
  }

  lemma AdvisoryRowsIff(lockId: Mvid -> int, db: Tables, stage: Stage, r: Resource)
    requires stage.kind.Locks?
    ensures r in Rows(lockId, db, stage) <==>
            r.Advisory? && exists m :: m in Resolved(db, stage.target) && lockId(m) == r.id
  {
    var ms := Listed(Resolved(db, stage.target));
    var ids := LockIds(lockId, ms);
    if r in Rows(lockId, db, stage) {
      var i :| 0 <= i < |ids| && Advisories(ids)[i] == r;
      assert ids[i] in ids;
    }
    if r.Advisory? && exists m :: m in Resolved(db, stage.target) && lockId(m) == r.id {
      var m :| m in Resolved(db, stage.target) && lockId(m) == r.id;
      AdvisoryAsked(lockId, db, stage, m);
    }
  }

  ghost predicate OwnLocksCover(lockId: Mvid -> int, db: Tables, target: Target) {
    forall m :: m in WrittenVersions(db, target) ==> exists k :: k in Resolved(db, target) && lockId(k) == lockId(m)
  }

  /**
   One target is safe exactly when the locks taken for it are those of all versions it writes: always
   for a user or a hash, and for a message when each version has the lock of the current one.
   */
  lemma OneTargetSafeIff(lockId: Mvid -> int, db: Tables, target: Target)
    requires LinkedRows(db)
    ensures SafeTargets(lockId, db, [target]) <==> OwnLocksCover(lockId, db, target)
    ensures !target.OneMessage? ==> OwnLocksCover(lockId, db, target)
  {
    var first := Rows(lockId, db, Stage(Locks, target));
    var second := Rows(lockId, db, Stage(Messages, target));
    var third := Rows(lockId, db, Stage(Versions, target));
    OneTargetLocks(lockId, db, target);
    SafeTargetsIff(lockId, db, [target]);
    OneTargetOrdered(lockId, db, target, first, second + third);
    if OwnLocksCover(lockId, db, target) {
      OwnLocksCoverRows(lockId, db, target, first, second + third);
    } else {
      var m :| m in WrittenVersions(db, target) && forall k :: k in Resolved(db, target) ==> lockId(k) != lockId(m);
      UncoveredMessage(lockId, db, target, first, second, third, m);
    }
    forall m | m in WrittenVersions(db, target) && !target.OneMessage? ensures m in Resolved(db, target) {
    }
  }

  lemma OneTargetOrdered(lockId: Mvid -> int, db: Tables, target: Target, first: seq<Resource>, rest: seq<Resource>)
    requires first == Rows(lockId, db, Stage(Locks, target))
    requires rest == Rows(lockId, db, Stage(Messages, target)) + Rows(lockId, db, Stage(Versions, target))
    ensures OrderedLocks(first + rest)
    ensures forall r :: r in rest ==> r.MessageRow? || r.VersionRow?
  {
    assert forall r :: r in rest ==> r.MessageRow? || r.VersionRow?;
    assert LockingUp(first);
    LocksThenRows(first, rest);
  }

  lemma LocksThenRows(first: seq<Resource>, rest: seq<Resource>)
    requires LockingUp(first) && forall r :: r in rest ==> !r.Advisory?
    ensures OrderedLocks(first + rest)
  {
    var ask := first + rest;
    forall j | |first| <= j < |ask| ensures !ask[j].Advisory? {
      assert ask[j] == rest[j - |first|] && ask[j] in rest;
    }
    forall i, j | 0 <= i < j < |ask| && ask[i].Advisory? && ask[j].Advisory? ensures ask[i].id <= ask[j].id {
      assert ask[i] == first[i] && ask[j] == first[j];
    }
  }

  lemma OwnLocksCoverRows(lockId: Mvid -> int, db: Tables, target: Target, first: seq<Resource>, rest: seq<Resource>)
    requires OwnLocksCover(lockId, db, target) && first == Rows(lockId, db, Stage(Locks, target))
    requires rest == Rows(lockId, db, Stage(Messages, target)) + Rows(lockId, db, Stage(Versions, target))
    ensures CoveredRows(lockId, db, first + rest)
  {
    var ask := first + rest;
    forall j | 0 <= j < |ask| ensures CoveredRow(lockId, db, Elements(ask[..j]), ask[j]) {
      if j < |first| {
        assert ask[j] == first[j];
      } else {
        assert ask[j] == rest[j - |first|] && ask[j] in rest;
        FirstIsIn(first, rest, j);
        WrittenRowCovered(lockId, db, target, ask[j], Elements(ask[..j]));
      }
    }
  }

  lemma FirstIsIn(first: seq<Resource>, rest: seq<Resource>, j: nat)
    requires |first| <= j <= |first + rest|
    ensures Elements(first) <= Elements((first + rest)[..j])
  {
    assert (first + rest)[..j] == first + rest[..j - |first|];
  }

  lemma WrittenRowCovered(lockId: Mvid -> int, db: Tables, target: Target, r: Resource, held: set<Resource>)
    requires OwnLocksCover(lockId, db, target) && Elements(Rows(lockId, db, Stage(Locks, target))) <= held
    requires r in Rows(lockId, db, Stage(Messages, target)) || r in Rows(lockId, db, Stage(Versions, target))
    ensures CoveredRow(lockId, db, held, r)
  {
    RowsIff(lockId, db, Stage(Messages, target), r);
    RowsIff(lockId, db, Stage(Versions, target), r);
    forall m | m in WrittenVersions(db, target) ensures Advisory(lockId(m)) in held {
      RowsIff(lockId, db, Stage(Locks, target), Advisory(lockId(m)));
      assert Advisory(lockId(m)) in Rows(lockId, db, Stage(Locks, target));
    }
    if r.MessageRow? {
      forall m | m in db.versions && db.versions[m].message == r.message ensures m in WrittenVersions(db, target) {
      }
    }
  }

  lemma UncoveredMessage(lockId: Mvid -> int, db: Tables, target: Target, first: seq<Resource>, second: seq<Resource>,
                         third: seq<Resource>, m: Mvid)
    requires first == Rows(lockId, db, Stage(Locks, target)) && second == Rows(lockId, db, Stage(Messages, target))
    requires third == Rows(lockId, db, Stage(Versions, target))
    requires m in WrittenVersions(db, target) && forall k :: k in Resolved(db, target) ==> lockId(k) != lockId(m)
    ensures !CoveredRows(lockId, db, first + (second + third))
  {
    var ask := first + (second + third);
    RowsIff(lockId, db, Stage(Versions, target), VersionRow(m));
    var i :| 0 <= i < |third| && third[i] == VersionRow(m);
    var j := |first| + |second| + i;
    assert ask[j] == VersionRow(m);
    forall k | 0 <= k < j ensures ask[k] != Advisory(lockId(m)) {
      if k < |first| {
        assert ask[k] == first[k] && ask[k] in first;
        RowsIff(lockId, db, Stage(Locks, target), ask[k]);
      } else if k < |first| + |second| {
        assert ask[k] == second[k - |first|];
      } else {
        assert ask[k] == third[k - |first| - |second|];
      }
    }
    assert Advisory(lockId(m)) !in Elements(ask[..j]);
    assert !CoveredRow(lockId, db, Elements(ask[..j]), ask[j]);
  }
}
