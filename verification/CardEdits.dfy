/** What an edit can do to a worker whose targets were safe when it began. */
module CardEdits {
  import opened Prelude
  import opened CardApproval
  import opened CardRaces
  import opened CardSafety
  import opened CardDeadlock
  import opened CardWorkers
  import opened CardProgress
  import opened CardPairs
  import opened CardVerdict

  // ------------------------------------------------------------------ edits while a worker is at work

  /** The tables after an edit of message `g`, whose new version is `m`. */
  function Edited(db: Tables, g: MessageId, m: Mvid): Tables
    requires g in db.messages
  {
    db.(messages := db.messages[g := db.messages[g].(current := Some(m))],
        versions := db.versions[m := Version(g, None, true, false)])
  }

  lemma EditExtends(db: Tables, g: MessageId, m: Mvid)
    requires LinkedRows(db) && g in db.messages && m !in db.versions
    ensures RowsExtend(db, Edited(db, g, m).messages, Edited(db, g, m).versions)
  {
  }

  lemma EditMayHappen(s: System, g: MessageId, m: Mvid)
    requires LinkedRows(s.db) && g in s.db.messages && m !in s.db.versions
    requires Free(s, MessageRow(g)) && Free(s, VersionRow(m))
    ensures MayWrite(s, Edited(s.db, g, m).messages, Edited(s.db, g, m).versions)
  {
    EditExtends(s.db, g, m);
  }

  /** An edit of a message whose row nobody has locked. */
  lemma EditHappens(lockId: Mvid -> int, s: System, g: MessageId, m: Mvid) returns (a: Action)
    requires Inv(lockId, s) && g in s.db.messages && m !in s.db.versions
    requires Free(s, MessageRow(g)) && Free(s, VersionRow(m))
    ensures a.OtherWrites?
    ensures var n := Step(lockId, s, a);
            Inv(lockId, n) && n.db == Edited(s.db, g, m) && n.txns == s.txns && n.holder == s.holder
  {
    a := OtherWrites(Edited(s.db, g, m).messages, Edited(s.db, g, m).versions);
    EditMayHappen(s, g, m);
    StepKeeps(lockId, s, a);
  }

  /** A worker for one target that has begun and started. */
  lemma WorkerStarts(lockId: Mvid -> int, s: System, target: Target) returns (n: System)
    requires Initial(s) && target in s.db.requests
    ensures n == Step(lockId, Step(lockId, s, Begin(1, Forgetting([target]))), Go(1)) && Inv(lockId, n)
    ensures n == System(s.db, map[1 := Txn(Forgetting([target]), [], {}, Locking([], StagesOf([target])))], map[])
  {
    var b := Begin(1, Forgetting([target]));
    InitialIsSafe(lockId, s);
    var n1 := Step(lockId, s, b);
    StepKeeps(lockId, s, b);
    assert Elements([target]) == {target};
    assert n1 == System(s.db, map[1 := Txn(Forgetting([target]), [], {}, Start)], map[]);
    n := Step(lockId, n1, Go(1));
    StepKeeps(lockId, n1, Go(1));
  }

  /** A worker that has found what its target resolves to, and has not locked anything yet. */
  lemma WorkerResolves(lockId: Mvid -> int, s: System, t: Target) returns (n: System)
    requires Initial(s) && t in s.db.requests
    ensures var b := Begin(1, Forgetting([t]));
            && n == Step(lockId, Step(lockId, Step(lockId, s, b), Go(1)), Go(1)) && Inv(lockId, n)
            && n == System(s.db, map[1 := Txn(Forgetting([t]), [], {}, Locking(Rows(lockId, s.db, Stage(Locks, t)),
                                       [Stage(Messages, t), Stage(Versions, t)]))], map[])
  {
    var n2 := WorkerStarts(lockId, s, t);
    n := Step(lockId, n2, Go(1));
    StepKeeps(lockId, n2, Go(1));
    assert [t][1..] == [] && StagesOf([]) == [];
    assert StagesOf([t]) == [Stage(Locks, t), Stage(Messages, t), Stage(Versions, t)];
    assert StagesOf([t])[1..] == [Stage(Messages, t), Stage(Versions, t)];
  }

  /** A list of advisory locks, message rows and version rows: where a version's row stands in it. */
  lemma RowsAfterLocks(a: seq<Resource>, b: seq<Resource>, d: seq<Resource>, i: nat, k: nat, g: MessageId, m: Mvid,
                       id: int, c: CandidateId)
    requires (forall r :: r in a ==> r.Advisory? && r.id != id) && (forall r :: r in b ==> r.MessageRow?)
    requires (forall r :: r in d ==> r.VersionRow?) && i < |b| && b[i] == MessageRow(g)
    requires k < |d| && d[k] == VersionRow(m) && VersionRow(m) !in d[..k]
    ensures var w, q := a + (b + d), |a| + |b| + k;
            && w[q] == VersionRow(m) && MessageRow(g) in w[..q]
            && Advisory(id) !in w[..q] && VersionRow(m) !in w[..q] && RowOf(c) !in w[..q]
  {
    var w, q := a + (b + d), |a| + |b| + k;
    assert w[..q] == a + (b + d[..k]);
    assert w[..q][|a| + i] == MessageRow(g);
    assert w[q] == d[k];
    forall r | r in d[..k] ensures r in d {}
  }

  /** What the worker asks for once the message has been edited: locks without the new version, rows with it. */
  lemma AsksAfterEdit(lockId: Mvid -> int, db: Tables, g: MessageId, m: Mvid, c: CandidateId)
    returns (w: seq<Resource>, q: nat)
    requires LinkedRows(db) && g in db.messages && m !in db.versions
    requires forall k :: k in Resolved(db, OneMessage(g)) ==> lockId(k) != lockId(m)
    ensures var next, t := Edited(db, g, m), OneMessage(g);
            && w == Rows(lockId, db, Stage(Locks, t)) + WorkList(lockId, next, [Stage(Messages, t), Stage(Versions, t)])
            && q < |w| && w[q] == VersionRow(m) && MessageRow(g) in w[..q]
            && Advisory(lockId(m)) !in w[..q] && VersionRow(m) !in w[..q] && RowOf(c) !in w[..q]
  {
    var next, t := Edited(db, g, m), OneMessage(g);
    var a := Rows(lockId, db, Stage(Locks, t));
    var b, d := Rows(lockId, next, Stage(Messages, t)), Rows(lockId, next, Stage(Versions, t));
    TwoStages(lockId, next, Stage(Messages, t), Stage(Versions, t));
    w := a + (b + d);
    var i, k := RowsFound(lockId, next, g, m, b, d);
    forall r | r in a ensures r.Advisory? && r.id != lockId(m) {
      RowsIff(lockId, db, Stage(Locks, t), r);
    }
    RowsAfterLocks(a, b, d, i, k, g, m, lockId(m), c);
    q := |a| + |b| + k;
  }

  lemma RowsFound(lockId: Mvid -> int, db: Tables, g: MessageId, m: Mvid, b: seq<Resource>, d: seq<Resource>)
    returns (i: nat, k: nat)
    requires g in db.messages && m in db.versions && db.versions[m].message == g
    requires b == Rows(lockId, db, Stage(Messages, OneMessage(g)))
    requires d == Rows(lockId, db, Stage(Versions, OneMessage(g)))
    ensures i < |b| && b[i] == MessageRow(g) && k < |d| && d[k] == VersionRow(m) && VersionRow(m) !in d[..k]
    ensures (forall r :: r in b ==> r.MessageRow?) && (forall r :: r in d ==> r.VersionRow?)
  {
    RowsIff(lockId, db, Stage(Messages, OneMessage(g)), MessageRow(g));
    RowsIff(lockId, db, Stage(Versions, OneMessage(g)), VersionRow(m));
    i :| 0 <= i < |b| && b[i] == MessageRow(g);
    var j :| 0 <= j < |d| && d[j] == VersionRow(m);
    k := FirstIndex(d, 0, j, VersionRow(m));
    assert d[0..k] == d[..k];
  }

  lemma TwoStages(lockId: Mvid -> int, db: Tables, x: Stage, y: Stage)
    ensures WorkList(lockId, db, [x, y]) == Rows(lockId, db, x) + Rows(lockId, db, y)
  {
    assert [x, y][1..] == [y] && [y][1..] == [] && WorkList(lockId, db, []) == [];
    assert WorkList(lockId, db, [y]) == Rows(lockId, db, y) + [];
  }

  /** The approval of a candidate that cites the new version begins beside the worker. */
  lemma ApprovalJoins(lockId: Mvid -> int, s: System, c: CandidateId, ms: seq<Mvid>, w: seq<Resource>) returns (n: System)
    requires Inv(lockId, s) && s.txns.Keys == {1} && s.holder == map[] && s.txns[1].job.Forgetting?
    requires Running(s, 1) && c !in s.db.candidates
    requires Ask(lockId, WithProposed(s.db, c, ms), s.txns[1]) == w
    ensures n == Step(lockId, Step(lockId, s, NewCandidate(c, Proposed(ms))), Begin(0, Approving(c, 0)))
    ensures TwoFresh(lockId, n, AllAsks(lockId, WithProposed(s.db, c, ms), Approving(c, 0)), w)
  {
    var add, b := NewCandidate(c, Proposed(ms)), Begin(0, Approving(c, 0));
    StepKeeps(lockId, s, add);
    var n1 := Step(lockId, s, add);
    StepKeeps(lockId, n1, b);
    n := Step(lockId, n1, b);
    assert TxnOk(lockId, s, 1);
    assert n1.db == WithProposed(s.db, c, ms);
    assert n.txns == s.txns[0 := Txn(Approving(c, 0), [], {}, Start)];
  }

  /**
   Safe targets are not safe from edits: when a message is edited between the moment at which a worker
   finds its current version and the moment at which it writes the message, the approval of a card
   that cites the new version can deadlock with the worker, whatever locks the worker takes.
   */
  lemma EditOvertakesWorker(lockId: Mvid -> int, s: System, g: MessageId, m: Mvid, c: CandidateId)
    returns (acts: seq<Action>)
    requires Initial(s) && OneMessage(g) in s.db.requests && m !in s.db.versions && c !in s.db.candidates
    requires forall k :: k in Resolved(s.db, OneMessage(g)) ==> lockId(k) != lockId(m)
    ensures OnlyWorker(acts, [OneMessage(g)]) && Deadlocked(Run(lockId, s, acts))
  {
    var edit, n3, w := EditedBeside(lockId, s, g, m, c);
    var goes := AnyCross(lockId, n3, AllAsks(lockId, WithProposed(Edited(s.db, g, m), c, [m]), Approving(c, 0)), w);
    var add, b := NewCandidate(c, Proposed([m])), Begin(0, Approving(c, 0));
    acts := ThreeAndThree(lockId, s, Begin(1, Forgetting([OneMessage(g)])), edit, add, b, goes);
  }

  /** The worker has resolved its target, the message is edited, and an approval of the new version begins. */
  lemma EditedBeside(lockId: Mvid -> int, s: System, g: MessageId, m: Mvid, c: CandidateId)
    returns (edit: Action, n: System, w: seq<Resource>)
    requires Initial(s) && OneMessage(g) in s.db.requests && m !in s.db.versions && c !in s.db.candidates
    requires forall k :: k in Resolved(s.db, OneMessage(g)) ==> lockId(k) != lockId(m)
    ensures edit.OtherWrites?
    ensures var n1 := Step(lockId, Step(lockId, Step(lockId, s, Begin(1, Forgetting([OneMessage(g)]))), Go(1)), Go(1));
            n == Step(lockId, Step(lockId, Step(lockId, n1, edit), NewCandidate(c, Proposed([m]))),
                      Begin(0, Approving(c, 0)))
    ensures var a := AllAsks(lockId, WithProposed(Edited(s.db, g, m), c, [m]), Approving(c, 0));
            TwoFresh(lockId, n, a, w) && Crossing(a, w)
  {
    var n1 := WorkerResolves(lockId, s, OneMessage(g));
    edit := EditHappens(lockId, n1, g, m);
    var n2 := Step(lockId, n1, edit);
    var q;
    w, q := AsksAfterEdit(lockId, s.db, g, m, c);
    n := JoinsEdited(lockId, n2, s.db, c, g, m, w);
    RowMeets(lockId, Edited(s.db, g, m), c, w, q, m);
  }

  lemma JoinsEdited(lockId: Mvid -> int, s: System, db: Tables, c: CandidateId, g: MessageId, m: Mvid, w: seq<Resource>)
    returns (n: System)
    requires Inv(lockId, s) && g in db.messages && s.db == Edited(db, g, m) && s.holder == map[] && c !in s.db.candidates
    requires var t := OneMessage(g);
             && s.txns == map[1 := Txn(Forgetting([t]), [], {}, Locking(Rows(lockId, db, Stage(Locks, t)),
                                                                        [Stage(Messages, t), Stage(Versions, t)]))]
             && w == Rows(lockId, db, Stage(Locks, t)) + WorkList(lockId, s.db, [Stage(Messages, t), Stage(Versions, t)])
    ensures n == Step(lockId, Step(lockId, s, NewCandidate(c, Proposed([m]))), Begin(0, Approving(c, 0)))
    ensures TwoFresh(lockId, n, AllAsks(lockId, WithProposed(s.db, c, [m]), Approving(c, 0)), w)
  {
    SameAhead(lockId, s.db, WithProposed(s.db, c, [m]), s.txns[1]);
    assert Running(s, 1) && Ask(lockId, s.db, s.txns[1]) == w;
    n := ApprovalJoins(lockId, s, c, [m], w);
  }

  lemma AnyCross(lockId: Mvid -> int, s: System, a: seq<Resource>, w: seq<Resource>) returns (goes: seq<Action>)
    requires TwoFresh(lockId, s, a, w) && Crossing(a, w)
    ensures OnlyGoes(goes) && Deadlocked(Run(lockId, s, goes))
  {
    var p: nat, q: nat :| CrossesAt(a, w, p, q);
    goes := CrossFrom(lockId, s, a, w, p, q);
  }

  lemma RunThree(lockId: Mvid -> int, s: System, a: Action, b: Action, c: Action)
    ensures Run(lockId, s, [a, b, c]) == Step(lockId, Step(lockId, Step(lockId, s, a), b), c)
  {
    assert [a, b, c] == [a, b] + [c];
    RunConcat(lockId, s, [a, b], [c]);
    RunTwo(lockId, s, a, b);
    RunOne(lockId, Run(lockId, s, [a, b]), c);
  }

  lemma ThreeAndThree(lockId: Mvid -> int, s: System, a: Action, b: Action, d: Action, e: Action, goes: seq<Action>)
    returns (acts: seq<Action>)
    requires a.Begin? && a.job.Forgetting? && a.t == 1 && b.OtherWrites? && d.NewCandidate? && OnlyGoes(goes)
    requires e.Begin? && !e.job.Forgetting?
    ensures OnlyWorker(acts, a.job.targets)
    ensures var n := Step(lockId, Step(lockId, Step(lockId, s, a), Go(1)), Go(1));
            Run(lockId, s, acts) == Run(lockId, Step(lockId, Step(lockId, Step(lockId, n, b), d), e), goes)
  {
    acts := [a, Go(1), Go(1)] + ([b, d, e] + goes);
    RunThree(lockId, s, a, Go(1), Go(1));
    var n := Run(lockId, s, [a, Go(1), Go(1)]);
    RunConcat(lockId, s, [a, Go(1), Go(1)], [b, d, e] + goes);
    RunConcat(lockId, n, [b, d, e], goes);
    RunThree(lockId, n, b, d, e);
  }
}
