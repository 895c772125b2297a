/**
 Deadlocks, exactly: the lists of locks that an approval and a worker ask for, and the runs in which
 each waits for the other.
 */
module CardPairs {
  import opened Prelude
  import opened CardApproval
  import opened CardRaces
  import opened CardSafety
  import opened CardEligibility
  import opened CardDeadlock
  import opened CardWorkers
  import opened CardProgress

  // ------------------------------------------------------------------ what a transaction asks for

  /** The rows that re-validating these sources locks, up to the first that is refused. */
  function CheckAsk(db: Tables, ms: seq<Mvid>): seq<Resource> {
    if ms == [] || !Present(db, ms[0]) then []
    else
      [VersionRow(ms[0]), MessageRow(db.versions[ms[0]].message)]
      + (if Eligible(db, ms[0]) then CheckAsk(db, ms[1..]) else [])
  }

  /** From the candidate's row on. */
  function RowAsk(db: Tables, c: CandidateId): seq<Resource> {
    [RowOf(c)]
    + (if c in db.candidates && db.candidates[c].status.Pending? then CheckAsk(db, db.candidates[c].sources) else [])
  }

  function JoinAsk(db: Tables, plan: seq<Mvid>, k: nat, hit: bool): seq<Resource>
    requires k < |plan|
  {
    (if plan[k] in db.versions then [MessageRow(db.versions[plan[k]].message)] else [])
    + (if ReasonGiven(db, plan[k], hit).None? then CheckAsk(db, plan[k + 1..]) else [])
  }

  /** What a transaction has still to ask for when nobody else changes the tables. */
  ghost function Ask(lockId: Mvid -> int, db: Tables, x: Txn): seq<Resource> {
    match x.job
    case Forgetting(_) => Ahead(lockId, db, x)
    case Rejecting(c, _, _) => if x.pc.Start? || x.pc.WantRow? then [RowOf(c)] else []
    case Approving(c, _) =>
      match x.pc
      case Start =>
        if c !in db.candidates || db.candidates[c].sources == [] then []
        else Advisories(LockIds(lockId, db.candidates[c].sources)) + RowAsk(db, c)
      case Locking(todo, _) => todo + RowAsk(db, c)
      case WantRow => RowAsk(db, c)
      case Checking(k) => if k <= |x.plan| then CheckAsk(db, x.plan[k..]) else []
      case Sharing(k, hit) => if k < |x.plan| then [VersionRow(x.plan[k])] + JoinAsk(db, x.plan, k, hit) else []
      case Joining(k, hit) => if k < |x.plan| then JoinAsk(db, x.plan, k, hit) else []
      case _ => []
  }

  /** Everything that a job asks for from its start on. */
  ghost function AllAsks(lockId: Mvid -> int, db: Tables, job: Job): seq<Resource> {
    Ask(lockId, db, Txn(job, [], {}, Start))
  }

  /** All locks of a transaction, exclusive and shared. */
  function Grip(s: System, t: TxnId): set<Resource>
    requires t in s.txns
  {
    Held(s, t) + s.txns[t].shared
  }

  // ------------------------------------------------------------------ one statement

  /** The transaction goes on: its list loses what it has just taken, if anything. */
  ghost predicate AskMoves(lockId: Mvid -> int, s: System, n: System, t: TxnId)
    requires t in s.txns && t in n.txns
  {
    && n.db == s.db && !n.txns[t].pc.Ended?
    && match Wants(s.db, s.txns[t])
       case None => Ask(lockId, s.db, n.txns[t]) == Ask(lockId, s.db, s.txns[t]) && Grip(n, t) == Grip(s, t)
       case Some(r) =>
         Ask(lockId, s.db, s.txns[t]) == [r] + Ask(lockId, s.db, n.txns[t]) && Grip(n, t) == Grip(s, t) + {r}
  }

  ghost predicate AskEnds(lockId: Mvid -> int, s: System, n: System, t: TxnId)
    requires t in s.txns && t in n.txns
  {
    && n.txns[t].pc.Ended?
    && Ask(lockId, s.db, s.txns[t]) == (if Wants(s.db, s.txns[t]).Some? then [Wants(s.db, s.txns[t]).value] else [])
  }

  lemma WorkerAsks(lockId: Mvid -> int, s: System, t: TxnId)
    requires Inv(lockId, s) && CanStep(s, t) && s.txns[t].job.Forgetting? && !s.txns[t].pc.Ready?
    ensures AskMoves(lockId, s, GoStep(lockId, s, t), t)
  {
    OwnAhead(lockId, s, t);
    GoKeeps(lockId, s, t);
    WorkerSharesNothing(lockId, s, t);
    WorkerSharesNothing(lockId, GoStep(lockId, s, t), t);
  }

  lemma WorkerSharesNothing(lockId: Mvid -> int, s: System, t: TxnId)
    requires Inv(lockId, s) && t in s.txns && s.txns[t].job.Forgetting?
    ensures Grip(s, t) == Held(s, t)
  {
    assert TxnOk(lockId, s, t);
  }

  lemma StartAsks(lockId: Mvid -> int, s: System, t: TxnId)
    requires Inv(lockId, s) && CanStep(s, t) && !s.txns[t].job.Forgetting? && s.txns[t].pc.Start?
    ensures var n := GoStep(lockId, s, t); AskMoves(lockId, s, n, t) || AskEnds(lockId, s, n, t)
  {
    assert TxnOk(lockId, s, t);
  }

  lemma LockingAsks(lockId: Mvid -> int, s: System, t: TxnId)
    requires Inv(lockId, s) && CanStep(s, t) && s.txns[t].job.Approving? && s.txns[t].pc.Locking?
    ensures AskMoves(lockId, s, GoStep(lockId, s, t), t)
  {
    assert TxnOk(lockId, s, t);
    LockHeld(lockId, s, t);
    LockingList(lockId, s, t);
  }

  lemma LockingList(lockId: Mvid -> int, s: System, t: TxnId)
    requires CanStep(s, t) && s.txns[t].job.Approving? && s.txns[t].pc.Locking? && s.txns[t].pc.later == []
    ensures var n, todo := GoStep(lockId, s, t), s.txns[t].pc.todo;
            && n.db == s.db && !n.txns[t].pc.Ended? && n.txns[t].shared == s.txns[t].shared
            && Ask(lockId, s.db, s.txns[t]) ==
               (if todo == [] then [] else [todo[0]]) + Ask(lockId, s.db, n.txns[t])
  {
    assert GoStep(lockId, s, t) == LockStep(lockId, s, t);
    if s.txns[t].pc.todo == [] {
      LockingDone(lockId, s, t);
    } else {
      LockingNext(lockId, s, t);
    }
  }

  lemma LockingDone(lockId: Mvid -> int, s: System, t: TxnId)
    requires t in s.txns && s.txns[t].job.Approving? && s.txns[t].pc == Locking([], [])
    ensures var y := LockStep(lockId, s, t).txns[t];
            && y == s.txns[t].(pc := WantRow)
            && Ask(lockId, s.db, s.txns[t]) == Ask(lockId, s.db, y)
  {
    assert [] + RowAsk(s.db, s.txns[t].job.c) == RowAsk(s.db, s.txns[t].job.c);
  }

  lemma LockingNext(lockId: Mvid -> int, s: System, t: TxnId)
    requires t in s.txns && s.txns[t].job.Approving? && s.txns[t].pc.Locking? && s.txns[t].pc.todo != []
    ensures var x, y := s.txns[t], LockStep(lockId, s, t).txns[t];
            && y == x.(pc := Locking(x.pc.todo[1..], x.pc.later))
            && Ask(lockId, s.db, x) == [x.pc.todo[0]] + Ask(lockId, s.db, y)
  {
    var todo, rest := s.txns[t].pc.todo, RowAsk(s.db, s.txns[t].job.c);
    assert todo + rest == [todo[0]] + (todo[1..] + rest);
  }

  lemma RowAsks(lockId: Mvid -> int, s: System, t: TxnId)
    requires Inv(lockId, s) && CanStep(s, t) && s.txns[t].pc.WantRow?
    ensures var n := GoStep(lockId, s, t); AskMoves(lockId, s, n, t) || AskEnds(lockId, s, n, t)
  {
    assert TxnOk(lockId, s, t);
    var n := GoStep(lockId, s, t);
    if !n.txns[t].pc.Ended? {
      assert n.holder == s.holder[RowOf(s.txns[t].job.c) := t];
      assert s.txns[t].plan[0..] == s.txns[t].plan;
    }
  }

  lemma CheckAsks(lockId: Mvid -> int, s: System, t: TxnId)
    requires Inv(lockId, s) && CanStep(s, t) && s.txns[t].pc.Checking?
    ensures var n := GoStep(lockId, s, t); AskMoves(lockId, s, n, t) || AskEnds(lockId, s, n, t)
  {
    assert TxnOk(lockId, s, t);
    var x := s.txns[t];
    var k := x.pc.k;
    if k < |x.plan| {
      assert x.plan[k..][0] == x.plan[k] && x.plan[k..][1..] == x.plan[k + 1..];
    }
  }

  lemma ShareAsks(lockId: Mvid -> int, s: System, t: TxnId)
    requires Inv(lockId, s) && CanStep(s, t) && s.txns[t].pc.Sharing?
    ensures AskMoves(lockId, s, GoStep(lockId, s, t), t)
  {
    assert TxnOk(lockId, s, t);
  }

  lemma JoinAsks(lockId: Mvid -> int, s: System, t: TxnId)
    requires Inv(lockId, s) && CanStep(s, t) && s.txns[t].pc.Joining?
    ensures var n := GoStep(lockId, s, t); AskMoves(lockId, s, n, t) || AskEnds(lockId, s, n, t)
  {
    assert TxnOk(lockId, s, t);
  }

  lemma GoAsks(lockId: Mvid -> int, s: System, t: TxnId)
    requires Inv(lockId, s) && CanStep(s, t) && !s.txns[t].pc.Ready?
    ensures var n := GoStep(lockId, s, t); AskMoves(lockId, s, n, t) || AskEnds(lockId, s, n, t)
  {
    assert TxnOk(lockId, s, t);
    if s.txns[t].job.Forgetting? {
      WorkerAsks(lockId, s, t);
    } else {
      match s.txns[t].pc {
        case Start => StartAsks(lockId, s, t);
        case Locking(_, _) => LockingAsks(lockId, s, t);
        case WantRow => RowAsks(lockId, s, t);
        case Checking(_) => CheckAsks(lockId, s, t);
        case Sharing(_, _) => ShareAsks(lockId, s, t);
        case Joining(_, _) => JoinAsks(lockId, s, t);
        case _ =>
      }
    }
  }

  /** What a transaction waits for is the head of its list. */
  lemma HeadIsWanted(lockId: Mvid -> int, s: System, t: TxnId)
    requires Inv(lockId, s) && Running(s, t) && Wants(s.db, s.txns[t]).Some?
    ensures var ask := Ask(lockId, s.db, s.txns[t]);
            ask != [] && ask[0] == Wants(s.db, s.txns[t]).value && !s.txns[t].pc.Ready?
  {
    assert TxnOk(lockId, s, t);
  }

  // ------------------------------------------------------------------ left alone

  ghost predicate Unhindered(s: System, t: TxnId, ids: seq<Resource>) {
    forall r, u :: r in ids && u in s.txns && u != t ==> r !in Grip(s, u)
  }

  lemma FreeOfOthers(lockId: Mvid -> int, s: System, t: TxnId, r: Resource, share: bool)
    requires Inv(lockId, s) && forall u :: u in s.txns && u != t ==> r !in Grip(s, u)
    ensures Available(s, t, r, share)
  {
    assert HeldOk(s, r);
    if r in s.holder {
      HeldIff(s, s.holder[r], r);
    }
  }

  lemma OthersGrip(lockId: Mvid -> int, s: System, t: TxnId, u: TxnId)
    requires u != t && u in s.txns
    ensures var n := GoStep(lockId, s, t);
            u in n.txns && n.txns[u] == s.txns[u] && Grip(n, u) == Grip(s, u)
  {
    GoHeld(lockId, s, t, u);
    GoMovesOnlyItself(lockId, s, t, u);
  }

  /** The state `n` is `s` after `t` has taken the first `q` locks of its list; nobody else has moved. */
  ghost predicate Took(lockId: Mvid -> int, s: System, n: System, t: TxnId, q: nat)
    requires t in s.txns && q <= |Ask(lockId, s.db, s.txns[t])|
  {
    var ask := Ask(lockId, s.db, s.txns[t]);
    && Inv(lockId, n) && n.db == s.db && n.txns.Keys == s.txns.Keys && Running(n, t)
    && n.txns[t].job == s.txns[t].job
    && Ask(lockId, n.db, n.txns[t]) == ask[q..] && Grip(n, t) == Grip(s, t) + Elements(ask[..q])
    && forall u :: u in s.txns && u != t ==> n.txns[u] == s.txns[u] && Grip(n, u) == Grip(s, u)
  }

  lemma TookMore(lockId: Mvid -> int, s: System, n: System, m: System, t: TxnId, q: nat)
    requires t in s.txns && Onward(lockId, s, n, t) && (Wants(s.db, s.txns[t]).Some? ==> q > 0)
    requires var less := if Wants(s.db, s.txns[t]).Some? then q - 1 else q;
             less < |Ask(lockId, n.db, n.txns[t])| && Took(lockId, n, m, t, less)
    ensures Took(lockId, s, m, t, q)
  {
    if Wants(s.db, s.txns[t]).Some? {
      TookOne(Ask(lockId, s.db, s.txns[t]), Ask(lockId, n.db, n.txns[t]), q);
    }
  }

  lemma TookOne(ask: seq<Resource>, rest: seq<Resource>, q: nat)
    requires 0 < q <= |ask| && ask == [ask[0]] + rest
    ensures ask[q..] == rest[q - 1..] && Elements(ask[..q]) == {ask[0]} + Elements(rest[..q - 1])
  {
    assert ask[..q] == [ask[0]] + rest[..q - 1];
  }

  /** Left alone, a transaction gets the next `q` locks of its list and then asks for the one after. */
  lemma {:induction false} TakesLocks(lockId: Mvid -> int, s: System, t: TxnId, q: nat) returns (acts: seq<Action>)
    requires Inv(lockId, s) && Running(s, t) && q < |Ask(lockId, s.db, s.txns[t])|
    requires Unhindered(s, t, Ask(lockId, s.db, s.txns[t])[..q])
    ensures forall a :: a in acts ==> a == Go(t)
    ensures var n := Run(lockId, s, acts);
            Took(lockId, s, n, t, q)
            && Wants(n.db, n.txns[t]) == Some(Ask(lockId, s.db, s.txns[t])[q])
    decreases Remaining(lockId, s.db, s.txns[t])
  {
    acts := [];
    if Wants(s.db, s.txns[t]).Some? && q == 0 {
      TookNone(lockId, s, t);
    } else {
      var n, less := StepOn(lockId, s, t, q);
      var rest := TakesLocks(lockId, n, t, less);
      acts := [Go(t)] + rest;
      GoThen(lockId, s, t, rest);
      TookMore(lockId, s, n, Run(lockId, n, rest), t, q);
    }
  }

  lemma TookNone(lockId: Mvid -> int, s: System, t: TxnId)
    requires Inv(lockId, s) && Running(s, t) && Wants(s.db, s.txns[t]).Some?
    ensures Took(lockId, s, s, t, 0)
    ensures var ask := Ask(lockId, s.db, s.txns[t]); ask != [] && Wants(s.db, s.txns[t]) == Some(ask[0])
  {
    var ask := Ask(lockId, s.db, s.txns[t]);
    HeadIsWanted(lockId, s, t);
    assert ask[0..] == ask && ask[..0] == [] && Elements(ask[..0]) == {};
  }

  lemma StepOn(lockId: Mvid -> int, s: System, t: TxnId, q: nat) returns (n: System, less: nat)
    requires Inv(lockId, s) && Running(s, t) && q < |Ask(lockId, s.db, s.txns[t])|
    requires Unhindered(s, t, Ask(lockId, s.db, s.txns[t])[..q]) && (Wants(s.db, s.txns[t]).Some? ==> q > 0)
    ensures n == GoStep(lockId, s, t) && Onward(lockId, s, n, t)
    ensures less == (if Wants(s.db, s.txns[t]).Some? then q - 1 else q)
    ensures less < |Ask(lockId, n.db, n.txns[t])| && Unhindered(n, t, Ask(lockId, n.db, n.txns[t])[..less])
    ensures Ask(lockId, s.db, s.txns[t])[q] == Ask(lockId, n.db, n.txns[t])[less]
  {
    n, less := GoStep(lockId, s, t), if Wants(s.db, s.txns[t]).Some? then q - 1 else q;
    WillStep(lockId, s, t, q);
    GoOnward(lockId, s, t);
    StillUnhindered(lockId, s, n, t, q);
  }

  /** One statement on the way there. */
  ghost predicate Onward(lockId: Mvid -> int, s: System, n: System, t: TxnId)
    requires t in s.txns
  {
    && Inv(lockId, n) && n.txns.Keys == s.txns.Keys && Running(n, t)
    && AskMoves(lockId, s, n, t) && n.txns[t].job == s.txns[t].job && Shorter(lockId, s, n, t)
    && forall u :: u in s.txns && u != t ==> n.txns[u] == s.txns[u] && Grip(n, u) == Grip(s, u)
  }

  lemma WillStep(lockId: Mvid -> int, s: System, t: TxnId, q: nat)
    requires Inv(lockId, s) && Running(s, t) && q < |Ask(lockId, s.db, s.txns[t])|
    requires Unhindered(s, t, Ask(lockId, s.db, s.txns[t])[..q]) && (Wants(s.db, s.txns[t]).Some? ==> q > 0)
    ensures CanStep(s, t)
  {
    if Wants(s.db, s.txns[t]).Some? {
      var ask := Ask(lockId, s.db, s.txns[t]);
      HeadIsWanted(lockId, s, t);
      assert ask[..q][0] == ask[0] && ask[0] in ask[..q];
      FreeOfOthers(lockId, s, t, ask[0], WantsShare(s.txns[t]));
    }
  }

  lemma GoOnward(lockId: Mvid -> int, s: System, t: TxnId)
    requires Inv(lockId, s) && CanStep(s, t)
    requires |Ask(lockId, s.db, s.txns[t])| > (if Wants(s.db, s.txns[t]).Some? then 1 else 0)
    ensures Onward(lockId, s, GoStep(lockId, s, t), t)
  {
    NotReady(lockId, s, t);
    GoAsks(lockId, s, t);
    GoKeeps(lockId, s, t);
    NoNewTxn(lockId, s, t);
    GoShortens(lockId, s, t);
    var n := GoStep(lockId, s, t);
    forall u | u in s.txns && u != t ensures n.txns[u] == s.txns[u] && Grip(n, u) == Grip(s, u) {
      OthersGrip(lockId, s, t, u);
    }
  }

  lemma StillUnhindered(lockId: Mvid -> int, s: System, n: System, t: TxnId, q: nat)
    requires t in s.txns && Onward(lockId, s, n, t) && q < |Ask(lockId, s.db, s.txns[t])|
    requires Unhindered(s, t, Ask(lockId, s.db, s.txns[t])[..q]) && (Wants(s.db, s.txns[t]).Some? ==> q > 0)
    ensures var less := if Wants(s.db, s.txns[t]).Some? then q - 1 else q;
            less < |Ask(lockId, n.db, n.txns[t])| && Unhindered(n, t, Ask(lockId, n.db, n.txns[t])[..less])
  {
    var ask, rest := Ask(lockId, s.db, s.txns[t]), Ask(lockId, n.db, n.txns[t]);
    var less := if Wants(s.db, s.txns[t]).Some? then q - 1 else q;
    forall r, u | r in rest[..less] && u in n.txns && u != t ensures r !in Grip(n, u) {
      assert r in ask[..q] by {
        assert ask[..q] == (if Wants(s.db, s.txns[t]).Some? then [ask[0]] else []) + rest[..less];
      }
    }
  }

  lemma NotReady(lockId: Mvid -> int, s: System, t: TxnId)
    requires Inv(lockId, s) && Running(s, t) && Ask(lockId, s.db, s.txns[t]) != []
    ensures !s.txns[t].pc.Ready?
  {
  }

  // ------------------------------------------------------------------ crossing lists

  /**
   Each side, stopped at some point of its list, asks next for a lock that the other has taken,
   while neither had to wait for the other before.
   */
  ghost predicate CrossesAt(a: seq<Resource>, w: seq<Resource>, p: nat, q: nat) {
    && p < |a| && q < |w| && a[p] in w[..q] && w[q] in a[..p]
    && forall r :: r in a[..p] ==> r !in w[..q]
  }

  ghost predicate Crossing(a: seq<Resource>, w: seq<Resource>) {
    exists p: nat, q: nat :: CrossesAt(a, w, p, q)
  }

  /** An approval and a worker that hold nothing yet; `a` and `w` are their lists. */
  ghost predicate TwoFresh(lockId: Mvid -> int, s: System, a: seq<Resource>, w: seq<Resource>) {
    && Inv(lockId, s) && s.txns.Keys == {0, 1} && Running(s, 0) && Running(s, 1)
    && s.txns[1].job.Forgetting? && Grip(s, 0) == {} && Grip(s, 1) == {}
    && Ask(lockId, s.db, s.txns[0]) == a && Ask(lockId, s.db, s.txns[1]) == w
  }

  /** The approval has taken `a` and waits for `ra`; the worker has taken nothing and asks for `w`. */
  ghost predicate OneStands(lockId: Mvid -> int, s: System, a: seq<Resource>, ra: Resource, w: seq<Resource>) {
    && Inv(lockId, s) && s.txns.Keys == {0, 1} && Running(s, 0) && Running(s, 1) && s.txns[1].job.Forgetting?
    && Grip(s, 0) == Elements(a) && Wants(s.db, s.txns[0]) == Some(ra)
    && Grip(s, 1) == {} && Ask(lockId, s.db, s.txns[1]) == w
  }

  lemma FirstTakes(lockId: Mvid -> int, s0: System, a: seq<Resource>, w: seq<Resource>, p: nat)
    returns (acts: seq<Action>)
    requires TwoFresh(lockId, s0, a, w) && p < |a|
    ensures OnlyGoes(acts) && OneStands(lockId, Run(lockId, s0, acts), a[..p], a[p], w)
  {
    acts := TakesLocks(lockId, s0, 0, p);
    assert Took(lockId, s0, Run(lockId, s0, acts), 0, p);
  }

  lemma SecondTakes(lockId: Mvid -> int, s1: System, a: seq<Resource>, ra: Resource, w: seq<Resource>, q: nat)
    returns (acts: seq<Action>)
    requires OneStands(lockId, s1, a, ra, w) && q < |w| && ra in w[..q] && w[q] in a
    requires forall r :: r in a ==> r !in w[..q]
    ensures OnlyGoes(acts) && Deadlocked(Run(lockId, s1, acts))
  {
    forall r, u | r in w[..q] && u in s1.txns && u != 1 ensures r !in Grip(s1, u) {
      assert u == 0;
    }
    acts := TakesLocks(lockId, s1, 1, q);
    var s2 := Run(lockId, s1, acts);
    assert Took(lockId, s1, s2, 1, q);
    BothWait(lockId, s2, a, w[..q], ra, w[q]);
  }

  /** When the lists cross, each side can take its part and then waits for the other. */
  lemma CrossFrom(lockId: Mvid -> int, s0: System, a: seq<Resource>, w: seq<Resource>, p: nat, q: nat)
    returns (acts: seq<Action>)
    requires TwoFresh(lockId, s0, a, w) && CrossesAt(a, w, p, q)
    ensures OnlyGoes(acts) && Deadlocked(Run(lockId, s0, acts))
  {
    var first := FirstTakes(lockId, s0, a, w, p);
    var second := SecondTakes(lockId, Run(lockId, s0, first), a[..p], a[p], w, q);
    acts := first + second;
    RunConcat(lockId, s0, first, second);
  }

  lemma BothWait(lockId: Mvid -> int, s: System, a: seq<Resource>, w: seq<Resource>, ra: Resource, rw: Resource)
    requires Inv(lockId, s) && s.txns.Keys == {0, 1} && Running(s, 0) && Running(s, 1) && s.txns[1].job.Forgetting?
    requires Grip(s, 0) == Elements(a) && Grip(s, 1) == Elements(w) && ra in w && rw in a
    requires Wants(s.db, s.txns[0]) == Some(ra) && Wants(s.db, s.txns[1]) == Some(rw)
    ensures Deadlocked(s)
  {
    WorkerSharesNothing(lockId, s, 1);
    assert TxnOk(lockId, s, 1);
    assert ra in Held(s, 1) && rw in Grip(s, 0);
    HeldIff(s, 1, ra);
    HeldIff(s, 0, rw);
    assert !CanStep(s, 0) && !CanStep(s, 1);
  }

  // ------------------------------------------------------------------ one approval and one worker

  /** The run consists of the approval of `c` and the worker with these targets, and nothing else. */
  ghost predicate PairRun(acts: seq<Action>, c: CandidateId, admin: int, targets: seq<Target>) {
    forall a :: a in acts ==>
      a.Go? || a.Abort? || a == Begin(0, Approving(c, admin)) || a == Begin(1, Forgetting(targets))
  }

  function Opening(c: CandidateId, admin: int, targets: seq<Target>): seq<Action> {
    [Begin(0, Approving(c, admin)), Begin(1, Forgetting(targets))]
  }

  lemma RunTwo(lockId: Mvid -> int, s: System, a: Action, b: Action)
    ensures Run(lockId, s, [a, b]) == Step(lockId, Step(lockId, s, a), b)
  {
    assert [a, b] == [a] + [b];
    RunConcat(lockId, s, [a], [b]);
    RunOne(lockId, s, a);
    RunOne(lockId, Step(lockId, s, a), b);
  }

  lemma Opened(lockId: Mvid -> int, s: System, c: CandidateId, admin: int, targets: seq<Target>)
    requires Initial(s) && Elements(targets) <= s.db.requests
    ensures var n := Run(lockId, s, Opening(c, admin, targets));
            && n.db == s.db
            && TwoFresh(lockId, n, AllAsks(lockId, s.db, Approving(c, admin)), LocksOf(lockId, s.db, targets))
  {
    var a, b := Begin(0, Approving(c, admin)), Begin(1, Forgetting(targets));
    InitialIsSafe(lockId, s);
    StepKeeps(lockId, s, a);
    StepKeeps(lockId, Step(lockId, s, a), b);
    RunTwo(lockId, s, a, b);
    var n := Run(lockId, s, Opening(c, admin, targets));
    assert n.txns == map[0 := Txn(Approving(c, admin), [], {}, Start), 1 := Txn(Forgetting(targets), [], {}, Start)];
  }

  lemma CrossingDeadlocks(lockId: Mvid -> int, s: System, c: CandidateId, admin: int, targets: seq<Target>,
                          p: nat, q: nat)
    returns (acts: seq<Action>)
    requires Initial(s) && Elements(targets) <= s.db.requests
    requires CrossesAt(AllAsks(lockId, s.db, Approving(c, admin)), LocksOf(lockId, s.db, targets), p, q)
    ensures PairRun(acts, c, admin, targets) && Deadlocked(Run(lockId, s, acts))
  {
    var open := Opening(c, admin, targets);
    var s0 := Run(lockId, s, open);
    Opened(lockId, s, c, admin, targets);
    var a, w := AllAsks(lockId, s.db, Approving(c, admin)), LocksOf(lockId, s.db, targets);
    var goes := CrossFrom(lockId, s0, a, w, p, q);
    acts := open + goes;
    RunConcat(lockId, s, open, goes);
  }

  /** What is held is the part of the list before the rest. */
  ghost predicate Passed(all: seq<Resource>, rest: seq<Resource>, grip: set<Resource>) {
    |rest| <= |all| && rest == all[|all| - |rest|..] && grip == Elements(all[..|all| - |rest|])
  }

  lemma PassOne(all: seq<Resource>, rest: seq<Resource>, r: Resource, grip: set<Resource>)
    requires Passed(all, [r] + rest, grip)
    ensures Passed(all, rest, grip + {r})
  {
    var k := |all| - |rest| - 1;
    assert all[k] == ([r] + rest)[0] == r;
    assert all[..k + 1] == all[..k] + [r];
    assert all[k + 1..] == all[k..][1..] == rest;
  }

  ghost predicate HoldsPrefix(lockId: Mvid -> int, db: Tables, s: System, t: TxnId)
    requires t in s.txns
  {
    Passed(AllAsks(lockId, db, s.txns[t].job), Ask(lockId, db, s.txns[t]), Grip(s, t))
  }

  ghost predicate SomeoneEnded(s: System) {
    exists t :: t in s.txns && s.txns[t].pc.Ended?
  }

  /** Until one of the two ends, the tables stand and each holds exactly the part of its list it has passed. */
  ghost predicate PairOk(lockId: Mvid -> int, db: Tables, s: System, c: CandidateId, admin: int, targets: seq<Target>) {
    && Inv(lockId, s)
    && (forall t :: t in s.txns ==>
          (t == 0 && s.txns[t].job == Approving(c, admin)) || (t == 1 && s.txns[t].job == Forgetting(targets)))
    && (SomeoneEnded(s) || (s.db == db && forall t :: t in s.txns ==> HoldsPrefix(lockId, db, s, t)))
  }

  lemma GoPairJobs(lockId: Mvid -> int, s: System, t: TxnId)
    ensures var n := GoStep(lockId, s, t);
            n.txns.Keys == s.txns.Keys && forall u :: u in s.txns ==> n.txns[u].job == s.txns[u].job
  {
    NoNewTxn(lockId, s, t);
  }

  lemma GoStaysEnded(lockId: Mvid -> int, s: System, t: TxnId)
    requires SomeoneEnded(s)
    ensures SomeoneEnded(GoStep(lockId, s, t))
  {
    var u :| u in s.txns && s.txns[u].pc.Ended?;
    NoNewTxn(lockId, s, t);
    if u != t {
      GoMovesOnlyItself(lockId, s, t, u);
    }
    assert GoStep(lockId, s, t).txns[u].pc.Ended?;
  }

  lemma GoPair(lockId: Mvid -> int, db: Tables, s: System, t: TxnId, c: CandidateId, admin: int, targets: seq<Target>)
    requires PairOk(lockId, db, s, c, admin, targets)
    ensures PairOk(lockId, db, GoStep(lockId, s, t), c, admin, targets)
  {
    GoKeeps(lockId, s, t);
    GoPairJobs(lockId, s, t);
    if SomeoneEnded(s) {
      GoStaysEnded(lockId, s, t);
    } else if CanStep(s, t) {
      GoPairOn(lockId, db, s, t);
    }
  }

  lemma ReadyEnds(lockId: Mvid -> int, s: System, t: TxnId)
    requires CanStep(s, t) && s.txns[t].pc.Ready?
    ensures GoStep(lockId, s, t).txns[t].pc.Ended?
  {
    assert GoStep(lockId, s, t) == CommitStep(s, t);
  }

  /** A step of one of the two ends it, or moves it along its list. */
  lemma GoEndsOrMoves(lockId: Mvid -> int, s: System, t: TxnId)
    requires Inv(lockId, s) && CanStep(s, t)
    ensures GoStep(lockId, s, t).txns[t].pc.Ended? || AskMoves(lockId, s, GoStep(lockId, s, t), t)
  {
    if s.txns[t].pc.Ready? {
      ReadyEnds(lockId, s, t);
    } else {
      GoAsks(lockId, s, t);
    }
  }

  lemma GoPairOn(lockId: Mvid -> int, db: Tables, s: System, t: TxnId)
    requires Inv(lockId, s) && s.db == db && CanStep(s, t) && forall u :: u in s.txns ==> HoldsPrefix(lockId, db, s, u)
    ensures var n := GoStep(lockId, s, t);
            SomeoneEnded(n) || (n.db == db && forall u :: u in n.txns ==> HoldsPrefix(lockId, db, n, u))
  {
    GoEndsOrMoves(lockId, s, t);
    if !GoStep(lockId, s, t).txns[t].pc.Ended? {
      GoPrefixes(lockId, db, s, t);
    }
  }

  lemma GoPrefixes(lockId: Mvid -> int, db: Tables, s: System, t: TxnId)
    requires s.db == db && t in s.txns && AskMoves(lockId, s, GoStep(lockId, s, t), t)
    requires forall u :: u in s.txns ==> HoldsPrefix(lockId, db, s, u)
    ensures var n := GoStep(lockId, s, t);
            n.db == db && forall u :: u in n.txns ==> HoldsPrefix(lockId, db, n, u)
  {
    var n := GoStep(lockId, s, t);
    NoNewTxn(lockId, s, t);
    forall u | u in n.txns ensures HoldsPrefix(lockId, db, n, u) {
      assert HoldsPrefix(lockId, db, s, u);
      if u != t {
        OthersGrip(lockId, s, t, u);
      } else if Wants(db, s.txns[t]).Some? {
        PassOne(AllAsks(lockId, db, s.txns[t].job), Ask(lockId, db, n.txns[t]), Wants(db, s.txns[t]).value, Grip(s, t));
      }
    }
  }

  lemma BeginJobs(lockId: Mvid -> int, s: System, a: Action, c: CandidateId, admin: int, targets: seq<Target>)
    requires a == Begin(0, Approving(c, admin)) || a == Begin(1, Forgetting(targets))
    ensures var n := Step(lockId, s, a);
            && n.db == s.db && (SomeoneEnded(s) ==> SomeoneEnded(n))
            && forall t :: t in n.txns ==>
                 (t in s.txns && n.txns[t] == s.txns[t])
                 || (t == 0 && n.txns[t].job == Approving(c, admin)) || (t == 1 && n.txns[t].job == Forgetting(targets))
  {
    if u :| u in s.txns && s.txns[u].pc.Ended? {
      assert Step(lockId, s, a).txns[u].pc.Ended?;
    }
  }

  lemma BeginPair(lockId: Mvid -> int, db: Tables, s: System, a: Action, c: CandidateId, admin: int, targets: seq<Target>)
    requires PairOk(lockId, db, s, c, admin, targets)
    requires a == Begin(0, Approving(c, admin)) || a == Begin(1, Forgetting(targets))
    ensures PairOk(lockId, db, Step(lockId, s, a), c, admin, targets)
  {
    StepKeeps(lockId, s, a);
    BeginJobs(lockId, s, a, c, admin, targets);
    if !SomeoneEnded(s) {
      BeginPrefixes(lockId, db, s, a);
    }
  }

  lemma BeginPrefixes(lockId: Mvid -> int, db: Tables, s: System, a: Action)
    requires Inv(lockId, s) && a.Begin? && forall t :: t in s.txns ==> HoldsPrefix(lockId, db, s, t)
    ensures forall u :: u in Step(lockId, s, a).txns ==> HoldsPrefix(lockId, db, Step(lockId, s, a), u)
  {
    forall u | u in Step(lockId, s, a).txns ensures HoldsPrefix(lockId, db, Step(lockId, s, a), u) {
      BeginPrefix(lockId, db, s, a, u);
    }
  }

  lemma BeginPrefix(lockId: Mvid -> int, db: Tables, s: System, a: Action, u: TxnId)
    requires Inv(lockId, s) && a.Begin? && u in Step(lockId, s, a).txns
    requires forall t :: t in s.txns ==> HoldsPrefix(lockId, db, s, t)
    ensures HoldsPrefix(lockId, db, Step(lockId, s, a), u)
  {
    var n := Step(lockId, s, a);
    if u in s.txns {
      assert HoldsPrefix(lockId, db, s, u);
      assert Grip(n, u) == Grip(s, u);
    } else {
      NewHoldsNothing(lockId, s, u);
      var all := AllAsks(lockId, db, a.job);
      assert all[0..] == all && all[..0] == [] && Grip(n, u) == {};
    }
  }

  lemma StepPair(lockId: Mvid -> int, db: Tables, s: System, a: Action, c: CandidateId, admin: int, targets: seq<Target>)
    requires PairOk(lockId, db, s, c, admin, targets)
    requires a.Go? || a.Abort? || a == Begin(0, Approving(c, admin)) || a == Begin(1, Forgetting(targets))
    ensures PairOk(lockId, db, Step(lockId, s, a), c, admin, targets)
  {
    match a {
      case Go(t) => GoPair(lockId, db, s, t, c, admin, targets);
      case Abort(t) => AbortPair(lockId, db, s, t, c, admin, targets);
      case _ => BeginPair(lockId, db, s, a, c, admin, targets);
    }
  }

  lemma AbortPair(lockId: Mvid -> int, db: Tables, s: System, t: TxnId, c: CandidateId, admin: int, targets: seq<Target>)
    requires PairOk(lockId, db, s, c, admin, targets)
    ensures PairOk(lockId, db, Step(lockId, s, Abort(t)), c, admin, targets)
  {
    var n := Step(lockId, s, Abort(t));
    AbortKeeps(lockId, s, t);
    if t in s.txns {
      assert n.txns[t].pc.Ended?;
    }
  }

  lemma {:induction false} PairKeeps(lockId: Mvid -> int, db: Tables, s: System, acts: seq<Action>, c: CandidateId,
                                     admin: int, targets: seq<Target>)
    requires PairOk(lockId, db, s, c, admin, targets) && PairRun(acts, c, admin, targets)
    ensures PairOk(lockId, db, Run(lockId, s, acts), c, admin, targets)
    decreases |acts|
  {
    if acts != [] {
      assert acts[0] in acts;
      StepPair(lockId, db, s, acts[0], c, admin, targets);
      PairKeeps(lockId, db, Step(lockId, s, acts[0]), acts[1..], c, admin, targets);
    }
  }

  /** Whoever waits, waits for something in the grip of another who runs. */
  lemma WaitsForGrip(lockId: Mvid -> int, s: System, t: TxnId) returns (u: TxnId)
    requires Inv(lockId, s) && Running(s, t) && !CanStep(s, t)
    ensures Wants(s.db, s.txns[t]).Some?
    ensures u != t && Running(s, u) && Wants(s.db, s.txns[t]).value in Grip(s, u)
  {
    var r := Wants(s.db, s.txns[t]).value;
    if r in s.holder && s.holder[r] != t {
      u := s.holder[r];
      HolderRuns(lockId, s, r);
      HeldIff(s, u, r);
    } else {
      u :| u in s.txns && u != t && r in s.txns[u].shared;
      assert TxnOk(lockId, s, u);
    }
  }

  /** Two transactions never hold the same lock, unless both share it. */
  lemma GripsApart(lockId: Mvid -> int, s: System)
    requires Inv(lockId, s) && 0 in s.txns && 1 in s.txns && s.txns[1].job.Forgetting?
    ensures Grip(s, 0) !! Grip(s, 1)
  {
    WorkerSharesNothing(lockId, s, 1);
    assert Exclusive(s, 0);
  }

  /** In a deadlock of two, neither has ended and each waits for what the other holds. */
  lemma EachWaitsForTheOther(lockId: Mvid -> int, s: System)
    requires Inv(lockId, s) && Deadlocked(s) && forall t :: t in s.txns ==> t == 0 || t == 1
    ensures Running(s, 0) && Running(s, 1)
    ensures Wants(s.db, s.txns[0]).Some? && Wants(s.db, s.txns[0]).value in Grip(s, 1)
    ensures Wants(s.db, s.txns[1]).Some? && Wants(s.db, s.txns[1]).value in Grip(s, 0)
  {
    var t :| Running(s, t);
    var u := WaitsForGrip(lockId, s, t);
    var v := WaitsForGrip(lockId, s, u);
    assert t == 0 || t == 1;
  }

  lemma DeadlockCrosses(lockId: Mvid -> int, db: Tables, s: System, c: CandidateId, admin: int, targets: seq<Target>)
    requires PairOk(lockId, db, s, c, admin, targets) && Deadlocked(s)
    ensures Crossing(AllAsks(lockId, db, Approving(c, admin)), LocksOf(lockId, db, targets))
  {
    EachWaitsForTheOther(lockId, s);
    assert forall t :: t in s.txns ==> t == 0 || t == 1;
    GripsApart(lockId, s);
    HeadIsWanted(lockId, s, 0);
    HeadIsWanted(lockId, s, 1);
    assert HoldsPrefix(lockId, db, s, 0) && HoldsPrefix(lockId, db, s, 1);
    PrefixesCross(AllAsks(lockId, db, Approving(c, admin)), LocksOf(lockId, db, targets),
                  Ask(lockId, db, s.txns[0]), Ask(lockId, db, s.txns[1]), Grip(s, 0), Grip(s, 1));
  }

  /** Two lists of which disjoint beginnings are held, each next element by the other. */
  lemma PrefixesCross(a: seq<Resource>, w: seq<Resource>, x: seq<Resource>, y: seq<Resource>,
                      grip0: set<Resource>, grip1: set<Resource>)
    requires Passed(a, x, grip0) && Passed(w, y, grip1) && grip0 !! grip1 && x != [] && y != []
    requires x[0] in grip1 && y[0] in grip0
    ensures Crossing(a, w)
  {
    var p, q := |a| - |x|, |w| - |y|;
    assert a[p] == x[0] && w[q] == y[0];
    assert CrossesAt(a, w, p, q) by {
      forall r | r in a[..p] ensures r !in w[..q] {
        assert r in grip0 && r !in grip1;
      }
    }
  }

  /**
   One approval and one worker, with nobody else writing, can deadlock exactly when their lists cross:
   the advisory locks, the candidate's row and the rows that the checks come to, against the locks
   and rows of the targets.
   */
  lemma PairDeadlockIff(lockId: Mvid -> int, s: System, c: CandidateId, admin: int, targets: seq<Target>)
    requires Initial(s) && Elements(targets) <= s.db.requests
    ensures (exists acts :: PairRun(acts, c, admin, targets) && Deadlocked(Run(lockId, s, acts))) <==>
            Crossing(AllAsks(lockId, s.db, Approving(c, admin)), LocksOf(lockId, s.db, targets))
  {
    var a, w := AllAsks(lockId, s.db, Approving(c, admin)), LocksOf(lockId, s.db, targets);
    if acts :| PairRun(acts, c, admin, targets) && Deadlocked(Run(lockId, s, acts)) {
      InitialIsSafe(lockId, s);
      PairKeeps(lockId, s.db, s, acts, c, admin, targets);
      DeadlockCrosses(lockId, s.db, Run(lockId, s, acts), c, admin, targets);
    }
    if Crossing(a, w) {
      var p: nat, q: nat :| CrossesAt(a, w, p, q);
      var acts := CrossingDeadlocks(lockId, s, c, admin, targets, p, q);
    }
  }
}
