/** When a worker is safe beside every approval, and what an edit can do to one that would be. */
module CardVerdict {
  import opened Prelude
  import opened CardApproval
  import opened CardRaces
  import opened CardSafety
  import opened CardEligibility
  import opened CardDeadlock
  import opened CardWorkers
  import opened CardProgress
  import opened CardPairs

  // ------------------------------------------------------------------ the first unsafe request

  ghost predicate SafeAt(lockId: Mvid -> int, db: Tables, ask: seq<Resource>, j: nat)
    requires j < |ask|
  {
    SafeNext(lockId, db, Elements(ask[..j]), ask[j])
  }

  lemma {:induction false} FirstUnsafe(lockId: Mvid -> int, db: Tables, ask: seq<Resource>, k: nat) returns (q: nat)
    requires k <= |ask| && !SafeFrom(lockId, db, Elements(ask[..k]), ask[k..])
    requires forall j :: 0 <= j < k ==> SafeAt(lockId, db, ask, j)
    ensures q < |ask| && !SafeAt(lockId, db, ask, q) && forall j :: 0 <= j < q ==> SafeAt(lockId, db, ask, j)
    decreases |ask| - k
  {
    if !SafeAt(lockId, db, ask, k) {
      q := k;
    } else {
      assert ask[..k + 1] == ask[..k] + [ask[k]];
      assert Elements(ask[..k + 1]) == Elements(ask[..k]) + {ask[k]};
      assert ask[k..][1..] == ask[k + 1..];
      q := FirstUnsafe(lockId, db, ask, k + 1);
    }
  }

  /** A version row that is safe where it stands has its advisory lock before it. */
  lemma NotBefore(lockId: Mvid -> int, db: Tables, ask: seq<Resource>, q: nat, m: Mvid)
    requires q <= |ask| && Advisory(lockId(m)) !in ask[..q]
    requires forall j :: 0 <= j < q ==> SafeAt(lockId, db, ask, j)
    ensures VersionRow(m) !in ask[..q]
  {
    forall j | 0 <= j < q ensures ask[..q][j] != VersionRow(m) {
      assert SafeAt(lockId, db, ask, j);
      forall i | 0 <= i < j ensures ask[..j][i] != Advisory(lockId(m)) {
        assert ask[..q][i] == ask[..j][i];
      }
    }
  }

  // ------------------------------------------------------------------ the shape of a worker's list

  lemma {:induction false} WorkListConcat(lockId: Mvid -> int, db: Tables, a: seq<Stage>, b: seq<Stage>)
    ensures WorkList(lockId, db, a + b) == WorkList(lockId, db, a) + WorkList(lockId, db, b)
    decreases |a|
  {
    if a == [] {
      assert a + b == b;
    } else {
      assert (a + b)[0] == a[0] && (a + b)[1..] == a[1..] + b;
      WorkListConcat(lockId, db, a[1..], b);
    }
  }

  lemma LocksSplit(lockId: Mvid -> int, db: Tables, targets: seq<Target>)
    requires targets != []
    ensures LocksOf(lockId, db, targets) == LocksOf(lockId, db, [targets[0]]) + LocksOf(lockId, db, targets[1..])
  {
    assert [targets[0]][1..] == [] && StagesOf([]) == [];
    assert StagesOf(targets) == StagesOf([targets[0]]) + StagesOf(targets[1..]);
    WorkListConcat(lockId, db, StagesOf([targets[0]]), StagesOf(targets[1..]));
  }

  /** After a message row come the rows of its versions, with no advisory lock in between. */
  ghost predicate Follows(ask: seq<Resource>, q: nat, r: nat, m: Mvid) {
    q < r < |ask| && ask[r] == VersionRow(m) && forall j :: q <= j < r ==> !ask[j].Advisory?
  }

  lemma FollowsIn(a: seq<Resource>, b: seq<Resource>, c: seq<Resource>, q: nat, i: nat, m: Mvid)
    requires |a| <= q < |a| + |b| && i < |c| && c[i] == VersionRow(m)
    requires forall r :: r in b || r in c ==> !r.Advisory?
    ensures Follows(a + (b + c), q, |a| + |b| + i, m)
  {
    var ask, r := a + (b + c), |a| + |b| + i;
    assert ask[r] == c[i];
    forall j | q <= j < r ensures !ask[j].Advisory? {
      if j < |a| + |b| {
        assert ask[j] == b[j - |a|];
      } else {
        assert ask[j] == c[j - |a| - |b|];
      }
    }
  }

  /** Where in the locks of one target a row stands. */
  lemma WhereAsked(lockId: Mvid -> int, db: Tables, target: Target, q: nat)
    returns (a: seq<Resource>, b: seq<Resource>, c: seq<Resource>)
    requires q < |LocksOf(lockId, db, [target])|
    ensures a == Rows(lockId, db, Stage(Locks, target)) && b == Rows(lockId, db, Stage(Messages, target))
    ensures c == Rows(lockId, db, Stage(Versions, target)) && LocksOf(lockId, db, [target]) == a + (b + c)
    ensures forall r :: r in b ==> r.MessageRow?
    ensures forall r :: r in c ==> r.VersionRow?
    ensures var r := LocksOf(lockId, db, [target])[q];
            && (r.MessageRow? ==> |a| <= q < |a| + |b| && r == b[q - |a|])
            && (r.VersionRow? ==> |a| + |b| <= q && r == c[q - |a| - |b|])
  {
    a, b := Rows(lockId, db, Stage(Locks, target)), Rows(lockId, db, Stage(Messages, target));
    c := Rows(lockId, db, Stage(Versions, target));
    OneTargetLocks(lockId, db, target);
    SplitIndex(a, b, c, q);
    assert forall r :: r in a ==> r.Advisory?;
  }

  lemma SplitIndex(a: seq<Resource>, b: seq<Resource>, c: seq<Resource>, q: nat)
    requires q < |a + (b + c)|
    ensures var r := (a + (b + c))[q];
            || (q < |a| && r in a)
            || (|a| <= q < |a| + |b| && r == b[q - |a|] && r in b)
            || (|a| + |b| <= q && r == c[q - |a| - |b|] && r in c)
  {
  }

  lemma OneFollows(lockId: Mvid -> int, db: Tables, target: Target, q: nat, m: Mvid) returns (r: nat)
    requires var ask := LocksOf(lockId, db, [target]);
             q < |ask| && m in db.versions && ask[q] == MessageRow(db.versions[m].message)
    ensures Follows(LocksOf(lockId, db, [target]), q, r, m)
  {
    var a, b, c := WhereAsked(lockId, db, target, q);
    RowsIff(lockId, db, Stage(Messages, target), b[q - |a|]);
    RowsIff(lockId, db, Stage(Versions, target), VersionRow(m));
    var i :| 0 <= i < |c| && c[i] == VersionRow(m);
    r := |a| + |b| + i;
    FollowsIn(a, b, c, q, i, m);
  }

  lemma {:induction false} VersionFollows(lockId: Mvid -> int, db: Tables, targets: seq<Target>, q: nat, m: Mvid)
    returns (r: nat)
    requires var ask := LocksOf(lockId, db, targets);
             q < |ask| && m in db.versions && ask[q] == MessageRow(db.versions[m].message)
    ensures Follows(LocksOf(lockId, db, targets), q, r, m)
    decreases |targets|
  {
    assert targets == [] ==> StagesOf(targets) == [];
    LocksSplit(lockId, db, targets);
    var head, rest := LocksOf(lockId, db, [targets[0]]), LocksOf(lockId, db, targets[1..]);
    if q < |head| {
      r := OneFollows(lockId, db, targets[0], q, m);
    } else {
      assert rest[q - |head|] == MessageRow(db.versions[m].message);
      var k := VersionFollows(lockId, db, targets[1..], q - |head|, m);
      r := |head| + k;
      FollowsLater(head, rest, q - |head|, k, m);
    }
  }

  lemma FollowsLater(head: seq<Resource>, rest: seq<Resource>, q: nat, r: nat, m: Mvid)
    requires Follows(rest, q, r, m)
    ensures Follows(head + rest, |head| + q, |head| + r, m)
  {
    forall j | |head| + q <= j < |head| + r ensures !(head + rest)[j].Advisory? {
      assert (head + rest)[j] == rest[j - |head|];
    }
  }

  /** Before a version's row comes that of its message. */
  lemma OnePrecedes(lockId: Mvid -> int, db: Tables, target: Target, q: nat, m: Mvid)
    requires var ask := LocksOf(lockId, db, [target]); q < |ask| && ask[q] == VersionRow(m)
    ensures m in db.versions && MessageRow(db.versions[m].message) in LocksOf(lockId, db, [target])[..q]
  {
    var a, b, c := WhereAsked(lockId, db, target, q);
    RowsIff(lockId, db, Stage(Versions, target), c[q - |a| - |b|]);
    var g := MessageRow(db.versions[m].message);
    RowsIff(lockId, db, Stage(Messages, target), g);
    InMiddle(a, b, c, q, g);
  }

  lemma InMiddle(a: seq<Resource>, b: seq<Resource>, c: seq<Resource>, q: nat, r: Resource)
    requires |a| + |b| <= q <= |a| + |b| + |c| && r in b
    ensures r in (a + (b + c))[..q]
  {
    var i :| 0 <= i < |b| && b[i] == r;
    assert (a + (b + c))[..q][|a| + i] == r;
  }

  lemma {:induction false} MessagePrecedes(lockId: Mvid -> int, db: Tables, targets: seq<Target>, q: nat, m: Mvid)
    requires var ask := LocksOf(lockId, db, targets); q < |ask| && ask[q] == VersionRow(m)
    ensures m in db.versions && MessageRow(db.versions[m].message) in LocksOf(lockId, db, targets)[..q]
    decreases |targets|
  {
    assert targets == [] ==> StagesOf(targets) == [];
    LocksSplit(lockId, db, targets);
    var head, rest := LocksOf(lockId, db, [targets[0]]), LocksOf(lockId, db, targets[1..]);
    if q < |head| {
      assert head[q] == VersionRow(m);
      OnePrecedes(lockId, db, targets[0], q, m);
      InHead(head, rest, q, MessageRow(db.versions[m].message));
    } else {
      assert rest[q - |head|] == VersionRow(m);
      MessagePrecedes(lockId, db, targets[1..], q - |head|, m);
      InTail(head, rest, q, MessageRow(db.versions[m].message));
    }
  }

  lemma InHead(head: seq<Resource>, rest: seq<Resource>, q: nat, r: Resource)
    requires q <= |head| && r in head[..q]
    ensures r in (head + rest)[..q]
  {
    assert (head + rest)[..q] == head[..q];
  }

  lemma InTail(head: seq<Resource>, rest: seq<Resource>, q: nat, r: Resource)
    requires |head| <= q <= |head| + |rest| && r in rest[..q - |head|]
    ensures r in (head + rest)[..q]
  {
    assert (head + rest)[..q] == head + rest[..q - |head|];
  }

  lemma {:induction false} NoCandidateRow(lockId: Mvid -> int, db: Tables, stages: seq<Stage>, c: CandidateId)
    ensures RowOf(c) !in WorkList(lockId, db, stages)
    decreases |stages|
  {
    if stages != [] {
      AsksNoCandidate(lockId, db, stages[0]);
      NoCandidateRow(lockId, db, stages[1..], c);
    }
  }

  lemma {:induction false} AdvisoryOfVersion(lockId: Mvid -> int, db: Tables, stages: seq<Stage>, i: int) returns (m: Mvid)
    requires Advisory(i) in WorkList(lockId, db, stages)
    ensures lockId(m) == i
    decreases |stages|
  {
    if Advisory(i) in Rows(lockId, db, stages[0]) {
      RowsIff(lockId, db, stages[0], Advisory(i));
      m :| m in Resolved(db, stages[0].target) && lockId(m) == i;
    } else {
      m := AdvisoryOfVersion(lockId, db, stages[1..], i);
    }
  }

  // ------------------------------------------------------------------ the approval that it meets

  /** A pending candidate with these sources. */
  function Proposed(ms: seq<Mvid>): Candidate {
    Candidate(Status.Pending, ms, "", "", None)
  }

  function WithProposed(db: Tables, c: CandidateId, ms: seq<Mvid>): Tables {
    db.(candidates := db.candidates[c := Proposed(ms)])
  }

  /** What approving it asks for, begin with. */
  lemma ProposedAsks(lockId: Mvid -> int, db: Tables, c: CandidateId, ms: seq<Mvid>)
    requires ms != []
    ensures AllAsks(lockId, WithProposed(db, c, ms), Approving(c, 0)) ==
            Advisories(LockIds(lockId, ms)) + ([RowOf(c)] + CheckAsk(WithProposed(db, c, ms), ms))
  {
  }

  lemma OneSourceAsks(lockId: Mvid -> int, db: Tables, c: CandidateId, m: Mvid) returns (a: seq<Resource>)
    requires Present(db, m)
    ensures a == AllAsks(lockId, WithProposed(db, c, [m]), Approving(c, 0))
    ensures |a| > 3 && a[..3] == [Advisory(lockId(m)), RowOf(c), VersionRow(m)]
    ensures a[3] == MessageRow(db.versions[m].message)
  {
    ProposedAsks(lockId, db, c, [m]);
    a := AllAsks(lockId, WithProposed(db, c, [m]), Approving(c, 0));
    assert [m][1..] == [] && LockIds(lockId, [m]) == [lockId(m)];
  }

  lemma TwoSourcesAsk(lockId: Mvid -> int, db: Tables, c: CandidateId, m: Mvid, l: Mvid) returns (a: seq<Resource>)
    requires lockId(m) < lockId(l)
    ensures a == AllAsks(lockId, WithProposed(db, c, [m, l]), Approving(c, 0))
    ensures |a| > 1 && a[..1] == [Advisory(lockId(m))] && a[1] == Advisory(lockId(l))
  {
    ProposedAsks(lockId, db, c, [m, l]);
    a := AllAsks(lockId, WithProposed(db, c, [m, l]), Approving(c, 0));
    assert [m, l][1..] == [l] && [l][1..] == [] && LockIds(lockId, [l]) == [lockId(l)];
    assert LockIds(lockId, [m, l]) == [lockId(m), lockId(l)];
  }

  /** An advisory lock out of order meets a candidate with both sources. */
  lemma DisorderCrosses(lockId: Mvid -> int, db: Tables, c: CandidateId, targets: seq<Target>, q: nat, i: int)
    returns (ms: seq<Mvid>)
    requires var w := LocksOf(lockId, db, targets);
             && q < |w| && w[q] == Advisory(i) && !SafeAt(lockId, db, w, q)
    ensures ms != []
    ensures Crossing(AllAsks(lockId, WithProposed(db, c, ms), Approving(c, 0)), LocksOf(lockId, db, targets))
  {
    var w := LocksOf(lockId, db, targets);
    var late :| Advisory(late) in Elements(w[..q]) && late > i;
    assert Advisory(i) in w && Advisory(late) in w[..q] && Advisory(late) in w;
    var m := AdvisoryOfVersion(lockId, db, StagesOf(targets), i);
    var l := AdvisoryOfVersion(lockId, db, StagesOf(targets), late);
    ms := [m, l];
    var a := TwoSourcesAsk(lockId, db, c, m, l);
    assert a[..1][0] == Advisory(i);
    assert Advisory(i) !in w[..q];
    assert CrossesAt(a, w, 1, q);
  }

  /** A version's row whose advisory lock the worker lacks meets a candidate with that source. */
  lemma RowMeets(lockId: Mvid -> int, db: Tables, c: CandidateId, w: seq<Resource>, q: nat, m: Mvid)
    requires Present(db, m) && q < |w| && w[q] == VersionRow(m) && MessageRow(db.versions[m].message) in w[..q]
    requires Advisory(lockId(m)) !in w[..q] && VersionRow(m) !in w[..q] && RowOf(c) !in w[..q]
    ensures Crossing(AllAsks(lockId, WithProposed(db, c, [m]), Approving(c, 0)), w)
  {
    var a := OneSourceAsks(lockId, db, c, m);
    assert a[..3][2] == VersionRow(m);
    assert forall r :: r in a[..3] ==> r !in w[..q];
    assert CrossesAt(a, w, 3, q);
  }

  lemma RowCrosses(lockId: Mvid -> int, db: Tables, c: CandidateId, targets: seq<Target>, q: nat, m: Mvid)
    requires Present(db, m)
    requires var w := LocksOf(lockId, db, targets);
             && q < |w| && w[q] == VersionRow(m) && MessageRow(db.versions[m].message) in w[..q]
             && Advisory(lockId(m)) !in w[..q] && VersionRow(m) !in w[..q]
    ensures Crossing(AllAsks(lockId, WithProposed(db, c, [m]), Approving(c, 0)), LocksOf(lockId, db, targets))
  {
    NoCandidateRow(lockId, db, StagesOf(targets), c);
    RowMeets(lockId, db, c, LocksOf(lockId, db, targets), q, m);
  }

  lemma {:induction false} FirstIndex(ask: seq<Resource>, from: nat, to: nat, x: Resource) returns (r: nat)
    requires from <= to < |ask| && ask[to] == x
    ensures from <= r <= to && ask[r] == x && x !in ask[from..r]
    decreases |ask| - from
  {
    if ask[from] == x {
      r := from;
    } else {
      r := FirstIndex(ask, from + 1, to, x);
      assert ask[from..r] == [ask[from]] + ask[from + 1..r];
    }
  }

  /** The first row of `m` after its message: nothing before it but what was there, and rows. */
  lemma FirstRow(w: seq<Resource>, q: nat, to: nat, m: Mvid, id: int) returns (r: nat)
    requires Follows(w, q, to, m) && Advisory(id) !in w[..q] && VersionRow(m) !in w[..q]
    ensures q <= r < |w| && w[r] == VersionRow(m) && Advisory(id) !in w[..r] && VersionRow(m) !in w[..r]
    ensures w[q] == VersionRow(m) || w[q] in w[..r]
  {
    r := FirstIndex(w, q, to, VersionRow(m));
    assert w[..r] == w[..q] + w[q..r];
    forall j | 0 <= j < r - q ensures w[q..r][j] != Advisory(id) {
      assert w[q..r][j] == w[q + j];
    }
    if r > q {
      assert w[..r][q] == w[q];
    }
  }

  lemma UncoveredCrosses(lockId: Mvid -> int, db: Tables, c: CandidateId, targets: seq<Target>, q: nat, m: Mvid)
    requires LinkedRows(db) && m in db.versions
    requires var w := LocksOf(lockId, db, targets);
             && q < |w| && w[q] == MessageRow(db.versions[m].message) && Advisory(lockId(m)) !in w[..q]
             && VersionRow(m) !in w[..q]
    ensures Crossing(AllAsks(lockId, WithProposed(db, c, [m]), Approving(c, 0)), LocksOf(lockId, db, targets))
  {
    var w := LocksOf(lockId, db, targets);
    var to := VersionFollows(lockId, db, targets, q, m);
    var r := FirstRow(w, q, to, m, lockId(m));
    RowCrosses(lockId, db, c, targets, r, m);
  }

  /** Targets that are not safe: some candidate's approval crosses them. */
  lemma UnsafeCrosses(lockId: Mvid -> int, db: Tables, c: CandidateId, targets: seq<Target>) returns (ms: seq<Mvid>)
    requires LinkedRows(db) && !SafeTargets(lockId, db, targets)
    ensures ms != []
    ensures Crossing(AllAsks(lockId, WithProposed(db, c, ms), Approving(c, 0)), LocksOf(lockId, db, targets))
  {
    var w := LocksOf(lockId, db, targets);
    assert w[..0] == [] && w[0..] == w && Elements(w[..0]) == {};
    var q := FirstUnsafe(lockId, db, w, 0);
    match w[q] {
      case Advisory(i) => ms := DisorderCrosses(lockId, db, c, targets, q, i);
      case MessageRow(g) =>
        var m :| m in db.versions && db.versions[m].message == g && Advisory(lockId(m)) !in Elements(w[..q]);
        ms := [m];
        NotBefore(lockId, db, w, q, m);
        UncoveredCrosses(lockId, db, c, targets, q, m);
      case VersionRow(m) =>
        ms := [m];
        NotBefore(lockId, db, w, q, m);
        MessagePrecedes(lockId, db, targets, q, m);
        RowCrosses(lockId, db, c, targets, q, m);
    }
  }

  // ------------------------------------------------------------------ one worker and any approvals

  /** The run's only forget worker has these targets; approvals, rejections and other steps are arbitrary. */
  ghost predicate OnlyWorker(acts: seq<Action>, targets: seq<Target>) {
    forall a :: a in acts && a.Begin? && a.job.Forgetting? ==> a == Begin(1, Forgetting(targets))
  }

  ghost predicate OnlyTxn1Forgets(s: System) {
    forall t :: t in s.txns && s.txns[t].job.Forgetting? ==> t == 1
  }

  lemma {:induction false} RunsOneWorker(lockId: Mvid -> int, s: System, acts: seq<Action>, targets: seq<Target>)
    requires OnlyTxn1Forgets(s) && OnlyWorker(acts, targets)
    ensures OnlyTxn1Forgets(Run(lockId, s, acts))
    decreases |acts|
  {
    if acts != [] {
      assert acts[0] in acts;
      StepOneWorker(lockId, s, acts[0], targets);
      RunsOneWorker(lockId, Step(lockId, s, acts[0]), acts[1..], targets);
    }
  }

  lemma StepOneWorker(lockId: Mvid -> int, s: System, a: Action, targets: seq<Target>)
    requires OnlyTxn1Forgets(s) && (a.Begin? && a.job.Forgetting? ==> a == Begin(1, Forgetting(targets)))
    ensures OnlyTxn1Forgets(Step(lockId, s, a))
  {
    if a.Go? {
      GoPairJobs(lockId, s, a.t);
    }
  }

  lemma SafeNeverDeadlocks(lockId: Mvid -> int, s: System, acts: seq<Action>, targets: seq<Target>)
    requires Initial(s) && QuietRun(acts, s.db) && OnlyWorker(acts, targets) && SafeTargets(lockId, s.db, targets)
    ensures !Deadlocked(Run(lockId, s, acts))
  {
    RunsOneWorker(lockId, s, acts, targets);
    SafeTargetsNeverDeadlock(lockId, s, acts);
  }

  /** A new candidate, and nothing else changes. */
  lemma Propose(lockId: Mvid -> int, s: System, c: CandidateId, ms: seq<Mvid>) returns (n: System)
    requires Initial(s) && c !in s.db.candidates
    ensures n == Step(lockId, s, NewCandidate(c, Proposed(ms)))
    ensures n.db == WithProposed(s.db, c, ms) && Initial(n) && SameLayout(s.db, n.db)
  {
    n := Step(lockId, s, NewCandidate(c, Proposed(ms)));
    InitialIsSafe(lockId, s);
    StepKeeps(lockId, s, NewCandidate(c, Proposed(ms)));
  }

  lemma UnsafeDeadlocks(lockId: Mvid -> int, s: System, c: CandidateId, targets: seq<Target>)
    returns (acts: seq<Action>)
    requires Initial(s) && c !in s.db.candidates && Elements(targets) <= s.db.requests
    requires !SafeTargets(lockId, s.db, targets)
    ensures QuietRun(acts, s.db) && OnlyWorker(acts, targets) && Deadlocked(Run(lockId, s, acts))
  {
    var ms := UnsafeCrosses(lockId, s.db, c, targets);
    var n := Propose(lockId, s, c, ms);
    SameWorkList(lockId, s.db, n.db, StagesOf(targets));
    var a, w := AllAsks(lockId, n.db, Approving(c, 0)), LocksOf(lockId, n.db, targets);
    var p: nat, q: nat :| CrossesAt(a, w, p, q);
    var rest := CrossingDeadlocks(lockId, n, c, 0, targets, p, q);
    acts := [NewCandidate(c, Proposed(ms))] + rest;
    PairIsQuiet(rest, c, targets, NewCandidate(c, Proposed(ms)), s.db);
    assert acts[1..] == rest;
  }

  lemma PairIsQuiet(rest: seq<Action>, c: CandidateId, targets: seq<Target>, a: Action, db: Tables)
    requires PairRun(rest, c, 0, targets) && a.NewCandidate?
    ensures QuietRun([a] + rest, db) && OnlyWorker([a] + rest, targets)
  {
  }

  /**
   While no message or version is added, a worker is safe beside every approval exactly when its
   targets are safe: advisory locks in order, and the locks taken before a message is written are
   those of all its versions.
   */
  lemma DeadlockIff(lockId: Mvid -> int, s: System, c: CandidateId, targets: seq<Target>)
    requires Initial(s) && c !in s.db.candidates && Elements(targets) <= s.db.requests
    ensures (exists acts :: QuietRun(acts, s.db) && OnlyWorker(acts, targets) && Deadlocked(Run(lockId, s, acts))) <==>
            !SafeTargets(lockId, s.db, targets)
  {
    if acts :| QuietRun(acts, s.db) && OnlyWorker(acts, targets) && Deadlocked(Run(lockId, s, acts)) {
      if SafeTargets(lockId, s.db, targets) {
        SafeNeverDeadlocks(lockId, s, acts, targets);
      }
    }
    if !SafeTargets(lockId, s.db, targets) {
      var acts := UnsafeDeadlocks(lockId, s, c, targets);
    }
  }

  /**
   One request is enough: when a message has a version whose lock is not that of the current one, the
   worker for that message can deadlock with an approval of a card that cites the version.
   */
  lemma OldVersionDeadlocks(lockId: Mvid -> int, s: System, c: CandidateId, m: Mvid) returns (acts: seq<Action>)
    requires Initial(s) && c !in s.db.candidates && m in s.db.versions
    requires var target := OneMessage(s.db.versions[m].message);
             target in s.db.requests && forall k :: k in Resolved(s.db, target) ==> lockId(k) != lockId(m)
    ensures var targets := [OneMessage(s.db.versions[m].message)];
            QuietRun(acts, s.db) && OnlyWorker(acts, targets) && Deadlocked(Run(lockId, s, acts))
  {
    var target := OneMessage(s.db.versions[m].message);
    OneTargetSafeIff(lockId, s.db, target);
    assert m in WrittenVersions(s.db, target);
    assert Elements([target]) == {target};
    acts := UnsafeDeadlocks(lockId, s, c, [target]);
  }
}
