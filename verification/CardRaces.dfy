/**
 Approvals, rejections and forget cascades as concurrent transactions that wait for locks.

 An approval takes its source locks in ascending lock-id order, then the candidate's row, and then,
 source by source, a share lock on the version row and one on its message row.  A forget worker
 handles several requests in one transaction: for each in turn it takes the locks of the versions
 that the request resolves to, then writes the message rows and then the version rows.  All locks are
 held until the transaction ends.  `lockId` may map different versions to one id.  Other
 transactions may at any time record a forget request (which takes none of these locks), add a
 candidate, add messages and versions, or change rows that nobody has locked.
 */
module CardRaces {
  import opened Prelude
  import opened CardApproval

  type TxnId = nat

  datatype Resource =
    | Advisory(id: int)
    | RowOf(candidate: CandidateId)
    | MessageRow(message: MessageId)
    | VersionRow(mvid: Mvid)

  datatype Job =
    | Approving(c: CandidateId, admin: int)
    | Rejecting(c: CandidateId, admin: int, reason: Option<string>)
    | Forgetting(targets: seq<Target>)

  /** What a worker does for one target, in this order. */
  datatype Kind = Locks | Messages | Versions

  datatype Stage = Stage(kind: Kind, target: Target)

  /**
   `Sharing` and `Joining` are inside the re-validation of source `k`: the statement has begun, `hit`
   says that it found a tombstone, and it asks for the version row, then for the message row.
   */
  datatype Pc =
    | Start
    | Locking(todo: seq<Resource>, later: seq<Stage>)
    | WantRow
    | Relocking(todo: seq<Resource>)
    | Checking(k: nat)
    | Sharing(k: nat, hit: bool)
    | Joining(k: nat, hit: bool)
    | Ready
    | Ended(outcome: Outcome)

  /** `plan` are an approval's sources; `shared` are the rows it has share-locked. */
  datatype Txn = Txn(job: Job, plan: seq<Mvid>, shared: set<Resource>, pc: Pc)

  /** `holder` are the exclusive locks. */
  datatype System = System(db: Tables, txns: map<TxnId, Txn>, holder: map<Resource, TxnId>)

  datatype Action =
    | Begin(t: TxnId, job: Job)
    | Go(t: TxnId)
    | Abort(t: TxnId)
    | RequestForget(target: Target)
    | OtherWrites(messages: map<MessageId, Message>, versions: map<Mvid, Version>)
    | NewCandidate(c: CandidateId, candidate: Candidate)

  // ------------------------------------------------------------------ what a worker asks for

  function StagesOf(targets: seq<Target>): seq<Stage> {
    if targets == [] then []
    else
      [Stage(Locks, targets[0]), Stage(Messages, targets[0]), Stage(Versions, targets[0])] + StagesOf(targets[1..])
  }

  /** A set in some order: rows are found in the order of a scan. */
  ghost function Listed(s: set<nat>): (r: seq<nat>)
    ensures forall x :: x in r <==> x in s
  {
    if s == {} then []
    else
      var x :| x in s;
      [x] + Listed(s - {x})
  }

  function Advisories(ids: seq<int>): (r: seq<Resource>)
    ensures |r| == |ids| && forall i :: 0 <= i < |ids| ==> r[i] == Advisory(ids[i])
  {
    seq(|ids|, i requires 0 <= i < |ids| => Advisory(ids[i]))
  }

  /** The locks that a stage asks for, given what its statement finds. */
  ghost function Rows(lockId: Mvid -> int, db: Tables, stage: Stage): seq<Resource> {
    match stage.kind
    case Locks => Advisories(LockIds(lockId, Listed(Resolved(db, stage.target))))
    case Messages =>
      var gs := Listed(WrittenMessages(db, stage.target));
      seq(|gs|, i requires 0 <= i < |gs| => MessageRow(gs[i]))
    case Versions =>
      var ms := Listed(WrittenVersions(db, stage.target));
      seq(|ms|, i requires 0 <= i < |ms| => VersionRow(ms[i]))
  }

  // ------------------------------------------------------------------ waiting

  /** The lock the next statement waits for, if it waits for one. */
  function Wants(db: Tables, x: Txn): Option<Resource> {
    match x.pc
    case Locking(todo, _) => if todo == [] then None else Some(todo[0])
    case Relocking(todo) => if todo == [] then None else Some(todo[0])
    case WantRow => if x.job.Forgetting? then None else Some(RowOf(x.job.c))
    case Sharing(k, _) => if k < |x.plan| then Some(VersionRow(x.plan[k])) else None
    case Joining(k, _) =>
      if k < |x.plan| && x.plan[k] in db.versions then Some(MessageRow(db.versions[x.plan[k]].message)) else None
    case _ => None
  }

  predicate WantsShare(x: Txn) {
    x.pc.Sharing? || x.pc.Joining?
  }

  ghost predicate SharedByOthers(s: System, t: TxnId, r: Resource) {
    exists u :: u in s.txns && u != t && r in s.txns[u].shared
  }

  ghost predicate Available(s: System, t: TxnId, r: Resource, share: bool) {
    (r !in s.holder || s.holder[r] == t) && (share || !SharedByOthers(s, t, r))
  }

  ghost predicate CanStep(s: System, t: TxnId) {
    && t in s.txns && !s.txns[t].pc.Ended?
    && (Wants(s.db, s.txns[t]).Some? ==>
          Available(s, t, Wants(s.db, s.txns[t]).value, WantsShare(s.txns[t])))
  }

  // ------------------------------------------------------------------ the steps

  function Release(holder: map<Resource, TxnId>, t: TxnId): map<Resource, TxnId> {
    map r | r in holder && holder[r] != t :: holder[r]
  }

  function End(s: System, t: TxnId, db: Tables, outcome: Outcome): System
    requires t in s.txns
  {
    System(db, s.txns[t := s.txns[t].(shared := {}, pc := Ended(outcome))], Release(s.holder, t))
  }

  function Becomes(s: System, t: TxnId, x: Txn): System {
    s.(txns := s.txns[t := x])
  }

  function At(s: System, t: TxnId, pc: Pc): System
    requires t in s.txns
  {
    Becomes(s, t, s.txns[t].(pc := pc))
  }

  function Taking(s: System, t: TxnId, r: Resource): System {
    s.(holder := s.holder[r := t])
  }

  /** A step moves one transaction and lets it keep its job. */
  predicate OnlyMoves(s: System, n: System, t: TxnId) {
    t in s.txns && t in n.txns && n.txns[t].job == s.txns[t].job && n.txns == s.txns[t := n.txns[t]]
  }

  function StartStep(lockId: Mvid -> int, s: System, t: TxnId): (n: System)
    requires t in s.txns
    ensures OnlyMoves(s, n, t) && n.db == s.db
  {
    var x := s.txns[t];
    match x.job
    case Approving(c, _) =>
      // The plain read that only fills the set of lock keys.
      if c !in s.db.candidates then End(s, t, s.db, NotFound)
      else if s.db.candidates[c].sources == [] then End(s, t, s.db, EmptySources)
      else
        var plan := s.db.candidates[c].sources;
        Becomes(s, t, x.(plan := plan, pc := Locking(Advisories(LockIds(lockId, plan)), [])))
    case Rejecting(_, _, _) => At(s, t, WantRow)
    case Forgetting(targets) => At(s, t, Locking([], StagesOf(targets)))
  }

  ghost function LockStep(lockId: Mvid -> int, s: System, t: TxnId): (n: System)
    requires t in s.txns && (s.txns[t].pc.Locking? || s.txns[t].pc.Relocking?)
    ensures OnlyMoves(s, n, t) && n.db == s.db
  {
    match s.txns[t].pc
    case Locking(todo, later) =>
      if todo != [] then At(Taking(s, t, todo[0]), t, Locking(todo[1..], later))
      else if later != [] then At(s, t, Locking(Rows(lockId, s.db, later[0]), later[1..]))
      else At(s, t, if s.txns[t].job.Forgetting? then Ready else WantRow)
    case Relocking(todo) =>
      if todo == [] then At(s, t, Checking(0))
      else At(Taking(s, t, todo[0]), t, Relocking(todo[1..]))
  }

  /** The locking read of the candidate row. */
  function RowStep(lockId: Mvid -> int, s: System, t: TxnId): (n: System)
    requires t in s.txns && !s.txns[t].job.Forgetting?
    ensures OnlyMoves(s, n, t) && n.db == s.db
  {
    var x := s.txns[t];
    var c := x.job.c;
    if c !in s.db.candidates then End(s, t, s.db, NotFound)
    else
      var held := Taking(s, t, RowOf(c));
      var cand := s.db.candidates[c];
      if !cand.status.Pending? then End(held, t, s.db, AlreadyDecided)
      else if x.job.Rejecting? then At(held, t, Ready)
      else if cand.sources == [] then End(held, t, s.db, EmptySources)
      else if !(Elements(cand.sources) <= Elements(x.plan)) then
        var ids := LockIds(lockId, WithoutRepeats(x.plan + cand.sources));
        Becomes(held, t, x.(plan := cand.sources, pc := Relocking(Advisories(ids))))
      else Becomes(held, t, x.(plan := cand.sources, pc := Checking(0)))
  }

  /** The statement that re-validates a source begins: it sees the tombstones of this moment. */
  function CheckStep(s: System, t: TxnId): (n: System)
    requires t in s.txns && s.txns[t].pc.Checking?
    ensures OnlyMoves(s, n, t) && n.db == s.db
  {
    var k, ms := s.txns[t].pc.k, s.txns[t].plan;
    if k >= |ms| then At(s, t, Ready)
    else if !Present(s.db, ms[k]) then End(s, t, s.db, Blocked(SourceMissing, ms[k]))
    else At(s, t, Sharing(k, Tombstoned(s.db, ms[k])))
  }

  /** The share lock on the version row. */
  function ShareStep(s: System, t: TxnId): (n: System)
    requires t in s.txns && s.txns[t].pc.Sharing? && s.txns[t].pc.k < |s.txns[t].plan|
    ensures OnlyMoves(s, n, t) && n.db == s.db
  {
    var x := s.txns[t];
    Becomes(s, t, x.(shared := x.shared + {VersionRow(x.plan[x.pc.k])}, pc := Joining(x.pc.k, x.pc.hit)))
  }

  /** The share lock on the message row; both rows are then read as they stand. */
  function JoinStep(s: System, t: TxnId): (n: System)
    requires t in s.txns && s.txns[t].pc.Joining? && s.txns[t].pc.k < |s.txns[t].plan|
    ensures OnlyMoves(s, n, t) && n.db == s.db
  {
    var x := s.txns[t];
    var m := x.plan[x.pc.k];
    var reason := ReasonGiven(s.db, m, x.pc.hit);
    if reason.Some? then End(s, t, s.db, Blocked(reason.value, m))
    else
      Becomes(s, t, x.(shared := x.shared + {MessageRow(s.db.versions[m].message)}, pc := Checking(x.pc.k + 1)))
  }

  ghost predicate Unlinks(db: Tables, targets: seq<Target>, m: Mvid) {
    exists target :: target in targets && m in Resolved(db, target)
  }

  /** What a worker's cascades write: the rows it has locked, and the versions its targets resolve to. */
  ghost function CascadeOf(s: System, t: TxnId): Cascade
    requires t in s.txns && s.txns[t].job.Forgetting?
  {
    var targets := s.txns[t].job.targets;
    var gs := set g | g in s.db.messages && MessageRow(g) in s.holder && s.holder[MessageRow(g)] == t;
    var ms := set m | m in s.db.versions && VersionRow(m) in s.holder && s.holder[VersionRow(m)] == t;
    var gone := set m | m in s.db.versions && Unlinks(s.db, targets, m);
    Cascade(gs, ms, gone, Elements(targets))
  }

  ghost function CommitStep(s: System, t: TxnId): (n: System)
    requires t in s.txns
    ensures OnlyMoves(s, n, t)
  {
    match s.txns[t].job
    case Approving(c, admin) =>
      if c !in s.db.candidates then End(s, t, s.db, NotFound)
      else if !DistinctMvids(s.db.candidates[c].sources) then End(s, t, s.db, DuplicateSource)
      else End(s, t, ApproveWrites(s.db, c, admin), ApprovedAs(|s.db.cards|))
    case Rejecting(c, admin, reason) =>
      if c !in s.db.candidates then End(s, t, s.db, NotFound)
      else End(s, t, RejectWrites(s.db, c, admin, reason), RejectedNow)
    case Forgetting(_) => End(s, t, ForgetWrites(s.db, CascadeOf(s, t)), Forgotten)
  }

  ghost function GoStep(lockId: Mvid -> int, s: System, t: TxnId): (n: System)
    ensures t in s.txns ==> OnlyMoves(s, n, t)
    ensures n.db != s.db ==> t in s.txns && s.txns[t].pc.Ready?
  {
    if !CanStep(s, t) then s
    else
      match s.txns[t].pc
      case Start => StartStep(lockId, s, t)
      case Locking(_, _) => LockStep(lockId, s, t)
      case Relocking(_) => LockStep(lockId, s, t)
      case WantRow => if s.txns[t].job.Forgetting? then s else RowStep(lockId, s, t)
      case Checking(_) => CheckStep(s, t)
      case Sharing(k, _) => if k < |s.txns[t].plan| then ShareStep(s, t) else s
      case Joining(k, _) => if k < |s.txns[t].plan| then JoinStep(s, t) else s
      case Ready => CommitStep(s, t)
  }

  // ------------------------------------------------------------------ everybody else

  ghost predicate Free(s: System, r: Resource) {
    r !in s.holder && forall u :: u in s.txns ==> r !in s.txns[u].shared
  }

  /** What never changes about a message, and that an edit moves on to a version not seen before. */
  predicate MessageExtends(db: Tables, g: MessageId, next: Message)
    requires g in db.messages
  {
    && next.user == db.messages[g].user
    && (db.messages[g].isRedacted ==> next.isRedacted)
    && (next.current == db.messages[g].current || (next.current.Some? && next.current.value !in db.versions))
  }

  predicate VersionExtends(db: Tables, m: Mvid, next: Version)
    requires m in db.versions
  {
    && next.message == db.versions[m].message && next.hash == db.versions[m].hash
    && (db.versions[m].isRedacted ==> next.isRedacted)
  }

  /** Foreign keys: a version's message, and a message's current version. */
  predicate Linked(messages: map<MessageId, Message>, versions: map<Mvid, Version>) {
    && (forall m :: m in versions ==> versions[m].message in messages)
    && (forall g :: g in messages && messages[g].current.Some? ==> messages[g].current.value in versions)
  }

  predicate RowsExtend(db: Tables, messages: map<MessageId, Message>, versions: map<Mvid, Version>) {
    && (forall g :: g in db.messages ==> g in messages && MessageExtends(db, g, messages[g]))
    && (forall m :: m in db.versions ==> m in versions && VersionExtends(db, m, versions[m]))
    && Linked(messages, versions)
  }

  /** Other writers lock the rows that they change; a new version comes with a change of its message. */
  ghost predicate MayWrite(s: System, messages: map<MessageId, Message>, versions: map<Mvid, Version>) {
    && RowsExtend(s.db, messages, versions)
    && (forall g :: g in s.db.messages && messages[g] != s.db.messages[g] ==> Free(s, MessageRow(g)))
    && (forall m :: m in s.db.versions && versions[m] != s.db.versions[m] ==> Free(s, VersionRow(m)))
    && (forall m :: m in versions && m !in s.db.versions ==>
          Free(s, VersionRow(m)) && Free(s, MessageRow(versions[m].message)))
  }

  ghost function Step(lockId: Mvid -> int, s: System, a: Action): System {
    match a
    case Begin(t, job) =>
      // A cascade works on requests that are already recorded.
      if t in s.txns || (job.Forgetting? && !(Elements(job.targets) <= s.db.requests)) then s
      else s.(txns := s.txns[t := Txn(job, [], {}, Start)])
    case Go(t) => GoStep(lockId, s, t)
    case Abort(t) =>
      if t !in s.txns || s.txns[t].pc.Ended? then s else End(s, t, s.db, RolledBack)
    case RequestForget(target) =>
      // One asks for a message to be forgotten by replying to it, so it is on record.
      if target.OneMessage? && target.message !in s.db.messages then s
      else s.(db := s.db.(requests := s.db.requests + {target}))
    case OtherWrites(messages, versions) =>
      if !MayWrite(s, messages, versions) then s
      else s.(db := s.db.(messages := messages, versions := versions))
    case NewCandidate(c, cand) =>
      if c in s.db.candidates || !cand.status.Pending? then s
      else s.(db := s.db.(candidates := s.db.candidates[c := cand]))
  }

  ghost function Run(lockId: Mvid -> int, s: System, acts: seq<Action>): System
    decreases |acts|
  {
    if acts == [] then s else Run(lockId, Step(lockId, s, acts[0]), acts[1..])
  }

  lemma {:induction false} RunConcat(lockId: Mvid -> int, s: System, a: seq<Action>, b: seq<Action>)
    ensures Run(lockId, s, a + b) == Run(lockId, Run(lockId, s, a), b)
    decreases |a|
  {
    if a == [] {
      assert a + b == b;
    } else {
      assert (a + b)[0] == a[0] && (a + b)[1..] == a[1..] + b;
      RunConcat(lockId, Step(lockId, s, a[0]), a[1..], b);
    }
  }

  lemma RunOne(lockId: Mvid -> int, s: System, a: Action)
    ensures Run(lockId, s, [a]) == Step(lockId, s, a)
  {
    assert [a][1..] == [];
  }

  lemma RunThen(lockId: Mvid -> int, s: System, a: Action, rest: seq<Action>)
    ensures Run(lockId, s, [a] + rest) == Run(lockId, Step(lockId, s, a), rest)
  {
    assert ([a] + rest)[1..] == rest;
  }

  lemma GoThen(lockId: Mvid -> int, s: System, t: TxnId, rest: seq<Action>)
    ensures Run(lockId, s, [Go(t)] + rest) == Run(lockId, GoStep(lockId, s, t), rest)
  {
    assert ([Go(t)] + rest)[1..] == rest;
  }

  lemma GoMovesOnlyItself(lockId: Mvid -> int, s: System, t: TxnId, u: TxnId)
    requires u != t && u in s.txns
    ensures u in GoStep(lockId, s, t).txns && GoStep(lockId, s, t).txns[u] == s.txns[u]
  {
  }

  lemma NoNewTxn(lockId: Mvid -> int, s: System, t: TxnId)
    ensures GoStep(lockId, s, t).txns.Keys == s.txns.Keys
  {
  }

  // ------------------------------------------------------------------ what no step undoes

  /** How tables develop: requests and rows stay, governance only tightens, source lists are fixed. */
  ghost predicate Extends(db: Tables, next: Tables) {
    && RowsExtend(db, next.messages, next.versions)
    && db.requests <= next.requests && db.forgotten <= next.forgotten
    && forall c :: c in db.candidates ==>
         c in next.candidates && next.candidates[c].sources == db.candidates[c].sources
  }

  predicate LinkedRows(db: Tables) {
    Linked(db.messages, db.versions)
  }

  lemma CoversStays(db: Tables, next: Tables, target: Target, m: Mvid)
    requires Extends(db, next) && Present(db, m)
    ensures Present(next, m) && (Covers(next, target, m) <==> Covers(db, target, m))
  {
  }

  lemma TombstonedStays(db: Tables, next: Tables, m: Mvid)
    requires Extends(db, next) && Tombstoned(db, m)
    ensures Tombstoned(next, m)
  {
  }

  // ------------------------------------------------------------------ the invariant

  ghost predicate Holds(s: System, t: TxnId, r: Resource) {
    r in s.holder && s.holder[r] == t
  }

  ghost predicate HoldsAll(lockId: Mvid -> int, s: System, t: TxnId, ms: seq<Mvid>) {
    forall m :: m in ms ==> Holds(s, t, Advisory(lockId(m)))
  }

  /** The check of `m` has begun without finding a tombstone, or is over. */
  predicate Begun(x: Txn, m: Mvid) {
    x.job.Approving? &&
    match x.pc
    case Checking(k) => k <= |x.plan| && m in x.plan[..k]
    case Sharing(k, hit) => k < |x.plan| && (m in x.plan[..k] || (!hit && m == x.plan[k]))
    case Joining(k, hit) => k < |x.plan| && (m in x.plan[..k] || (!hit && m == x.plan[k]))
    case Ready => m in x.plan
    case _ => false
  }

  /** The check of `m` is over. */
  predicate Validated(x: Txn, m: Mvid) {
    x.job.Approving? &&
    match x.pc
    case Checking(k) => k <= |x.plan| && m in x.plan[..k]
    case Sharing(k, _) => k < |x.plan| && m in x.plan[..k]
    case Joining(k, _) => k < |x.plan| && m in x.plan[..k]
    case Ready => m in x.plan
    case _ => false
  }

  /** The sources read before locking are the candidate's sources: they never change. */
  ghost predicate PlanOk(db: Tables, x: Txn) {
    match x.job
    case Approving(c, _) => c in db.candidates && db.candidates[c].sources == x.plan && x.plan != []
    case Rejecting(_, _, _) => true
    case Forgetting(_) => true
  }

  ghost predicate RowHeld(s: System, t: TxnId) {
    t in s.txns && !s.txns[t].job.Forgetting? &&
    var c := s.txns[t].job.c;
    Holds(s, t, RowOf(c)) && c in s.db.candidates && s.db.candidates[c].status.Pending?
  }

  /** A validated source is clean, share-locked, and in no finished cascade. */
  ghost predicate GoodSource(db: Tables, x: Txn, m: Mvid) {
    && Clean(db, m) && VersionRow(m) in x.shared && MessageRow(db.versions[m].message) in x.shared
    && forall target :: target in db.forgotten ==> !Covers(db, target, m)
  }

  /** A source whose check is under way: a cascade that has finished meanwhile redacted its message. */
  ghost predicate PendingSource(db: Tables, m: Mvid) {
    && Present(db, m)
    && forall target :: target in db.forgotten && Covers(db, target, m) ==>
         target.OneMessage? && db.messages[db.versions[m].message].isRedacted
  }

  /** The row is that of a planned source, or that of its message. */
  ghost predicate SharesFor(db: Tables, plan: seq<Mvid>, r: Resource) {
    exists m :: m in plan && Present(db, m) && (r == VersionRow(m) || r == MessageRow(db.versions[m].message))
  }

  ghost predicate SourcesOk(db: Tables, x: Txn) {
    && (forall m :: Validated(x, m) ==> GoodSource(db, x, m))
    && (forall m :: Begun(x, m) ==> PendingSource(db, m))
    && (forall r :: r in x.shared ==> SharesFor(db, x.plan, r))
    && (x.pc.Sharing? || x.pc.Joining? ==>
          x.pc.k < |x.plan| && Present(db, x.plan[x.pc.k]) && (x.pc.hit ==> Tombstoned(db, x.plan[x.pc.k])))
    && (x.pc.Joining? ==> VersionRow(x.plan[x.pc.k]) in x.shared)
  }

  predicate LockingUp(todo: seq<Resource>) {
    && (forall i :: 0 <= i < |todo| ==> todo[i].Advisory?)
    && forall i, j :: 0 <= i < j < |todo| ==> todo[i].id <= todo[j].id
  }

  ghost predicate InHand(s: System, t: TxnId, r: Resource) {
    t in s.txns && (Holds(s, t, r) || (s.txns[t].pc.Locking? && r in s.txns[t].pc.todo))
  }

  ghost predicate ApprovalOk(lockId: Mvid -> int, s: System, t: TxnId)
    requires t in s.txns && s.txns[t].job.Approving?
  {
    var x := s.txns[t];
    match x.pc
    case Locking(todo, later) =>
      && PlanOk(s.db, x) && later == [] && LockingUp(todo)
      && (forall m :: m in x.plan ==> InHand(s, t, Advisory(lockId(m))))
      && (forall i, j :: Holds(s, t, Advisory(i)) && 0 <= j < |todo| ==> i <= todo[j].id)
    case WantRow => PlanOk(s.db, x) && HoldsAll(lockId, s, t, x.plan)
    case Relocking(_) => false
    case Start => true
    case Ended(_) => true
    case _ =>
      && PlanOk(s.db, x) && HoldsAll(lockId, s, t, x.plan) && RowHeld(s, t) && SourcesOk(s.db, x)
      && (x.pc.Checking? ==> x.pc.k <= |x.plan|)
  }

  /** Where a worker stands: the stages before `later` are done, but for the locks in `todo`. */
  predicate WorkerOk(x: Txn)
    requires x.job.Forgetting?
  {
    match x.pc
    case Start => true
    case Locking(todo, later) => Suffix(later, StagesOf(x.job.targets)) && forall r :: r in todo ==> !r.RowOf?
    case Ready => true
    case Ended(_) => true
    case _ => false
  }

  predicate Suffix<T(==)>(a: seq<T>, b: seq<T>) {
    |a| <= |b| && a == b[|b| - |a|..]
  }

  ghost predicate TxnOk(lockId: Mvid -> int, s: System, t: TxnId)
    requires t in s.txns
  {
    var x := s.txns[t];
    && (x.shared != {} ==> x.job.Approving? && !x.pc.Start? && !x.pc.Locking? && !x.pc.WantRow? && !x.pc.Ended?)
    && (forall r :: r in x.shared ==> r.VersionRow? || r.MessageRow?)
    && match x.job
       case Approving(_, _) => ApprovalOk(lockId, s, t)
       case Rejecting(_, _, _) =>
         (x.pc.Start? || x.pc.WantRow? || x.pc.Ready? || x.pc.Ended?) && (x.pc.Ready? ==> RowHeld(s, t))
       case Forgetting(targets) => Elements(targets) <= s.db.requests && WorkerOk(x)
  }

  /** An exclusive lock is held by a running transaction; only workers lock message and version rows. */
  ghost predicate HeldOk(s: System, r: Resource) {
    r in s.holder ==>
      && s.holder[r] in s.txns
      && var x := s.txns[s.holder[r]];
         && !x.pc.Start? && !x.pc.Ended?
         && (r.RowOf? ==> !x.job.Forgetting? && !x.pc.Locking? && !x.pc.WantRow?)
         && (r.MessageRow? || r.VersionRow? ==> x.job.Forgetting?)
  }

  /** Nobody has share-locked a row that is locked exclusively. */
  ghost predicate Exclusive(s: System, u: TxnId)
    requires u in s.txns
  {
    forall r :: r in s.txns[u].shared ==> r !in s.holder
  }

  predicate Taken(x: Txn, stage: Stage) {
    x.job.Forgetting? &&
    var stages := StagesOf(x.job.targets);
    match x.pc
    case Locking(_, later) => |later| <= |stages| && stage in stages[..|stages| - |later|]
    case Ready => stage in stages
    case _ => false
  }

  /** The lock that keeps a cascade's stage apart from the check of a source that it covers. */
  ghost predicate KeptApart(lockId: Mvid -> int, s: System, t: TxnId, stage: Stage, m: Mvid) {
    && (stage.kind.Locks? && !stage.target.OneMessage? ==> InHand(s, t, Advisory(lockId(m))))
    && (stage.kind.Messages? && stage.target.OneMessage? && m in s.db.versions ==>
          InHand(s, t, MessageRow(s.db.versions[m].message)))
  }

  ghost predicate Guarded(lockId: Mvid -> int, s: System, t: TxnId, u: TxnId)
    requires t in s.txns && u in s.txns
  {
    forall stage, m :: Taken(s.txns[t], stage) && Begun(s.txns[u], m) && Covers(s.db, stage.target, m) ==>
      KeptApart(lockId, s, t, stage, m)
  }

  function ApprovedCount(ds: seq<Decision>): nat {
    if ds == [] then 0
    else ApprovedCount(ds[..|ds| - 1]) + (if ds[|ds| - 1].action.Approved? then 1 else 0)
  }

  /** Not the current version of its message. */
  predicate Superseded(db: Tables, m: Mvid) {
    Present(db, m) && db.messages[db.versions[m].message].current != Some(m)
  }

  /** A citation that a finished cascade covers is one that it could not see: of a superseded version. */
  ghost predicate CitationOk(db: Tables, m: Mvid) {
    && Present(db, m)
    && forall target :: target in db.forgotten && Covers(db, target, m) ==> target.OneMessage? && Superseded(db, m)
  }

  /**
   The tables agree: one decision per decided candidate, one card per approval, a card is
   archived exactly when it has no source left, and citations are of rows that exist.
   */
  ghost predicate TablesOk(db: Tables) {
    && (forall i, j :: 0 <= i < j < |db.decisions| ==> db.decisions[i].candidate != db.decisions[j].candidate)
    && (forall i :: 0 <= i < |db.decisions| ==>
          var d := db.decisions[i];
          d.candidate in db.candidates && !d.action.Pending? && db.candidates[d.candidate].status == d.action)
    && |db.cards| == ApprovedCount(db.decisions)
    && (forall r :: r in db.cardSources ==> r.card < |db.cards| && CitationOk(db, r.mvid))
    && (forall i :: 0 <= i < |db.cards| ==> (db.cards[i].archived <==> !Cites(db.cardSources, i)))
    && db.forgotten <= db.requests
    && (forall g :: OneMessage(g) in db.requests ==> g in db.messages)
    && LinkedRows(db)
  }

  ghost predicate Inv(lockId: Mvid -> int, s: System) {
    && (forall t :: t in s.txns ==> TxnOk(lockId, s, t) && Exclusive(s, t))
    && (forall r :: HeldOk(s, r))
    && (forall t, u :: t in s.txns && u in s.txns ==> Guarded(lockId, s, t, u))
    && TablesOk(s.db)
  }
}
