/**
 Concurrent joins, leaves and vouches. A join reads membership, then takes the user's row (by the
 upsert) and looks the application up, and at last writes and commits; a vouch tests, then swaps.
 */
module AdmissionRuns {
  import opened Prelude
  import opened Admission

  type TxnId = nat

  datatype Join = Began(user: UserId, wasMember: bool) | Found(user: UserId, wasMember: bool, claim: Option<Claim>)

  datatype Vouching = Vouching(voucher: UserId, app: AppId)

  datatype System = System(db: Tables, joins: map<TxnId, Join>, vouches: map<TxnId, Vouching>)

  datatype Action =
    | JoinBegin(txn: TxnId, user: UserId)
    | JoinFind(txn: TxnId, found: Option<AppId>)
    | JoinFinish(txn: TxnId)
    | Leave(user: UserId)
    | VouchTest(txn: TxnId, voucher: UserId, app: AppId)
    | VouchSwap(txn: TxnId)
    | Ready(clicker: UserId, app: AppId)
    | Create(app: AppId, user: UserId, flow: Flow, createdAt: int)
    | Move(app: AppId, to: Status)
    | Demote(app: AppId)
    | PublishIntro(user: UserId)
    | CancelRefresh(app: AppId)

  /** The row of user `u` is held by a join between its lookup and its commit. */
  ghost predicate Held(s: System, u: UserId) {
    exists t :: t in s.joins && s.joins[t].Found? && s.joins[t].user == u
  }

  /** The status changes made elsewhere: by the questionnaire, the card worker and the timeout. */
  predicate MoveAllowed(x: App, to: Status) {
    || (x.status == Filling && to == Confirmed)
    || (x.status == Confirmed && to == DeliveryFailed)
    || (x.status == Confirmed && to == Pending && x.flow == Some(AdmissionFlow))
    || (x.status == Confirmed && to == Added && x.flow == Some(RefreshFlow))
    || (x.status == Pending && to == Rejected)
  }

  /** A refresh that is still being filled in; cancelling deletes it. */
  predicate Draft(x: App) {
    x.flow == Some(RefreshFlow) && x.status == Filling
  }

  function SetStatus(d: Tables, a: AppId, s: Status): Tables
    requires a in d.apps
  {
    d.(apps := d.apps[a := d.apps[a].(status := s)])
  }

  ghost predicate CanFind(s: System, admins: set<UserId>, t: TxnId, found: Option<AppId>) {
    && t in s.joins && s.joins[t].Began? && !Held(s, s.joins[t].user)
    && if s.joins[t].user in admins then found.None?
       else IsActiveApp(s.db, s.joins[t].user, s.joins[t].wasMember, found)
  }

  /** The tables after an action; a blocked or impossible action changes nothing. */
  ghost function DbStep(admins: set<UserId>, s: System, a: Action): Tables {
    match a
    case JoinFind(t, found) => if CanFind(s, admins, t, found) then Upsert(s.db, s.joins[t].user) else s.db
    case JoinFinish(t) =>
      if t in s.joins && s.joins[t].Found? then JoinResult(s.db, admins, s.joins[t].user, s.joins[t].claim) else s.db
    case Leave(u) => if Held(s, u) then s.db else SetMember(s.db, u, false)
    case VouchSwap(t) => if t in s.vouches then VouchResult(s.db, s.vouches[t].voucher, s.vouches[t].app) else s.db
    case Ready(u, x) => ReadyResult(s.db, u, x)
    case Create(x, u, flow, at) =>
      if x !in s.db.apps && u in s.db.users
      then s.db.(apps := s.db.apps[x := App(u, Some(flow), Filling, None, None, at)]) else s.db
    case Move(x, to) =>
      if x in s.db.apps && MoveAllowed(s.db.apps[x], to) then SetStatus(s.db, x, to) else s.db
    case Demote(x) => if x in s.db.invites && HasStatus(s.db, x, Pending) then SetStatus(s.db, x, PrivacyBlock) else s.db
    case PublishIntro(u) => s.db.(intros := s.db.intros + {u})
    case CancelRefresh(x) =>
      if x in s.db.apps && Draft(s.db.apps[x]) then s.db.(apps := s.db.apps - {x}) else s.db
    case _ => s.db
  }

  ghost function JoinsStep(admins: set<UserId>, s: System, a: Action): map<TxnId, Join> {
    match a
    case JoinBegin(t, u) => if t in s.joins then s.joins else s.joins[t := Began(u, Member(s.db, u))]
    case JoinFind(t, found) =>
      if !CanFind(s, admins, t, found) then s.joins
      else
        var j := s.joins[t];
        s.joins[t := Found(j.user, j.wasMember,
                           if found.Some? then Some(Claim(found.value, s.db.apps[found.value])) else None)]
    case JoinFinish(t) => if t in s.joins && s.joins[t].Found? then s.joins - {t} else s.joins
    case _ => s.joins
  }

  ghost function VouchesStep(s: System, a: Action): map<TxnId, Vouching> {
    match a
    case VouchTest(t, v, x) =>
      if t in s.vouches || VouchCheck(s.db, v, x).Some? then s.vouches else s.vouches[t := Vouching(v, x)]
    case VouchSwap(t) => s.vouches - {t}
    case _ => s.vouches
  }

  ghost function Step(admins: set<UserId>, s: System, a: Action): System {
    System(DbStep(admins, s, a), JoinsStep(admins, s, a), VouchesStep(s, a))
  }

  /** The state after `acts`. */
  ghost function Run(admins: set<UserId>, s: System, acts: seq<Action>): System {
    if acts == [] then s else Step(admins, Run(admins, s, acts[..|acts| - 1]), acts[|acts| - 1])
  }

  /** The state before the `k`-th action. */
  ghost function At(admins: set<UserId>, s: System, acts: seq<Action>, k: nat): System
    requires k <= |acts|
  {
    Run(admins, s, acts[..k])
  }

  lemma AtNext(admins: set<UserId>, s: System, acts: seq<Action>, k: nat)
    requires k < |acts|
    ensures At(admins, s, acts, k + 1) == Step(admins, At(admins, s, acts, k), acts[k])
  {
    assert acts[..k + 1][..k] == acts[..k];
  }

  // ------------------------------------------------------------------ what every step keeps

  /** No join or vouch is under way, and invites went only to applications past the vouch. */
  ghost predicate Start(s: System) {
    s.joins == map[] && s.vouches == map[] && InvitesFollowVouches(s.db) && QueuedWereAdded(s.db)
  }

  predicate BeforeVouch(x: App) {
    x.status in {Filling, Confirmed, DeliveryFailed, Pending}
  }

  ghost predicate InvitesFollowVouches(d: Tables) {
    forall a :: a in d.invites ==> a in d.apps && !BeforeVouch(d.apps[a])
  }

  ghost predicate QueuedWereAdded(d: Tables) {
    && Distinct(d.introQueue)
    && forall a :: a in d.introQueue ==> a in d.apps && d.apps[a].status == Added
  }

  ghost predicate OneHolder(s: System) {
    forall t, u :: t in s.joins && u in s.joins && t != u && s.joins[t].Found? && s.joins[u].Found? ==>
      s.joins[t].user != s.joins[u].user
  }

  /** What a lookup read is still so: only the row's holder can move a vouched application. */
  ghost predicate ClaimHolds(d: Tables, j: Join) {
    j.Found? && j.claim.Some? ==>
      var c := j.claim.value;
      && c.id in d.apps && c.row.user == j.user
      && c.row.flow != Some(RefreshFlow) && d.apps[c.id].flow == c.row.flow
      && (c.row.status == Vouched ==> d.apps[c.id] == c.row)
      && (c.row.status == Added ==> d.apps[c.id].status == Added && j.wasMember)
  }

  ghost predicate ClaimsHold(s: System) {
    forall t :: t in s.joins ==> ClaimHolds(s.db, s.joins[t])
  }

  ghost predicate Inv(s: System) {
    InvitesFollowVouches(s.db) && QueuedWereAdded(s.db) && OneHolder(s) && ClaimsHold(s)
  }

  /** How one application may change in a step that does not commit a join of its applicant. */
  ghost predicate AppMoves(x: App, y: App) {
    && y.user == x.user && y.flow == x.flow && y.createdAt == x.createdAt
    && (x.status == Vouched ==> y == x)
    && (x.status == Added ==> y.status == Added)
    && (!BeforeVouch(x) ==> !BeforeVouch(y))
  }

  ghost predicate AppsMove(d: Tables, n: Tables) {
    forall x :: x in d.apps ==> if x in n.apps then AppMoves(d.apps[x], n.apps[x]) else Draft(d.apps[x])
  }

  lemma StepMovesApps(admins: set<UserId>, s: System, a: Action)
    requires InvitesFollowVouches(s.db) && !a.JoinFinish?
    ensures AppsMove(s.db, DbStep(admins, s, a))
    ensures InvitesFollowVouches(DbStep(admins, s, a))
    ensures DbStep(admins, s, a).introQueue == s.db.introQueue
  {
  }

  lemma FoundClaimHolds(admins: set<UserId>, s: System, t: TxnId, found: Option<AppId>)
    requires CanFind(s, admins, t, found)
    ensures ClaimHolds(s.db, JoinsStep(admins, s, JoinFind(t, found))[t])
  {
  }

  lemma OtherStepKeepsJoins(admins: set<UserId>, s: System, a: Action)
    requires Inv(s) && !a.JoinFinish?
    ensures OneHolder(Step(admins, s, a)) && ClaimsHold(Step(admins, s, a))
  {
    var n := Step(admins, s, a);
    StepMovesApps(admins, s, a);
    forall t | t in n.joins ensures ClaimHolds(n.db, n.joins[t]) {
      if a.JoinFind? && a.txn == t && CanFind(s, admins, t, a.found) {
        FoundClaimHolds(admins, s, t, a.found);
        assert n.db.apps == s.db.apps;
      } else if n.joins[t].Found? {
        assert t in s.joins && n.joins[t] == s.joins[t] && ClaimHolds(s.db, s.joins[t]);
      }
    }
    if a.JoinFind? && CanFind(s, admins, a.txn, a.found) {
      assert forall t :: t in s.joins && s.joins[t].Found? ==> s.joins[t].user != s.joins[a.txn].user;
    }
  }

  // ------------------------------------------------------------------ the commit of a join

  ghost predicate Commits(s: System, a: Action) {
    a.JoinFinish? && a.txn in s.joins && s.joins[a.txn].Found?
  }

  /** The claim is of a vouched application, bound to the joiner. */
  predicate FreshClaim(admins: set<UserId>, j: Join) {
    && j.Found? && j.user !in admins && j.claim.Some?
    && RefusalOf(RowOf(j.claim), j.user).None? && j.claim.value.row.status == Vouched
  }

  /** The swap of a vouched application is never lost: nobody else can move it meanwhile. */
  lemma CommitCases(admins: set<UserId>, s: System, a: Action)
    requires ClaimsHold(s) && Commits(s, a)
    ensures var j, d := s.joins[a.txn], DbStep(admins, s, a);
            if FreshClaim(admins, j) then
              var x := j.claim.value.id;
              && HasStatus(s.db, x, Vouched)
              && d == Admit(SetStatus(s.db, x, Added), j.user, Some(x))
            else
              d == SetMember(s.db, j.user,
                             j.user in admins || RefusalOf(RowOf(j.claim), j.user).None?)
  {
    assert ClaimHolds(s.db, s.joins[a.txn]);
  }

  lemma CommitKeeps(admins: set<UserId>, s: System, a: Action)
    requires Inv(s) && Commits(s, a)
    ensures Inv(Step(admins, s, a))
  {
    var n, j := Step(admins, s, a), s.joins[a.txn];
    CommitCases(admins, s, a);
    if FreshClaim(admins, j) {
      var x := j.claim.value.id;
      assert ClaimHolds(s.db, j);
      assert x !in s.db.introQueue;
      assert n.db.apps == s.db.apps[x := s.db.apps[x].(status := Added)];
      forall t | t in n.joins ensures ClaimHolds(n.db, n.joins[t]) {
        assert t in s.joins && n.joins[t] == s.joins[t] && ClaimHolds(s.db, s.joins[t]);
        if n.joins[t].Found? {
          assert s.joins[t].user != j.user;
        }
      }
    } else {
      forall t | t in n.joins ensures ClaimHolds(n.db, n.joins[t]) {
        assert ClaimHolds(s.db, s.joins[t]);
      }
    }
  }

  lemma StepKeeps(admins: set<UserId>, s: System, a: Action)
    requires Inv(s)
    ensures Inv(Step(admins, s, a))
  {
    if Commits(s, a) {
      CommitKeeps(admins, s, a);
    } else if a.JoinFinish? {
      assert Step(admins, s, a) == s;
    } else {
      StepMovesApps(admins, s, a);
      OtherStepKeepsJoins(admins, s, a);
    }
  }

  lemma {:induction false} RunKeeps(admins: set<UserId>, s: System, acts: seq<Action>)
    requires Inv(s)
    ensures Inv(Run(admins, s, acts))
    decreases |acts|
  {
    if acts != [] {
      RunKeeps(admins, s, acts[..|acts| - 1]);
      StepKeeps(admins, Run(admins, s, acts[..|acts| - 1]), acts[|acts| - 1]);
    }
  }

  lemma AtKeeps(admins: set<UserId>, s: System, acts: seq<Action>, k: nat)
    requires Start(s) && k <= |acts|
    ensures Inv(At(admins, s, acts, k))
  {
    RunKeeps(admins, s, acts[..k]);
  }

  /** A demotion to `privacy_block` never matches: invited applications are no longer pending. */
  lemma DemotionNeverFires(admins: set<UserId>, s: System, acts: seq<Action>, x: AppId)
    requires Start(s)
    ensures var n := Run(admins, s, acts); DbStep(admins, n, Demote(x)) == n.db
  {
    RunKeeps(admins, s, acts);
  }

  // ------------------------------------------------------------------ whom a vouch is for

  /** A vouched application was vouched in the step, or stood so with the same binding before. */
  lemma StepBinds(admins: set<UserId>, s: System, a: Action, x: AppId)
    requires ClaimsHold(s) && HasStatus(DbStep(admins, s, a), x, Vouched)
    ensures var y := DbStep(admins, s, a).apps[x];
            || y.invite == Some(y.user)
            || (HasStatus(s.db, x, Vouched) && y == s.db.apps[x])
  {
    if Commits(s, a) {
      CommitCases(admins, s, a);
    }
  }

  /** In every run each application that becomes vouched is bound to its own user. */
  lemma {:induction false} VouchedIsBound(admins: set<UserId>, s: System, acts: seq<Action>, x: AppId)
    requires Start(s) && HasStatus(Run(admins, s, acts).db, x, Vouched)
    ensures var y := Run(admins, s, acts).db.apps[x];
            y.invite == Some(y.user) || (HasStatus(s.db, x, Vouched) && y == s.db.apps[x])
    decreases |acts|
  {
    if acts != [] {
      var before := acts[..|acts| - 1];
      RunKeeps(admins, s, before);
      StepBinds(admins, Run(admins, s, before), acts[|acts| - 1], x);
      if HasStatus(Run(admins, s, before).db, x, Vouched) {
        VouchedIsBound(admins, s, before, x);
      }
    }
  }

  // ------------------------------------------------------------------ who becomes a member, and why

  /** In step `k`, user `u`, no administrator, becomes a member. */
  ghost predicate Enters(admins: set<UserId>, s: System, acts: seq<Action>, k: nat, u: UserId)
    requires k < |acts|
  {
    u !in admins && !Member(At(admins, s, acts, k).db, u) && Member(At(admins, s, acts, k + 1).db, u)
  }

  /** Step `k` moves `x`, an application of `u` bound to `u`, from vouched to added. */
  ghost predicate Uses(admins: set<UserId>, s: System, acts: seq<Action>, k: nat, u: UserId, x: AppId)
    requires k < |acts|
  {
    var d, n := At(admins, s, acts, k).db, At(admins, s, acts, k + 1).db;
    && HasStatus(d, x, Vouched) && HasStatus(n, x, Added)
    && d.apps[x].user == u && d.apps[x].invite == Some(u)
  }

  lemma OnlyCommitsAdmit(admins: set<UserId>, s: System, a: Action, u: UserId)
    requires !Member(s.db, u) && Member(DbStep(admins, s, a), u)
    ensures Commits(s, a)
  {
  }

  /**
   Whoever enters does so by committing a join, and the entry uses up a vouched application of
   their own exactly when it was not let in on a past admission by an outdated membership read.
   */
  lemma EntryIff(admins: set<UserId>, s: System, acts: seq<Action>, k: nat, u: UserId)
    requires Start(s) && k < |acts| && Enters(admins, s, acts, k, u)
    ensures Commits(At(admins, s, acts, k), acts[k])
    ensures var j := At(admins, s, acts, k).joins[acts[k].txn];
            && j.user == u && j.claim.Some?
            && ((exists x :: Uses(admins, s, acts, k, u, x)) <==>
                !(j.wasMember && j.claim.value.row.status == Added))
  {
    var b := At(admins, s, acts, k);
    AtNext(admins, s, acts, k);
    AtKeeps(admins, s, acts, k);
    OnlyCommitsAdmit(admins, b, acts[k], u);
    CommitCases(admins, b, acts[k]);
    var j := b.joins[acts[k].txn];
    assert ClaimHolds(b.db, j);
    if FreshClaim(admins, j) {
      assert Uses(admins, s, acts, k, u, j.claim.value.id);
    }
  }

  /** Every lookup directly follows its own transaction's membership read. */
  ghost predicate JoinsReadFresh(admins: set<UserId>, s: System, acts: seq<Action>) {
    forall k: nat :: k < |acts| && acts[k].JoinFind? ==>
      && k > 0 && acts[k - 1].JoinBegin? && acts[k - 1].txn == acts[k].txn
      && acts[k].txn !in At(admins, s, acts, k - 1).joins
  }

  ghost predicate ReadIsFresh(d: Tables, j: Join) {
    j.Found? && j.wasMember ==> Member(d, j.user)
  }

  ghost predicate ReadsAreFresh(s: System) {
    forall t :: t in s.joins ==> ReadIsFresh(s.db, s.joins[t])
  }

  lemma StepReadsFresh(admins: set<UserId>, s: System, a: Action)
    requires Inv(s) && ReadsAreFresh(s)
    requires a.JoinFind? ==>
               a.txn in s.joins && s.joins[a.txn].Began? && s.joins[a.txn].wasMember == Member(s.db, s.joins[a.txn].user)
    ensures ReadsAreFresh(Step(admins, s, a))
  {
    var n := Step(admins, s, a);
    if Commits(s, a) {
      CommitCases(admins, s, a);
    }
    forall t | t in n.joins && n.joins[t].Found? ensures ReadIsFresh(n.db, n.joins[t]) {
      if a.JoinFind? && a.txn == t && CanFind(s, admins, t, a.found) {
      } else {
        assert n.joins[t] == s.joins[t] && ReadIsFresh(s.db, s.joins[t]);
        if Commits(s, a) {
          assert s.joins[a.txn].user != s.joins[t].user;
        } else if a.Leave? && !Held(s, a.user) {
          assert s.joins[t].user != a.user;
        }
      }
    }
  }

  /** The lookup of a join that reads membership right before it. */
  lemma FindFollowsBegin(admins: set<UserId>, s: System, acts: seq<Action>, k: nat)
    requires JoinsReadFresh(admins, s, acts) && k < |acts| && acts[k].JoinFind?
    ensures var b, t := At(admins, s, acts, k), acts[k].txn;
            t in b.joins && b.joins[t].Began? && b.joins[t].wasMember == Member(b.db, b.joins[t].user)
  {
    AtNext(admins, s, acts, k - 1);
  }

  lemma {:induction false} RunReadsFresh(admins: set<UserId>, s: System, acts: seq<Action>, k: nat)
    requires Start(s) && JoinsReadFresh(admins, s, acts) && k <= |acts|
    ensures ReadsAreFresh(At(admins, s, acts, k))
    decreases k
  {
    if k > 0 {
      RunReadsFresh(admins, s, acts, k - 1);
      AtKeeps(admins, s, acts, k - 1);
      AtNext(admins, s, acts, k - 1);
      if acts[k - 1].JoinFind? {
        FindFollowsBegin(admins, s, acts, k - 1);
      }
      StepReadsFresh(admins, At(admins, s, acts, k - 1), acts[k - 1]);
    }
  }

  /** When each join reads membership right before its lookup, every entry uses up an application. */
  lemma EveryEntryUsesAnApplication(admins: set<UserId>, s: System, acts: seq<Action>, k: nat, u: UserId)
    requires Start(s) && k < |acts| && Enters(admins, s, acts, k, u)
    requires JoinsReadFresh(admins, s, acts)
    ensures exists x :: Uses(admins, s, acts, k, u, x)
  {
    EntryIff(admins, s, acts, k, u);
    RunReadsFresh(admins, s, acts, k);
    var b := At(admins, s, acts, k);
    assert ReadIsFresh(b.db, b.joins[acts[k].txn]);
  }

  /** A join of `u` whose membership read is overtaken by a leave. */
  function OvertakenJoin(t: TxnId, u: UserId, x: AppId): seq<Action> {
    [JoinBegin(t, u), Leave(u), JoinFind(t, Some(x)), JoinFinish(t)]
  }

  /** Otherwise not: whoever is a member on a past admission can leave and be let in on it again. */
  lemma OutdatedReadReadmits(admins: set<UserId>, s: System, t: TxnId, u: UserId, x: AppId)
    requires Start(s) && u !in admins && Member(s.db, u) && IsActiveApp(s.db, u, true, Some(x))
    requires s.db.apps[x].status == Added && s.db.apps[x].invite == Some(u)
    ensures var acts := OvertakenJoin(t, u, x);
            Enters(admins, s, acts, 3, u) && !exists y :: Uses(admins, s, acts, 3, u, y)
  {
    var acts := OvertakenJoin(t, u, x);
    var left := SetMember(s.db, u, false);
    var s1 := System(s.db, map[t := Began(u, true)], map[]);
    var s2 := System(left, map[t := Began(u, true)], map[]);
    var s3 := System(left, map[t := Found(u, true, Some(Claim(x, s.db.apps[x])))], map[]);
    AtNext(admins, s, acts, 0);
    assert At(admins, s, acts, 1) == s1;
    AtNext(admins, s, acts, 1);
    LeaveWhileReading(admins, s1, u);
    AtNext(admins, s, acts, 2);
    FindAfterLeave(admins, s2, t, u, x);
    assert At(admins, s, acts, 3) == s3;
    AtNext(admins, s, acts, 3);
    assert DbStep(admins, s3, JoinFinish(t)) == Admit(left, u, None);
    assert forall y :: !Uses(admins, s, acts, 3, u, y);
  }

  lemma LeaveWhileReading(admins: set<UserId>, s: System, u: UserId)
    requires forall t :: t in s.joins ==> s.joins[t].Began?
    ensures Step(admins, s, Leave(u)) == System(SetMember(s.db, u, false), s.joins, s.vouches)
  {
  }

  lemma FindAfterLeave(admins: set<UserId>, s: System, t: TxnId, u: UserId, x: AppId)
    requires s.joins == map[t := Began(u, true)] && u !in admins && u in s.db.users
    requires IsActiveApp(s.db, u, true, Some(x))
    ensures Step(admins, s, JoinFind(t, Some(x))) ==
            System(s.db, map[t := Found(u, true, Some(Claim(x, s.db.apps[x])))], s.vouches)
  {
    assert CanFind(s, admins, t, Some(x));
    assert Upsert(s.db, u) == s.db;
  }

  // ------------------------------------------------------------------ the same, told by the schedule

  /** The row of a user is held: nobody else changes their membership. */
  lemma HeldMemberStays(admins: set<UserId>, s: System, a: Action, t: TxnId)
    requires Inv(s) && t in s.joins && s.joins[t].Found? && a != JoinFinish(t)
    ensures var n := Step(admins, s, a);
            && t in n.joins && n.joins[t] == s.joins[t]
            && (Member(n.db, s.joins[t].user) <==> Member(s.db, s.joins[t].user))
  {
    if Commits(s, a) {
      CommitCases(admins, s, a);
      assert s.joins[a.txn].user != s.joins[t].user;
    }
  }

  /** The steps of a join before its commit: the membership read `b`, and the lookup `f`. */
  ghost predicate JoinSteps(admins: set<UserId>, s: System, acts: seq<Action>, k: nat, t: TxnId, b: nat, f: nat)
    requires k <= |acts| && t in At(admins, s, acts, k).joins
  {
    var j := At(admins, s, acts, k).joins[t];
    && b < k && acts[b] == JoinBegin(t, j.user) && j.wasMember == Member(At(admins, s, acts, b).db, j.user)
    && (j.Found? ==>
          && b < f < k
          && acts[f] == JoinFind(t, if j.claim.Some? then Some(j.claim.value.id) else None)
          && (Member(At(admins, s, acts, k).db, j.user) <==> Member(At(admins, s, acts, f).db, j.user))
          && (j.claim.Some? ==>
                j.claim.value.id in At(admins, s, acts, f).db.apps
                && At(admins, s, acts, f).db.apps[j.claim.value.id] == j.claim.value.row))
  }

  /** The history of a join grows with the run, except that its lookup is written down when made. */
  lemma JoinHistoryNext(admins: set<UserId>, s: System, acts: seq<Action>, k: nat, t: TxnId, b: nat, f: nat)
    returns (found: nat)
    requires Start(s) && k < |acts| && t in At(admins, s, acts, k).joins && t in At(admins, s, acts, k + 1).joins
    requires At(admins, s, acts, k + 1) == Step(admins, At(admins, s, acts, k), acts[k]) && Inv(At(admins, s, acts, k))
    requires JoinSteps(admins, s, acts, k, t, b, f)
    ensures JoinSteps(admins, s, acts, k + 1, t, b, found)
  {
    var before, a := At(admins, s, acts, k), acts[k];
    found := k;
    if before.joins[t].Found? {
      found := f;
      HeldMemberStays(admins, before, a, t);
    } else if At(admins, s, acts, k + 1).joins[t].Found? {
      assert a.JoinFind? && a.txn == t && CanFind(before, admins, t, a.found);
    }
  }

  lemma {:induction false} JoinHistory(admins: set<UserId>, s: System, acts: seq<Action>, k: nat, t: TxnId)
    returns (b: nat, f: nat)
    requires Start(s) && k <= |acts| && t in At(admins, s, acts, k).joins
    ensures JoinSteps(admins, s, acts, k, t, b, f)
    decreases k
  {
    var before, a := At(admins, s, acts, k - 1), acts[k - 1];
    AtNext(admins, s, acts, k - 1);
    AtKeeps(admins, s, acts, k - 1);
    b, f := k - 1, k - 1;
    if t in before.joins {
      var b0, f0 := JoinHistory(admins, s, acts, k - 1, t);
      b := b0;
      f := JoinHistoryNext(admins, s, acts, k - 1, t, b0, f0);
    }
  }

  /**
   An entry by a join that read membership in step `b` and looked up application `x` in step `f`
   uses up an application exactly unless the user was a member at the read, had left by the
   lookup, and `x` was then a past admission.
   */
  lemma EntryBySchedule(admins: set<UserId>, s: System, acts: seq<Action>, k: nat, u: UserId)
    returns (t: TxnId, b: nat, f: nat, x: AppId)
    requires Start(s) && k < |acts| && Enters(admins, s, acts, k, u)
    ensures b < f < k && acts[b] == JoinBegin(t, u) && acts[f] == JoinFind(t, Some(x)) && acts[k] == JoinFinish(t)
    ensures (exists y :: Uses(admins, s, acts, k, u, y)) <==>
            !(&& Member(At(admins, s, acts, b).db, u) && !Member(At(admins, s, acts, f).db, u)
              && HasStatus(At(admins, s, acts, f).db, x, Added))
  {
    EntryIff(admins, s, acts, k, u);
    t := acts[k].txn;
    x := At(admins, s, acts, k).joins[t].claim.value.id;
    b, f := JoinHistory(admins, s, acts, k, t);
  }

  // ------------------------------------------------------------------ an application is used once

  lemma {:induction false} AddedForever(admins: set<UserId>, s: System, acts: seq<Action>, i: nat, k: nat, x: AppId)
    requires Start(s) && i <= k <= |acts| && HasStatus(At(admins, s, acts, i).db, x, Added)
    ensures HasStatus(At(admins, s, acts, k).db, x, Added)
    decreases k
  {
    if i < k {
      AddedForever(admins, s, acts, i, k - 1, x);
      AtKeeps(admins, s, acts, k - 1);
      AtNext(admins, s, acts, k - 1);
      var b := At(admins, s, acts, k - 1);
      if Commits(b, acts[k - 1]) {
        CommitCases(admins, b, acts[k - 1]);
      } else if !acts[k - 1].JoinFinish? {
        StepMovesApps(admins, b, acts[k - 1]);
      }
    }
  }

  /** Two entries, of the same or of different users, never use the same application. */
  lemma UsedOnce(admins: set<UserId>, s: System, acts: seq<Action>, i: nat, k: nat, u: UserId, v: UserId, x: AppId, y: AppId)
    requires Start(s) && i < k < |acts| && Uses(admins, s, acts, i, u, x) && Uses(admins, s, acts, k, v, y)
    ensures x != y
  {
    AddedForever(admins, s, acts, i + 1, k, x);
  }

  /** The introduction effect is queued only by such an entry, so at most once per application. */
  lemma QueuedOnUse(admins: set<UserId>, s: System, acts: seq<Action>, k: nat)
    requires Start(s) && k < |acts|
    ensures var q, r := At(admins, s, acts, k).db.introQueue, At(admins, s, acts, k + 1).db.introQueue;
            Distinct(r) && (r != q ==>
              exists u, x :: Uses(admins, s, acts, k, u, x) && x !in q && r == q + [x]
                             && u !in At(admins, s, acts, k).db.intros)
  {
    var b := At(admins, s, acts, k);
    AtNext(admins, s, acts, k);
    AtKeeps(admins, s, acts, k);
    AtKeeps(admins, s, acts, k + 1);
    if Commits(b, acts[k]) {
      CommitCases(admins, b, acts[k]);
      var j := b.joins[acts[k].txn];
      assert ClaimHolds(b.db, j);
      if FreshClaim(admins, j) {
        assert Uses(admins, s, acts, k, j.user, j.claim.value.id);
      }
    } else if !acts[k].JoinFinish? {
      StepMovesApps(admins, b, acts[k]);
    }
  }

  // ------------------------------------------------------------------ who vouched

  /** Step `i` passed the vouch tests: `v` is then a member and not the applicant. */
  ghost predicate TestedAt(admins: set<UserId>, s: System, acts: seq<Action>, i: nat, w: Vouching, t: TxnId) {
    && i < |acts| && acts[i] == VouchTest(t, w.voucher, w.app)
    && VouchCheck(At(admins, s, acts, i).db, w.voucher, w.app).None?
  }

  ghost predicate HasTest(admins: set<UserId>, s: System, acts: seq<Action>, w: Vouching, t: TxnId) {
    exists i: nat :: TestedAt(admins, s, acts, i, w, t)
  }

  /** Step `k` swaps `x` from pending to vouched, for `v`, whose test came before. */
  ghost predicate VouchedAt(admins: set<UserId>, s: System, acts: seq<Action>, k: nat, x: AppId, v: UserId) {
    && k < |acts| && acts[k].VouchSwap?
    && HasStatus(At(admins, s, acts, k).db, x, Pending)
    && exists i: nat :: TestedAt(admins, s, acts, i, Vouching(v, x), acts[k].txn) && i < k
  }

  predicate PastVouch(d: Tables, x: AppId) {
    HasStatus(d, x, Vouched) || HasStatus(d, x, PrivacyBlock)
  }

  /** Where an application past the vouch got its voucher from: the start, or a vouch in this run. */
  ghost predicate HasOrigin(admins: set<UserId>, s: System, acts: seq<Action>, d: Tables, x: AppId) {
    || PastVouch(s.db, x)
    || (x in d.apps && d.apps[x].vouchedBy.Some? && d.apps[x].vouchedBy.value != d.apps[x].user
        && exists k: nat :: VouchedAt(admins, s, acts, k, x, d.apps[x].vouchedBy.value))
  }

  ghost predicate Origins(admins: set<UserId>, s: System, acts: seq<Action>) {
    var n := Run(admins, s, acts);
    && (forall t :: t in n.vouches ==>
         && n.vouches[t].app in n.db.apps && n.db.apps[n.vouches[t].app].user != n.vouches[t].voucher
         && n.db.apps[n.vouches[t].app].flow == Some(AdmissionFlow)
         && HasTest(admins, s, acts, n.vouches[t], t))
    && forall x :: PastVouch(n.db, x) ==> HasOrigin(admins, s, acts, n.db, x)
  }

  lemma LongerRunSame(admins: set<UserId>, s: System, acts: seq<Action>, a: Action)
    ensures forall k: nat :: k <= |acts| ==> At(admins, s, acts + [a], k) == At(admins, s, acts, k)
    ensures Run(admins, s, acts + [a]) == Step(admins, Run(admins, s, acts), a)
  {
    forall k: nat | k <= |acts| ensures At(admins, s, acts + [a], k) == At(admins, s, acts, k) {
      assert (acts + [a])[..k] == acts[..k];
    }
    assert (acts + [a])[..|acts|] == acts;
  }

  lemma TestStays(admins: set<UserId>, s: System, acts: seq<Action>, a: Action, i: nat, w: Vouching, t: TxnId)
    requires TestedAt(admins, s, acts, i, w, t)
    ensures TestedAt(admins, s, acts + [a], i, w, t)
  {
    LongerRunSame(admins, s, acts, a);
    assert At(admins, s, acts + [a], i) == At(admins, s, acts, i);
  }

  lemma VouchStays(admins: set<UserId>, s: System, acts: seq<Action>, a: Action, k: nat, x: AppId, v: UserId)
    requires VouchedAt(admins, s, acts, k, x, v)
    ensures VouchedAt(admins, s, acts + [a], k, x, v)
  {
    LongerRunSame(admins, s, acts, a);
    assert At(admins, s, acts + [a], k) == At(admins, s, acts, k);
    var i: nat :| TestedAt(admins, s, acts, i, Vouching(v, x), acts[k].txn) && i < k;
    TestStays(admins, s, acts, a, i, Vouching(v, x), acts[k].txn);
  }

  /** An application past the vouch was so before, with the same voucher, or was just swapped. */
  lemma StepOrigin(admins: set<UserId>, s: System, a: Action, x: AppId)
    requires Inv(s) && PastVouch(DbStep(admins, s, a), x)
    ensures var n := DbStep(admins, s, a);
            || (PastVouch(s.db, x) && n.apps[x].vouchedBy == s.db.apps[x].vouchedBy && n.apps[x].user == s.db.apps[x].user)
            || (a.VouchSwap? && a.txn in s.vouches && s.vouches[a.txn].app == x && HasStatus(s.db, x, Pending)
                && n.apps[x].vouchedBy == Some(s.vouches[a.txn].voucher) && n.apps[x].user == s.db.apps[x].user)
  {
    if Commits(s, a) {
      CommitCases(admins, s, a);
    }
  }

  lemma UsersStay(admins: set<UserId>, s: System, a: Action, x: AppId)
    requires Inv(s) && x in s.db.apps && s.db.apps[x].flow != Some(RefreshFlow)
    ensures x in DbStep(admins, s, a).apps && DbStep(admins, s, a).apps[x].user == s.db.apps[x].user
    ensures DbStep(admins, s, a).apps[x].flow == s.db.apps[x].flow
  {
    if Commits(s, a) {
      CommitCases(admins, s, a);
    } else if !a.JoinFinish? {
      StepMovesApps(admins, s, a);
    }
  }

  /** A vouch under way was so before, or has just passed the tests. */
  lemma VouchCases(s: System, a: Action, t: TxnId)
    requires t in VouchesStep(s, a)
    ensures var w := VouchesStep(s, a)[t];
            || (t in s.vouches && w == s.vouches[t])
            || (a == VouchTest(t, w.voucher, w.app) && VouchCheck(s.db, w.voucher, w.app).None?)
  {
  }

  lemma VouchHasTest(admins: set<UserId>, s: System, acts: seq<Action>, a: Action, b: System, t: TxnId, w: Vouching)
    requires b == Run(admins, s, acts)
    requires || (t in b.vouches && w == b.vouches[t] && HasTest(admins, s, acts, w, t))
             || (a == VouchTest(t, w.voucher, w.app) && VouchCheck(b.db, w.voucher, w.app).None?)
    ensures HasTest(admins, s, acts + [a], w, t)
  {
    if HasTest(admins, s, acts, w, t) {
      var i: nat :| TestedAt(admins, s, acts, i, w, t);
      TestStays(admins, s, acts, a, i, w, t);
    } else {
      NewTest(admins, s, acts, a, w, t);
    }
  }

  lemma VouchesKeepTests(admins: set<UserId>, s: System, acts: seq<Action>, a: Action, b: System, t: TxnId)
    requires Start(s) && Origins(admins, s, acts) && b == Run(admins, s, acts) && Inv(b) && t in VouchesStep(b, a)
    ensures var d, w := DbStep(admins, b, a), VouchesStep(b, a)[t];
            && w.app in d.apps && d.apps[w.app].user != w.voucher
            && d.apps[w.app].flow == Some(AdmissionFlow)
            && HasTest(admins, s, acts + [a], w, t)
  {
    var w := VouchesStep(b, a)[t];
    VouchCases(b, a, t);
    UsersStay(admins, b, a, w.app);
    VouchHasTest(admins, s, acts, a, b, t, w);
  }

  lemma NewTest(admins: set<UserId>, s: System, acts: seq<Action>, a: Action, w: Vouching, t: TxnId)
    requires a == VouchTest(t, w.voucher, w.app) && VouchCheck(Run(admins, s, acts).db, w.voucher, w.app).None?
    ensures TestedAt(admins, s, acts + [a], |acts|, w, t)
  {
    assert (acts + [a])[..|acts|] == acts;
  }

  lemma OriginExtends(admins: set<UserId>, s: System, acts: seq<Action>, a: Action, d: Tables, n: Tables, x: AppId)
    requires HasOrigin(admins, s, acts, d, x) && x in d.apps && x in n.apps
    requires n.apps[x].vouchedBy == d.apps[x].vouchedBy && n.apps[x].user == d.apps[x].user
    ensures HasOrigin(admins, s, acts + [a], n, x)
  {
    if !PastVouch(s.db, x) {
      var k: nat :| VouchedAt(admins, s, acts, k, x, d.apps[x].vouchedBy.value);
      VouchStays(admins, s, acts, a, k, x, d.apps[x].vouchedBy.value);
    }
  }

  lemma OriginStays(admins: set<UserId>, s: System, acts: seq<Action>, a: Action, b: System, n: Tables, x: AppId)
    requires b == Run(admins, s, acts) && Inv(b)
    requires PastVouch(b.db, x) ==> HasOrigin(admins, s, acts, b.db, x)
    requires a.VouchSwap? && a.txn in b.vouches ==>
               HasTest(admins, s, acts, b.vouches[a.txn], a.txn)
               && (b.vouches[a.txn].app in b.db.apps ==> b.db.apps[b.vouches[a.txn].app].user != b.vouches[a.txn].voucher)
    requires n == DbStep(admins, b, a) && PastVouch(n, x)
    ensures HasOrigin(admins, s, acts + [a], n, x)
  {
    StepOrigin(admins, b, a, x);
    if PastVouch(b.db, x) {
      OriginExtends(admins, s, acts, a, b.db, n, x);
    } else {
      SwapIsVouch(admins, s, acts, a, b, x);
    }
  }

  lemma SwapIsVouch(admins: set<UserId>, s: System, acts: seq<Action>, a: Action, b: System, x: AppId)
    requires b == Run(admins, s, acts) && a.VouchSwap? && a.txn in b.vouches
    requires HasTest(admins, s, acts, b.vouches[a.txn], a.txn)
    requires b.vouches[a.txn].app == x && HasStatus(b.db, x, Pending)
    ensures VouchedAt(admins, s, acts + [a], |acts|, x, b.vouches[a.txn].voucher)
  {
    var w := b.vouches[a.txn];
    var i: nat :| TestedAt(admins, s, acts, i, w, a.txn);
    TestStays(admins, s, acts, a, i, w, a.txn);
    assert (acts + [a])[..|acts|] == acts;
  }

  lemma {:induction false} RunOrigins(admins: set<UserId>, s: System, acts: seq<Action>)
    requires Start(s)
    ensures Origins(admins, s, acts)
    decreases |acts|
  {
    if acts != [] {
      var before, a := acts[..|acts| - 1], acts[|acts| - 1];
      assert acts == before + [a];
      RunOrigins(admins, s, before);
      LongerRunSame(admins, s, before, a);
      RunKeeps(admins, s, before);
      forall t | t in Run(admins, s, acts).vouches
        ensures var n := Run(admins, s, acts);
                && n.vouches[t].app in n.db.apps && n.db.apps[n.vouches[t].app].user != n.vouches[t].voucher
                && n.db.apps[n.vouches[t].app].flow == Some(AdmissionFlow)
                && HasTest(admins, s, acts, n.vouches[t], t)
      {
        VouchesKeepTests(admins, s, before, a, Run(admins, s, before), t);
      }
      forall x | PastVouch(Run(admins, s, acts).db, x) ensures HasOrigin(admins, s, acts, Run(admins, s, acts).db, x) {
        OriginStays(admins, s, before, a, Run(admins, s, before), Run(admins, s, acts).db, x);
      }
    }
  }

  /**
   The application that an entry uses was vouched for in this run by someone else, who was a
   member when tested, unless it was already past the vouch when the run began.
   */
  lemma UsedWasVouched(admins: set<UserId>, s: System, acts: seq<Action>, k: nat, u: UserId, x: AppId)
    requires Start(s) && k < |acts| && Uses(admins, s, acts, k, u, x)
    ensures PastVouch(s.db, x) || exists i: nat, v :: VouchedAt(admins, s, acts[..k], i, x, v) && v != u
  {
    RunOrigins(admins, s, acts[..k]);
    var d := At(admins, s, acts, k).db;
    assert HasOrigin(admins, s, acts[..k], d, x);
    if !PastVouch(s.db, x) {
      var v := d.apps[x].vouchedBy.value;
      var i: nat :| VouchedAt(admins, s, acts[..k], i, x, v);
    }
  }

  // ------------------------------------------------------------------ the vouch log and the invites

  /** Every recorded voucher has a log row for the applicant, and every vouched application an invite. */
  ghost predicate Recorded(d: Tables) {
    forall x :: x in d.apps ==>
      && (d.apps[x].vouchedBy.Some? ==> VouchRow(d.apps[x].vouchedBy.value, d.apps[x].user, x) in d.vouchLog)
      && (d.apps[x].status == Vouched ==> x in d.invites)
  }

  lemma StepRecords(admins: set<UserId>, s: System, a: Action)
    requires Inv(s) && Recorded(s.db)
    ensures Recorded(DbStep(admins, s, a))
  {
    if Commits(s, a) {
      CommitCases(admins, s, a);
    }
  }

  lemma {:induction false} RunRecords(admins: set<UserId>, s: System, acts: seq<Action>)
    requires Start(s) && Recorded(s.db)
    ensures Recorded(Run(admins, s, acts).db)
    decreases |acts|
  {
    if acts != [] {
      var before := acts[..|acts| - 1];
      RunRecords(admins, s, before);
      RunKeeps(admins, s, before);
      StepRecords(admins, Run(admins, s, before), acts[|acts| - 1]);
    }
  }

  // ------------------------------------------------------------------ membership at the swap

  /** A voucher who leaves between the test and the swap has vouched as a former member. */
  lemma TestedVoucherMayLeave(admins: set<UserId>, s: System, t: TxnId, v: UserId, x: AppId)
    requires Start(s) && VouchCheck(s.db, v, x).None? && VouchMatches(s.db, x)
    ensures var acts := [VouchTest(t, v, x), Leave(v), VouchSwap(t)];
            && VouchedAt(admins, s, acts, 2, x, v) && !Member(At(admins, s, acts, 2).db, v)
            && HasStatus(At(admins, s, acts, 3).db, x, Vouched)
            && At(admins, s, acts, 3).db.apps[x].vouchedBy == Some(v)
  {
    var acts := [VouchTest(t, v, x), Leave(v), VouchSwap(t)];
    var s1 := System(s.db, map[], map[t := Vouching(v, x)]);
    AtNext(admins, s, acts, 0);
    assert At(admins, s, acts, 0) == s && At(admins, s, acts, 1) == s1;
    AtNext(admins, s, acts, 1);
    LeaveWhileReading(admins, s1, v);
    AtNext(admins, s, acts, 2);
    assert TestedAt(admins, s, acts, 0, Vouching(v, x), t);
  }

  /** In step `i` the voucher stops being a member. */
  ghost predicate Loses(admins: set<UserId>, s: System, acts: seq<Action>, i: nat, v: UserId)
    requires i < |acts|
  {
    Member(At(admins, s, acts, i).db, v) && !Member(At(admins, s, acts, i + 1).db, v)
  }

  lemma {:induction false} MemberUnlessLost(admins: set<UserId>, s: System, acts: seq<Action>, i: nat, k: nat, v: UserId)
    requires i <= k <= |acts| && Member(At(admins, s, acts, i).db, v)
    requires forall l: nat :: i <= l < k ==> !Loses(admins, s, acts, l, v)
    ensures Member(At(admins, s, acts, k).db, v)
    decreases k
  {
    if i < k {
      MemberUnlessLost(admins, s, acts, i, k - 1, v);
      assert !Loses(admins, s, acts, k - 1, v);
    }
  }

  /** Only a leave, or a refused join of their own, ends a membership. */
  lemma WhoLoses(admins: set<UserId>, s: System, acts: seq<Action>, i: nat, v: UserId)
    requires Start(s) && i < |acts| && Loses(admins, s, acts, i, v)
    ensures acts[i] == Leave(v) || (Commits(At(admins, s, acts, i), acts[i])
                                    && At(admins, s, acts, i).joins[acts[i].txn].user == v)
  {
    var b := At(admins, s, acts, i);
    AtNext(admins, s, acts, i);
    AtKeeps(admins, s, acts, i);
    if Commits(b, acts[i]) {
      CommitCases(admins, b, acts[i]);
    }
  }

  /** Without such a step between test and swap, the voucher is a member at the swap as well. */
  lemma VoucherIsMemberAtSwap(admins: set<UserId>, s: System, acts: seq<Action>, i: nat, k: nat, x: AppId, v: UserId)
    requires i < k < |acts| && acts[k].VouchSwap? && TestedAt(admins, s, acts, i, Vouching(v, x), acts[k].txn)
    requires forall l: nat :: i <= l < k ==> !Loses(admins, s, acts, l, v)
    ensures Member(At(admins, s, acts, k).db, v) && v != At(admins, s, acts, i).db.apps[x].user
  {
    MemberUnlessLost(admins, s, acts, i, k, v);
  }
}
