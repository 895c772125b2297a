/** Joining, leaving, vouching and the privacy retry, as the handlers do them. */
module Admission {
  import opened Prelude

  // ------------------------------------------------------------------ tables

  type UserId = nat

  type AppId = nat

  datatype Flow = AdmissionFlow | RefreshFlow

  datatype Status = Filling | Confirmed | DeliveryFailed | Pending | Vouched | PrivacyBlock | Added | Rejected

  datatype App = App(
    user: UserId, flow: Option<Flow>, status: Status,
    vouchedBy: Option<UserId>, invite: Option<UserId>, createdAt: int)

  datatype VouchRow = VouchRow(voucher: UserId, vouchee: UserId, app: AppId)

  /** `users` says who is a member; `introQueue` holds the `admission_intro` effects. */
  datatype Tables = Tables(
    users: map<UserId, bool>, apps: map<AppId, App>, intros: set<UserId>,
    introQueue: seq<AppId>, invites: seq<AppId>, vouchLog: seq<VouchRow>)

  predicate Member(d: Tables, u: UserId) {
    u in d.users && d.users[u]
  }

  /** An update that matches no row changes nothing. */
  function SetMember(d: Tables, u: UserId, m: bool): Tables {
    if u in d.users then d.(users := d.users[u := m]) else d
  }

  function Upsert(d: Tables, u: UserId): Tables {
    if u in d.users then d else d.(users := d.users[u := false])
  }

  predicate HasStatus(d: Tables, a: AppId, s: Status) {
    a in d.apps && d.apps[a].status == s
  }

  function EnqueueOnce(d: Tables, a: AppId): Tables {
    if a in d.introQueue then d else d.(introQueue := d.introQueue + [a])
  }

  // ------------------------------------------------------------------ chat events

  datatype ChatStatus = Creator | Administrator | Participant | Restricted | Left | Kicked

  predicate IsJoin(before: ChatStatus, after: ChatStatus) {
    before in {Left, Kicked, Restricted} && after in {Participant, Administrator, Creator}
  }

  predicate IsLeave(before: ChatStatus, after: ChatStatus) {
    before in {Participant, Administrator, Creator} && after in {Left, Kicked}
  }

  /** A leave undoes a join; but being restricted is no leave, and lifting it counts as a join. */
  lemma LeaveUndoesJoin(before: ChatStatus, after: ChatStatus)
    ensures IsLeave(after, before) <==> IsJoin(before, after) && before != Restricted
    ensures !(IsJoin(before, after) && IsLeave(before, after))
  {
  }

  /** Three statuses are outside the chat or in it without a say; every other one is inside. */
  predicate Inside(s: ChatStatus) {
    !s.Left? && !s.Kicked? && !s.Restricted?
  }

  /** A join leads inside from anywhere else, a leave from inside to left or kicked. */
  lemma JoinsAndLeaves(before: ChatStatus, after: ChatStatus)
    ensures IsJoin(before, after) <==> !Inside(before) && Inside(after)
    ensures IsLeave(before, after) <==> Inside(before) && !Inside(after) && !after.Restricted?
  {
  }

  // ------------------------------------------------------------------ finding the admission

  predicate Eligible(x: App, u: UserId, includeAdded: bool) {
    && x.user == u
    && (|| (x.flow == Some(AdmissionFlow)
            && (x.status in {Filling, Confirmed, Pending, PrivacyBlock, Vouched} || (includeAdded && x.status == Added)))
        || (includeAdded && x.flow.None? && x.status == Added))
  }

  /**
   Of a user's own applications these are left out: refreshes, those that failed or were rejected, and
   past admissions unless they are asked for; an application from before the flows counts as past only.
   */
  lemma EligibleIff(x: App, u: UserId, includeAdded: bool)
    ensures Eligible(x, u, includeAdded) <==>
            && x.user == u && x.flow != Some(RefreshFlow) && !x.status.DeliveryFailed? && !x.status.Rejected?
            && (x.status.Added? ==> includeAdded) && (x.flow.None? ==> x.status.Added?)
  {
    if x.flow.Some? {
      assert x.flow.value.AdmissionFlow? || x.flow.value.RefreshFlow?;
    }
  }

  /** The latest eligible application, if there is one; ties are broken arbitrarily. */
  ghost predicate IsActiveApp(d: Tables, u: UserId, includeAdded: bool, found: Option<AppId>) {
    match found
    case None => forall b :: b in d.apps ==> !Eligible(d.apps[b], u, includeAdded)
    case Some(a) =>
      && a in d.apps && Eligible(d.apps[a], u, includeAdded)
      && forall b :: b in d.apps && Eligible(d.apps[b], u, includeAdded) ==> d.apps[b].createdAt <= d.apps[a].createdAt
  }

  datatype Refusal = NoApplication | WrongStatus | WrongInvite

  function RefusalOf(x: Option<App>, u: UserId): Option<Refusal> {
    if x.None? then Some(NoApplication)
    else if x.value.status !in {Vouched, Added} then Some(WrongStatus)
    else if x.value.invite != Some(u) then Some(WrongInvite)
    else None
  }

  /** The application as the lookup read it. */
  datatype Claim = Claim(id: AppId, row: App)

  function RowOf(c: Option<Claim>): Option<App> {
    if c.Some? then Some(c.value.row) else None
  }

  // ------------------------------------------------------------------ what the last step of a join does

  function Admit(d: Tables, u: UserId, enqueue: Option<AppId>): Tables {
    var d1 := SetMember(d, u, true);
    if u in d1.intros || enqueue.None? then d1 else EnqueueOnce(d1, enqueue.value)
  }

  predicate StillAdmits(d: Tables, a: AppId, u: UserId) {
    a in d.apps && d.apps[a].status == Added && RefusalOf(Some(d.apps[a]), u).None?
  }

  function JoinResult(d: Tables, admins: set<UserId>, u: UserId, claim: Option<Claim>): Tables {
    if u in admins then SetMember(d, u, true)
    else if RefusalOf(RowOf(claim), u).Some? then SetMember(d, u, false)
    else if claim.value.row.status == Added then Admit(d, u, None)
    else
      var a := claim.value.id;
      if HasStatus(d, a, Vouched) then Admit(d.(apps := d.apps[a := d.apps[a].(status := Added)]), u, Some(a))
      else if StillAdmits(d, a, u) then Admit(d, u, None)
      else SetMember(d, u, false)
  }

  /**
   Who is let in: an administrator, and whoever's application, as it was looked up, is vouched or added
   and bound to them, and still so when a vouched one has been moved meanwhile.  Nobody else's membership
   changes, and only a vouched application is used up.
   */
  lemma JoinOutcome(d: Tables, admins: set<UserId>, u: UserId, claim: Option<Claim>)
    requires u in d.users
    ensures var n := JoinResult(d, admins, u, claim);
            var fits := claim.Some? && claim.value.row.status in {Vouched, Added} && claim.value.row.invite == Some(u);
            var usesUp := u !in admins && fits && claim.value.row.status == Vouched && HasStatus(d, claim.value.id, Vouched);
            var still := fits && (claim.value.row.status == Added
                                  || (HasStatus(d, claim.value.id, Added) && d.apps[claim.value.id].invite == Some(u)));
            && n.users.Keys == d.users.Keys && (forall v :: v in d.users && v != u ==> n.users[v] == d.users[v])
            && (Member(n, u) <==> u in admins || usesUp || still)
            && n.apps.Keys == d.apps.Keys
            && (forall b :: b in d.apps && !(usesUp && b == claim.value.id) ==> n.apps[b] == d.apps[b])
            && (usesUp ==> n.apps[claim.value.id] == d.apps[claim.value.id].(status := Added))
            && n.intros == d.intros && n.invites == d.invites && n.vouchLog == d.vouchLog
            && n.introQueue == (if usesUp && u !in d.intros && claim.value.id !in d.introQueue
                                then d.introQueue + [claim.value.id] else d.introQueue)
  {
  }

  /** A vouched application of the user, bound to them and newer than their others. */
  ghost predicate NewestVouched(d: Tables, u: UserId, a: AppId) {
    && HasStatus(d, a, Vouched) && d.apps[a].user == u
    && d.apps[a].flow == Some(AdmissionFlow) && d.apps[a].invite == Some(u)
    && forall b :: b in d.apps && b != a && d.apps[b].user == u ==> d.apps[b].createdAt < d.apps[a].createdAt
  }

  /** Whatever the lookup finds, a join then lets the user in on exactly this application. */
  lemma VouchedApplicantEnters(d: Tables, admins: set<UserId>, u: UserId, wasMember: bool, a: AppId, found: Option<AppId>)
    requires NewestVouched(d, u, a) && u !in admins && IsActiveApp(Upsert(d, u), u, wasMember, found)
    ensures found == Some(a)
    ensures var n := JoinResult(Upsert(d, u), admins, u, Some(Claim(a, d.apps[a])));
            && Member(n, u) && HasStatus(n, a, Added)
            && (a in n.introQueue <==> a in d.introQueue || u !in d.intros)
            && forall b :: b in d.apps && b != a ==> b in n.apps && n.apps[b] == d.apps[b]
  {
    assert Eligible(d.apps[a], u, wasMember);
  }

  // ------------------------------------------------------------------ vouching

  datatype Answer = AlreadyProcessed | OnlyMembers | NotYourself | NotForYou | Done

  /** Everything that is tested before the compare-and-set. */
  function VouchCheck(d: Tables, voucher: UserId, a: AppId): Option<Answer> {
    if a !in d.apps || d.apps[a].flow != Some(AdmissionFlow) then Some(AlreadyProcessed)
    else if !Member(d, voucher) then Some(OnlyMembers)
    else if voucher == d.apps[a].user then Some(NotYourself)
    else None
  }

  /** Which answer a refused vouch gets: the application is looked at first, then the voucher. */
  lemma VouchAnswers(d: Tables, voucher: UserId, a: AppId)
    ensures var r := VouchCheck(d, voucher, a);
            var open := a in d.apps && d.apps[a].flow == Some(AdmissionFlow);
            && (r == Some(AlreadyProcessed) <==> !open)
            && (r == Some(OnlyMembers) <==> open && !(voucher in d.users && d.users[voucher]))
            && (r == Some(NotYourself) <==> open && voucher in d.users && d.users[voucher] && d.apps[a].user == voucher)
            && (r == None <==> open && voucher in d.users && d.users[voucher] && d.apps[a].user != voucher)
  {
  }

  predicate VouchMatches(d: Tables, a: AppId) {
    HasStatus(d, a, Pending) && d.apps[a].flow == Some(AdmissionFlow)
  }

  function VouchResult(d: Tables, voucher: UserId, a: AppId): Tables {
    if !VouchMatches(d, a) then d
    else
      var x := d.apps[a];
      d.(apps := d.apps[a := x.(status := Vouched, vouchedBy := Some(voucher), invite := Some(x.user))],
         vouchLog := d.vouchLog + [VouchRow(voucher, x.user, a)],
         invites := d.invites + [a])
  }

  function ReadyResult(d: Tables, clicker: UserId, a: AppId): Tables {
    if !HasStatus(d, a, PrivacyBlock) || clicker != d.apps[a].user then d
    else
      var x := d.apps[a];
      d.(apps := d.apps[a := x.(status := Vouched, invite := Some(x.user))], invites := d.invites + [a])
  }

  /** The application `a` is vouched and bound to its own user; no other application has changed. */
  ghost predicate BoundAnew(d: Tables, n: Tables, a: AppId) {
    && a in d.apps && n.apps.Keys == d.apps.Keys
    && (forall b :: b in d.apps && b != a ==> n.apps[b] == d.apps[b])
    && n.users == d.users && n.intros == d.intros && n.introQueue == d.introQueue
    && |n.invites| == |d.invites| + 1 && n.invites[..|d.invites|] == d.invites && n.invites[|d.invites|] == a
    && var x, y := d.apps[a], n.apps[a];
       && y.user == x.user && y.flow == x.flow && y.createdAt == x.createdAt
       && y.status == Vouched && y.invite == Some(x.user)
  }

  /** A vouch for a pending application binds the invite to the applicant, and records who vouched for whom. */
  lemma VouchBinds(d: Tables, voucher: UserId, a: AppId)
    requires VouchCheck(d, voucher, a).None?
    ensures var n := VouchResult(d, voucher, a);
            && (!HasStatus(d, a, Pending) ==> n == d)
            && (HasStatus(d, a, Pending) ==>
                  && BoundAnew(d, n, a) && n.apps[a].vouchedBy == Some(voucher)
                  && |n.vouchLog| == |d.vouchLog| + 1 && n.vouchLog[..|d.vouchLog|] == d.vouchLog
                  && var r := n.vouchLog[|d.vouchLog|];
                     r.voucher == voucher && r.vouchee == d.apps[a].user && r.app == a && r.voucher != r.vouchee)
  {
  }

  /** The privacy retry binds the invite to the applicant again, and keeps the voucher. */
  lemma ReadyBinds(d: Tables, clicker: UserId, a: AppId)
    ensures var n := ReadyResult(d, clicker, a);
            if HasStatus(d, a, PrivacyBlock) && d.apps[a].user == clicker then
              BoundAnew(d, n, a) && n.apps[a].vouchedBy == d.apps[a].vouchedBy && n.vouchLog == d.vouchLog
            else n == d
  {
  }

  /**
   From the vouch to the door: after a vouch that is accepted, the applicant's join lets them in on
   exactly that application, if it is their newest, whatever the lookup finds.
   */
  lemma VouchedForEnters(d: Tables, admins: set<UserId>, voucher: UserId, a: AppId, wasMember: bool, found: Option<AppId>)
    requires VouchCheck(d, voucher, a).None? && HasStatus(d, a, Pending) && d.apps[a].user !in admins
    requires forall b :: b in d.apps && b != a && d.apps[b].user == d.apps[a].user ==>
               d.apps[b].createdAt < d.apps[a].createdAt
    requires var u := d.apps[a].user; IsActiveApp(Upsert(VouchResult(d, voucher, a), u), u, wasMember, found)
    ensures found == Some(a)
    ensures var u, v := d.apps[a].user, VouchResult(d, voucher, a);
            var n := JoinResult(Upsert(v, u), admins, u, Some(Claim(a, v.apps[a])));
            && Member(n, u) && HasStatus(n, a, Added) && n.apps[a].vouchedBy == Some(voucher)
            && forall b :: b in d.apps && b != a ==> b in n.apps && n.apps[b] == d.apps[b]
  {
    VouchBinds(d, voucher, a);
    VouchedApplicantEnters(VouchResult(d, voucher, a), admins, d.apps[a].user, wasMember, a, found);
  }

  // ------------------------------------------------------------------ the handlers

  class Gate {
    const admins: set<UserId>
    var users: map<UserId, bool>
    var apps: map<AppId, App>
    var intros: set<UserId>
    var introQueue: seq<AppId>
    var invites: seq<AppId>
    var vouchLog: seq<VouchRow>

    constructor (admins: set<UserId>, d: Tables)
      ensures this.admins == admins && Db() == d
    {
      this.admins := admins;
      users, apps, intros := d.users, d.apps, d.intros;
      introQueue, invites, vouchLog := d.introQueue, d.invites, d.vouchLog;
    }

    function Db(): Tables
      reads this
    {
      Tables(users, apps, intros, introQueue, invites, vouchLog)
    }

    method GetActive(u: UserId, includeAdded: bool) returns (found: Option<AppId>)
      ensures IsActiveApp(Db(), u, includeAdded, found)
    {
      var left := apps.Keys;
      found := None;
      while left != {}
        invariant left <= apps.Keys
        invariant found.Some? ==> found.value in apps && Eligible(apps[found.value], u, includeAdded)
        invariant forall b :: b in apps && b !in left && Eligible(apps[b], u, includeAdded) ==>
          found.Some? && apps[b].createdAt <= apps[found.value].createdAt
      {
        var a :| a in left;
        if Eligible(apps[a], u, includeAdded)
           && (found.None? || apps[found.value].createdAt < apps[a].createdAt) {
          found := Some(a);
        }
        left := left - {a};
      }
    }

    method UpdateStatusIf(a: AppId, expected: Status, next: Status, invite: Option<UserId>) returns (ok: bool)
      modifies this`apps
      ensures ok == HasStatus(old(Db()), a, expected)
      ensures !ok ==> apps == old(apps)
      ensures ok ==> apps == old(apps)[a := old(apps)[a].(
                       status := next, invite := if invite.Some? then invite else old(apps)[a].invite)]
    {
      ok := a in apps && apps[a].status == expected;
      if ok {
        var x := apps[a].(status := next);
        if invite.Some? {
          x := x.(invite := invite);
        }
        apps := apps[a := x];
      }
    }

    method WriteMember(u: UserId, m: bool)
      modifies this`users
      ensures Db() == SetMember(old(Db()), u, m)
    {
      if u in users {
        users := users[u := m];
      }
    }

    method BeginJoin(u: UserId) returns (wasMember: bool)
      ensures wasMember == Member(Db(), u)
    {
      wasMember := u in users && users[u];
    }

    /** The upsert, which holds the user's row from here on, and the lookup. */
    method FindAdmission(u: UserId, wasMember: bool) returns (claim: Option<Claim>)
      modifies this`users
      ensures Db() == Upsert(old(Db()), u)
      ensures u in admins ==> claim.None?
      ensures u !in admins && claim.None? ==> IsActiveApp(Db(), u, wasMember, None)
      ensures u !in admins && claim.Some? ==>
                IsActiveApp(Db(), u, wasMember, Some(claim.value.id)) && claim.value.row == apps[claim.value.id]
    {
      if u !in users {
        users := users[u := false];
      }
      claim := None;
      if u !in admins {
        var found := GetActive(u, wasMember);
        if found.Some? {
          claim := Some(Claim(found.value, apps[found.value]));
        }
      }
    }

    method FinishJoin(u: UserId, claim: Option<Claim>)
      modifies this
      ensures Db() == JoinResult(old(Db()), admins, u, claim)
    {
      if u !in admins && RefusalOf(RowOf(claim), u).Some? {
        WriteMember(u, false);
        return;
      }
      if u in admins {
        WriteMember(u, true);
        return;
      }
      var enqueue := false;
      var a := claim.value.id;
      if claim.value.row.status == Vouched {
        var added := UpdateStatusIf(a, Vouched, Added, None);
        if !added {
          if a !in apps || apps[a].status != Added || RefusalOf(Some(apps[a]), u).Some? {
            WriteMember(u, false);
            return;
          }
        } else {
          enqueue := true;
        }
      }
      WriteMember(u, true);
      if u in intros {
        return;
      }
      if enqueue && a !in introQueue {
        introQueue := introQueue + [a];
      }
    }

    method HandleLeave(u: UserId)
      modifies this`users
      ensures Db() == SetMember(old(Db()), u, false)
    {
      WriteMember(u, false);
    }

    /** A chat update when nothing runs in between. */
    method HandleChatMember(ours: bool, before: ChatStatus, after: ChatStatus, u: UserId)
        returns (claim: Option<Claim>)
      modifies this
      ensures ours && IsJoin(before, after) ==> Db() == JoinResult(Upsert(old(Db()), u), admins, u, claim)
      ensures ours && IsJoin(before, after) && u !in admins ==>
                IsActiveApp(Upsert(old(Db()), u), u, Member(old(Db()), u),
                            if claim.Some? then Some(claim.value.id) else None)
                && (claim.Some? ==> claim.value.row == old(apps)[claim.value.id])
      ensures ours && !IsJoin(before, after) && IsLeave(before, after) ==> Db() == SetMember(old(Db()), u, false)
      ensures !ours || (!IsJoin(before, after) && !IsLeave(before, after)) ==> Db() == old(Db())
    {
      claim := None;
      if !ours {
        return;
      }
      if IsJoin(before, after) {
        var wasMember := BeginJoin(u);
        claim := FindAdmission(u, wasMember);
        FinishJoin(u, claim);
      } else if IsLeave(before, after) {
        HandleLeave(u);
      }
    }

    method CheckVouch(voucher: UserId, a: AppId) returns (refused: Option<Answer>)
      ensures refused == VouchCheck(Db(), voucher, a)
    {
      if a !in apps || apps[a].flow != Some(AdmissionFlow) {
        return Some(AlreadyProcessed);
      }
      if voucher !in users || !users[voucher] {
        return Some(OnlyMembers);
      }
      if voucher == apps[a].user {
        return Some(NotYourself);
      }
      return None;
    }

    method SetVouched(voucher: UserId, a: AppId) returns (ok: bool)
      modifies this
      ensures ok == VouchMatches(old(Db()), a)
      ensures Db() == VouchResult(old(Db()), voucher, a)
    {
      ok := a in apps && apps[a].flow == Some(AdmissionFlow) && apps[a].status == Pending;
      if ok {
        var x := apps[a];
        apps := apps[a := x.(status := Vouched, vouchedBy := Some(voucher), invite := Some(x.user))];
        vouchLog := vouchLog + [VouchRow(voucher, x.user, a)];
        invites := invites + [a];
      }
    }

    method HandleVouch(voucher: UserId, a: AppId) returns (r: Answer)
      modifies this
      ensures VouchCheck(old(Db()), voucher, a).Some? ==> Some(r) == VouchCheck(old(Db()), voucher, a) && Db() == old(Db())
      ensures VouchCheck(old(Db()), voucher, a).None? ==>
                Db() == VouchResult(old(Db()), voucher, a) && (r == Done <==> VouchMatches(old(Db()), a))
      ensures r == Done ==> BoundAnew(old(Db()), Db(), a) && apps[a].vouchedBy == Some(voucher)
    {
      var refused := CheckVouch(voucher, a);
      if refused.Some? {
        return refused.value;
      }
      VouchBinds(Db(), voucher, a);
      var ok := SetVouched(voucher, a);
      return if ok then Done else AlreadyProcessed;
    }

    method HandleReady(clicker: UserId, a: AppId) returns (r: Answer)
      modifies this
      ensures Db() == ReadyResult(old(Db()), clicker, a)
      ensures r == if !HasStatus(old(Db()), a, PrivacyBlock) then AlreadyProcessed
                   else if clicker != old(apps)[a].user then NotForYou else Done
      ensures r == Done ==> BoundAnew(old(Db()), Db(), a) && apps[a].vouchedBy == old(apps)[a].vouchedBy
    {
      if a !in apps || apps[a].status != PrivacyBlock {
        return AlreadyProcessed;
      }
      if clicker != apps[a].user {
        return NotForYou;
      }
      ReadyBinds(Db(), clicker, a);
      var ok := UpdateStatusIf(a, PrivacyBlock, Vouched, Some(apps[a].user));
      if !ok {
        return AlreadyProcessed;
      }
      invites := invites + [a];
      return Done;
    }
  }
}
