/**
 The review of extraction candidates: the tables, what approving, rejecting and forgetting
 do to them, and the handlers that do it statement by statement.
 */
module CardApproval {
  import opened Prelude

  type Mvid = nat
  type MessageId = nat
  type CandidateId = nat

  datatype Status = Pending | Approved | Rejected

  datatype Candidate = Candidate(
    status: Status, sources: seq<Mvid>, title: string, body: string, reviewedBy: Option<int>)

  datatype Card = Card(title: string, body: string, approvedBy: int, archived: bool)

  datatype CardSource = CardSource(card: nat, mvid: Mvid, position: nat)

  datatype Decision = Decision(candidate: CandidateId, action: Status, decidedBy: int, reason: Option<string>)

  /** A chat message: its author, its current version, and what governance says of it. */
  datatype Message = Message(user: Option<int>, current: Option<Mvid>, isRedacted: bool, normalPolicy: bool)

  /** A version of a message; an edit adds one and makes it the current one. */
  datatype Version = Version(message: MessageId, hash: Option<int>, contentEligible: bool, isRedacted: bool)

  /** What a forget request is about: one message, all content with a hash, or a user. */
  datatype Target = OneMessage(message: MessageId) | OneHash(hash: int) | OneUser(user: int)

  /**
   Cards are numbered by their position; `requests` are the recorded forget requests, and
   `forgotten` those whose cascade has finished.
   */
  datatype Tables = Tables(
    candidates: map<CandidateId, Candidate>,
    cards: seq<Card>,
    cardSources: seq<CardSource>,
    decisions: seq<Decision>,
    messages: map<MessageId, Message>,
    versions: map<Mvid, Version>,
    requests: set<Target>,
    forgotten: set<Target>)

  datatype Reason =
    | SourceMissing | TombstoneMatch | SourceNotCurrent | ControlMessage | SourceRedacted | PolicyNotNormal

  datatype Outcome =
    | NotFound
    | EmptySources
    | AlreadyDecided
    | Blocked(reason: Reason, mvid: Mvid)
    | DuplicateSource
    | ApprovedAs(card: nat)
    | RejectedNow
    | Forgotten
    | RolledBack

  predicate Present(db: Tables, m: Mvid) {
    m in db.versions && db.versions[m].message in db.messages
  }

  /** A forget request for the target covers the version. */
  predicate Covers(db: Tables, target: Target, m: Mvid) {
    Present(db, m) &&
    match target
    case OneMessage(g) => db.versions[m].message == g
    case OneHash(h) => db.versions[m].hash == Some(h)
    case OneUser(u) => db.messages[db.versions[m].message].user == Some(u)
  }

  /** The three tombstone keys of a version: its message, its content hash and its author. */
  predicate Tombstoned(db: Tables, m: Mvid) {
    Present(db, m) &&
    var v := db.versions[m];
    var user := db.messages[v.message].user;
    || OneMessage(v.message) in db.requests
    || (v.hash.Some? && OneHash(v.hash.value) in db.requests)
    || (user.Some? && OneUser(user.value) in db.requests)
  }

  lemma TombstonedMeansCovered(db: Tables, m: Mvid)
    ensures Tombstoned(db, m) <==> exists target :: target in db.requests && Covers(db, target, m)
  {
    if Tombstoned(db, m) {
      var v := db.versions[m];
      var user := db.messages[v.message].user;
      assert Covers(db, OneMessage(v.message), m);
      assert v.hash.Some? ==> Covers(db, OneHash(v.hash.value), m);
      assert user.Some? ==> Covers(db, OneUser(user.value), m);
    }
  }

  predicate Clean(db: Tables, m: Mvid) {
    && Present(db, m)
    && var v := db.versions[m];
       var g := db.messages[v.message];
       g.current == Some(m) && v.contentEligible && !v.isRedacted && !g.isRedacted && g.normalPolicy
  }

  predicate Eligible(db: Tables, m: Mvid) {
    Clean(db, m) && !Tombstoned(db, m)
  }

  /** The first violation in the order the query reports them; `hit` says that a tombstone was found. */
  function ReasonGiven(db: Tables, m: Mvid, hit: bool): (r: Option<Reason>)
    ensures r.None? <==> Clean(db, m) && !hit
  {
    if !Present(db, m) then Some(SourceMissing)
    else
      var v := db.versions[m];
      var g := db.messages[v.message];
      if hit then Some(TombstoneMatch)
      else if g.current != Some(m) then Some(SourceNotCurrent)
      else if !v.contentEligible then Some(ControlMessage)
      else if g.isRedacted || v.isRedacted then Some(SourceRedacted)
      else if !g.normalPolicy then Some(PolicyNotNormal)
      else None
  }

  /** Which violation is named: each one only when none of those before it is there. */
  lemma ReasonsInOrder(db: Tables, m: Mvid, hit: bool)
    ensures ReasonGiven(db, m, hit) == Some(SourceMissing) <==> !Present(db, m)
    ensures ReasonGiven(db, m, hit) == Some(TombstoneMatch) <==> Present(db, m) && hit
    ensures Present(db, m) && !hit ==>
              var v := db.versions[m];
              var g := db.messages[v.message];
              var current, redacted := g.current == Some(m), v.isRedacted || g.isRedacted;
              && (ReasonGiven(db, m, hit) == Some(SourceNotCurrent) <==> !current)
              && (ReasonGiven(db, m, hit) == Some(ControlMessage) <==> current && !v.contentEligible)
              && (ReasonGiven(db, m, hit) == Some(SourceRedacted) <==> current && v.contentEligible && redacted)
              && (ReasonGiven(db, m, hit) == Some(PolicyNotNormal) <==>
                    current && v.contentEligible && !redacted && !g.normalPolicy)
  {
  }

  /** The violation found when nothing runs beside the check. */
  function BlockReason(db: Tables, m: Mvid): (r: Option<Reason>)
    ensures r.None? <==> Eligible(db, m)
  {
    ReasonGiven(db, m, Tombstoned(db, m))
  }

  /** A title or body as it is stored: trimmed, and never empty. */
  function OrDash(s: string): string {
    if Strip(s) == "" then "—" else Strip(s)
  }

  /** A typed reason as it is stored: trimmed, and cut to 1024 characters. */
  function KeptReason(reason: Option<string>): Option<string> {
    if reason.None? then None
    else
      var r := Strip(reason.value);
      Some(if |r| > 1024 then r[..1024] else r)
  }

  function SourceRows(card: nat, mvids: seq<Mvid>): seq<CardSource> {
    seq(|mvids|, i requires 0 <= i < |mvids| => CardSource(card, mvids[i], i))
  }

  /** The four writes of an approval, as one transaction. */
  function ApproveWrites(db: Tables, c: CandidateId, admin: int): Tables
    requires c in db.candidates
  {
    var cand := db.candidates[c];
    db.(cards := db.cards + [Card(OrDash(cand.title), OrDash(cand.body), admin, false)],
        cardSources := db.cardSources + SourceRows(|db.cards|, cand.sources),
        candidates := db.candidates[c := cand.(status := Approved, reviewedBy := Some(admin))],
        decisions := db.decisions + [Decision(c, Approved, admin, None)])
  }

  function RejectWrites(db: Tables, c: CandidateId, admin: int, reason: Option<string>): Tables
    requires c in db.candidates
  {
    db.(candidates := db.candidates[c := db.candidates[c].(status := Rejected, reviewedBy := Some(admin))],
        decisions := db.decisions + [Decision(c, Rejected, admin, KeptReason(reason))])
  }

  function Unlinked(rows: seq<CardSource>, ms: set<Mvid>): (r: seq<CardSource>)
    ensures forall x :: x in r <==> x in rows && x.mvid !in ms
  {
    if rows == [] then []
    else (if rows[0].mvid in ms then [] else [rows[0]]) + Unlinked(rows[1..], ms)
  }

  predicate Cites(rows: seq<CardSource>, card: nat) {
    exists i :: 0 <= i < |rows| && rows[i].card == card
  }

  // ------------------------------------------------------------------ what a cascade reads and writes

  /** The versions whose locks a cascade takes and which it unlinks: of a message, the current one only. */
  function Resolved(db: Tables, target: Target): set<Mvid> {
    match target
    case OneMessage(g) =>
      if g in db.messages && db.messages[g].current.Some? then {db.messages[g].current.value} else {}
    case _ => set m | m in db.versions && Covers(db, target, m)
  }

  /** The messages it redacts; content with a hash is unlinked, but not redacted. */
  function WrittenMessages(db: Tables, target: Target): set<MessageId> {
    match target
    case OneMessage(g) => if g in db.messages then {g} else {}
    case OneHash(_) => {}
    case OneUser(u) => set g | g in db.messages && db.messages[g].user == Some(u)
  }

  /** The versions it redacts: all of those messages. */
  function WrittenVersions(db: Tables, target: Target): set<Mvid> {
    set m | m in db.versions && db.versions[m].message in WrittenMessages(db, target)
  }

  /**
   Row by row: a request for a message writes that message and resolves to its current version; one for
   a user writes the user's messages, one for content writes none, and both resolve to what they cover.
   */
  lemma WhatARequestTouches(db: Tables, target: Target, g: MessageId, m: Mvid)
    ensures g in WrittenMessages(db, target) <==>
            g in db.messages && (target == OneMessage(g) || (target.OneUser? && db.messages[g].user == Some(target.user)))
    ensures m in WrittenVersions(db, target) <==>
            m in db.versions && db.versions[m].message in WrittenMessages(db, target)
    ensures m in Resolved(db, target) <==>
            if target.OneMessage? then target.message in db.messages && db.messages[target.message].current == Some(m)
            else Covers(db, target, m)
  {
  }

  /** What cascades do: the rows they redact, the versions they unlink, the requests they finish. */
  datatype Cascade = Cascade(
    messages: set<MessageId>, versions: set<Mvid>, unlinked: set<Mvid>, targets: set<Target>)

  function Both(a: Cascade, b: Cascade): Cascade {
    Cascade(a.messages + b.messages, a.versions + b.versions, a.unlinked + b.unlinked, a.targets + b.targets)
  }

  /** A forget cascade: redact, unlink from every card, archive cards left with no source. */
  function ForgetWrites(db: Tables, x: Cascade): Tables {
    var rest := Unlinked(db.cardSources, x.unlinked);
    db.(messages := map g | g in db.messages ::
                      if g in x.messages then db.messages[g].(isRedacted := true, normalPolicy := false)
                      else db.messages[g],
        versions := map m | m in db.versions ::
                      if m in x.versions then db.versions[m].(isRedacted := true) else db.versions[m],
        cardSources := rest,
        cards := seq(|db.cards|, i requires 0 <= i < |db.cards| =>
                   if Cites(db.cardSources, i) && !Cites(rest, i) then db.cards[i].(archived := true)
                   else db.cards[i]),
        forgotten := db.forgotten + x.targets)
  }

  /** The cascades of a worker's events, one after the other. */
  function ForgetAll(db: Tables, events: seq<Cascade>): Tables
    decreases |events|
  {
    if events == [] then db else ForgetAll(ForgetWrites(db, events[0]), events[1..])
  }

  /** All of them together. */
  function Together(events: seq<Cascade>): Cascade {
    if events == [] then Cascade({}, {}, {}, {}) else Both(events[0], Together(events[1..]))
  }

  lemma {:induction false} UnlinkedTwice(rows: seq<CardSource>, a: set<Mvid>, b: set<Mvid>)
    ensures Unlinked(Unlinked(rows, a), b) == Unlinked(rows, a + b)
    decreases |rows|
  {
    if rows != [] {
      UnlinkedTwice(rows[1..], a, b);
      var rest := Unlinked(rows[1..], a);
      assert Unlinked(rows, a) == if rows[0].mvid in a then rest else [rows[0]] + rest;
      assert ([rows[0]] + rest)[1..] == rest;
    }
  }

  lemma CitesLess(rows: seq<CardSource>, ms: set<Mvid>, i: nat)
    ensures Cites(Unlinked(rows, ms), i) ==> Cites(rows, i)
  {
    var rest := Unlinked(rows, ms);
    if Cites(rest, i) {
      var j :| 0 <= j < |rest| && rest[j].card == i;
      assert rest[j] in rest;
      var k :| 0 <= k < |rows| && rows[k] == rest[j];
    }
  }

  /** Two cascades in turn are one cascade. */
  lemma ForgetTwice(db: Tables, a: Cascade, b: Cascade)
    ensures ForgetWrites(ForgetWrites(db, a), b) == ForgetWrites(db, Both(a, b))
  {
    var one, two := ForgetWrites(db, a), ForgetWrites(ForgetWrites(db, a), b);
    var both := ForgetWrites(db, Both(a, b));
    UnlinkedTwice(db.cardSources, a.unlinked, b.unlinked);
    forall i | 0 <= i < |db.cards| ensures two.cards[i] == both.cards[i] {
      CitesLess(db.cardSources, a.unlinked, i);
      CitesLess(one.cardSources, b.unlinked, i);
    }
    assert two.cards == both.cards;
    assert two.messages == both.messages;
    assert two.versions == both.versions;
    assert two.forgotten == both.forgotten;
  }

  lemma {:induction false} UnlinkedNone(rows: seq<CardSource>)
    ensures Unlinked(rows, {}) == rows
    decreases |rows|
  {
    if rows != [] {
      UnlinkedNone(rows[1..]);
    }
  }

  /** A worker's events in turn amount to one cascade. */
  lemma {:induction false} ForgetAllIsOnce(db: Tables, events: seq<Cascade>)
    ensures ForgetAll(db, events) == ForgetWrites(db, Together(events))
    decreases |events|
  {
    if events == [] {
      UnlinkedNone(db.cardSources);
      var none := ForgetWrites(db, Cascade({}, {}, {}, {}));
      assert none.messages == db.messages && none.versions == db.versions;
      assert none.cards == db.cards && none.forgotten == db.forgotten;
    } else {
      ForgetAllIsOnce(ForgetWrites(db, events[0]), events[1..]);
      ForgetTwice(db, events[0], Together(events[1..]));
    }
  }

  // ------------------------------------------------------------------ what a decision leaves in the tables

  /** Everything but cards, citations, decisions and the candidate's own row is as it was. */
  ghost predicate OnlyDecides(db: Tables, next: Tables, c: CandidateId) {
    && next.messages == db.messages && next.versions == db.versions
    && next.requests == db.requests && next.forgotten == db.forgotten
    && next.candidates.Keys == db.candidates.Keys && c in db.candidates
    && (forall d :: d in db.candidates && d != c ==> next.candidates[d] == db.candidates[d])
    && next.candidates[c].sources == db.candidates[c].sources
    && next.candidates[c].title == db.candidates[c].title && next.candidates[c].body == db.candidates[c].body
  }

  /** One new card, made from the candidate's own title and body, citing its sources in their order. */
  ghost predicate Promoted(db: Tables, next: Tables, c: CandidateId, admin: int) {
    && OnlyDecides(db, next, c)
    && next.candidates[c].status == Approved && next.candidates[c].reviewedBy == Some(admin)
    && var cand, k := db.candidates[c], |db.cards|;
       && |next.cards| == k + 1 && next.cards[..k] == db.cards
       && next.cards[k].title == (if Strip(cand.title) == "" then "—" else Strip(cand.title))
       && next.cards[k].body == (if Strip(cand.body) == "" then "—" else Strip(cand.body))
       && next.cards[k].approvedBy == admin && !next.cards[k].archived
       && var n := |db.cardSources|;
          && |next.cardSources| == n + |cand.sources| && next.cardSources[..n] == db.cardSources
          && (forall i :: 0 <= i < |cand.sources| ==>
                next.cardSources[n + i].card == k && next.cardSources[n + i].mvid == cand.sources[i]
                && next.cardSources[n + i].position == i)
          && |next.decisions| == |db.decisions| + 1 && next.decisions[..|db.decisions|] == db.decisions
          && var d := next.decisions[|db.decisions|];
             d.candidate == c && d.action == Approved && d.decidedBy == admin && d.reason.None?
  }

  lemma ApprovalPromotes(db: Tables, c: CandidateId, admin: int)
    requires c in db.candidates
    ensures Promoted(db, ApproveWrites(db, c, admin), c, admin)
  {
  }

  /** No card, and one decision with the reason as typed, trimmed and cut to 1024 characters. */
  ghost predicate TurnedDown(db: Tables, next: Tables, c: CandidateId, admin: int, reason: Option<string>) {
    && OnlyDecides(db, next, c) && next.cards == db.cards && next.cardSources == db.cardSources
    && next.candidates[c].status == Rejected && next.candidates[c].reviewedBy == Some(admin)
    && |next.decisions| == |db.decisions| + 1 && next.decisions[..|db.decisions|] == db.decisions
    && var d := next.decisions[|db.decisions|];
       && d.candidate == c && d.action == Rejected && d.decidedBy == admin
       && (d.reason.None? <==> reason.None?)
       && (d.reason.Some? ==>
             && d.reason.value <= Strip(reason.value)
             && |d.reason.value| == if |Strip(reason.value)| > 1024 then 1024 else |Strip(reason.value)|)
  }

  lemma RejectionTurnsDown(db: Tables, c: CandidateId, admin: int, reason: Option<string>)
    requires c in db.candidates
    ensures TurnedDown(db, RejectWrites(db, c, admin, reason), c, admin, reason)
  {
  }

  predicate DistinctMvids(ms: seq<Mvid>) {
    forall i, j :: 0 <= i < j < |ms| ==> ms[i] != ms[j]
  }

  /** The position of the first source that re-validation refuses, or the length. */
  function FirstBlocked(db: Tables, ms: seq<Mvid>, k: nat): (r: nat)
    requires k <= |ms|
    ensures k <= r <= |ms|
    ensures forall i :: k <= i < r ==> Eligible(db, ms[i])
    ensures r < |ms| ==> !Eligible(db, ms[r])
    decreases |ms| - k
  {
    if k == |ms| || !Eligible(db, ms[k]) then k else FirstBlocked(db, ms, k + 1)
  }

  function ApproveOutcome(db: Tables, c: CandidateId): Outcome {
    if c !in db.candidates then NotFound
    else
      var cand := db.candidates[c];
      if cand.sources == [] then EmptySources
      else if !cand.status.Pending? then AlreadyDecided
      else
        var k := FirstBlocked(db, cand.sources, 0);
        if k < |cand.sources| then Blocked(BlockReason(db, cand.sources[k]).value, cand.sources[k])
        else if !DistinctMvids(cand.sources) then DuplicateSource
        else ApprovedAs(|db.cards|)
  }

  /**
   How an approval ends, case by case: a missing candidate, none with sources, one already decided;
   then the first source that may not be cited, with its violation; then a source listed twice.
   */
  lemma ApprovalEnds(db: Tables, c: CandidateId)
    ensures var o := ApproveOutcome(db, c);
            && (o == NotFound <==> c !in db.candidates)
            && (c in db.candidates ==>
                  var cand := db.candidates[c];
                  && (o == EmptySources <==> cand.sources == [])
                  && (o == AlreadyDecided <==> cand.sources != [] && !cand.status.Pending?)
                  && (cand.sources != [] && cand.status.Pending? ==>
                        && (o.Blocked? <==> exists m :: m in cand.sources && !Eligible(db, m))
                        && (o.Blocked? ==> exists k :: IsFirstBlocked(db, cand.sources, k, o))
                        && (!o.Blocked? ==> o == if DistinctMvids(cand.sources) then ApprovedAs(|db.cards|)
                                                 else DuplicateSource)))
  {
    if c in db.candidates {
      var cand := db.candidates[c];
      var k := FirstBlocked(db, cand.sources, 0);
      if cand.sources != [] && cand.status.Pending? && k < |cand.sources| {
        assert cand.sources[k] in cand.sources;
        assert IsFirstBlocked(db, cand.sources, k, ApproveOutcome(db, c));
      }
    }
  }

  ghost predicate IsFirstBlocked(db: Tables, ms: seq<Mvid>, k: int, o: Outcome) {
    && 0 <= k < |ms| && (forall i :: 0 <= i < k ==> Eligible(db, ms[i])) && !Eligible(db, ms[k])
    && o == Blocked(BlockReason(db, ms[k]).value, ms[k])
  }

  // ------------------------------------------------------------------ the order of lock ids

  ghost predicate Ascending(ids: seq<int>) {
    forall i, j :: 0 <= i < j < |ids| ==> ids[i] <= ids[j]
  }

  function InsertSorted(x: int, ids: seq<int>): (r: seq<int>)
    requires Ascending(ids)
    ensures Ascending(r) && |r| == |ids| + 1
    ensures forall y :: y in r <==> y == x || y in ids
  {
    if ids == [] || x <= ids[0] then [x] + ids
    else
      var rest := InsertSorted(x, ids[1..]);
      assert forall y :: y in ids <==> y == ids[0] || y in ids[1..];
      assert forall k :: 0 <= k < |rest| ==> rest[k] in rest;
      [ids[0]] + rest
  }

  /** The lock ids of the given sources, smallest first. */
  function LockIds(lockId: Mvid -> int, ms: seq<Mvid>): (r: seq<int>)
    ensures Ascending(r) && |r| == |ms|
    ensures forall m :: m in ms ==> lockId(m) in r
    ensures forall x :: x in r ==> exists m :: m in ms && lockId(m) == x
  {
    if ms == [] then []
    else
      var rest := LockIds(lockId, ms[1..]);
      assert forall m :: m in ms <==> m == ms[0] || m in ms[1..];
      InsertSorted(lockId(ms[0]), rest)
  }

  /** Each source once. */
  function WithoutRepeats(ms: seq<Mvid>): (r: seq<Mvid>)
    ensures DistinctMvids(r) && forall m :: m in r <==> m in ms
  {
    if ms == [] then []
    else
      var rest := WithoutRepeats(ms[..|ms| - 1]);
      assert ms == ms[..|ms| - 1] + [ms[|ms| - 1]];
      if ms[|ms| - 1] in rest then rest else rest + [ms[|ms| - 1]]
  }

  lemma {:induction false} InsertSortedCounts(x: int, ids: seq<int>)
    requires Ascending(ids)
    ensures multiset(InsertSorted(x, ids)) == multiset(ids) + multiset{x}
    decreases |ids|
  {
    if ids != [] && x > ids[0] {
      InsertSortedCounts(x, ids[1..]);
      assert ids == [ids[0]] + ids[1..];
    }
  }

  lemma LessTail(ms: seq<Mvid>, k: nat)
    requires 0 < k < |ms|
    ensures var less := ms[..k] + ms[k + 1..];
            less != [] && less[0] == ms[0] && less[1..] == ms[1..][..k - 1] + ms[1..][k..]
  {
  }

  /** Taking one source out of a list takes its lock id out of the locks. */
  lemma {:induction false} LockIdsWithout(lockId: Mvid -> int, ms: seq<Mvid>, k: nat)
    requires k < |ms|
    ensures multiset(LockIds(lockId, ms)) == multiset(LockIds(lockId, ms[..k] + ms[k + 1..])) + multiset{lockId(ms[k])}
    decreases |ms|
  {
    var less := ms[..k] + ms[k + 1..];
    InsertSortedCounts(lockId(ms[0]), LockIds(lockId, ms[1..]));
    if k == 0 {
      assert less == ms[1..];
    } else {
      LessTail(ms, k);
      InsertSortedCounts(lockId(ms[0]), LockIds(lockId, less[1..]));
      LockIdsWithout(lockId, ms[1..], k - 1);
    }
  }

  lemma FirstIsLeast(a: seq<int>, b: seq<int>)
    requires a != [] && Ascending(a) && b != [] && multiset(a) == multiset(b)
    ensures a[0] <= b[0]
  {
    assert b[0] in multiset(a);
    var k :| 0 <= k < |a| && a[k] == b[0];
  }

  lemma TailCounts(a: seq<int>)
    requires a != []
    ensures multiset(a[1..]) == multiset(a) - multiset{a[0]}
  {
    assert a == [a[0]] + a[1..];
  }

  lemma {:induction false} AscendingUnique(a: seq<int>, b: seq<int>)
    requires Ascending(a) && Ascending(b) && multiset(a) == multiset(b)
    ensures a == b
    decreases |a|
  {
    assert |multiset(a)| == |a| && |multiset(b)| == |b|;
    if a != [] {
      FirstIsLeast(a, b);
      FirstIsLeast(b, a);
      TailCounts(a);
      TailCounts(b);
      AscendingUnique(a[1..], b[1..]);
      assert a == [a[0]] + a[1..] && b == [b[0]] + b[1..];
    }
  }

  lemma DropOne(b: seq<Mvid>, k: nat)
    requires k < |b| && DistinctMvids(b)
    ensures var rest := b[..k] + b[k + 1..];
            DistinctMvids(rest) && Elements(rest) == Elements(b) - {b[k]}
  {
    var rest := b[..k] + b[k + 1..];
    forall m | m in Elements(b) - {b[k]} ensures m in Elements(rest) {
      var i :| 0 <= i < |b| && b[i] == m;
      assert m == rest[if i < k then i else i - 1];
    }
  }

  lemma HasAnElement(ms: seq<Mvid>)
    ensures Elements(ms) == {} ==> ms == []
  {
    if ms != [] {
      assert ms[0] in Elements(ms);
    }
  }

  /** Two lists of one set of sources, each without the first list's first. */
  lemma BothWithout(a: seq<Mvid>, b: seq<Mvid>) returns (k: nat)
    requires a != [] && DistinctMvids(a) && DistinctMvids(b) && Elements(a) == Elements(b)
    ensures k < |b| && b[k] == a[0]
    ensures DistinctMvids(a[..0] + a[0 + 1..]) && DistinctMvids(b[..k] + b[k + 1..])
    ensures Elements(a[..0] + a[0 + 1..]) == Elements(b[..k] + b[k + 1..])
  {
    assert a[0] in Elements(b);
    k :| 0 <= k < |b| && b[k] == a[0];
    DropOne(a, 0);
    DropOne(b, k);
  }

  lemma {:induction false} SameSourcesSameCounts(lockId: Mvid -> int, a: seq<Mvid>, b: seq<Mvid>)
    requires DistinctMvids(a) && DistinctMvids(b) && Elements(a) == Elements(b)
    ensures multiset(LockIds(lockId, a)) == multiset(LockIds(lockId, b))
    decreases |a|
  {
    if a == [] {
      HasAnElement(b);
    } else {
      var k := BothWithout(a, b);
      LockIdsWithout(lockId, a, 0);
      LockIdsWithout(lockId, b, k);
      SameSourcesSameCounts(lockId, a[..0] + a[0 + 1..], b[..k] + b[k + 1..]);
    }
  }

  /** The order in which a set of sources is listed does not matter to the locks taken for it. */
  lemma LockOrderIsOneOnly(lockId: Mvid -> int, a: seq<Mvid>, b: seq<Mvid>)
    requires DistinctMvids(a) && DistinctMvids(b) && Elements(a) == Elements(b)
    ensures LockIds(lockId, a) == LockIds(lockId, b)
  {
    SameSourcesSameCounts(lockId, a, b);
    AscendingUnique(LockIds(lockId, a), LockIds(lockId, b));
  }

  // ------------------------------------------------------------------ the handlers

  class ReviewDesk {
    const lockId: Mvid -> int
    var db: Tables
    /** Advisory locks in the order the transaction took them. */
    var taken: seq<int>

    constructor (lockId: Mvid -> int, db: Tables)
      ensures this.lockId == lockId && this.db == db && taken == []
    {
      this.lockId, this.db, this.taken := lockId, db, [];
    }

    /** Takes one lock per source, in ascending order of lock id. */
    method AcquireMvidLocks(ms: seq<Mvid>)
      modifies `taken
      ensures taken == old(taken) + LockIds(lockId, ms)
    {
      var ids := LockIds(lockId, ms);
      for i := 0 to |ids|
        invariant taken == old(taken) + ids[..i]
      {
        assert ids[..i + 1] == ids[..i] + [ids[i]];
        taken := taken + [ids[i]];
      }
      assert ids[..|ids|] == ids;
    }

    method RevalidateSources(ms: seq<Mvid>) returns (blocked: Option<(Reason, Mvid)>)
      ensures var k := FirstBlocked(db, ms, 0);
              blocked == if k == |ms| then None else Some((BlockReason(db, ms[k]).value, ms[k]))
    {
      for i := 0 to |ms|
        invariant FirstBlocked(db, ms, 0) == FirstBlocked(db, ms, i)
      {
        var reason := BlockReason(db, ms[i]);
        if reason.Some? {
          return Some((reason.value, ms[i]));
        }
      }
      return None;
    }

    /** Approving with nothing running beside it: outcome, tables and locks. */
    method CmdApprove(c: CandidateId, admin: int) returns (outcome: Outcome)
      requires taken == []
      modifies this
      ensures outcome == ApproveOutcome(old(db), c)
      ensures outcome.ApprovedAs? ==> c in old(db).candidates && db == ApproveWrites(old(db), c, admin)
      ensures outcome.ApprovedAs? ==> Promoted(old(db), db, c, admin)
      ensures !outcome.ApprovedAs? ==> db == old(db)
      ensures taken == if c in db.candidates then LockIds(lockId, db.candidates[c].sources) else []
    {
      if c !in db.candidates {
        return NotFound;
      }
      var initial := db.candidates[c].sources;
      if initial == [] {
        return EmptySources;
      }
      AcquireMvidLocks(initial);
      outcome := PromoteLocked(c, admin, initial);
    }

    /** The rest of an approval, from the row lock on; `initial` are the sources already locked. */
    method PromoteLocked(c: CandidateId, admin: int, initial: seq<Mvid>) returns (outcome: Outcome)
      modifies this
      ensures outcome == ApproveOutcome(old(db), c) ||
              (c in old(db).candidates && old(db).candidates[c].sources == [] && outcome.AlreadyDecided?)
      ensures outcome.ApprovedAs? ==> c in old(db).candidates && db == ApproveWrites(old(db), c, admin)
      ensures outcome.ApprovedAs? ==> Promoted(old(db), db, c, admin)
      ensures !outcome.ApprovedAs? ==> db == old(db)
      ensures c in old(db).candidates && Elements(old(db).candidates[c].sources) <= Elements(initial) ==>
                taken == old(taken)
      ensures outcome.ApprovedAs? && !(Elements(old(db).candidates[c].sources) <= Elements(initial)) ==>
                taken == old(taken) + LockIds(lockId, WithoutRepeats(initial + old(db).candidates[c].sources))
    {
      if c !in db.candidates {
        return NotFound;
      }
      var cand := db.candidates[c];
      if !cand.status.Pending? {
        return AlreadyDecided;
      }
      var mvids := cand.sources;
      if mvids == [] {
        return EmptySources;
      }
      if Elements(initial) + Elements(mvids) != Elements(initial) {
        AcquireMvidLocks(WithoutRepeats(initial + mvids));
      }
      outcome := RevalidateAndWrite(c, admin, mvids);
    }

    /** With all locks held: every source is checked again, and the card is written if all pass. */
    method RevalidateAndWrite(c: CandidateId, admin: int, mvids: seq<Mvid>) returns (outcome: Outcome)
      requires c in db.candidates && db.candidates[c].status.Pending?
      requires mvids == db.candidates[c].sources && mvids != []
      modifies `db
      ensures outcome == ApproveOutcome(old(db), c)
      ensures outcome.ApprovedAs? ==> db == ApproveWrites(old(db), c, admin) && Promoted(old(db), db, c, admin)
      ensures !outcome.ApprovedAs? ==> db == old(db)
    {
      ApprovalPromotes(db, c, admin);
      var blocked := RevalidateSources(mvids);
      if blocked.Some? {
        return Blocked(blocked.value.0, blocked.value.1);
      }
      outcome := WriteApproval(c, admin);
    }

    /** The four writes; a repeated source makes them fail, and the transaction rolls back. */
    method WriteApproval(c: CandidateId, admin: int) returns (outcome: Outcome)
      requires c in db.candidates
      modifies `db
      ensures outcome == if DistinctMvids(old(db).candidates[c].sources) then ApprovedAs(|old(db).cards|)
                         else DuplicateSource
      ensures db == if outcome.ApprovedAs? then ApproveWrites(old(db), c, admin) else old(db)
    {
      var start, cand := db, db.candidates[c];
      var title := Strip(cand.title);
      if title == "" {
        title := "—";
      }
      var body := Strip(cand.body);
      if body == "" {
        body := "—";
      }
      var card := |db.cards|;
      db := db.(cards := db.cards + [Card(title, body, admin, false)]);
      var unique := InsertCardSources(card, cand.sources);
      if !unique {
        db := start;
        return DuplicateSource;
      }
      db := db.(candidates := db.candidates[c := cand.(status := Approved, reviewedBy := Some(admin))]);
      db := db.(decisions := db.decisions + [Decision(c, Approved, admin, None)]);
      return ApprovedAs(card);
    }

    /** One row per source; the (card, source) key is unique, so a repeated source fails. */
    method InsertCardSources(card: nat, ms: seq<Mvid>) returns (unique: bool)
      modifies `db
      ensures unique == DistinctMvids(ms)
      ensures unique ==> db == old(db).(cardSources := old(db).cardSources + SourceRows(card, ms))
    {
      var rows := [];
      for i := 0 to |ms|
        invariant |rows| == i
        invariant forall k :: 0 <= k < i ==> rows[k] == CardSource(card, ms[k], k)
        invariant DistinctMvids(ms[..i])
      {
        if ms[i] in ms[..i] {
          var j :| 0 <= j < i && ms[..i][j] == ms[i];
          return false;
        }
        rows := rows + [CardSource(card, ms[i], i)];
      }
      assert ms[..|ms|] == ms;
      assert rows == SourceRows(card, ms);
      db := db.(cardSources := db.cardSources + rows);
      return true;
    }

    method CmdReject(c: CandidateId, admin: int, reason: Option<string>) returns (outcome: Outcome)
      modifies `db
      ensures outcome == (if c !in old(db).candidates then NotFound
                          else if !old(db).candidates[c].status.Pending? then AlreadyDecided
                          else RejectedNow)
      ensures outcome.RejectedNow? ==> db == RejectWrites(old(db), c, admin, reason)
      ensures outcome.RejectedNow? ==> TurnedDown(old(db), db, c, admin, reason)
      ensures !outcome.RejectedNow? ==> db == old(db)
    {
      if c !in db.candidates {
        return NotFound;
      }
      var kept := reason;
      if kept.Some? {
        kept := Some(Strip(kept.value));
        if |kept.value| > 1024 {
          kept := Some(kept.value[..1024]);
        }
      }
      var cand := db.candidates[c];
      if !cand.status.Pending? {
        return AlreadyDecided;
      }
      db := db.(candidates := db.candidates[c := cand.(status := Rejected, reviewedBy := Some(admin))]);
      db := db.(decisions := db.decisions + [Decision(c, Rejected, admin, kept)]);
      RejectionTurnsDown(old(db), c, admin, reason);
      return RejectedNow;
    }
  }
}
