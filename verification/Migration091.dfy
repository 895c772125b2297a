/**
 Migration 091: legacy applications and their answers become versioned questionnaires.
 A table is a map from primary key to row; NULL is `None`.
 */
module Migration091 {
  import opened Prelude
  import opened HtmlEscape

  // ------------------------------------------------------------------ tables

  datatype Status =
    Filling | Confirmed | DeliveryFailed | Pending | Vouched | Added | Rejected | PrivacyBlock | Other(name: string)

  /** Primary keys of applications and answers. */
  type Id = nat

  datatype User = User(isMember: bool)

  datatype App = App(
    userId: int, status: Status,
    flowKind: Option<string>, base: Option<Id>, catalog: Option<string>, snapshot: Option<string>)

  datatype Answer = Answer(
    userId: int, app: Option<Id>, index: int, text: string, current: bool, field: Option<string>)

  datatype Tables = Tables(users: map<int, User>, apps: map<Id, App>, answers: map<Id, Answer>)

  predicate Active(s: Status) {
    s.Pending? || s.Vouched? || s.PrivacyBlock?
  }

  predicate Terminal(s: Status) {
    s.Added? || s.Rejected?
  }

  /** The schema of revision 090, with the new columns just added and NULL. */
  ghost predicate Legacy(t: Tables) {
    && (forall a :: a in t.apps ==>
         && t.apps[a].userId in t.users
         && t.apps[a].flowKind.None? && t.apps[a].base.None?
         && t.apps[a].catalog.None? && t.apps[a].snapshot.None?)
    && (forall i :: i in t.answers ==>
         && t.answers[i].field.None?
         && (t.answers[i].app.Some? ==> t.answers[i].app.value in t.apps))
  }

  // ------------------------------------------------------------------ preflight

  function CurrentAnswers(t: Tables, a: Id): (ids: set<Id>)
    ensures ids <= t.answers.Keys
  {
    set i | i in t.answers && t.answers[i].app == Some(a) && t.answers[i].current
  }

  function IndexSet(t: Tables, ids: set<Id>): set<int>
    requires ids <= t.answers.Keys
  {
    set i | i in ids :: t.answers[i].index
  }

  function ActiveAppsOf(t: Tables, user: int): set<Id> {
    set a | a in t.apps && Active(t.apps[a].status) && t.apps[a].userId == user
  }

  /** Users with more than one active application. */
  function DuplicateOwners(t: Tables): set<int> {
    set a | a in t.apps && |ActiveAppsOf(t, t.apps[a].userId)| > 1 :: t.apps[a].userId
  }

  /** The grouping test: not seven answers, not seven distinct indices, or an index outside 0..6. */
  predicate Malformed(t: Tables, a: Id) {
    var ids := CurrentAnswers(t, a);
    || |ids| != 7 || |IndexSet(t, ids)| != 7
    || !forall i :: i in ids ==> 0 <= t.answers[i].index <= 6
  }

  function MalformedApps(t: Tables): set<Id> {
    set a | a in t.apps && Active(t.apps[a].status) && Malformed(t, a)
  }

  /** What the preflight is for: each of the seven questions has exactly one current answer. */
  ghost predicate Complete(t: Tables, a: Id) {
    var ids := CurrentAnswers(t, a);
    && (forall i :: i in ids ==> 0 <= t.answers[i].index <= 6)
    && (forall i, j :: i in ids && j in ids && t.answers[i].index == t.answers[j].index ==> i == j)
    && (forall k :: 0 <= k <= 6 ==> Answered(t, ids, k))
  }

  ghost predicate Answered(t: Tables, ids: set<Id>, k: int)
    requires ids <= t.answers.Keys
  {
    exists i :: i in ids && t.answers[i].index == k
  }

  ghost predicate Injective(t: Tables, ids: set<Id>)
    requires ids <= t.answers.Keys
  {
    forall i, j :: i in ids && j in ids && t.answers[i].index == t.answers[j].index ==> i == j
  }

  /** Distinct counts: as many indices as answers exactly when no index repeats. */
  lemma {:induction false} DistinctCount(t: Tables, ids: set<Id>)
    requires ids <= t.answers.Keys
    ensures |IndexSet(t, ids)| <= |ids|
    ensures |IndexSet(t, ids)| == |ids| <==> Injective(t, ids)
    decreases |ids|
  {
    if ids != {} {
      var x :| x in ids;
      DistinctCount(t, ids - {x});
      OneMoreIndex(t, ids, x);
    }
  }

  lemma OneMoreIndex(t: Tables, ids: set<Id>, x: Id)
    requires ids <= t.answers.Keys && x in ids
    ensures var rest, k := ids - {x}, t.answers[x].index;
            && |ids| == |rest| + 1 && IndexSet(t, ids) == IndexSet(t, rest) + {k}
            && (Injective(t, ids) <==> Injective(t, rest) && k !in IndexSet(t, rest))
  {
    var rest, k := ids - {x}, t.answers[x].index;
    assert ids == rest + {x};
    if k in IndexSet(t, rest) {
      var j :| j in rest && t.answers[j].index == k;
      assert !Injective(t, ids);
    } else {
      assert forall j :: j in rest ==> t.answers[j].index in IndexSet(t, rest);
    }
  }

  lemma SubsetOfSameSize(a: set<int>, b: set<int>)
    requires a <= b && |a| == |b|
    ensures a == b
  {
    assert b == a + (b - a);
  }

  /** Pigeonhole: seven answers with seven distinct indices within 0..6 answer each question once. */
  lemma PreflightMeansComplete(t: Tables, a: Id)
    ensures !Malformed(t, a) <==> Complete(t, a)
  {
    var ids := CurrentAnswers(t, a);
    DistinctCount(t, ids);
    if forall i :: i in ids ==> 0 <= t.answers[i].index <= 6 {
      SevenIndices(t, ids);
    }
  }

  /** Within 0..6, there are seven distinct indices exactly when each index occurs. */
  lemma SevenIndices(t: Tables, ids: set<Id>)
    requires ids <= t.answers.Keys && forall i :: i in ids ==> 0 <= t.answers[i].index <= 6
    ensures |IndexSet(t, ids)| == 7 <==> forall k :: 0 <= k <= 6 ==> Answered(t, ids, k)
  {
    var all := {0, 1, 2, 3, 4, 5, 6};
    forall k ensures k in IndexSet(t, ids) <==> Answered(t, ids, k) {}
    assert IndexSet(t, ids) <= all;
    if |IndexSet(t, ids)| == 7 {
      SubsetOfSameSize(IndexSet(t, ids), all);
    }
    if forall k :: 0 <= k <= 6 ==> Answered(t, ids, k) {
      assert IndexSet(t, ids) == all;
    }
  }

  ghost predicate ActiveOwnersDiffer(t: Tables) {
    forall a, b :: a in t.apps && b in t.apps && a != b && Active(t.apps[a].status) && Active(t.apps[b].status) ==>
      t.apps[a].userId != t.apps[b].userId
  }

  /** The duplicate test: it finds nothing exactly when active applications have distinct users. */
  lemma NoDuplicateOwners(t: Tables)
    ensures DuplicateOwners(t) == {} <==> ActiveOwnersDiffer(t)
  {
    if !ActiveOwnersDiffer(t) {
      var a, b :| a in t.apps && b in t.apps && a != b && Active(t.apps[a].status) && Active(t.apps[b].status)
                  && t.apps[a].userId == t.apps[b].userId;
      SubsetNotLarger({a, b}, ActiveAppsOf(t, t.apps[a].userId));
      assert t.apps[a].userId in DuplicateOwners(t);
    }
    if DuplicateOwners(t) != {} {
      var o :| o in t.apps && |ActiveAppsOf(t, t.apps[o].userId)| > 1;
      var s := ActiveAppsOf(t, t.apps[o].userId);
      var a :| a in s;
      assert |s - {a}| == |s| - 1;
      var b :| b in s - {a};
    }
  }

  // ------------------------------------------------------------------ snapshots

  /** What stands before the answer to question `k`. */
  function Caption(k: int): string {
    match k
    case 0 => "\U{1F464} "
    case 1 => "\U{1F4CD} "
    case 2 => "\U{1F517} Откуда узнал: "
    case 3 => "\U{1F4A1} Опыт: "
    case 4 => "\U{1F680} Проекты: "
    case 5 => "\U{1F3CB}\U{FE0F} Самое сложное: "
    case _ => "\U{1F3AF} Цели: "
  }

  /** The field of a question; the expression has no value for any other index. */
  function FieldOf(k: int): Option<string> {
    if 0 <= k < FIELDS then Some(FieldId(k)) else None
  }

  /** The one current answer of a complete application to question `k`. */
  ghost function AnswerTo(t: Tables, a: Id, k: int): (i: Id)
    requires Complete(t, a) && 0 <= k <= 6
    ensures i in CurrentAnswers(t, a) && t.answers[i].index == k
  {
    assert Answered(t, CurrentAnswers(t, a), k);
    var i :| i in CurrentAnswers(t, a) && t.answers[i].index == k;
    i
  }

  /** The seven labelled, escaped answers in question order. */
  ghost function SnapshotLines(t: Tables, a: Id): (lines: seq<string>)
    requires Complete(t, a)
    ensures |lines| == 7
  {
    seq(7, k requires 0 <= k < 7 => Caption(k) + Escape(t.answers[AnswerTo(t, a, k)].text))
  }

  ghost function Snapshot(t: Tables, a: Id): string
    requires Complete(t, a)
  {
    Join(SnapshotLines(t, a))
  }

  lemma CaptionIsPlain(k: int, c: char)
    requires 0 <= k <= 6 && c < '@'
    requires c !in {' ', ':'}
    ensures c !in Caption(k)
  {
  }

  lemma CaptionIsSafe(k: int)
    requires 0 <= k <= 6
    ensures Safe(Caption(k))
  {
    CaptionIsPlain(k, '&');
    CaptionIsPlain(k, '<');
    CaptionIsPlain(k, '>');
    CaptionIsPlain(k, '"');
    CaptionIsPlain(k, '\'');
  }

  lemma {:induction false} JoinedIsSafe(lines: seq<string>)
    requires forall k :: 0 <= k < |lines| ==> Safe(lines[k])
    ensures Safe(Join(lines))
    decreases |lines|
  {
    if |lines| > 1 {
      JoinedIsSafe(lines[1..]);
      assert Safe("\n");
      SafeConcat(lines[0], "\n");
      SafeConcat(lines[0] + "\n", Join(lines[1..]));
    }
  }

  /** Whatever the answers contain, the snapshot holds no markup. */
  lemma SnapshotIsSafe(t: Tables, a: Id)
    requires Complete(t, a)
    ensures Safe(Snapshot(t, a))
  {
    var lines := SnapshotLines(t, a);
    forall k | 0 <= k < 7 ensures Safe(lines[k]) {
      CaptionIsSafe(k);
      EscapedIsSafe(t.answers[AnswerTo(t, a, k)].text);
      SafeConcat(Caption(k), Escape(t.answers[AnswerTo(t, a, k)].text));
    }
    JoinedIsSafe(lines);
  }

  // ------------------------------------------------------------------ the updates

  function StatusOf(t: Tables, x: Answer): Option<Status> {
    if x.app.Some? && x.app.value in t.apps then Some(t.apps[x.app.value].status) else None
  }

  /** Answers already out of date lose their field. */
  function DropStaleFields(t: Tables): Tables {
    t.(answers := map i | i in t.answers ::
         if t.answers[i].current then t.answers[i] else t.answers[i].(field := None, current := false))
  }

  /** Current answers of active applications get their field. */
  function Named(s: Option<Status>, x: Answer): Answer {
    if s.Some? && Active(s.value) && x.current then x.(field := FieldOf(x.index)) else x
  }

  function NameFields(t: Tables): Tables {
    t.(answers := map i | i in t.answers :: Named(StatusOf(t, t.answers[i]), t.answers[i]))
  }

  /** A filling application becomes a refresh of a member, or an admission. */
  function Filled(users: map<int, User>, x: App): App {
    if x.status.Filling? && x.userId in users
    then x.(flowKind := Some(if users[x.userId].isMember then "refresh" else "admission"), catalog := Some("intro-v2"))
    else x
  }

  function ClassifyFilling(t: Tables): Tables {
    t.(apps := map a | a in t.apps :: Filled(t.users, t.apps[a]))
  }

  function Ended(x: App): App {
    if Terminal(x.status) then x.(flowKind := None, catalog := Some("legacy-v1")) else x
  }

  function ClassifyTerminal(t: Tables): Tables {
    t.(apps := map a | a in t.apps :: Ended(t.apps[a]))
  }

  /** Answers of filling, or else of terminal, applications are set aside. */
  function SetAside(s: Option<Status>, x: Answer, terminal: bool): Answer {
    if s.Some? && (if terminal then Terminal(s.value) else s.value.Filling?)
    then x.(field := None, current := false) else x
  }

  function Quarantine(t: Tables, terminal: bool): Tables {
    t.(answers := map i | i in t.answers :: SetAside(StatusOf(t, t.answers[i]), t.answers[i], terminal))
  }

  function Orphans(t: Tables): set<Id> {
    set i | i in t.answers && t.answers[i].app.None?
  }

  // ------------------------------------------------------------------ the contract

  predicate ActiveRefresh(x: App) {
    x.flowKind == Some("refresh") && (x.status.Filling? || x.status.Confirmed?)
  }

  /** NOT NULL, the four CHECKs and the two keys of one application row. */
  predicate AppRowOk(t: Tables, x: App) {
    && x.catalog.Some?
    && (x.flowKind == Some("admission") || x.flowKind == Some("refresh") || (x.flowKind.None? && Terminal(x.status)))
    && (x.base.None? || x.flowKind == Some("refresh"))
    && !x.status.Other?
    && x.catalog.value in {"legacy-v1", "intro-v2"}
    && (x.status.Filling? || x.snapshot.Some?
        || (x.catalog == Some("legacy-v1") && x.flowKind.None? && Terminal(x.status)))
    && (x.base.Some? ==> x.base.value in t.apps && t.apps[x.base.value].userId == x.userId)
  }

  /** NOT NULL, the CHECK and the owner key of one answer row. */
  predicate AnswerRowOk(t: Tables, x: Answer) {
    && x.app.Some? && x.app.value in t.apps && t.apps[x.app.value].userId == x.userId
    && (x.field.Some? || !x.current)
  }

  predicate AppRowsOk(t: Tables) {
    forall a :: a in t.apps ==> AppRowOk(t, t.apps[a])
  }

  predicate RefreshesDiffer(t: Tables) {
    forall a, b :: a in t.apps && b in t.apps && a != b && ActiveRefresh(t.apps[a]) && ActiveRefresh(t.apps[b]) ==>
      t.apps[a].userId != t.apps[b].userId
  }

  predicate AnswerRowsOk(t: Tables) {
    forall i :: i in t.answers ==> AnswerRowOk(t, t.answers[i])
  }

  predicate FieldsDiffer(t: Tables) {
    forall i, j :: i in t.answers && j in t.answers && i != j
                   && t.answers[i].app == t.answers[j].app && t.answers[i].field.Some? ==>
      t.answers[i].field != t.answers[j].field
  }

  /** Everything that the migration adds to the schema as a constraint. */
  predicate Contract(t: Tables) {
    AppRowsOk(t) && RefreshesDiffer(t) && AnswerRowsOk(t) && FieldsDiffer(t)
  }

  // ------------------------------------------------------------------ what each row becomes

  ghost predicate Checked(t: Tables) {
    Legacy(t) && forall a :: a in t.apps && Active(t.apps[a].status) ==> Complete(t, a)
  }

  ghost function FinalApp(t: Tables, a: Id): App
    requires Checked(t) && a in t.apps
  {
    var x := t.apps[a];
    if Active(x.status) then
      x.(flowKind := Some("admission"), catalog := Some("legacy-v1"), snapshot := Some(Snapshot(t, a)))
    else if x.status.Filling? then
      x.(flowKind := Some(if t.users[x.userId].isMember then "refresh" else "admission"), catalog := Some("intro-v2"))
    else if Terminal(x.status) then
      x.(catalog := Some("legacy-v1"))
    else x
  }

  ghost function FinalAnswer(t: Tables, i: Id): Answer
    requires Checked(t) && i in t.answers
  {
    var x := t.answers[i];
    if x.app.None? then x
    else
      var s := t.apps[x.app.value].status;
      if Active(s) then (if x.current then x.(field := FieldOf(x.index)) else x)
      else if s.Filling? || Terminal(s) then x.(current := false)
      else x
  }

  ghost function Final(t: Tables): Tables
    requires Checked(t)
  {
    Tables(t.users,
           map a | a in t.apps :: FinalApp(t, a),
           map i | i in t.answers :: FinalAnswer(t, i))
  }

  ghost predicate KnownStatuses(t: Tables) {
    forall a :: a in t.apps ==>
      var s := t.apps[a].status; Active(s) || Terminal(s) || s.Filling?
  }

  ghost predicate OneFillingPerMember(t: Tables)
    requires Legacy(t)
  {
    forall a, b :: a in t.apps && b in t.apps && a != b && t.apps[a].status.Filling? && t.apps[b].status.Filling?
                   && t.users[t.apps[a].userId].isMember ==>
      t.apps[a].userId != t.apps[b].userId
  }

  ghost predicate OwnersMatch(t: Tables)
    requires Legacy(t)
  {
    forall i :: i in t.answers && t.answers[i].app.Some? ==> t.apps[t.answers[i].app.value].userId == t.answers[i].userId
  }

  lemma FinalAppOk(t: Tables, a: Id)
    requires Checked(t) && a in t.apps
    ensures AppRowOk(Final(t), FinalApp(t, a)) <==>
            (Active(t.apps[a].status) || Terminal(t.apps[a].status) || t.apps[a].status.Filling?)
    ensures FinalApp(t, a).userId == t.apps[a].userId
    ensures ActiveRefresh(FinalApp(t, a)) <==> t.apps[a].status.Filling? && t.users[t.apps[a].userId].isMember
  {
    assert "admission" != "refresh" by { assert "admission"[0] != "refresh"[0]; }
  }

  lemma FinalAnswerOk(t: Tables, i: Id)
    requires Checked(t) && i in t.answers && t.answers[i].app.Some? && KnownStatuses(t)
    ensures AnswerRowOk(Final(t), FinalAnswer(t, i)) <==>
            t.apps[t.answers[i].app.value].userId == t.answers[i].userId
  {
    FinalAppOk(t, t.answers[i].app.value);
  }

  lemma FinalFieldsDiffer(t: Tables, i: Id, j: Id)
    requires Checked(t) && i in t.answers && j in t.answers && i != j
    requires t.answers[i].app == t.answers[j].app && FinalAnswer(t, i).field.Some?
    ensures FinalAnswer(t, i).field != FinalAnswer(t, j).field
  {
    if FinalAnswer(t, j).field.Some? {
      var a := t.answers[i].app.value;
      assert Complete(t, a);
      assert i in CurrentAnswers(t, a) && j in CurrentAnswers(t, a);
      if FieldOf(t.answers[i].index) == FieldOf(t.answers[j].index) {
        FieldIdsDiffer(t.answers[i].index, t.answers[j].index);
      }
    }
  }

  /**
   The migrated tables meet the contract exactly when the legacy ones hold only the six legacy
   statuses, at most one filling application per member, and answers owned by their applicants.
   */
  lemma ContractIff(t: Tables)
    requires Checked(t) && Orphans(t) == {}
    ensures Contract(Final(t)) <==> KnownStatuses(t) && OneFillingPerMember(t) && OwnersMatch(t)
  {
    AppsHalf(t);
    FieldsHalf(t);
    if KnownStatuses(t) {
      AnswersHalf(t);
    }
  }

  lemma AppsHalf(t: Tables)
    requires Checked(t)
    ensures AppRowsOk(Final(t)) <==> KnownStatuses(t)
    ensures RefreshesDiffer(Final(t)) <==> OneFillingPerMember(t)
  {
    forall a | a in t.apps
      ensures Final(t).apps[a] == FinalApp(t, a)
      ensures AppRowOk(Final(t), FinalApp(t, a)) <==>
              (Active(t.apps[a].status) || Terminal(t.apps[a].status) || t.apps[a].status.Filling?)
      ensures FinalApp(t, a).userId == t.apps[a].userId
      ensures ActiveRefresh(FinalApp(t, a)) <==> t.apps[a].status.Filling? && t.users[t.apps[a].userId].isMember
    {
      FinalAppOk(t, a);
    }
  }

  lemma AnswersHalf(t: Tables)
    requires Checked(t) && Orphans(t) == {} && KnownStatuses(t)
    ensures AnswerRowsOk(Final(t)) <==> OwnersMatch(t)
  {
    forall i | i in t.answers
      ensures t.answers[i].app.Some?
      ensures AnswerRowOk(Final(t), FinalAnswer(t, i)) <==>
              t.apps[t.answers[i].app.value].userId == t.answers[i].userId
    {
      assert i !in Orphans(t);
      FinalAnswerOk(t, i);
    }
    assert forall i :: i in t.answers ==> Final(t).answers[i] == FinalAnswer(t, i);
  }

  lemma FinalAnswerIs(t: Tables, i: Id)
    requires Checked(t) && i in Final(t).answers
    ensures i in t.answers && Final(t).answers[i] == FinalAnswer(t, i) && FinalAnswer(t, i).app == t.answers[i].app
  {
  }

  lemma FieldsHalf(t: Tables)
    requires Checked(t)
    ensures FieldsDiffer(Final(t))
  {
    var f := Final(t);
    forall i, j | i in f.answers && j in f.answers && i != j
                  && f.answers[i].app == f.answers[j].app && f.answers[i].field.Some?
      ensures f.answers[i].field != f.answers[j].field
    {
      FinalAnswerIs(t, i);
      FinalAnswerIs(t, j);
      FinalFieldsDiffer(t, i, j);
    }
  }

  // ------------------------------------------------------------------ each row, value by value

  /** The text of the application's current answer to question `k`. */
  ghost predicate Says(t: Tables, a: Id, k: int, text: string) {
    exists i :: i in t.answers && t.answers[i].app == Some(a) && t.answers[i].current
                && t.answers[i].index == k && t.answers[i].text == text
  }

  /** The seven texts, as the introduction shows them. */
  function Introduction(x: seq<string>): string
    requires |x| == 7
  {
    ("\U{1F464} " + Escape(x[0]))
    + "\n" + ("\U{1F4CD} " + Escape(x[1]))
    + "\n" + ("\U{1F517} Откуда узнал: " + Escape(x[2]))
    + "\n" + ("\U{1F4A1} Опыт: " + Escape(x[3]))
    + "\n" + ("\U{1F680} Проекты: " + Escape(x[4]))
    + "\n" + ("\U{1F3CB}\U{FE0F} Самое сложное: " + Escape(x[5]))
    + "\n" + ("\U{1F3AF} Цели: " + Escape(x[6]))
  }

  ghost predicate Introduces(t: Tables, a: Id, html: string) {
    exists x: seq<string> :: |x| == 7 && html == Introduction(x) && forall k :: 0 <= k <= 6 ==> Says(t, a, k, x[k])
  }

  ghost predicate AppMigrated(t: Tables, a: Id, y: App)
    requires a in t.apps && t.apps[a].userId in t.users
  {
    var x := t.apps[a];
    && y.userId == x.userId && y.status == x.status && y.base.None?
    && match x.status
       case Pending | Vouched | PrivacyBlock =>
         && y.flowKind == Some("admission") && y.catalog == Some("legacy-v1")
         && y.snapshot.Some? && Introduces(t, a, y.snapshot.value)
       case Filling =>
         && y.flowKind == Some(if t.users[x.userId].isMember then "refresh" else "admission")
         && y.catalog == Some("intro-v2") && y.snapshot.None?
       case Added | Rejected =>
         y.flowKind.None? && y.catalog == Some("legacy-v1") && y.snapshot.None?
       case _ =>
         y.flowKind.None? && y.catalog.None? && y.snapshot.None?
  }

  ghost predicate AnswerMigrated(x: Answer, s: Option<Status>, y: Answer) {
    && y.userId == x.userId && y.app == x.app && y.index == x.index && y.text == x.text
    && match s
       case Some(Pending) | Some(Vouched) | Some(PrivacyBlock) =>
         if x.current
         then y.current && 0 <= x.index <= 6
              && y.field == Some(["name", "location", "referral", "experience", "projects", "hardest", "goals"][x.index])
         else !y.current && y.field.None?
       case Some(Filling) | Some(Added) | Some(Rejected) => !y.current && y.field.None?
       case _ => y.current == x.current && y.field.None?
  }

  /** The same users and keys, and every row what its status calls for. */
  ghost predicate Migrated(t: Tables, f: Tables)
    requires Legacy(t)
  {
    && f.users == t.users && f.apps.Keys == t.apps.Keys && f.answers.Keys == t.answers.Keys
    && (forall a :: a in t.apps ==> AppMigrated(t, a, f.apps[a]))
    && forall i :: i in t.answers ==> AnswerMigrated(t.answers[i], StatusOf(t, t.answers[i]), f.answers[i])
  }

  lemma {:induction false} JoinOneMore(x: seq<string>, y: string)
    requires x != []
    ensures Join(x + [y]) == Join(x) + "\n" + y
    decreases |x|
  {
    assert (x + [y])[1..] == x[1..] + [y];
    if |x| > 1 {
      JoinOneMore(x[1..], y);
    }
  }

  lemma JoinNext(x: seq<string>, k: nat)
    requires 0 < k < |x|
    ensures Join(x[..k + 1]) == Join(x[..k]) + "\n" + x[k]
  {
    assert x[..k + 1] == x[..k] + [x[k]];
    JoinOneMore(x[..k], x[k]);
  }

  lemma JoinSeven(x: seq<string>)
    requires |x| == 7
    ensures Join(x) == x[0] + "\n" + x[1] + "\n" + x[2] + "\n" + x[3] + "\n" + x[4] + "\n" + x[5] + "\n" + x[6]
  {
    JoinNext(x, 1);
    JoinNext(x, 2);
    JoinNext(x, 3);
    JoinNext(x, 4);
    JoinNext(x, 5);
    JoinNext(x, 6);
    assert x[..7] == x;
  }

  lemma LinesIntroduce(lines: seq<string>, x: seq<string>)
    requires |lines| == |x| == 7 && forall k :: 0 <= k < 7 ==> lines[k] == Caption(k) + Escape(x[k])
    ensures lines[0] + "\n" + lines[1] + "\n" + lines[2] + "\n" + lines[3] + "\n" + lines[4] + "\n" + lines[5]
            + "\n" + lines[6] == Introduction(x)
  {
  }

  lemma TextsOfAnswers(t: Tables, a: Id) returns (x: seq<string>)
    requires Complete(t, a)
    ensures |x| == 7 && forall k :: 0 <= k <= 6 ==> Says(t, a, k, x[k])
    ensures forall k :: 0 <= k <= 6 ==> SnapshotLines(t, a)[k] == Caption(k) + Escape(x[k])
  {
    x := seq(7, k requires 0 <= k < 7 => t.answers[AnswerTo(t, a, k)].text);
    forall k | 0 <= k <= 6 ensures Says(t, a, k, x[k]) {
      var i := AnswerTo(t, a, k);
    }
  }

  /** The snapshot introduces the applicant: each label stands before the answer to its question. */
  lemma SnapshotIntroduces(t: Tables, a: Id)
    requires Complete(t, a)
    ensures Introduces(t, a, Snapshot(t, a))
  {
    var x := TextsOfAnswers(t, a);
    JoinSeven(SnapshotLines(t, a));
    LinesIntroduce(SnapshotLines(t, a), x);
  }

  lemma AppIsMigrated(t: Tables, a: Id)
    requires Checked(t) && a in t.apps
    ensures AppMigrated(t, a, FinalApp(t, a))
  {
    if Active(t.apps[a].status) {
      SnapshotIntroduces(t, a);
    }
  }

  lemma AnswerIsMigrated(t: Tables, i: Id)
    requires Checked(t) && i in t.answers
    ensures AnswerMigrated(t.answers[i], StatusOf(t, t.answers[i]), FinalAnswer(t, i))
  {
    var x := t.answers[i];
    if x.app.Some? && Active(t.apps[x.app.value].status) && x.current {
      assert i in CurrentAnswers(t, x.app.value);
    }
  }

  lemma FinalIsMigrated(t: Tables)
    requires Checked(t)
    ensures Migrated(t, Final(t))
  {
    forall a | a in t.apps ensures AppMigrated(t, a, FinalApp(t, a)) {
      AppIsMigrated(t, a);
    }
    forall i | i in t.answers ensures AnswerMigrated(t.answers[i], StatusOf(t, t.answers[i]), FinalAnswer(t, i)) {
      AnswerIsMigrated(t, i);
    }
  }

  // ------------------------------------------------------------------ the migration as it runs

  datatype MigrationError = DuplicateActive | IncompleteActive | AnswerWithoutApplication | ConstraintViolated

  class Migration {
    var tables: Tables

    constructor (t: Tables)
      ensures tables == t
    {
      tables := t;
    }

    /** One row of `string_agg(… ORDER BY question_index)`. */
    method StringAgg(a: Id) returns (html: string)
      requires Complete(tables, a)
      ensures html == Snapshot(tables, a)
    {
      var ids := CurrentAnswers(tables, a);
      var left, lines: seq<string> := ids, [];
      assert forall i :: i in ids ==> tables.answers[i].index >= 0;
      while left != {}
        invariant |lines| <= 7 && lines == SnapshotLines(tables, a)[..|lines|]
        invariant left == set i | i in ids && tables.answers[i].index >= |lines|
        invariant |lines| < 7 ==> AnswerTo(tables, a, |lines|) in left
      {
        ghost var next := if |lines| <= 6 then AnswerTo(tables, a, |lines|) else 0;
        var i := LowestIndex(left);
        assert i == next;
        lines := lines + [Caption(tables.answers[i].index) + Escape(tables.answers[i].text)];
        left := left - {i};
      }
      assert lines == SnapshotLines(tables, a);
      html := Join(lines);
    }

    method LowestIndex(ids: set<Id>) returns (i: Id)
      requires ids != {} && ids <= tables.answers.Keys
      ensures i in ids && forall j :: j in ids ==> tables.answers[i].index <= tables.answers[j].index
    {
      i :| i in ids;
      var left := ids - {i};
      while left != {}
        invariant left <= ids && i in ids
        invariant forall j :: j in ids - left ==> tables.answers[i].index <= tables.answers[j].index
      {
        var j :| j in left;
        if tables.answers[j].index < tables.answers[i].index {
          i := j;
        }
        left := left - {j};
      }
    }

    /** Every active application with current answers gets its snapshot. */
    method WriteSnapshots()
      requires Checked(tables)
      modifies this
      ensures SnapshotsWritten(old(tables), tables)
    {
      ghost var t := tables;
      ActiveHaveAnswers(t);
      NoneWritten(t);
      var todo := set a | a in tables.apps && Active(tables.apps[a].status) && CurrentAnswers(tables, a) != {};
      var apps := tables.apps;
      while todo != {}
        invariant tables == t && todo <= t.apps.Keys && apps == Written(t, todo)
        invariant forall a :: a in todo ==> Active(t.apps[a].status)
      {
        var a :| a in todo;
        var html := StringAgg(a);
        WrittenNext(t, todo, a);
        apps := apps[a := apps[a].(flowKind := Some("admission"), catalog := Some("legacy-v1"), snapshot := Some(html))];
        todo := todo - {a};
      }
      tables := tables.(apps := apps);
    }

    /** The statements between the preflight and the constraints, in their order. */
    method Transform()
      requires Checked(tables)
      modifies this
      ensures tables == Final(old(tables))
    {
      ghost var t := tables;
      tables := DropStaleFields(tables);
      forall i | i in t.answers ensures tables.answers[i] == t.answers[i] {}
      assert tables == t;
      WriteSnapshots();
      ghost var s := tables;
      tables := NameFields(tables);
      ghost var n := tables;
      tables := ClassifyFilling(tables);
      ghost var c := tables;
      tables := Quarantine(tables, false);
      ghost var q := tables;
      tables := ClassifyTerminal(tables);
      ghost var m := tables;
      tables := Quarantine(tables, true);
      AppsAreFinal(t, s, c, tables);
      EndingKeepsStatuses(c);
      AnswersAreFinal(t, n, q, tables, s, c, m);
    }

    /** The whole migration, in one transaction: an error leaves the tables as they were. */
    method Upgrade() returns (r: Result<(), MigrationError>)
      requires Legacy(tables)
      modifies this
      ensures r == Verdict(old(tables))
      ensures r.Ok? ==> Checked(old(tables)) && tables == Final(old(tables)) && Contract(tables)
      ensures r.Ok? ==> Migrated(old(tables), tables)
      ensures r.Err? ==> tables == old(tables)
    {
      var before := tables;
      NoDuplicateOwners(before);
      ContractUnderChecks(before);
      if |DuplicateOwners(tables)| != 0 {
        return Err(DuplicateActive);
      }
      if |MalformedApps(tables)| != 0 {
        return Err(IncompleteActive);
      }
      PreflightChecks(tables);
      FinalIsMigrated(before);
      Transform();
      if |Orphans(tables)| != 0 {
        tables := before;
        return Err(AnswerWithoutApplication);
      }
      if !Contract(tables) {
        tables := before;
        return Err(ConstraintViolated);
      }
      return Ok(());
    }
  }

  /** An application row after the snapshots. */
  ghost function WithSnapshot(t: Tables, a: Id): App
    requires Checked(t) && a in t.apps
  {
    var x := t.apps[a];
    if Active(x.status)
    then x.(flowKind := Some("admission"), catalog := Some("legacy-v1"), snapshot := Some(Snapshot(t, a)))
    else x
  }

  /** The application rows while the snapshots of `todo` are still to come. */
  ghost function Written(t: Tables, todo: set<Id>): map<Id, App>
    requires Checked(t)
  {
    map a | a in t.apps :: if a in todo then t.apps[a] else WithSnapshot(t, a)
  }

  lemma WrittenNext(t: Tables, todo: set<Id>, a: Id)
    requires Checked(t) && a in todo && todo <= t.apps.Keys && Active(t.apps[a].status)
    ensures a in Written(t, todo) && Written(t, todo)[a] == t.apps[a]
    ensures Written(t, todo - {a}) == Written(t, todo)[a := t.apps[a].(
              flowKind := Some("admission"), catalog := Some("legacy-v1"), snapshot := Some(Snapshot(t, a)))]
  {
  }

  lemma NoneWritten(t: Tables)
    requires Checked(t)
    ensures forall todo :: (forall a :: a in t.apps && Active(t.apps[a].status) ==> a in todo) ==>
              Written(t, todo) == t.apps
  {
  }

  ghost predicate SnapshotsWritten(t: Tables, s: Tables)
    requires Checked(t)
  {
    && s.users == t.users && s.answers == t.answers && s.apps.Keys == t.apps.Keys
    && forall a :: a in t.apps ==> s.apps[a] == WithSnapshot(t, a)
  }

  lemma ActiveHaveAnswers(t: Tables)
    requires Checked(t)
    ensures forall a :: a in t.apps && Active(t.apps[a].status) ==> CurrentAnswers(t, a) != {}
  {
    forall a | a in t.apps && Active(t.apps[a].status) ensures CurrentAnswers(t, a) != {} {
      var i := AnswerTo(t, a, 0);
    }
  }

  ghost predicate SameStatuses(s: Tables, t: Tables) {
    s.apps.Keys == t.apps.Keys && forall a :: a in t.apps ==> s.apps[a].status == t.apps[a].status
  }

  lemma AppsAreFinal(t: Tables, s: Tables, c: Tables, f: Tables)
    requires Checked(t) && SnapshotsWritten(t, s)
    requires c.users == s.users && c.apps == ClassifyFilling(s).apps
    requires f.apps == ClassifyTerminal(c).apps
    ensures f.apps == Final(t).apps
    ensures SameStatuses(s, t) && SameStatuses(c, t)
  {
    forall a | a in t.apps ensures a in f.apps && f.apps[a] == FinalApp(t, a) && c.apps[a].status == t.apps[a].status {
      AppGoesThrough(t, s, c, f, a);
    }
  }

  lemma EndingKeepsStatuses(c: Tables)
    ensures SameStatuses(ClassifyTerminal(c), c)
  {
  }

  lemma AppGoesThrough(t: Tables, s: Tables, c: Tables, f: Tables, a: Id)
    requires Checked(t) && SnapshotsWritten(t, s) && a in t.apps
    requires c.apps == ClassifyFilling(s).apps && f.apps == ClassifyTerminal(c).apps
    ensures a in f.apps && f.apps[a] == FinalApp(t, a) && a in c.apps && c.apps[a].status == t.apps[a].status
  {
    AppIsFinal(t, a);
    assert c.apps[a] == Filled(t.users, s.apps[a]) && f.apps[a] == Ended(c.apps[a]);
  }

  lemma AppIsFinal(t: Tables, a: Id)
    requires Checked(t) && a in t.apps
    ensures Ended(Filled(t.users, WithSnapshot(t, a))) == FinalApp(t, a)
    ensures Filled(t.users, WithSnapshot(t, a)).status == t.apps[a].status
  {
  }

  lemma AnswersAreFinal(t: Tables, n: Tables, q: Tables, f: Tables, s: Tables, c: Tables, m: Tables)
    requires Checked(t) && SameStatuses(s, t) && SameStatuses(c, t) && SameStatuses(m, t)
    requires s.answers == t.answers && n.answers == NameFields(s).answers
    requires c.answers == n.answers && q.answers == Quarantine(c, false).answers
    requires m.answers == q.answers && f.answers == Quarantine(m, true).answers
    ensures f.answers == Final(t).answers
  {
    forall i | i in t.answers ensures i in f.answers && f.answers[i] == FinalAnswer(t, i) {
      AnswerGoesThrough(t, n, q, f, s, c, m, i);
    }
  }

  lemma AnswerGoesThrough(t: Tables, n: Tables, q: Tables, f: Tables, s: Tables, c: Tables, m: Tables, i: Id)
    requires Checked(t) && SameStatuses(s, t) && SameStatuses(c, t) && SameStatuses(m, t) && i in t.answers
    requires s.answers == t.answers && n.answers == NameFields(s).answers
    requires c.answers == n.answers && q.answers == Quarantine(c, false).answers
    requires m.answers == q.answers && f.answers == Quarantine(m, true).answers
    ensures i in f.answers && f.answers[i] == FinalAnswer(t, i)
  {
    var st := StatusOf(t, t.answers[i]);
    assert n.answers[i] == Named(st, t.answers[i]);
    assert q.answers[i] == SetAside(st, n.answers[i], false);
    assert f.answers[i] == SetAside(st, q.answers[i], true);
    RowIsFinal(t, i);
  }

  lemma RowIsFinal(t: Tables, i: Id)
    requires Checked(t) && i in t.answers
    ensures var st := StatusOf(t, t.answers[i]);
            FinalAnswer(t, i) == SetAside(st, SetAside(st, Named(st, t.answers[i]), false), true)
  {
  }

  lemma PreflightChecks(t: Tables)
    requires Legacy(t)
    ensures MalformedApps(t) == {} <==> Checked(t)
  {
    forall a | a in t.apps ensures !Malformed(t, a) <==> Complete(t, a) {
      PreflightMeansComplete(t, a);
    }
    if MalformedApps(t) == {} {
      forall a | a in t.apps && Active(t.apps[a].status) ensures Complete(t, a) {
        assert a !in MalformedApps(t);
      }
    }
  }

  /** What becomes of the migration, told by the legacy tables alone. */
  ghost function Verdict(t: Tables): Result<(), MigrationError>
    requires Legacy(t)
  {
    if !ActiveOwnersDiffer(t) then Err(DuplicateActive)
    else if exists a :: a in t.apps && Active(t.apps[a].status) && !Complete(t, a) then Err(IncompleteActive)
    else if exists i :: i in t.answers && t.answers[i].app.None? then Err(AnswerWithoutApplication)
    else if !(KnownStatuses(t) && OneFillingPerMember(t) && OwnersMatch(t)) then Err(ConstraintViolated)
    else Ok(())
  }

  lemma ContractUnderChecks(t: Tables)
    requires Legacy(t)
    ensures MalformedApps(t) == {} <==> Checked(t)
    ensures Checked(t) ==> Orphans(Final(t)) == Orphans(t)
    ensures Orphans(t) == {} <==> !exists i :: i in t.answers && t.answers[i].app.None?
    ensures Checked(t) && Orphans(t) == {} ==>
            (Contract(Final(t)) <==> KnownStatuses(t) && OneFillingPerMember(t) && OwnersMatch(t))
  {
    PreflightChecks(t);
    if i :| i in t.answers && t.answers[i].app.None? {
      assert i in Orphans(t);
    }
    if Checked(t) {
      forall i | i in t.answers ensures Final(t).answers[i].app == t.answers[i].app {}
      if Orphans(t) == {} {
        ContractIff(t);
      }
    }
  }
}
