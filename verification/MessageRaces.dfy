/**
 Edit transactions and the version backfill as concurrent agents over many messages.

 An edit transaction takes the message lock, reads the stored policy, and later writes
 and commits; a backfill selects a batch, then for each row locks it, reads it again,
 inserts the first version and sets the pointer, and keeps its locks until it commits.
 Every action can happen whenever its guard holds; a disabled action changes nothing.
 */
module MessageRaces {
  import opened Prelude
  import opened MessageHistory

  type MessageId = nat

  datatype Agent = Editor(n: nat) | Backfiller

  datatype EditorPc =
    | Waiting(id: MessageId, edit: Edit)
    | Holding(id: MessageId, edit: Edit)
    | HasRead(id: MessageId, edit: Edit, seen: Policy)

  datatype BackfillPc =
    | Selecting
    | Walking(queue: seq<MessageId>)
    | Locked(id: MessageId, queue: seq<MessageId>)
    | Reread(id: MessageId, row: Row, queue: seq<MessageId>)
    | Inserted(id: MessageId, queue: seq<MessageId>)
    | Committed

  datatype System = System(
    db: map<MessageId, Message>,
    holder: map<MessageId, Agent>,
    editors: map<nat, EditorPc>,
    backfill: BackfillPc)

  datatype Action =
    | Ingest(id: MessageId, message: Message)
    | Arrive(n: nat, id: MessageId, edit: Edit)
    | TakeLock(n: nat)
    | ReadPolicy(n: nat)
    | WriteAndCommit(n: nat)
    | Abandon(n: nat)
    | SelectBatch(ids: seq<MessageId>)
    | LockNext
    | RereadRow
    | InsertFirst
    | SetPointer
    | CommitBackfill

  // ------------------------------------------------------------------ the steps

  function EditorStep(sv: Services, s: System, a: Action): System
    requires a.TakeLock? || a.ReadPolicy? || a.WriteAndCommit? || a.Abandon?
  {
    if a.n !in s.editors then s
    else
      var pc := s.editors[a.n];
      match a
      case TakeLock(n) =>
        if pc.Waiting? && pc.id !in s.holder then
          s.(holder := s.holder[pc.id := Editor(n)], editors := s.editors[n := Holding(pc.id, pc.edit)])
        else s
      case ReadPolicy(n) =>
        if pc.Holding? && pc.id in s.db then
          s.(editors := s.editors[n := HasRead(pc.id, pc.edit, s.db[pc.id].row.policy)])
        else s
      case WriteAndCommit(n) =>
        if pc.HasRead? && pc.id in s.db then
          s.(db := s.db[pc.id := EditWith(sv, pc.seen, s.db[pc.id], pc.edit)],
             holder := s.holder - {pc.id}, editors := s.editors - {n})
        else s
      case Abandon(n) =>
        s.(holder := if pc.Waiting? then s.holder else s.holder - {pc.id}, editors := s.editors - {n})
  }

  function BackfillAction(sv: Services, s: System, a: Action): System
    requires a.SelectBatch? || a.LockNext? || a.RereadRow? || a.InsertFirst? || a.SetPointer? || a.CommitBackfill?
  {
    var pc := s.backfill;
    match a
    case SelectBatch(ids) =>
      // Whatever the unlocked read returned; the rows may change before they are locked.
      if pc.Selecting? && forall id :: id in ids ==> id in s.db then s.(backfill := Walking(ids)) else s
    case LockNext =>
      if pc.Walking? && pc.queue == [] then s.(backfill := Selecting)
      else if pc.Walking? && (pc.queue[0] !in s.holder || s.holder[pc.queue[0]].Backfiller?) then
        s.(holder := s.holder[pc.queue[0] := Backfiller], backfill := Locked(pc.queue[0], pc.queue[1..]))
      else s
    case RereadRow =>
      if pc.Locked? && pc.id in s.db then
        if s.db[pc.id].row.current.Some? then s.(backfill := Walking(pc.queue))
        else s.(backfill := Reread(pc.id, s.db[pc.id].row, pc.queue))
      else s
    case InsertFirst =>
      if pc.Reread? && pc.id in s.db then
        var m := s.db[pc.id];
        s.(db := s.db[pc.id := m.(versions := m.versions + [FirstVersion(sv, pc.row)])],
           backfill := Inserted(pc.id, pc.queue))
      else s
    case SetPointer =>
      if pc.Inserted? && pc.id in s.db then
        var m := s.db[pc.id];
        s.(db := s.db[pc.id := m.(row := m.row.(current := Some(0)))], backfill := Walking(pc.queue))
      else s
    case CommitBackfill =>
      if pc.Selecting? then
        s.(backfill := Committed, holder := map id | id in s.holder && !s.holder[id].Backfiller? :: s.holder[id])
      else s
  }

  function Step(sv: Services, s: System, a: Action): System {
    match a
    case Ingest(id, m) =>
      if id in s.db || m.versions != [] || m.row.current.Some? then s else s.(db := s.db[id := m])
    case Arrive(n, id, e) =>
      // An edit of an unknown message returns at once.
      if n in s.editors || id !in s.db then s else s.(editors := s.editors[n := Waiting(id, e)])
    case TakeLock(_) => EditorStep(sv, s, a)
    case ReadPolicy(_) => EditorStep(sv, s, a)
    case WriteAndCommit(_) => EditorStep(sv, s, a)
    case Abandon(_) => EditorStep(sv, s, a)
    case _ => BackfillAction(sv, s, a)
  }

  function Run(sv: Services, s: System, acts: seq<Action>): System
    decreases |acts|
  {
    if acts == [] then s else Run(sv, Step(sv, s, acts[0]), acts[1..])
  }

  // ------------------------------------------------------------------ the invariant

  /** Ingested rows arrive without versions and already redacted when they are off-record. */
  ghost predicate GoodIngest(a: Action) {
    a.Ingest? && a.message.versions == [] && a.message.row.current.None? ==> Coherent(a.message)
  }

  ghost predicate EditorOk(s: System, n: nat) {
    n in s.editors ==>
      var pc := s.editors[n];
      && pc.id in s.db
      && (!pc.Waiting? ==> pc.id in s.holder && s.holder[pc.id] == Editor(n))
      && (pc.HasRead? ==> s.db[pc.id].row.policy == pc.seen)
  }

  ghost predicate BackfillOk(sv: Services, s: System) {
    var pc := s.backfill;
    && (pc.Walking? || pc.Locked? || pc.Reread? || pc.Inserted? ==> forall id :: id in pc.queue ==> id in s.db)
    && (pc.Locked? || pc.Reread? || pc.Inserted? ==>
          pc.id in s.db && pc.id in s.holder && s.holder[pc.id].Backfiller?)
    && (pc.Reread? ==> s.db[pc.id].row == pc.row && pc.row.current.None?)
    && (pc.Inserted? ==> HalfFilled(sv, s.db[pc.id]))
  }

  /** Between the insert and the pointer update: completing the update makes it coherent. */
  ghost predicate HalfFilled(sv: Services, m: Message) {
    && m.row.current.None?
    && m.versions == [FirstVersion(sv, m.row)]
    && Private(m)
    && Coherent(m.(row := m.row.(current := Some(0))))
  }

  ghost predicate Inv(sv: Services, s: System) {
    && (forall id :: id in s.db && !(s.backfill.Inserted? && s.backfill.id == id) ==> Coherent(s.db[id]))
    && (forall n :: EditorOk(s, n))
    && BackfillOk(sv, s)
  }

  // ------------------------------------------------------------------ every step keeps it

  lemma EditorStepKeepsInv(sv: Services, s: System, a: Action)
    requires Inv(sv, s)
    requires a.TakeLock? || a.ReadPolicy? || a.WriteAndCommit? || a.Abandon?
    ensures Inv(sv, Step(sv, s, a))
  {
    var t := Step(sv, s, a);
    if a.n in s.editors {
      var pc := s.editors[a.n];
      assert EditorOk(s, a.n);
      if a.WriteAndCommit? && pc.HasRead? {
        assert Coherent(s.db[pc.id]);
        EditKeepsCoherence(sv, s.db[pc.id], pc.edit);
      }
      forall n ensures EditorOk(t, n) {
        assert EditorOk(s, n);
      }
    }
  }

  lemma InsertKeepsInv(sv: Services, s: System)
    requires Inv(sv, s) && s.backfill.Reread?
    ensures Inv(sv, Step(sv, s, InsertFirst))
  {
    var pc := s.backfill;
    var m := s.db[pc.id];
    var t := Step(sv, s, InsertFirst);
    assert t == BackfillAction(sv, s, InsertFirst);
    assert Coherent(m);
    BackfillKeepsCoherence(sv, m);
    var half := t.db[pc.id];
    assert half.versions == [FirstVersion(sv, m.row)];
    assert half.(row := half.row.(current := Some(0))) == BackfillStep(sv, m);
    assert HalfFilled(sv, half);
    forall n ensures EditorOk(t, n) {
      assert EditorOk(s, n);
    }
  }

  lemma PointerKeepsInv(sv: Services, s: System)
    requires Inv(sv, s) && s.backfill.Inserted?
    ensures Inv(sv, Step(sv, s, SetPointer))
  {
    var t := Step(sv, s, SetPointer);
    assert t == BackfillAction(sv, s, SetPointer);
    forall n ensures EditorOk(t, n) {
      assert EditorOk(s, n);
    }
  }

  lemma EditorsUntouched(s: System, t: System)
    requires t.db == s.db && t.editors == s.editors && forall n :: EditorOk(s, n)
    requires forall id :: id in s.holder && s.holder[id].Editor? ==> id in t.holder && t.holder[id] == s.holder[id]
    ensures forall n :: EditorOk(t, n)
  {
    forall n ensures EditorOk(t, n) {
      assert EditorOk(s, n);
    }
  }

  lemma WalkKeepsRows(sv: Services, s: System, a: Action)
    requires Inv(sv, s)
    requires a.SelectBatch? || a.LockNext? || a.RereadRow? || a.CommitBackfill?
    ensures var t := BackfillAction(sv, s, a);
            && BackfillOk(sv, t) && t.db == s.db && t.editors == s.editors
            && (s.backfill.Inserted? || t.backfill.Inserted? ==> t.backfill == s.backfill)
  {
  }

  lemma WalkKeepsEditors(sv: Services, s: System, a: Action)
    requires a.SelectBatch? || a.LockNext? || a.RereadRow? || a.CommitBackfill?
    ensures var t := BackfillAction(sv, s, a);
            forall id :: id in s.holder && s.holder[id].Editor? ==> id in t.holder && t.holder[id] == s.holder[id]
  {
  }

  lemma WalkKeepsInv(sv: Services, s: System, a: Action)
    requires Inv(sv, s)
    requires a.SelectBatch? || a.LockNext? || a.RereadRow? || a.CommitBackfill?
    ensures Inv(sv, Step(sv, s, a))
  {
    var t := Step(sv, s, a);
    assert t == BackfillAction(sv, s, a);
    WalkKeepsRows(sv, s, a);
    WalkKeepsEditors(sv, s, a);
    EditorsUntouched(s, t);
  }

  lemma StepKeepsInv(sv: Services, s: System, a: Action)
    requires Inv(sv, s) && GoodIngest(a)
    ensures Inv(sv, Step(sv, s, a))
  {
    var t := Step(sv, s, a);
    match a {
      case Ingest(_, _) =>
        forall n ensures EditorOk(t, n) { assert EditorOk(s, n); }
      case Arrive(_, _, _) =>
        forall n ensures EditorOk(t, n) { assert EditorOk(s, n); }
      case TakeLock(_) => EditorStepKeepsInv(sv, s, a);
      case ReadPolicy(_) => EditorStepKeepsInv(sv, s, a);
      case WriteAndCommit(_) => EditorStepKeepsInv(sv, s, a);
      case Abandon(_) => EditorStepKeepsInv(sv, s, a);
      case InsertFirst =>
        if s.backfill.Reread? { InsertKeepsInv(sv, s); }
      case SetPointer =>
        if s.backfill.Inserted? { PointerKeepsInv(sv, s); }
      case _ => WalkKeepsInv(sv, s, a);
    }
  }

  lemma CommitKeepsOffRecord(sv: Services, s: System, n: nat, id: MessageId)
    requires Inv(sv, s) && id in s.db && s.db[id].row.policy.OffRecord?
    ensures id in Step(sv, s, WriteAndCommit(n)).db
    ensures Step(sv, s, WriteAndCommit(n)).db[id].row.policy.OffRecord?
  {
    if n in s.editors && s.editors[n].HasRead? && s.editors[n].id == id {
      assert EditorOk(s, n);
      EditKeepsCoherence(sv, s.db[id], s.editors[n].edit);
    }
  }

  lemma StepKeepsOffRecord(sv: Services, s: System, a: Action, id: MessageId)
    requires Inv(sv, s) && id in s.db && s.db[id].row.policy.OffRecord?
    ensures id in Step(sv, s, a).db && Step(sv, s, a).db[id].row.policy.OffRecord?
  {
    if a.WriteAndCommit? {
      CommitKeepsOffRecord(sv, s, a.n, id);
    }
  }

  // ------------------------------------------------------------------ the theorems

  ghost predicate Initial(s: System) {
    && (forall id :: id in s.db ==> Coherent(s.db[id]))
    && s.holder == map[] && s.editors == map[] && s.backfill.Selecting?
  }

  /**
   In every interleaving, every off-record message stays off-record and carries no content
   in row or versions; every message whose lock the backfill does not hold is coherent.
   */
  lemma {:induction false} InterleavingSafety(sv: Services, s: System, acts: seq<Action>)
    requires Inv(sv, s) && forall a :: a in acts ==> GoodIngest(a)
    ensures var t := Run(sv, s, acts);
            && Inv(sv, t)
            && (forall id :: id in t.db ==> Private(t.db[id]))
            && (forall id :: id in t.db && (id !in t.holder || !t.holder[id].Backfiller?) ==> Coherent(t.db[id]))
            && (forall id :: id in s.db && s.db[id].row.policy.OffRecord? ==>
                  id in t.db && t.db[id].row.policy.OffRecord?)
    decreases |acts|
  {
    if acts != [] {
      var next := Step(sv, s, acts[0]);
      StepKeepsInv(sv, s, acts[0]);
      forall id | id in s.db && s.db[id].row.policy.OffRecord?
        ensures id in next.db && next.db[id].row.policy.OffRecord?
      {
        StepKeepsOffRecord(sv, s, acts[0], id);
      }
      InterleavingSafety(sv, next, acts[1..]);
    }
  }

  lemma InterleavingSafetyFromStart(sv: Services, s: System, acts: seq<Action>)
    requires Initial(s) && forall a :: a in acts ==> GoodIngest(a)
    ensures forall id :: id in Run(sv, s, acts).db ==> Private(Run(sv, s, acts).db[id])
    ensures Run(sv, s, acts).backfill.Committed? ==>
              forall id :: id in Run(sv, s, acts).db ==> Coherent(Run(sv, s, acts).db[id])
  {
    InterleavingSafety(sv, s, acts);
  }

  // ------------------------------------------------------------------ serializability

  /** What a step commits on message `id`: the writer's edit, or the completed fill. */
  function EventsOf(s: System, a: Action, id: MessageId): seq<Event> {
    if a.WriteAndCommit? && a.n in s.editors && s.editors[a.n].HasRead? && s.editors[a.n].id == id && id in s.db then
      [Edited(s.editors[a.n].edit)]
    else if a.SetPointer? && HalfOf(s, id) && id in s.db then
      [Filled]
    else []
  }

  /** What a run commits on message `id`, in order. */
  function EventsOn(sv: Services, s: System, acts: seq<Action>, id: MessageId): seq<Event>
    decreases |acts|
  {
    if acts == [] then [] else EventsOf(s, acts[0], id) + EventsOn(sv, Step(sv, s, acts[0]), acts[1..], id)
  }

  function WithFirst(sv: Services, m: Message): Message {
    m.(versions := m.versions + [FirstVersion(sv, m.row)])
  }

  /** The backfill has inserted the first version of `id` and not yet set its pointer. */
  predicate HalfOf(s: System, id: MessageId) {
    s.backfill.Inserted? && s.backfill.id == id
  }

  /** The message stands at `m`, or at `m` with the half-done insert of a backfill. */
  ghost predicate StandsAt(sv: Services, s: System, id: MessageId, m: Message) {
    && id in s.db
    && s.db[id] == (if HalfOf(s, id) then WithFirst(sv, m) else m)
    && (HalfOf(s, id) ==> m.row.current.None?)
  }

  lemma OneEvent(sv: Services, m: Message, ev: Event)
    ensures EventRun(sv, m, [ev]) == EventStep(sv, m, ev) && EventRun(sv, m, []) == m
  {
    assert [ev][1..] == [];
  }

  lemma EditorStepStands(sv: Services, s: System, a: Action, id: MessageId, m: Message)
    requires Inv(sv, s) && StandsAt(sv, s, id, m)
    requires a.TakeLock? || a.ReadPolicy? || a.WriteAndCommit? || a.Abandon?
    ensures StandsAt(sv, EditorStep(sv, s, a), id, EventRun(sv, m, EventsOf(s, a, id)))
  {
    if a.n in s.editors {
      assert EditorOk(s, a.n);
      OneEvent(sv, m, Edited(s.editors[a.n].edit));
    }
  }

  lemma FillStands(sv: Services, s: System, a: Action, id: MessageId, m: Message)
    requires Inv(sv, s) && StandsAt(sv, s, id, m) && (a.InsertFirst? || a.SetPointer?)
    ensures StandsAt(sv, BackfillAction(sv, s, a), id, EventRun(sv, m, EventsOf(s, a, id)))
  {
    OneEvent(sv, m, Filled);
    if HalfOf(s, id) {
      assert HalfFilled(sv, s.db[id]);
    }
  }

  lemma WalkStands(sv: Services, s: System, a: Action, id: MessageId, m: Message)
    requires Inv(sv, s) && StandsAt(sv, s, id, m)
    requires a.SelectBatch? || a.LockNext? || a.RereadRow? || a.CommitBackfill?
    ensures EventsOf(s, a, id) == [] && StandsAt(sv, BackfillAction(sv, s, a), id, m)
  {
    WalkKeepsRows(sv, s, a);
  }

  lemma BackfillStepStands(sv: Services, s: System, a: Action, id: MessageId, m: Message)
    requires Inv(sv, s) && StandsAt(sv, s, id, m)
    requires a.SelectBatch? || a.LockNext? || a.RereadRow? || a.InsertFirst? || a.SetPointer? || a.CommitBackfill?
    ensures StandsAt(sv, BackfillAction(sv, s, a), id, EventRun(sv, m, EventsOf(s, a, id)))
  {
    if a.InsertFirst? || a.SetPointer? {
      FillStands(sv, s, a, id, m);
    } else {
      WalkStands(sv, s, a, id, m);
    }
  }

  lemma StepStands(sv: Services, s: System, a: Action, id: MessageId, m: Message)
    requires Inv(sv, s) && StandsAt(sv, s, id, m)
    ensures StandsAt(sv, Step(sv, s, a), id, EventRun(sv, m, EventsOf(s, a, id)))
  {
    if a.TakeLock? || a.ReadPolicy? || a.WriteAndCommit? || a.Abandon? {
      EditorStepStands(sv, s, a, id, m);
    } else if !a.Ingest? && !a.Arrive? {
      BackfillStepStands(sv, s, a, id, m);
    }
  }

  lemma {:induction false} RunStands(sv: Services, s: System, acts: seq<Action>, id: MessageId, m: Message)
    requires Inv(sv, s) && (forall a :: a in acts ==> GoodIngest(a)) && StandsAt(sv, s, id, m)
    ensures StandsAt(sv, Run(sv, s, acts), id, EventRun(sv, m, EventsOn(sv, s, acts, id)))
    decreases |acts|
  {
    if acts != [] {
      var next, evs := Step(sv, s, acts[0]), EventsOf(s, acts[0], id);
      StepStands(sv, s, acts[0], id, m);
      StepKeepsInv(sv, s, acts[0]);
      RunStands(sv, next, acts[1..], id, EventRun(sv, m, evs));
      EventRunConcat(sv, m, evs, EventsOn(sv, next, acts[1..], id));
    }
  }

  /**
   Serializability: every interleaving leaves a message as the sequence of exactly the edits and
   fills that the run committed on it, in the order of their commits, would; the half-done insert
   of a backfill is the only intermediate state.
   */
  lemma Serializable(sv: Services, s: System, acts: seq<Action>, id: MessageId)
    requires Initial(s) && id in s.db && forall a :: a in acts ==> GoodIngest(a)
    ensures StandsAt(sv, Run(sv, s, acts), id, EventRun(sv, s.db[id], EventsOn(sv, s, acts, id)))
  {
    RunStands(sv, s, acts, id, s.db[id]);
  }

  lemma {:induction false} RunConcat(sv: Services, s: System, a: seq<Action>, b: seq<Action>)
    ensures Run(sv, s, a + b) == Run(sv, Run(sv, s, a), b)
    decreases |a|
  {
    if a == [] {
      assert a + b == b;
    } else {
      assert (a + b)[0] == a[0] && (a + b)[1..] == a[1..] + b;
      RunConcat(sv, Step(sv, s, a[0]), a[1..], b);
    }
  }

  lemma IngestStands(sv: Services, n: System, id: MessageId, m: Message)
    requires Inv(sv, n) && id !in n.db && m.versions == [] && m.row.current.None? && GoodIngest(Ingest(id, m))
    ensures Inv(sv, Step(sv, n, Ingest(id, m))) && StandsAt(sv, Step(sv, n, Ingest(id, m)), id, m)
  {
    StepKeepsInv(sv, n, Ingest(id, m));
  }

  ghost predicate AllGood(acts: seq<Action>) {
    forall a :: a in acts ==> GoodIngest(a)
  }

  /** The same for a message that is ingested during the run, from then on. */
  lemma SerializableSinceIngest(sv: Services, s: System, before: seq<Action>, a: Action, acts: seq<Action>)
    requires Initial(s) && AllGood(before) && GoodIngest(a) && AllGood(acts)
    requires a.Ingest? && a.id !in Run(sv, s, before).db && a.message.versions == [] && a.message.row.current.None?
    ensures var t := Step(sv, Run(sv, s, before), a);
            StandsAt(sv, Run(sv, s, before + ([a] + acts)), a.id, EventRun(sv, a.message, EventsOn(sv, t, acts, a.id)))
  {
    var n := Run(sv, s, before);
    InterleavingSafety(sv, s, before);
    IngestStands(sv, n, a.id, a.message);
    RunStands(sv, Step(sv, n, a), acts, a.id, a.message);
    RunConcat(sv, s, before, [a] + acts);
    RunCons(sv, n, a, acts);
  }

  lemma RunCons(sv: Services, s: System, a: Action, acts: seq<Action>)
    ensures Run(sv, s, [a] + acts) == Run(sv, Step(sv, s, a), acts)
  {
    assert ([a] + acts)[1..] == acts;
  }

  /** An edit of `id` with this content is under way. */
  ghost predicate UnderWay(s: System, id: MessageId, e: Edit) {
    exists n :: n in s.editors && s.editors[n].id == id && s.editors[n].edit == e
  }

  lemma StepSends(sv: Services, s: System, a: Action, id: MessageId, e: Edit)
    requires UnderWay(Step(sv, s, a), id, e)
    ensures UnderWay(s, id, e) || (a.Arrive? && a.id == id && a.edit == e)
  {
    var t := Step(sv, s, a);
    var n :| n in t.editors && t.editors[n].id == id && t.editors[n].edit == e;
    if n in s.editors {
      assert s.editors[n].id == id && s.editors[n].edit == e;
    }
  }

  /** The committed edits are those that arrived for the message, unchanged. */
  lemma {:induction false} CommittedEditsArrived(sv: Services, s: System, acts: seq<Action>, id: MessageId, e: Edit)
    requires Edited(e) in EventsOn(sv, s, acts, id)
    ensures UnderWay(s, id, e) || exists i :: 0 <= i < |acts| && acts[i].Arrive? && acts[i].id == id && acts[i].edit == e
    decreases |acts|
  {
    if Edited(e) !in EventsOf(s, acts[0], id) {
      CommittedEditsArrived(sv, Step(sv, s, acts[0]), acts[1..], id, e);
      if UnderWay(Step(sv, s, acts[0]), id, e) {
        StepSends(sv, s, acts[0], id, e);
      } else {
        var i :| 0 <= i < |acts| - 1 && acts[1..][i].Arrive? && acts[1..][i].id == id && acts[1..][i].edit == e;
        assert acts[i + 1] == acts[1..][i];
      }
    }
  }
}
