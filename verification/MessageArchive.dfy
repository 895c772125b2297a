/**
 The edit handler and the backfill migration in the form the program has them:
 statement by statement over the stored tables, proved against `MessageHistory`.
 */
module MessageArchive {
  import opened Prelude
  import opened MessageHistory

  type MessageId = nat
  datatype Address = Address(chatId: int, messageId: int)

  /** What happened to the table, in order: an edit of a row, or a first version for it. */
  datatype Entry = EditOf(id: MessageId, edit: Edit) | FillOf(id: MessageId)

  function Replay1(sv: Services, db: map<MessageId, Message>, x: Entry): map<MessageId, Message> {
    if x.id !in db then db
    else db[x.id := if x.EditOf? then EditStep(sv, db[x.id], x.edit) else BackfillStep(sv, db[x.id])]
  }

  function Replay(sv: Services, db: map<MessageId, Message>, log: seq<Entry>): map<MessageId, Message> {
    if log == [] then db else Replay1(sv, Replay(sv, db, log[..|log| - 1]), log[|log| - 1])
  }

  function FillCount(log: seq<Entry>): nat {
    if log == [] then 0 else FillCount(log[..|log| - 1]) + (if log[|log| - 1].FillOf? then 1 else 0)
  }

  function Unversioned(db: map<MessageId, Message>): set<MessageId> {
    set id | id in db && db[id].row.current.None?
  }

  ghost predicate AllCoherent(db: map<MessageId, Message>) {
    forall id :: id in db ==> Coherent(db[id])
  }

  /**
   A log the backfill may produce: a row is filled only while it has no version, and once
   filled (its lock is then held until the migration commits) nothing else touches it.
   */
  ghost predicate ProperLog(sv: Services, db: map<MessageId, Message>, log: seq<Entry>) {
    forall k :: 0 <= k < |log| && log[k].FillOf? ==>
      && log[k].id in Unversioned(Replay(sv, db, log[..k]))
      && forall j :: k < j < |log| ==> log[j].id != log[k].id
  }

  lemma ReplayStep(sv: Services, db: map<MessageId, Message>, log: seq<Entry>, x: Entry)
    ensures Replay(sv, db, log + [x]) == Replay1(sv, Replay(sv, db, log), x)
    ensures FillCount(log + [x]) == FillCount(log) + (if x.FillOf? then 1 else 0)
  {
    assert (log + [x])[..|log|] == log;
  }

  lemma AppendProper(sv: Services, db: map<MessageId, Message>, log: seq<Entry>, x: Entry)
    requires ProperLog(sv, db, log)
    requires x.FillOf? ==> x.id in Unversioned(Replay(sv, db, log))
    requires forall y :: y in log && y.FillOf? ==> y.id != x.id
    ensures ProperLog(sv, db, log + [x])
  {
    var longer := log + [x];
    forall k | 0 <= k < |longer| && longer[k].FillOf?
      ensures longer[k].id in Unversioned(Replay(sv, db, longer[..k]))
      ensures forall j :: k < j < |longer| ==> longer[j].id != longer[k].id
    {
      assert longer[..k] == log[..k];
      if k == |log| {
        assert log[..k] == log;
      } else {
        assert log[k] in log;
      }
    }
  }

  ghost predicate FillsIn(log: seq<Entry>, ids: set<MessageId>) {
    forall x :: x in log && x.FillOf? ==> x.id in ids
  }

  /** Replacing one row by a coherent one that still has its version, if it had one. */
  lemma RowReplaced(db: map<MessageId, Message>, id: MessageId, m: Message)
    requires AllCoherent(db) && id in db && Coherent(m) && (db[id].row.current.Some? ==> m.row.current.Some?)
    ensures AllCoherent(db[id := m]) && db[id := m].Keys == db.Keys
    ensures Unversioned(db[id := m]) <= Unversioned(db)
    ensures m.row.current.Some? ==> id !in Unversioned(db[id := m])
  {
  }

  /** Edits and fills keep coherence, keep the set of rows, and never unset a current version. */
  lemma Replay1Facts(sv: Services, db: map<MessageId, Message>, x: Entry)
    requires AllCoherent(db)
    ensures AllCoherent(Replay1(sv, db, x))
    ensures Replay1(sv, db, x).Keys == db.Keys
    ensures Unversioned(Replay1(sv, db, x)) <= Unversioned(db)
    ensures x.FillOf? ==> x.id !in Unversioned(Replay1(sv, db, x))
  {
    if x.id in db {
      if x.EditOf? {
        EditKeepsCoherence(sv, db[x.id], x.edit);
        RowReplaced(db, x.id, EditStep(sv, db[x.id], x.edit));
      } else {
        BackfillKeepsCoherence(sv, db[x.id]);
        RowReplaced(db, x.id, BackfillStep(sv, db[x.id]));
      }
    }
  }

  lemma {:induction false} ReplayFacts(sv: Services, db: map<MessageId, Message>, log: seq<Entry>)
    requires AllCoherent(db)
    ensures AllCoherent(Replay(sv, db, log))
    ensures Replay(sv, db, log).Keys == db.Keys
    ensures Unversioned(Replay(sv, db, log)) <= Unversioned(db)
    decreases |log|
  {
    if log != [] {
      ReplayFacts(sv, db, log[..|log| - 1]);
      Replay1Facts(sv, Replay(sv, db, log[..|log| - 1]), log[|log| - 1]);
    }
  }

  /** One row's edits in a log, in order. */
  function EditsOf(id: MessageId, log: seq<Entry>): seq<Event> {
    if log == [] then []
    else
      var x := log[|log| - 1];
      EditsOf(id, log[..|log| - 1]) + (if x.id == id && x.EditOf? then [Edited(x.edit)] else [])
  }

  // ------------------------------------------------------------------ the schedule

  type Schedule = nat -> seq<(MessageId, Edit)>

  /** Those of the edits that take effect: on a known message, and not waiting for a locked row. */
  function Effective(ids: set<MessageId>, locked: set<MessageId>, edits: seq<(MessageId, Edit)>): seq<Entry> {
    if edits == [] then []
    else Effective(ids, locked, edits[..|edits| - 1]) + Hit(ids, locked, edits[|edits| - 1])
  }

  /** What one edit adds to the log. */
  function Hit(ids: set<MessageId>, locked: set<MessageId>, edit: (MessageId, Edit)): seq<Entry> {
    if edit.0 in ids && edit.0 !in locked then [EditOf(edit.0, edit.1)] else []
  }

  /** A log continues an older one by no fill and by the edits that took effect. */
  ghost predicate Since(
      ids: set<MessageId>, locked: set<MessageId>, done: seq<Entry>, log: seq<Entry>, edits: seq<(MessageId, Edit)>)
  {
    FillCount(log) == FillCount(done) && EditEntries(log) == EditEntries(done) + Effective(ids, locked, edits)
  }

  lemma EditEntriesHit(ids: set<MessageId>, locked: set<MessageId>, edit: (MessageId, Edit), log: seq<Entry>)
    ensures EditEntries(log + Hit(ids, locked, edit)) == EditEntries(log) + Hit(ids, locked, edit)
  {
    assert log + [] == log;
    EditEntriesSnoc(log, EditOf(edit.0, edit.1));
  }

  /** One more edit of the list. */
  lemma SinceNext(ids: set<MessageId>, locked: set<MessageId>, done: seq<Entry>, log: seq<Entry>,
                  edits: seq<(MessageId, Edit)>, i: nat, more: seq<Entry>)
    requires i < |edits| && Since(ids, locked, done, log, edits[..i]) && more == Hit(ids, locked, edits[i])
    requires FillCount(log + more) == FillCount(log)
    ensures Since(ids, locked, done, log + more, edits[..i + 1])
  {
    EditEntriesHit(ids, locked, edits[i], log);
    assert edits[..i + 1][..i] == edits[..i];
    assert EditEntries(done) + Effective(ids, locked, edits[..i]) + more ==
           EditEntries(done) + (Effective(ids, locked, edits[..i]) + more);
  }

  /** The rows locked by the migration's first statements; `None` for a statement that locks nothing. */
  function LockedBy(locks: seq<Option<MessageId>>): set<MessageId> {
    set x | x in locks && x.Some? :: x.value
  }

  /** The edits of the schedule that take effect, in order, given which statement locks which row. */
  function EffectiveEdits(ids: set<MessageId>, schedule: Schedule, locks: seq<Option<MessageId>>): seq<Entry> {
    if locks == [] then []
    else
      var before := locks[..|locks| - 1];
      EffectiveEdits(ids, schedule, before) + Effective(ids, LockedBy(before), schedule(|before|))
  }

  /** The edits of a log, in order. */
  function EditEntries(log: seq<Entry>): seq<Entry> {
    if log == [] then []
    else EditEntries(log[..|log| - 1]) + (if log[|log| - 1].EditOf? then [log[|log| - 1]] else [])
  }

  lemma EditEntriesSnoc(log: seq<Entry>, x: Entry)
    ensures EditEntries(log + [x]) == EditEntries(log) + (if x.EditOf? then [x] else [])
  {
    assert (log + [x])[..|log|] == log;
  }

  lemma LocksSnoc(ids: set<MessageId>, schedule: Schedule, locks: seq<Option<MessageId>>, x: Option<MessageId>)
    ensures EffectiveEdits(ids, schedule, locks + [x]) ==
            EffectiveEdits(ids, schedule, locks) + Effective(ids, LockedBy(locks), schedule(|locks|))
    ensures LockedBy(locks + [x]) == LockedBy(locks) + (if x.Some? then {x.value} else {})
  {
    assert (locks + [x])[..|locks|] == locks;
    forall y ensures y in LockedBy(locks + [x]) <==> y in LockedBy(locks) || x == Some(y) {
      assert Some(y) in locks + [x] <==> Some(y) in locks || x == Some(y);
    }
  }

  /** One row's edits depend only on the log's edits. */
  lemma {:induction false} EditsOfEntries(id: MessageId, log: seq<Entry>)
    ensures EditsOf(id, EditEntries(log)) == EditsOf(id, log)
    decreases |log|
  {
    if log != [] {
      var init, x := log[..|log| - 1], log[|log| - 1];
      EditsOfEntries(id, init);
      if x.EditOf? {
        assert (EditEntries(init) + [x])[..|EditEntries(init)|] == EditEntries(init);
      } else {
        assert EditEntries(log) == EditEntries(init) && EditsOf(id, log) == EditsOf(id, init);
      }
    }
  }

  ghost predicate NeverFilled(id: MessageId, log: seq<Entry>) {
    forall k :: 0 <= k < |log| ==> log[k] != FillOf(id)
  }

  /** Rows the log never fills are exactly as their edits left them. */
  lemma {:induction false} UnfilledRowsFollowTheirEdits(
      sv: Services, db: map<MessageId, Message>, log: seq<Entry>, id: MessageId)
    requires id in db && NeverFilled(id, log)
    ensures id in Replay(sv, db, log)
    ensures Replay(sv, db, log)[id] == EventRun(sv, db[id], EditsOf(id, log))
    decreases |log|
  {
    if log == [] {
      assert EventRun(sv, db[id], []) == db[id];
    } else {
      var x := log[|log| - 1];
      assert NeverFilled(id, log[..|log| - 1]);
      UnfilledRowsFollowTheirEdits(sv, db, log[..|log| - 1], id);
      if x.id == id {
        EventRunConcat(sv, db[id], EditsOf(id, log[..|log| - 1]), [Edited(x.edit)]);
      } else {
        assert EditsOf(id, log[..|log| - 1]) + [] == EditsOf(id, log[..|log| - 1]);
      }
    }
  }

  lemma {:induction false} UntouchedSince(
      sv: Services, db: map<MessageId, Message>, log: seq<Entry>, k: nat, id: MessageId)
    requires AllCoherent(db) && id in db && k <= |log|
    requires forall j :: k <= j < |log| ==> log[j].id != id
    ensures id in Replay(sv, db, log[..k]) && id in Replay(sv, db, log)
    ensures Replay(sv, db, log)[id] == Replay(sv, db, log[..k])[id]
    decreases |log|
  {
    ReplayFacts(sv, db, log);
    ReplayFacts(sv, db, log[..k]);
    if k == |log| {
      assert log[..k] == log;
    } else {
      assert log[..|log| - 1][..k] == log[..k];
      UntouchedSince(sv, db, log[..|log| - 1], k, id);
    }
  }

  /** A filled row ends with one version, copied from the row as it stood when it was locked. */
  lemma FilledRowsCopyTheLockedRow(sv: Services, db: map<MessageId, Message>, log: seq<Entry>, k: nat)
    requires AllCoherent(db) && ProperLog(sv, db, log)
    requires k < |log| && log[k].FillOf? && log[k].id in db
    ensures var id := log[k].id;
            && id in Replay(sv, db, log[..k]) && id in Replay(sv, db, log)
            && var r := Replay(sv, db, log[..k])[id].row;
               var m := Replay(sv, db, log)[id];
               && r.current.None? && m.row == r.(current := Some(0)) && |m.versions| == 1
               && var v := m.versions[0];
                  && v.seqNo == 1 && v.text == r.text && v.caption == r.caption && v.normalizedText == r.text
                  && v.entities.None? && v.editDate.None? && v.capturedAt == r.date
                  && v.rawUpdateId == r.rawUpdateId && v.isRedacted == r.isRedacted
                  && v.contentHash == sv.hash(r.text, r.caption, r.kind, [])
  {
    var id := log[k].id;
    ReplayFacts(sv, db, log[..k]);
    assert log[..k + 1] == log[..k] + [log[k]];
    ReplayStep(sv, db, log[..k], log[k]);
    UntouchedSince(sv, db, log, k + 1, id);
    assert Coherent(Replay(sv, db, log[..k])[id]);
  }

  /** A second backfill of a fully versioned table can only log edits. */
  lemma SecondRunFillsNothing(sv: Services, db: map<MessageId, Message>, log: seq<Entry>)
    requires AllCoherent(db) && Unversioned(db) == {} && ProperLog(sv, db, log)
    ensures forall x :: x in log ==> x.EditOf?
  {
    forall k | 0 <= k < |log| ensures log[k].EditOf? {
      if log[k].FillOf? {
        ReplayFacts(sv, db, log[..k]);
      }
    }
  }

  /** The bookkeeping of one more log entry, for an edit of an unlocked row or the fill of a locked one. */
  lemma LogEntry(sv: Services, db0: map<MessageId, Message>, db: map<MessageId, Message>,
                 log: seq<Entry>, locked: set<MessageId>, x: Entry)
    requires AllCoherent(db) && db == Replay(sv, db0, log) && ProperLog(sv, db0, log) && x.id in db
    requires FillsIn(log, if x.FillOf? then locked - {x.id} else locked)
    requires if x.FillOf? then x.id in Unversioned(db) && x.id in locked else x.id !in locked
    ensures var next := Replay1(sv, db, x);
            && AllCoherent(next) && next.Keys == db.Keys
            && next == Replay(sv, db0, log + [x]) && ProperLog(sv, db0, log + [x])
            && FillsIn(log + [x], locked)
            && FillCount(log + [x]) == FillCount(log) + (if x.FillOf? then 1 else 0)
            && Unversioned(next) <= Unversioned(db)
            && (x.FillOf? ==> x.id !in Unversioned(next))
  {
    ReplayStep(sv, db0, log, x);
    AppendProper(sv, db0, log, x);
    Replay1Facts(sv, db, x);
  }

  // ------------------------------------------------------------------ selecting a batch

  function Least(s: set<nat>): (x: nat)
    requires s != {}
    ensures x in s && forall y :: y in s ==> x <= y
  {
    LeastExists(s);
    var x :| x in s && forall y :: y in s ==> x <= y;
    x
  }

  lemma LeastExists(s: set<nat>)
    requires s != {}
    ensures exists x :: x in s && forall y :: y in s ==> x <= y
  {
    var z :| z in s;
    LeastBelow(s, z);
  }

  lemma {:induction false} LeastBelow(s: set<nat>, z: nat)
    requires z in s
    ensures exists x :: x in s && forall y :: y in s ==> x <= y
    decreases z
  {
    if y :| y in s && y < z {
      LeastBelow(s, y);
    } else {
      assert z in s && forall y :: y in s ==> z <= y;
    }
  }

  /** `ids` are the smallest elements of `s`, in ascending order, at most `limit` of them. */
  ghost predicate Firsts(s: set<nat>, limit: nat, ids: seq<nat>) {
    && |ids| == (if |s| <= limit then |s| else limit)
    && (forall id :: id in ids ==> id in s)
    && (forall i, j :: 0 <= i < j < |ids| ==> ids[i] < ids[j])
    && (|ids| < limit ==> forall id :: id in s ==> id in ids)
    && (forall i, y :: 0 <= i < |ids| && y in s && y !in ids ==> ids[i] < y)
  }

  lemma FirstsCons(s: set<nat>, limit: nat, x: nat, rest: seq<nat>)
    requires limit > 0 && x in s && (forall y :: y in s ==> x <= y) && Firsts(s - {x}, limit - 1, rest)
    ensures Firsts(s, limit, [x] + rest)
  {
    var ids := [x] + rest;
    assert |s - {x}| == |s| - 1;
    forall id | id in s ensures id in ids <==> id == x || id in rest {
      assert ids[0] == x && ids[1..] == rest;
    }
    forall i, j | 0 <= i < j < |ids| ensures ids[i] < ids[j] {
      assert ids[j] == rest[j - 1] && rest[j - 1] in s - {x};
    }
    forall i, y | 0 <= i < |ids| && y in s && y !in ids ensures ids[i] < y {
      assert y in s - {x} && y !in rest;
      assert i > 0 ==> ids[i] == rest[i - 1];
    }
  }

  /** `ORDER BY id LIMIT limit` over the given ids. */
  function FirstIds(s: set<nat>, limit: nat): (ids: seq<nat>)
    ensures Firsts(s, limit, ids)
    decreases limit
  {
    if limit == 0 || s == {} then []
    else
      var x := Least(s);
      var rest := FirstIds(s - {x}, limit - 1);
      FirstsCons(s, limit, x, rest);
      [x] + rest
  }

  lemma OneRowLess(rows: seq<nat>, i: nat, start: set<nat>, before: set<nat>, after: set<nat>)
    requires i < |rows| && before <= start - Elements(rows[..i]) && after <= before - {rows[i]}
    ensures after <= start - Elements(rows[..i + 1])
  {
    assert rows[..i + 1] == rows[..i] + [rows[i]];
  }

  // ------------------------------------------------------------------ the stored tables

  class Archive {
    const sv: Services
    const index: map<Address, MessageId>
    var db: map<MessageId, Message>
    var locked: set<MessageId>

    constructor (sv: Services, index: map<Address, MessageId>, db: map<MessageId, Message>)
      ensures this.sv == sv && this.index == index && this.db == db && locked == {}
    {
      this.sv, this.index, this.db, this.locked := sv, index, db, {};
    }

    method FindChatMessage(at: Address) returns (found: Option<MessageId>)
      ensures found.Some? <==> at in index && index[at] in db
      ensures found.Some? ==> found.value == index[at]
    {
      if at in index && index[at] in db {
        found := Some(index[at]);
      } else {
        found := None;
      }
    }

    method CreateMark(id: MessageId, policy: Policy, d: Detection, e: Edit)
      requires id in db && d.detectedBy.Some?
      modifies `db
      ensures db == old(db)[id := old(db)[id].(marks := WithMark(old(db)[id].marks, policy, d, e))]
    {
      var m := db[id];
      if policy !in m.marks {
        m := m.(marks := m.marks[policy := Mark(d.detectedBy.value, e.userId, e.thread)]);
      }
      db := db[id := m];
    }

    method ApplyOffrecordFlip(id: MessageId, d: Detection, e: Edit)
      requires id in db
      modifies `db
      ensures db == old(db)[id := Message(
                      Redact(old(db)[id].row), ScrubAll(old(db)[id].versions),
                      WithMark(old(db)[id].marks, OffRecord, d, e))]
    {
      ghost var m0 := db[id];
      db := db[id := db[id].(row := Redact(db[id].row))];
      var vs := db[id].versions;
      var i := 0;
      while i < |vs|
        invariant 0 <= i <= |vs| == |m0.versions|
        invariant forall k :: 0 <= k < i ==> vs[k] == Scrub(m0.versions[k])
        invariant forall k :: i <= k < |vs| ==> vs[k] == m0.versions[k]
      {
        vs := vs[i := vs[i].(text := None, caption := None, normalizedText := None, entities := None,
                             isRedacted := true)];
        i := i + 1;
      }
      assert vs == ScrubAll(m0.versions);
      db := db[id := db[id].(versions := vs)];
      if d.detectedBy.Some? {
        CreateMark(id, OffRecord, d, e);
      }
    }

    method UpdateMemoryPolicy(id: MessageId, d: Detection, e: Edit)
      requires id in db
      modifies `db
      ensures old(db)[id].row.policy.OffRecord? ==> db == old(db)
      ensures !old(db)[id].row.policy.OffRecord? ==>
                db == old(db)[id := old(db)[id].(
                  row := old(db)[id].row.(policy := d.policy),
                  marks := if d.policy.Normal? then old(db)[id].marks
                           else WithMark(old(db)[id].marks, d.policy, d, e))]
    {
      if db[id].row.policy.OffRecord? {
        return;
      }
      db := db[id := db[id].(row := db[id].row.(policy := d.policy))];
      if !d.policy.Normal? && d.detectedBy.Some? {
        CreateMark(id, d.policy, d, e);
      }
    }

    method GetByHash(id: MessageId, h: Hash) returns (found: Option<nat>)
      requires id in db
      ensures found.Some? <==> HasActive(db[id].versions, h)
      ensures found.Some? ==>
                && found.value < |db[id].versions|
                && db[id].versions[found.value].contentHash == h && !db[id].versions[found.value].isRedacted
    {
      var vs := db[id].versions;
      for i := 0 to |vs|
        invariant forall k :: 0 <= k < i ==> vs[k].contentHash != h || vs[k].isRedacted
      {
        if vs[i].contentHash == h && !vs[i].isRedacted {
          return Some(i);
        }
      }
      return None;
    }

    /** Returns the existing version with this hash, else appends at `max + 1`. */
    method InsertVersion(id: MessageId, h: Hash, redacted: bool, e: Edit) returns (position: nat)
      requires id in db && Numbered(db[id].versions)
      modifies `db
      ensures HasActive(old(db)[id].versions, h) ==> db == old(db) && position < |db[id].versions|
      ensures !HasActive(old(db)[id].versions, h) ==>
                && position == |old(db)[id].versions|
                && db == old(db)[id := old(db)[id].(
                     versions := old(db)[id].versions + [NewVersion(h, redacted, position, e)])]
    {
      var existing := GetByHash(id, h);
      if existing.Some? {
        return existing.value;
      }
      var vs := db[id].versions;
      var max := 0;
      for i := 0 to |vs|
        invariant max == i
      {
        if vs[i].seqNo > max {
          max := vs[i].seqNo;
        }
      }
      var text := if redacted then None else e.text;
      var caption := if redacted then None else e.caption;
      var entities := if redacted || e.entities == [] then None else Some(e.entities);
      var v := Version(max + 1, text, caption, text, entities, e.editDate, e.now, h, e.rawUpdateId, redacted);
      position := |vs|;
      db := db[id := db[id].(versions := vs + [v])];
    }

    /** The policy part of an edit, before any content is written. */
    method FlipPolicy(id: MessageId, d: Detection, e: Edit)
      requires id in db && d == sv.detect(e.text, e.caption)
      modifies `db
      ensures db == old(db)[id := PolicyPhase(sv, old(db)[id].row.policy, old(db)[id], e)]
    {
      var oldPolicy := db[id].row.policy;
      if d.policy.OffRecord? && !oldPolicy.OffRecord? {
        ApplyOffrecordFlip(id, d, e);
      } else if oldPolicy.OffRecord? {
        // Off-record is sticky: neither the policy nor the marks change.
      } else if d.policy != oldPolicy {
        UpdateMemoryPolicy(id, d, e);
      }
    }

    /** The content part: look the hash up, insert a version, point the row at it. */
    method StoreContent(id: MessageId, d: Detection, oldPolicy: Policy, newHash: Hash, e: Edit)
      requires id in db && Numbered(db[id].versions)
      requires newHash == sv.hash(e.text, e.caption, e.kind, e.entities)
      modifies `db
      ensures db == old(db)[id :=
                ContentPhase(sv, d.policy.OffRecord? || oldPolicy.OffRecord?, old(db)[id], e)]
    {
      var row := db[id].row;
      var existingHash := sv.hash(row.text, row.caption, row.kind, []);
      var redacted := d.policy.OffRecord? || oldPolicy.OffRecord?;
      var hashToCheck := newHash;
      if redacted {
        hashToCheck := sv.hash(None, None, e.kind, []);
      }
      var known := GetByHash(id, hashToCheck);
      if known.Some? {
        return;
      }
      if hashToCheck == existingHash {
        return;
      }
      var position := InsertVersion(id, hashToCheck, redacted, e);
      row := db[id].row.(current := Some(position));
      if !d.policy.OffRecord? && !oldPolicy.OffRecord? {
        row := row.(text := e.text, caption := e.caption);
      }
      db := db[id := db[id].(row := row)];
    }

    /** The handler for `edited_message` updates, under the message lock. */
    method HandleEditedMessage(at: Address, e: Edit)
      requires AllCoherent(db)
      modifies `db
      ensures at in index && index[at] in old(db) ==>
                db == old(db)[index[at] := EditStep(sv, old(db)[index[at]], e)]
      ensures !(at in index && index[at] in old(db)) ==> db == old(db)
      ensures AllCoherent(db)
    {
      var existing := FindChatMessage(at);
      if existing.None? {
        return;
      }
      var id := existing.value;
      ghost var before := db;
      var d := sv.detect(e.text, e.caption);
      var newHash := sv.hash(e.text, e.caption, e.kind, e.entities);
      var oldPolicy := db[id].row.policy;
      PolicyPhaseCoherent(sv, db[id], e);
      FlipPolicy(id, d, e);
      StoreContent(id, d, oldPolicy, newHash, e);
      EditKeepsCoherence(sv, before[id], e);
    }

    // ---------------------------------------------------------------- the backfill

    /** What holds while only other transactions move; `db1` is the table they found. */
    ghost predicate Interfering(db0: map<MessageId, Message>, db1: map<MessageId, Message>, log: seq<Entry>)
      reads this
    {
      && AllCoherent(db) && db.Keys == db1.Keys
      && db == Replay(sv, db0, log) && ProperLog(sv, db0, log) && FillsIn(log, locked)
      && Unversioned(db) <= Unversioned(db1)
      && forall id :: id in locked && id in db ==> db[id] == db1[id]
    }

    /** One edit by another transaction; a locked row makes it wait. */
    method InterfereOnce(id: MessageId, e: Edit, ghost db0: map<MessageId, Message>,
                         ghost db1: map<MessageId, Message>, ghost log0: seq<Entry>)
      returns (ghost log: seq<Entry>)
      requires Interfering(db0, db1, log0)
      modifies `db
      ensures Interfering(db0, db1, log) && FillCount(log) == FillCount(log0)
      ensures log == log0 + Hit(db1.Keys, locked, (id, e))
    {
      log := log0;
      if id in db && id !in locked {
        LogEntry(sv, db0, db, log, locked, EditOf(id, e));
        log := log + [EditOf(id, e)];
        db := db[id := EditStep(sv, db[id], e)];
      }
    }

    /** The next of the edits that other transactions make. */
    method InterfereNext(edits: seq<(MessageId, Edit)>, i: nat, ghost db0: map<MessageId, Message>,
                         ghost db1: map<MessageId, Message>, ghost done: seq<Entry>, ghost log0: seq<Entry>)
      returns (ghost log: seq<Entry>)
      requires i < |edits| && Interfering(db0, db1, log0)
      requires Since(db1.Keys, locked, done, log0, edits[..i])
      modifies `db
      ensures Interfering(db0, db1, log) && Since(db1.Keys, locked, done, log, edits[..i + 1])
    {
      log := InterfereOnce(edits[i].0, edits[i].1, db0, db1, log0);
      SinceNext(db1.Keys, locked, done, log0, edits, i, Hit(db1.Keys, locked, edits[i]));
    }

    /** Edits by other transactions between two statements. */
    method Interfere(edits: seq<(MessageId, Edit)>, ghost db0: map<MessageId, Message>, ghost log0: seq<Entry>)
      returns (ghost log: seq<Entry>)
      requires AllCoherent(db) && db == Replay(sv, db0, log0)
      requires ProperLog(sv, db0, log0) && FillsIn(log0, locked)
      modifies `db
      ensures Interfering(db0, old(db), log) && Since(old(db).Keys, locked, log0, log, edits)
    {
      log := log0;
      for i := 0 to |edits|
        invariant Interfering(db0, old(db), log) && Since(old(db).Keys, locked, log0, log, edits[..i])
      {
        log := InterfereNext(edits, i, db0, old(db), log0, log);
      }
      assert edits[..|edits|] == edits;
    }

    /** The statements of one row: re-read, skip if already versioned, insert, set the pointer. */
    method FillRow(id: MessageId) returns (filled: bool)
      requires id in db && Coherent(db[id])
      modifies `db
      ensures filled == (id in Unversioned(old(db)))
      ensures db == (if filled then old(db)[id := BackfillStep(sv, old(db)[id])] else old(db))
    {
      var reread := db[id].row;
      if reread.current.Some? {
        return false;
      }
      var contentHash := sv.hash(reread.text, reread.caption, reread.kind, []);
      var v := Version(1, reread.text, reread.caption, reread.text, None, None, reread.date, contentHash,
                       reread.rawUpdateId, reread.isRedacted);
      db := db[id := db[id].(versions := db[id].versions + [v])];
      var position := |db[id].versions| - 1;
      db := db[id := db[id].(row := db[id].row.(current := Some(position)))];
      return true;
    }

    /** Lock one row and run its statements; the lock stays held. */
    method LockAndFill(id: MessageId, ghost db0: map<MessageId, Message>, ghost log0: seq<Entry>)
      returns (filled: bool, ghost log: seq<Entry>)
      requires AllCoherent(db) && id in db && locked <= db.Keys && locked !! Unversioned(db)
      requires db == Replay(sv, db0, log0) && ProperLog(sv, db0, log0) && FillsIn(log0, locked)
      modifies `db, `locked
      ensures locked == old(locked) + {id}
      ensures AllCoherent(db) && db.Keys == old(db).Keys
      ensures Unversioned(db) <= Unversioned(old(db)) && id !in Unversioned(db)
      ensures db == Replay(sv, db0, log) && ProperLog(sv, db0, log) && FillsIn(log, locked)
      ensures FillCount(log) == FillCount(log0) + (if filled then 1 else 0)
      ensures EditEntries(log) == EditEntries(log0)
    {
      log := log0;
      locked := locked + {id};
      ghost var before := db;
      filled := FillRow(id);
      if filled {
        assert id !in old(locked) && FillsIn(log0, locked - {id}) by {
          assert locked - {id} == old(locked);
        }
        LogEntry(sv, db0, before, log0, locked, FillOf(id));
        EditEntriesSnoc(log0, FillOf(id));
        log := log0 + [FillOf(id)];
      }
    }

    /**
     What holds between the migration's statements: `db0` is the table it started from, and the
     log's edits are the schedule's, as far as they took effect by now.
     */
    ghost predicate InProgress(db0: map<MessageId, Message>, log: seq<Entry>, schedule: Schedule,
                               locks: seq<Option<MessageId>>)
      reads this
    {
      && AllCoherent(db) && db.Keys == db0.Keys
      && db == Replay(sv, db0, log) && ProperLog(sv, db0, log) && FillsIn(log, locked)
      && locked <= db.Keys && locked !! Unversioned(db) && locked == LockedBy(locks)
      && EditEntries(log) == EffectiveEdits(db0.Keys, schedule, locks)
    }

    /** One pass of the inner loop: what others do, then the lock and the row's statements. */
    method FillNext(id: MessageId, schedule: Schedule, tick: nat, ghost db0: map<MessageId, Message>,
                    ghost log0: seq<Entry>, ghost locks0: seq<Option<MessageId>>)
      returns (filled: bool, ghost log: seq<Entry>, ghost locks: seq<Option<MessageId>>)
      requires InProgress(db0, log0, schedule, locks0) && tick == |locks0| && id in db0
      modifies `db, `locked
      ensures InProgress(db0, log, schedule, locks) && locks == locks0 + [Some(id)]
      ensures Unversioned(db) <= Unversioned(old(db)) - {id}
      ensures FillCount(log) == FillCount(log0) + (if filled then 1 else 0)
    {
      LocksSnoc(db0.Keys, schedule, locks0, Some(id));
      log := Interfere(schedule(tick), db0, log0);
      filled, log := LockAndFill(id, db0, log);
      locks := locks0 + [Some(id)];
    }

    /** The inner loop: every row of the batch has a version afterwards. */
    method FillBatch(rows: seq<MessageId>, schedule: Schedule, start: nat, ghost db0: map<MessageId, Message>,
                     ghost log0: seq<Entry>, ghost locks0: seq<Option<MessageId>>)
      returns (count: nat, tick: nat, ghost log: seq<Entry>, ghost locks: seq<Option<MessageId>>)
      requires InProgress(db0, log0, schedule, locks0) && start == |locks0| && Elements(rows) <= db0.Keys
      modifies `db, `locked
      ensures InProgress(db0, log, schedule, locks) && tick == |locks|
      ensures Unversioned(db) <= Unversioned(old(db)) - Elements(rows)
      ensures FillCount(log) == FillCount(log0) + count
    {
      count, tick, log, locks := 0, start, log0, locks0;
      for i := 0 to |rows|
        invariant InProgress(db0, log, schedule, locks) && tick == |locks|
        invariant FillCount(log) == FillCount(log0) + count
        invariant Unversioned(db) <= Unversioned(old(db)) - Elements(rows[..i])
      {
        var filled;
        ghost var before := Unversioned(db);
        assert rows[i] in Elements(rows);
        filled, log, locks := FillNext(rows[i], schedule, tick, db0, log, locks);
        tick := tick + 1;
        if filled {
          count := count + 1;
        }
        OneRowLess(rows, i, Unversioned(old(db)), before, Unversioned(db));
      }
      assert rows[..|rows|] == rows;
    }

    /** The unlocked read of a batch, after whatever others did before it. */
    method SelectBatch(batchSize: nat, schedule: Schedule, tick: nat, ghost db0: map<MessageId, Message>,
                       ghost log0: seq<Entry>, ghost locks0: seq<Option<MessageId>>)
      returns (rows: seq<MessageId>, ghost log: seq<Entry>, ghost locks: seq<Option<MessageId>>)
      requires InProgress(db0, log0, schedule, locks0) && tick == |locks0|
      modifies `db
      ensures InProgress(db0, log, schedule, locks) && |locks| == tick + 1 && FillCount(log) == FillCount(log0)
      ensures Firsts(Unversioned(db), batchSize, rows) && Unversioned(db) <= Unversioned(old(db))
    {
      LocksSnoc(db0.Keys, schedule, locks0, None);
      log := Interfere(schedule(tick), db0, log0);
      locks := locks0 + [None];
      rows := FirstIds(Unversioned(db), batchSize);
    }

    /** One round of the outer loop: select a batch, fill it, and say whether to stop. */
    method FillRound(batchSize: nat, schedule: Schedule, start: nat, ghost db0: map<MessageId, Message>,
                     ghost log0: seq<Entry>, ghost locks0: seq<Option<MessageId>>)
      returns (stop: bool, count: nat, tick: nat, ghost log: seq<Entry>, ghost locks: seq<Option<MessageId>>)
      requires batchSize > 0 && InProgress(db0, log0, schedule, locks0) && start == |locks0|
      modifies `db, `locked
      ensures InProgress(db0, log, schedule, locks) && tick == |locks|
      ensures FillCount(log) == FillCount(log0) + count
      ensures if stop then Unversioned(db) == {} else |Unversioned(db)| < |Unversioned(old(db))|
    {
      ghost var before := Unversioned(db);
      var rows;
      rows, log, locks := SelectBatch(batchSize, schedule, start, db0, log0, locks0);
      count, tick := 0, start + 1;
      ghost var selected := Unversioned(db);
      if rows == [] {
        stop := true;
        assert |selected| == 0;
      } else {
        count, tick, log, locks := FillBatch(rows, schedule, tick, db0, log, locks);
        stop := |rows| < batchSize;
        BatchProgress(before, selected, Unversioned(db), rows, stop);
      }
    }

    /**
     The whole migration.  `schedule(t)` is what other transactions do before the migration's
     `t`-th statement; the result holds for every schedule.  The table ends as the log says, whose
     edits are exactly those of the schedule that hit rows not yet locked, in their order.
     */
    method Upgrade(batchSize: nat, schedule: Schedule)
      returns (total: nat, ghost log: seq<Entry>, ghost locks: seq<Option<MessageId>>)
      requires batchSize > 0 && AllCoherent(db) && locked == {}
      modifies `db, `locked
      ensures locked == {}
      ensures AllCoherent(db) && db.Keys == old(db).Keys && Unversioned(db) == {}
      ensures db == Replay(sv, old(db), log) && ProperLog(sv, old(db), log)
      ensures total == FillCount(log)
      ensures EditEntries(log) == EffectiveEdits(old(db).Keys, schedule, locks)
      ensures FillsIn(log, LockedBy(locks))
      ensures forall id :: id in db && NeverFilled(id, log) ==>
                db[id] == EventRun(sv, old(db)[id], EditsOf(id, EffectiveEdits(old(db).Keys, schedule, locks)))
    {
      ghost var db0 := db;
      var tick, stop := 0, false;
      total, log, locks := 0, [], [];
      assert LockedBy([]) == {};
      while !stop
        invariant InProgress(db0, log, schedule, locks) && total == FillCount(log) && tick == |locks|
        invariant stop ==> Unversioned(db) == {}
        decreases !stop, |Unversioned(db)|
      {
        var count;
        stop, count, tick, log, locks := FillRound(batchSize, schedule, tick, db0, log, locks);
        total := total + count;
      }
      forall id | id in db && NeverFilled(id, log)
        ensures db[id] == EventRun(sv, db0[id], EditsOf(id, EffectiveEdits(db0.Keys, schedule, locks)))
      {
        UnfilledRowsFollowTheirEdits(sv, db0, log, id);
        EditsOfEntries(id, log);
      }
      locked := {};
    }
  }

  lemma BatchProgress(before: set<MessageId>, selected: set<MessageId>, after: set<MessageId>,
                      rows: seq<MessageId>, short: bool)
    requires selected <= before && after <= selected - Elements(rows)
    requires rows != [] && forall id :: id in rows ==> id in selected
    requires short ==> forall id :: id in selected ==> id in rows
    ensures |after| < |before|
    ensures short ==> after == {}
  {
    assert rows[0] in before && rows[0] !in after;
    FewerElements(after, before, rows[0]);
  }
}
