/**
 One chat message and the history of its versions, as the edit handler and the
 two version backfills change them.

 `Services` carries the two computations the handlers treat as given: the policy
 detector and the content hash.  Every result below holds for any such pair.
 */
module MessageHistory {
  import opened Prelude

  datatype Policy = Normal | NoMem | OffRecord

  datatype Entity = Entity(offset: int, length: int, kind: string)

  type Hash = string

  datatype Version = Version(
    seqNo: nat,
    text: Option<string>,
    caption: Option<string>,
    normalizedText: Option<string>,
    entities: Option<seq<Entity>>,
    editDate: Option<int>,
    capturedAt: int,
    contentHash: Hash,
    rawUpdateId: Option<int>,
    isRedacted: bool)

  /** A `chat_messages` row; `current` is a position in the message's version list. */
  datatype Row = Row(
    text: Option<string>,
    caption: Option<string>,
    rawJson: Option<string>,
    kind: string,
    date: int,
    rawUpdateId: Option<int>,
    policy: Policy,
    isRedacted: bool,
    current: Option<nat>)

  datatype Mark = Mark(detectedBy: string, setBy: Option<int>, thread: Option<int>)

  /** Marks are unique per message and type, so a map from type to mark. */
  datatype Message = Message(row: Row, versions: seq<Version>, marks: map<Policy, Mark>)

  datatype Detection = Detection(policy: Policy, detectedBy: Option<string>)

  datatype Services = Services(
    detect: (Option<string>, Option<string>) -> Detection,
    hash: (Option<string>, Option<string>, string, seq<Entity>) -> Hash)

  datatype Edit = Edit(
    text: Option<string>,
    caption: Option<string>,
    kind: string,
    entities: seq<Entity>,
    editDate: Option<int>,
    rawUpdateId: Option<int>,
    userId: Option<int>,
    thread: Option<int>,
    now: int)

  // ------------------------------------------------------------------ state predicates

  ghost predicate Scrubbed(v: Version) {
    v.text.None? && v.caption.None? && v.normalizedText.None? && v.entities.None? && v.isRedacted
  }

  /** An off-record message carries no content, in its row or in any version. */
  ghost predicate Private(m: Message) {
    m.row.policy.OffRecord? ==>
      && m.row.text.None? && m.row.caption.None? && m.row.rawJson.None? && m.row.isRedacted
      && forall v :: v in m.versions ==> Scrubbed(v)
  }

  ghost predicate Numbered(vs: seq<Version>) {
    forall i :: 0 <= i < |vs| ==> vs[i].seqNo == i + 1
  }

  ghost predicate ActiveHashesDistinct(vs: seq<Version>) {
    forall i, j :: 0 <= i < j < |vs| && !vs[i].isRedacted && !vs[j].isRedacted ==>
      vs[i].contentHash != vs[j].contentHash
  }

  ghost predicate Coherent(m: Message) {
    && Private(m)
    && (m.row.isRedacted ==> m.row.policy.OffRecord?)
    && (!m.row.policy.OffRecord? ==> forall v :: v in m.versions ==> !v.isRedacted)
    && Numbered(m.versions)
    && ActiveHashesDistinct(m.versions)
    && (m.row.current.None? <==> m.versions == [])
    && (m.row.current.Some? ==>
          && m.row.current.value == |m.versions| - 1
          && m.row.text == m.versions[m.row.current.value].text
          && m.row.caption == m.versions[m.row.current.value].caption)
  }

  // ------------------------------------------------------------------ what one edit does

  function Scrub(v: Version): Version {
    v.(text := None, caption := None, normalizedText := None, entities := None, isRedacted := true)
  }

  function ScrubAll(vs: seq<Version>): seq<Version> {
    seq(|vs|, i requires 0 <= i < |vs| => Scrub(vs[i]))
  }

  /** A mark is inserted at most once per type; a second insert is a no-op. */
  function WithMark(marks: map<Policy, Mark>, policy: Policy, d: Detection, e: Edit): map<Policy, Mark> {
    if d.detectedBy.None? || policy in marks then marks
    else marks[policy := Mark(d.detectedBy.value, e.userId, e.thread)]
  }

  function Redact(r: Row): Row {
    r.(text := None, caption := None, rawJson := None, isRedacted := true, policy := OffRecord)
  }

  /** The policy part of an edit that has read policy `seen` from the row. */
  function PolicyPhase(sv: Services, seen: Policy, m: Message, e: Edit): Message {
    var d := sv.detect(e.text, e.caption);
    if d.policy.OffRecord? && !seen.OffRecord? then
      Message(Redact(m.row), ScrubAll(m.versions), WithMark(m.marks, OffRecord, d, e))
    else if seen.OffRecord? || d.policy == seen then
      m
    else
      m.(row := m.row.(policy := d.policy),
         marks := if d.policy.Normal? then m.marks else WithMark(m.marks, d.policy, d, e))
  }

  function HasActive(vs: seq<Version>, h: Hash): bool {
    exists i :: 0 <= i < |vs| && vs[i].contentHash == h && !vs[i].isRedacted
  }

  function StoresRedacted(sv: Services, seen: Policy, e: Edit): bool {
    sv.detect(e.text, e.caption).policy.OffRecord? || seen.OffRecord?
  }

  function LookupHash(sv: Services, redacted: bool, e: Edit): Hash {
    if redacted then sv.hash(None, None, e.kind, []) else sv.hash(e.text, e.caption, e.kind, e.entities)
  }

  function NewVersion(h: Hash, redacted: bool, count: nat, e: Edit): Version {
    Version(
      count + 1,
      if redacted then None else e.text,
      if redacted then None else e.caption,
      if redacted then None else e.text,
      if redacted || e.entities == [] then None else Some(e.entities),
      e.editDate, e.now, h, e.rawUpdateId, redacted)
  }

  /** The content part of an edit: append a version unless the content is already known. */
  function ContentPhase(sv: Services, redacted: bool, m: Message, e: Edit): Message {
    var h := LookupHash(sv, redacted, e);
    if HasActive(m.versions, h) || h == sv.hash(m.row.text, m.row.caption, m.row.kind, []) then
      m
    else
      m.(versions := m.versions + [NewVersion(h, redacted, |m.versions|, e)],
         row := m.row.(
           current := Some(|m.versions|),
           text := if redacted then m.row.text else e.text,
           caption := if redacted then m.row.caption else e.caption))
  }

  /** An edit whose handler read policy `seen`; the row itself may have moved on since. */
  function EditWith(sv: Services, seen: Policy, m: Message, e: Edit): Message {
    ContentPhase(sv, StoresRedacted(sv, seen, e), PolicyPhase(sv, seen, m, e), e)
  }

  /** An edit under the message lock: the policy it read is the row's policy. */
  function EditStep(sv: Services, m: Message, e: Edit): Message {
    EditWith(sv, m.row.policy, m, e)
  }

  // ------------------------------------------------------------------ what a backfill does

  /** The first version, copied from the row as it is re-read after the lock. */
  function FirstVersion(sv: Services, row: Row): Version {
    Version(1, row.text, row.caption, row.text, None, None, row.date,
            sv.hash(row.text, row.caption, row.kind, []), row.rawUpdateId, row.isRedacted)
  }

  function BackfillStep(sv: Services, m: Message): Message {
    if m.row.current.Some? then m
    else m.(versions := m.versions + [FirstVersion(sv, m.row)],
            row := m.row.(current := Some(|m.versions|)))
  }

  // ------------------------------------------------------------------ runs on one message

  datatype Event = Edited(edit: Edit) | Filled

  function EventStep(sv: Services, m: Message, ev: Event): Message {
    match ev
    case Edited(e) => EditStep(sv, m, e)
    case Filled => BackfillStep(sv, m)
  }

  function EventRun(sv: Services, m: Message, evs: seq<Event>): Message
    decreases |evs|
  {
    if evs == [] then m else EventRun(sv, EventStep(sv, m, evs[0]), evs[1..])
  }

  lemma {:induction false} EventRunConcat(sv: Services, m: Message, a: seq<Event>, b: seq<Event>)
    ensures EventRun(sv, m, a + b) == EventRun(sv, EventRun(sv, m, a), b)
    decreases |a|
  {
    if a == [] {
      assert a + b == b;
    } else {
      assert (a + b)[1..] == a[1..] + b;
      EventRunConcat(sv, EventStep(sv, m, a[0]), a[1..], b);
    }
  }

  // ------------------------------------------------------------------ one event keeps coherence

  lemma EditKeepsCoherence(sv: Services, m: Message, e: Edit)
    requires Coherent(m)
    ensures Coherent(EditStep(sv, m, e))
    ensures m.row.policy.OffRecord? ==> EditStep(sv, m, e).row.policy.OffRecord?
  {
    var p := PolicyPhase(sv, m.row.policy, m, e);
    PolicyPhaseCoherent(sv, m, e);
    ContentPhaseCoherent(sv, StoresRedacted(sv, m.row.policy, e), p, e);
  }

  lemma PolicyPhaseCoherent(sv: Services, m: Message, e: Edit)
    requires Coherent(m)
    ensures Coherent(PolicyPhase(sv, m.row.policy, m, e))
    ensures PolicyPhase(sv, m.row.policy, m, e).row.policy.OffRecord? <==> StoresRedacted(sv, m.row.policy, e)
  {
    var p := PolicyPhase(sv, m.row.policy, m, e);
    if p.row.policy.OffRecord? && !m.row.policy.OffRecord? {
      forall v | v in p.versions ensures Scrubbed(v) {
        var i :| 0 <= i < |p.versions| && p.versions[i] == v;
        assert v == Scrub(m.versions[i]);
      }
    }
  }

  lemma ContentPhaseCoherent(sv: Services, redacted: bool, m: Message, e: Edit)
    requires Coherent(m) && (m.row.policy.OffRecord? <==> redacted)
    ensures Coherent(ContentPhase(sv, redacted, m, e))
    ensures ContentPhase(sv, redacted, m, e).row.policy == m.row.policy
  {
    var r := ContentPhase(sv, redacted, m, e);
    if r != m {
      var h := LookupHash(sv, redacted, e);
      assert r.versions == m.versions + [NewVersion(h, redacted, |m.versions|, e)];
      forall i | 0 <= i < |m.versions| && !m.versions[i].isRedacted
        ensures m.versions[i].contentHash != h
      {}
    }
  }

  lemma BackfillKeepsCoherence(sv: Services, m: Message)
    requires Coherent(m)
    ensures Coherent(BackfillStep(sv, m))
    ensures BackfillStep(sv, m).row.policy == m.row.policy
    ensures BackfillStep(sv, m).row.current.Some?
  {
  }

  /** Every run of edits and backfills keeps the history coherent and never leaves off-record. */
  lemma {:induction false} RunKeepsCoherence(sv: Services, m: Message, evs: seq<Event>)
    requires Coherent(m)
    ensures Coherent(EventRun(sv, m, evs))
    ensures m.row.policy.OffRecord? ==> EventRun(sv, m, evs).row.policy.OffRecord?
    decreases |evs|
  {
    if evs != [] {
      match evs[0] {
        case Edited(e) => EditKeepsCoherence(sv, m, e);
        case Filled => BackfillKeepsCoherence(sv, m);
      }
      RunKeepsCoherence(sv, EventStep(sv, m, evs[0]), evs[1..]);
    }
  }

  // ------------------------------------------------------------------ independence after redaction

  /** Two edits that differ at most in what the author wrote and who is recorded as writing it. */
  ghost predicate SameEnvelope(a: Edit, b: Edit) {
    a.kind == b.kind && a.editDate == b.editDate && a.rawUpdateId == b.rawUpdateId && a.now == b.now
  }

  ghost predicate SameShape(a: seq<Event>, b: seq<Event>) {
    && |a| == |b|
    && forall i :: 0 <= i < |a| ==>
         || (a[i].Filled? && b[i].Filled?)
         || (a[i].Edited? && b[i].Edited? && SameEnvelope(a[i].edit, b[i].edit))
  }

  /** The detectors may differ too: once off the record, what they say no longer matters. */
  lemma OffRecordEditIgnoresContent(sv: Services, tv: Services, m: Message, a: Edit, b: Edit)
    requires Coherent(m) && m.row.policy.OffRecord? && sv.hash == tv.hash && SameEnvelope(a, b)
    ensures EditStep(sv, m, a) == EditStep(tv, m, b)
  {
    assert PolicyPhase(sv, OffRecord, m, a) == m == PolicyPhase(tv, OffRecord, m, b);
    assert LookupHash(sv, true, a) == LookupHash(tv, true, b);
  }

  lemma {:induction false} Independence(sv: Services, tv: Services, m: Message, a: seq<Event>, b: seq<Event>)
    requires Coherent(m) && m.row.policy.OffRecord? && sv.hash == tv.hash && SameShape(a, b)
    ensures EventRun(sv, m, a) == EventRun(tv, m, b)
    decreases |a|
  {
    if a != [] {
      if a[0].Edited? {
        OffRecordEditIgnoresContent(sv, tv, m, a[0].edit, b[0].edit);
        EditKeepsCoherence(sv, m, a[0].edit);
      } else {
        BackfillKeepsCoherence(sv, m);
      }
      assert SameShape(a[1..], b[1..]);
      Independence(sv, tv, EventStep(sv, m, a[0]), a[1..], b[1..]);
    }
  }

  // ------------------------------------------------------------------ what an edit does to the row

  /**
   Outside off-record, an edit whose content hash is neither the row's own nor that of
   a stored version becomes the current version with exactly the edited content; any
   other edit leaves content and history alone.  Marks are kept; turning to no-memory adds one.
   */
  lemma EditOutcome(sv: Services, m: Message, e: Edit)
    requires Coherent(m) && !m.row.policy.OffRecord? && !sv.detect(e.text, e.caption).policy.OffRecord?
    ensures var h := sv.hash(e.text, e.caption, e.kind, e.entities);
            var n := EditStep(sv, m, e);
            var known := HasActive(m.versions, h) || h == sv.hash(m.row.text, m.row.caption, m.row.kind, []);
            && n.row.policy == sv.detect(e.text, e.caption).policy
            && (known ==> n.versions == m.versions && n.row == m.row.(policy := n.row.policy))
            && (!known ==>
                  && |n.versions| == |m.versions| + 1 && n.versions[..|m.versions|] == m.versions
                  && n.row.text == e.text && n.row.caption == e.caption
                  && n.row.current == Some(|m.versions|)
                  && n.versions[|m.versions|].contentHash == h
                  && n.versions[|m.versions|].text == e.text
                  && n.versions[|m.versions|].normalizedText == e.text
                  && n.versions[|m.versions|].entities == (if e.entities == [] then None else Some(e.entities)))
            && n.row.rawJson == m.row.rawJson && n.row.kind == m.row.kind
            && (forall p :: p in m.marks ==> p in n.marks && n.marks[p] == m.marks[p])
            && (forall p :: p in n.marks && p !in m.marks ==> p.NoMem? && n.row.policy.NoMem?)
            && (n.row.policy.NoMem? && !m.row.policy.NoMem? && sv.detect(e.text, e.caption).detectedBy.Some? ==>
                  NoMem in n.marks)
  {
  }

  /**
   The flip: an edit that asks for off-record erases the row and every version in place.
   It keeps each version's number and hash, and appends one redacted version exactly when
   the edit also changes the message kind's empty-content hash.
   */
  lemma FlipOutcome(sv: Services, m: Message, e: Edit)
    requires Coherent(m) && !m.row.policy.OffRecord? && sv.detect(e.text, e.caption).policy.OffRecord?
    ensures var n := EditStep(sv, m, e);
            var grows := sv.hash(None, None, e.kind, []) != sv.hash(None, None, m.row.kind, []);
            && n.row.policy.OffRecord? && Private(n)
            && |n.versions| == |m.versions| + (if grows then 1 else 0)
            && (forall i :: 0 <= i < |m.versions| ==>
                  n.versions[i].seqNo == m.versions[i].seqNo && n.versions[i].contentHash == m.versions[i].contentHash)
            && (grows ==> n.versions[|m.versions|].contentHash == sv.hash(None, None, e.kind, []))
            && (sv.detect(e.text, e.caption).detectedBy.Some? ==> OffRecord in n.marks)
            && (forall p :: p in m.marks ==> p in n.marks && n.marks[p] == m.marks[p])
  {
    EditKeepsCoherence(sv, m, e);
    PolicyPhaseCoherent(sv, m, e);
    var p := PolicyPhase(sv, m.row.policy, m, e);
    assert !HasActive(p.versions, sv.hash(None, None, e.kind, []));
  }

  /** Number, hash and provenance of a version; an edit in place leaves them alone. */
  ghost predicate SameProvenance(v: Version, w: Version) {
    && w.seqNo == v.seqNo && w.contentHash == v.contentHash
    && w.editDate == v.editDate && w.capturedAt == v.capturedAt && w.rawUpdateId == v.rawUpdateId
  }

  /**
   What the history records of an edit, off the record or not: at most one version is added.  It
   carries the edit's date, its raw update and the time of capture, and the content unless it is off
   the record; earlier versions keep theirs.
   */
  lemma AppendedVersion(sv: Services, m: Message, e: Edit)
    ensures var n, k := EditStep(sv, m, e), |m.versions|;
            var hidden := m.row.policy.OffRecord? || sv.detect(e.text, e.caption).policy.OffRecord?;
            && k <= |n.versions| <= k + 1
            && (forall i :: 0 <= i < k ==> SameProvenance(m.versions[i], n.versions[i]))
            && (|n.versions| > k ==>
                  var v := n.versions[k];
                  && v.editDate == e.editDate && v.rawUpdateId == e.rawUpdateId && v.capturedAt == e.now
                  && v.seqNo == k + 1 && n.row.current == Some(k) && v.isRedacted == hidden
                  && v.text == (if hidden then None else e.text) && v.normalizedText == v.text
                  && v.caption == (if hidden then None else e.caption)
                  && v.entities == (if hidden || e.entities == [] then None else Some(e.entities))
                  && v.contentHash == (if hidden then sv.hash(None, None, e.kind, [])
                                       else sv.hash(e.text, e.caption, e.kind, e.entities)))
  {
  }

  /**
   When an edit adds a version: exactly when its hash is not the row's and, on the record, no version
   has it.  Off the record there is no content to compare, so only the kind of message can matter.
   */
  lemma EditAppendsIff(sv: Services, m: Message, e: Edit)
    requires Coherent(m)
    ensures var hidden := m.row.policy.OffRecord? || sv.detect(e.text, e.caption).policy.OffRecord?;
            |EditStep(sv, m, e).versions| > |m.versions| <==>
            if hidden then sv.hash(None, None, e.kind, []) != sv.hash(None, None, m.row.kind, [])
            else
              var h := sv.hash(e.text, e.caption, e.kind, e.entities);
              && h != sv.hash(m.row.text, m.row.caption, m.row.kind, [])
              && forall i :: 0 <= i < |m.versions| ==> m.versions[i].contentHash != h
  {
    var p := PolicyPhase(sv, m.row.policy, m, e);
    PolicyPhaseCoherent(sv, m, e);
    if StoresRedacted(sv, m.row.policy, e) {
      forall i | 0 <= i < |p.versions| ensures p.versions[i].isRedacted {
        assert Scrubbed(p.versions[i]);
      }
    }
  }

  /** An edit that leaves the history as long as it was stores no content anywhere. */
  lemma UnappendedEdit(sv: Services, m: Message, e: Edit)
    requires |EditStep(sv, m, e).versions| == |m.versions|
    ensures var n := EditStep(sv, m, e);
            && n.row.current == m.row.current
            && ((n.row.text == m.row.text && n.row.caption == m.row.caption) || (n.row.text.None? && n.row.caption.None?))
  {
  }

  /** What an edit leaves of the row, and the marks it sets: who set them, by which rule, in which thread. */
  lemma MarksAndRow(sv: Services, m: Message, e: Edit)
    ensures var n, d := EditStep(sv, m, e), sv.detect(e.text, e.caption);
            && n.row.kind == m.row.kind && n.row.date == m.row.date && n.row.rawUpdateId == m.row.rawUpdateId
            && (n.row.rawJson == m.row.rawJson || (n.row.rawJson.None? && d.policy.OffRecord?))
            && (forall p :: p in m.marks ==> p in n.marks && n.marks[p] == m.marks[p])
            && (forall p :: p in n.marks && p !in m.marks ==>
                  && p == d.policy && p == n.row.policy && p != m.row.policy && !p.Normal? && d.detectedBy.Some?
                  && n.marks[p] == Mark(d.detectedBy.value, e.userId, e.thread))
  {
  }

  // ------------------------------------------------------------------ why the lock and the re-read matter

  /** An edit that read the policy before another edit's flip would write content back. */
  lemma StalePolicyLeaks(sv: Services, m: Message, e: Edit)
    requires Coherent(m) && m.row.policy.OffRecord? && e.text.Some?
    requires sv.detect(e.text, e.caption).policy.Normal?
    requires sv.hash(e.text, e.caption, e.kind, e.entities) != sv.hash(None, None, m.row.kind, [])
    ensures !Private(EditWith(sv, Normal, m, e))
  {
    forall i | 0 <= i < |m.versions| ensures m.versions[i].isRedacted {
      assert Scrubbed(m.versions[i]);
    }
    assert PolicyPhase(sv, Normal, m, e) == m;
  }

  /** A backfill that used the batch row instead of the re-read row would store the erased text. */
  lemma StaleBackfillLeaks(sv: Services, stale: Row, e: Edit)
    requires stale.current.None? && stale.text.Some? && !stale.policy.OffRecord? && !stale.isRedacted
    requires sv.detect(e.text, e.caption).policy.OffRecord? && e.kind == stale.kind
    ensures var flipped := EditStep(sv, Message(stale, [], map[]), e);
            && Coherent(flipped) && flipped.row.current.None?
            && Coherent(BackfillStep(sv, flipped))
            && !Private(flipped.(versions := [FirstVersion(sv, stale)]))
  {
    var m := Message(stale, [], map[]);
    EditKeepsCoherence(sv, m, e);
    var flipped := EditStep(sv, m, e);
    assert FirstVersion(sv, stale) in flipped.(versions := [FirstVersion(sv, stale)]).versions;
  }
}
