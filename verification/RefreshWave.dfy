/** One member's row of a refresh wave: the two callbacks, the sender and the worker that write it. */
module RefreshWave {
  import opened Prelude
  import opened RefreshMask

  datatype Phase = Claimed | OfferSent | Accepted | Declined | Cancelled | Started | SendFailed | Finished

  datatype Row = Row(phase: Phase, completed: bool, reminders: nat, last: Option<int>)

  function Rank(p: Phase): nat {
    match p
    case Claimed => 0
    case OfferSent => 1
    case Accepted => 2
    case _ => 3
  }

  predicate Terminal(p: Phase) {
    Rank(p) == 3
  }

  function Reminded(r: Row, now: int): Row {
    r.(reminders := 1, last := Some(now), completed := true)
  }

  // ------------------------------------------------------------------ requests

  datatype OfferAnswer = Yes | No | OtherAnswer

  datatype Act = Toggling | Continue | Close | Legacy | OtherAct

  /** Where the keyboard came from: the command, a wave, the preview of a draft, or garbage. */
  datatype Context = Manual | FromWave | FromPreview(verified: bool, base: nat) | Unreadable

  datatype Request = Request(act: Act, index: int, mask: nat, source: nat, context: Context)

  /** The member's published intro; without all seven answers it can only be redone as a whole. */
  datatype Source = Source(application: nat, concreteReferral: Option<bool>)

  datatype World = World(source: Option<Source>, activeRefresh: bool, workflowStarts: bool)

  datatype Outcome =
    | Refused
    | Ignored
    | Closed
    | BackToPreview
    | Shown(keyboard: Keyboard, mask: nat)
    | Handed(fields: Option<set<string>>, started: bool)

  // ------------------------------------------------------------------ what the callbacks do to the row

  function OfferRow(r: Row, answer: OfferAnswer, showable: bool, now: int): Row {
    var o := if r.phase == Claimed then Reminded(r, now).(phase := OfferSent) else r;
    if answer == No && o.phase == OfferSent then o.(phase := Declined)
    else if answer == Yes && o.phase == OfferSent && showable then o.(phase := Accepted)
    else o
  }

  /** The tests before the action is looked at. */
  predicate Passes(tracking: Option<Row>, q: Request, w: World) {
    && w.source.Some? && q.source == w.source.value.application
    && match q.context
       case Manual => !w.activeRefresh
       case FromWave => tracking.Some? && Rank(tracking.value.phase) < 3 && !w.activeRefresh
       case FromPreview(verified, base) => verified && base == q.source
       case Unreadable => false
  }

  /** The fields that a request asks the workflow to edit; `None` for all. */
  function Asked(q: Request, src: Source): Option<Option<set<string>>> {
    if q.act == Legacy && src.concreteReferral.None? then Some(None)
    else if q.act == Continue && src.concreteReferral.Some?
            && Selected(Selectable(src.concreteReferral.value), q.mask) != {}
    then Some(Some(Selected(Selectable(src.concreteReferral.value), q.mask)))
    else None
  }

  function SelectionOutcome(tracking: Option<Row>, q: Request, w: World): Outcome {
    if !Passes(tracking, q, w) then Refused
    else
      var src := w.source.value;
      if q.act == Close then (if q.context.FromPreview? then BackToPreview else Closed)
      else if Asked(q, src).Some? then Handed(Asked(q, src).value, w.workflowStarts)
      else if q.act == Legacy || src.concreteReferral.None? || q.act == Continue then Refused
      else if q.act == Toggling then
        var s := Selectable(src.concreteReferral.value);
        if q.index < 0 || q.index !in s then Refused
        else Shown(Render(s, Toggle(s, q.mask, q.index)), Toggle(s, q.mask, q.index))
      else Ignored
  }

  function SelectionRow(r: Row, q: Request, w: World, now: int): Row {
    if !q.context.FromWave? || !Passes(Some(r), q, w) then r
    else
      var accepted := (if r.phase == Claimed then Reminded(r, now) else r).(phase := Accepted);
      match SelectionOutcome(Some(r), q, w)
      case Closed => accepted.(phase := Cancelled)
      case Handed(_, true) => accepted.(phase := Started)
      case _ => accepted
  }

  /** The bookkeeping of a reminder is written once, when the row leaves `claimed`. */
  predicate BookedOnce(r: Row, n: Row, now: int) {
    if r.phase == Claimed && n.phase != Claimed
    then n.completed && n.reminders == 1 && n.last == Some(now)
    else n.completed == r.completed && n.reminders == r.reminders && n.last == r.last
  }

  /** What an answer makes of the row: only an open offer can be declined or accepted. */
  lemma OfferAnswered(r: Row, answer: OfferAnswer, showable: bool, now: int)
    ensures var n := OfferRow(r, answer, showable, now);
            && BookedOnce(r, n, now)
            && (Rank(r.phase) >= 2 ==> n.phase == r.phase)
            && (Rank(r.phase) < 2 ==>
                  && (answer.No? ==> n.phase == Declined)
                  && (answer.Yes? ==> n.phase == if showable then Accepted else OfferSent)
                  && (answer.OtherAnswer? ==> n.phase == OfferSent))
  {
  }

  /**
   What a request makes of the row: nothing, unless it comes from the wave and is let through; then
   the row is started exactly when the workflow took the fields, cancelled exactly when the member
   closed the form, and else accepted.
   */
  lemma SelectionAnswered(r: Row, q: Request, w: World, now: int)
    ensures var n, o := SelectionRow(r, q, w, now), SelectionOutcome(Some(r), q, w);
            && BookedOnce(r, n, now)
            && (!q.context.FromWave? || !Passes(Some(r), q, w) ==> n == r)
            && (q.context.FromWave? && Passes(Some(r), q, w) ==>
                  && (n.phase == Started <==> o.Handed? && o.started)
                  && (n.phase == Cancelled <==> q.act == Close)
                  && n.phase in {Started, Cancelled, Accepted})
  {
  }

  // ------------------------------------------------------------------ the callbacks as they run

  class Tracking {
    var row: Option<Row>

    constructor (row: Option<Row>)
      ensures this.row == row
    {
      this.row := row;
    }

    /** The answer to an offer; `showable` says whether the selection could be shown. */
    method HandleOffer(knownWave: bool, answer: OfferAnswer, showable: bool, now: int)
      modifies this
      ensures row == if knownWave && old(row).Some? then Some(OfferRow(old(row).value, answer, showable, now)) else old(row)
    {
      if !knownWave || row.None? {
        return;
      }
      if row.value.phase == Claimed {
        row := Some(row.value.(reminders := 1, last := Some(now)));
        row := Some(row.value.(phase := OfferSent));
        row := Some(row.value.(completed := true));
      }
      if answer == No && row.value.phase in {OfferSent, Declined} {
        row := Some(row.value.(phase := Declined));
        return;
      }
      if answer == Yes && row.value.phase in {OfferSent, Accepted} {
        if !showable {
          return;
        }
        row := Some(row.value.(phase := Accepted));
      }
    }

    /** The tests of the context; a wave's row is moved to `accepted` on the way. */
    method CheckContext(q: Request, w: World, now: int) returns (ok: bool)
      requires w.source.Some? && q.source == w.source.value.application
      modifies this
      ensures ok == Passes(old(row), q, w)
      ensures row == if ok && q.context.FromWave?
                     then Some((if old(row).value.phase == Claimed then Reminded(old(row).value, now) else old(row).value)
                               .(phase := Accepted))
                     else old(row)
    {
      match q.context {
        case Manual =>
          return !w.activeRefresh;
        case FromWave =>
          if row.None? || row.value.phase !in {Claimed, OfferSent, Accepted} || w.activeRefresh {
            return false;
          }
          if row.value.phase == Claimed {
            row := Some(row.value.(reminders := 1, last := Some(now)));
            row := Some(row.value.(completed := true));
          }
          row := Some(row.value.(phase := Accepted));
          return true;
        case FromPreview(verified, base) =>
          return verified && base == q.source;
        case Unreadable =>
          return false;
      }
    }

    method HandleSelection(q: Request, w: World, now: int) returns (o: Outcome)
      modifies this
      ensures o == SelectionOutcome(old(row), q, w)
      ensures row == if old(row).Some? then Some(SelectionRow(old(row).value, q, w, now)) else None
    {
      if w.source.None? || q.source != w.source.value.application {
        return Refused;
      }
      var ok := CheckContext(q, w, now);
      if !ok {
        return Refused;
      }
      var values := w.source.value.concreteReferral;
      if q.act == Close {
        if q.context.FromPreview? {
          return BackToPreview;
        }
        if q.context.FromWave? {
          row := Some(row.value.(phase := Cancelled));
        }
        return Closed;
      }
      if q.act == Legacy {
        if values.Some? {
          return Refused;
        }
        if w.workflowStarts && q.context.FromWave? {
          row := Some(row.value.(phase := Started));
        }
        return Handed(None, w.workflowStarts);
      }
      if values.None? {
        return Refused;
      }
      var selectable := Selectable(values.value);
      if q.act == Toggling {
        if q.index < 0 || q.index !in selectable {
          return Refused;
        }
        var mask := Xor(q.mask, Shift(q.index));
        return Shown(Render(selectable, mask), mask);
      }
      if q.act != Continue {
        return Ignored;
      }
      var selected := Selected(selectable, q.mask);
      if selected == {} {
        return Refused;
      }
      if w.workflowStarts && q.context.FromWave? {
        row := Some(row.value.(phase := Started));
      }
      return Handed(Some(selected), w.workflowStarts);
    }
  }

  // ------------------------------------------------------------------ every writer of the row

  datatype Event =
    | Offer(answer: OfferAnswer, showable: bool, now: int)
    | Select(q: Request, w: World, now: int)
    | SendDone(now: int)
    | SendError
    | RefreshPublished

  function RowStep(r: Row, e: Event): Row {
    match e
    case Offer(answer, showable, now) => OfferRow(r, answer, showable, now)
    case Select(q, w, now) => SelectionRow(r, q, w, now)
    case SendDone(now) => Reminded(r, now).(phase := OfferSent)
    case SendError => r.(phase := SendFailed, completed := true)
    case RefreshPublished => if r.completed then r else r.(phase := Finished, completed := true)
  }

  function RowAfter(r: Row, es: seq<Event>): Row {
    if es == [] then r else RowStep(RowAfter(r, es[..|es| - 1]), es[|es| - 1])
  }

  /** Completed exactly when past `claimed`; then one reminder is on record, unless none was sent. */
  ghost predicate Sound(r: Row) {
    && (r.completed <==> r.phase != Claimed)
    && (r.phase !in {Claimed, SendFailed, Finished} ==> r.reminders == 1)
    && r.reminders <= 1
  }

  const FRESH := Row(Claimed, false, 0, None)

  lemma StepIsSound(r: Row, e: Event)
    requires Sound(r)
    ensures Sound(RowStep(r, e))
  {
  }

  lemma {:induction false} RunIsSound(r: Row, es: seq<Event>)
    requires Sound(r)
    ensures Sound(RowAfter(r, es))
    decreases |es|
  {
    if es != [] {
      RunIsSound(r, es[..|es| - 1]);
      StepIsSound(RowAfter(r, es[..|es| - 1]), es[|es| - 1]);
    }
  }

  /** The phase does not go back, and a last phase is never left. */
  ghost predicate Advances(r: Row, n: Row) {
    Rank(r.phase) <= Rank(n.phase) && (Terminal(r.phase) ==> n.phase == r.phase)
  }

  /** The sender's closing update comes after the member has already answered. */
  predicate Overtaken(r: Row, e: Event) {
    || (e.SendDone? && Rank(r.phase) >= 2)
    || (e.SendError? && Terminal(r.phase) && r.phase != SendFailed)
  }

  lemma StepAdvancesIff(r: Row, e: Event)
    requires Sound(r)
    ensures Advances(r, RowStep(r, e)) <==> !Overtaken(r, e)
  {
    if e.Select? && e.q.context.FromWave? && Passes(Some(r), e.q, e.w) {
      assert Rank(r.phase) < 3;
    }
  }

  ghost predicate RunAdvances(r: Row, es: seq<Event>) {
    forall i: nat, k: nat :: i <= k <= |es| ==> Advances(RowAfter(r, es[..i]), RowAfter(r, es[..k]))
  }

  ghost predicate NeverOvertaken(r: Row, es: seq<Event>) {
    forall i: nat :: i < |es| ==> !Overtaken(RowAfter(r, es[..i]), es[i])
  }

  lemma RowNext(r: Row, es: seq<Event>, i: nat)
    requires i < |es|
    ensures RowAfter(r, es[..i + 1]) == RowStep(RowAfter(r, es[..i]), es[i])
  {
    assert es[..i + 1][..i] == es[..i];
  }

  lemma {:induction false} AdvancesFrom(r: Row, es: seq<Event>, i: nat, k: nat)
    requires Sound(r) && NeverOvertaken(r, es) && i <= k <= |es|
    ensures Advances(RowAfter(r, es[..i]), RowAfter(r, es[..k]))
    decreases k
  {
    if i < k {
      AdvancesFrom(r, es, i, k - 1);
      RowNext(r, es, k - 1);
      RunIsSound(r, es[..k - 1]);
      StepAdvancesIff(RowAfter(r, es[..k - 1]), es[k - 1]);
    }
  }

  /**
   Over any run of callbacks, sender and worker the phase only advances, and last phases are
   final, exactly when the sender's update never comes after the member's answer.
   */
  lemma RunAdvancesIff(r: Row, es: seq<Event>)
    requires Sound(r)
    ensures RunAdvances(r, es) <==> NeverOvertaken(r, es)
  {
    if NeverOvertaken(r, es) {
      forall i: nat, k: nat | i <= k <= |es| ensures Advances(RowAfter(r, es[..i]), RowAfter(r, es[..k])) {
        AdvancesFrom(r, es, i, k);
      }
    }
    if RunAdvances(r, es) {
      forall i: nat | i < |es| ensures !Overtaken(RowAfter(r, es[..i]), es[i]) {
        RowNext(r, es, i);
        RunIsSound(r, es[..i]);
        StepAdvancesIff(RowAfter(r, es[..i]), es[i]);
        assert Advances(RowAfter(r, es[..i]), RowAfter(r, es[..i + 1]));
      }
    }
  }

  /** An event that settles the offer, whatever the row says: a plain answer, or a request from the wave. */
  predicate Answers(e: Event) {
    match e
    case Offer(answer, showable, _) => answer == No || (answer == Yes && showable)
    case Select(q, w, _) =>
      q.context.FromWave? && w.source.Some? && q.source == w.source.value.application && !w.activeRefresh
    case _ => false
  }

  ghost predicate Answered(es: seq<Event>) {
    exists i :: 0 <= i < |es| && Answers(es[i])
  }

  /** No message counts as sent after the member has answered. */
  ghost predicate SentBeforeAnswers(es: seq<Event>) {
    forall i, j :: 0 <= i < j < |es| && Answers(es[i]) ==> !es[j].SendDone?
  }

  /** The callbacks, and a sender whose messages arrive. */
  ghost predicate Delivered(es: seq<Event>) {
    forall i :: 0 <= i < |es| ==> es[i].Offer? || es[i].Select? || es[i].SendDone?
  }

  lemma AnsweredNext(es: seq<Event>)
    requires es != []
    ensures Answered(es) <==> Answered(es[..|es| - 1]) || Answers(es[|es| - 1])
    ensures SentBeforeAnswers(es) <==>
            SentBeforeAnswers(es[..|es| - 1]) && !(Answered(es[..|es| - 1]) && es[|es| - 1].SendDone?)
  {
    var before := es[..|es| - 1];
    if i :| 0 <= i < |before| && Answers(before[i]) {
      assert Answers(es[i]);
    }
    assert forall i :: 0 <= i < |before| ==> before[i] == es[i];
  }

  /** While nothing is sent after an answer, the row is past `offer_sent` exactly when there was one. */
  lemma {:induction false} PastOfferIff(es: seq<Event>)
    requires Delivered(es) && SentBeforeAnswers(es)
    ensures Rank(RowAfter(FRESH, es).phase) >= 2 <==> Answered(es)
    decreases |es|
  {
    if es != [] {
      AnsweredNext(es);
      PastOfferIff(es[..|es| - 1]);
    }
  }

  lemma NeverOvertakenNext(r: Row, es: seq<Event>)
    requires es != []
    ensures var before := es[..|es| - 1];
            NeverOvertaken(r, es) <==> NeverOvertaken(r, before) && !Overtaken(RowAfter(r, before), es[|es| - 1])
  {
    var before := es[..|es| - 1];
    forall i: nat | i < |before|
      ensures Overtaken(RowAfter(r, before[..i]), before[i]) <==> Overtaken(RowAfter(r, es[..i]), es[i])
    {
      assert before[..i] == es[..i];
    }
    if NeverOvertaken(r, es) {
      assert !Overtaken(RowAfter(r, es[..|es| - 1]), es[|es| - 1]);
    }
  }

  lemma {:induction false} NeverOvertakenIff(es: seq<Event>)
    requires Delivered(es)
    ensures NeverOvertaken(FRESH, es) <==> SentBeforeAnswers(es)
    decreases |es|
  {
    if es != [] {
      var before := es[..|es| - 1];
      AnsweredNext(es);
      NeverOvertakenIff(before);
      NeverOvertakenNext(FRESH, es);
      if SentBeforeAnswers(before) {
        PastOfferIff(before);
      }
    }
  }

  /**
   Told by the schedule alone: with callbacks and messages that arrive, the phase only advances and
   last phases are final exactly when the sender's update comes before any answer.
   */
  lemma RunAdvancesBySchedule(es: seq<Event>)
    requires Delivered(es)
    ensures RunAdvances(FRESH, es) <==> SentBeforeAnswers(es)
  {
    RunAdvancesIff(FRESH, es);
    NeverOvertakenIff(es);
  }

  /** Callbacks alone always advance. */
  lemma CallbacksAdvance(es: seq<Event>)
    requires forall i :: 0 <= i < |es| ==> es[i].Offer? || es[i].Select?
    ensures RunAdvances(FRESH, es)
    ensures forall i: nat :: i <= |es| ==> Sound(RowAfter(FRESH, es[..i]))
  {
    RunAdvancesIff(FRESH, es);
    forall i: nat | i <= |es| ensures Sound(RowAfter(FRESH, es[..i])) {
      RunIsSound(FRESH, es[..i]);
    }
  }

  /** A member who declines before the sender's update is written is offered the refresh again. */
  lemma DeclineIsLost(r: Row, showable: bool, now: int, later: int)
    requires Sound(r) && r.phase == Claimed
    ensures var declined := RowAfter(r, [Offer(No, showable, now)]);
            var reopened := RowAfter(r, [Offer(No, showable, now), SendDone(later)]);
            && declined.phase == Declined && reopened.phase == OfferSent
            && OfferRow(reopened, Yes, true, later).phase == Accepted
  {
    var es := [Offer(No, showable, now), SendDone(later)];
    assert es[..1] == [Offer(No, showable, now)];
    RowNext(r, es, 0);
    RowNext(r, es, 1);
    assert es[..0] == [] && es[..2] == es;
  }

  // ------------------------------------------------------------------ from the boxes to the workflow

  /** The offered fields whose boxes were pressed an odd number of times. */
  function PressedFields(s: set<nat>, ps: seq<int>): set<string>
    requires forall i :: i in s ==> i < FIELDS
  {
    set i | i in s && Presses(ps, i) % 2 == 1 :: FieldId(i)
  }

  /**
   Pressing boxes on a fresh keyboard and continuing hands the workflow exactly the fields pressed
   an odd number of times, as many as the counter shows; with none, the request is refused.
   */
  lemma PressedFieldsAreHanded(tracking: Option<Row>, q: Request, w: World, ps: seq<int>)
    requires Passes(tracking, q, w) && q.act == Continue && w.source.value.concreteReferral.Some?
    requires q.mask == MaskAfter(Selectable(w.source.value.concreteReferral.value), ps)
    ensures var s := Selectable(w.source.value.concreteReferral.value);
            var pressed := PressedFields(s, ps);
            && |pressed| == Render(s, q.mask).counter
            && SelectionOutcome(tracking, q, w) == if pressed == {} then Refused else Handed(Some(pressed), w.workflowStarts)
  {
    var concrete := w.source.value.concreteReferral.value;
    var s := Selectable(concrete);
    ToggleRun(concrete, ps);
    forall i: nat | i in s ensures And(q.mask, Shift(i)) != 0 <==> Presses(ps, i) % 2 == 1 {
      MaskBits(s, ps, i);
    }
    assert Selected(s, q.mask) == PressedFields(s, ps);
  }

  /** A wave is started only by a request that the workflow accepted, with at least one field. */
  lemma StartedMeansHanded(r: Row, q: Request, w: World, now: int)
    requires SelectionRow(r, q, w, now).phase == Started && r.phase != Started
    ensures exists fields :: SelectionOutcome(Some(r), q, w) == Handed(fields, true)
                             && (fields.Some? ==> fields.value != {})
  {
    var o := SelectionOutcome(Some(r), q, w);
    assert o == Handed(o.fields, true);
  }
}
