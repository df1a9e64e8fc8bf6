/** The economic calendar's event lifecycle: derived status, write-once times, and a snapshot
    history that must always explain the stored event. */
module CalendarLifecycle {
  import opened Common

  const DAY := 86400

  datatype Status = Scheduled | Imminent | PendingRelease | Released

  function Rank(s: Status): nat {
    match s
    case Scheduled => 0
    case Imminent => 1
    case PendingRelease => 2
    case Released => 3
  }

  datatype Values = Values(
    actual: Option<string>, previous: Option<string>, forecast: Option<string>, revised: Option<string>)

  datatype Metadata = Metadata(
    name: string, country: Option<string>, category: Option<string>, currency: Option<string>,
    reference: Option<string>, importance: Option<int>, unit: Option<string>, sourceUrl: Option<string>,
    sessionBucket: string)

  /** What a provider says about an event. Times are seconds since the epoch, in UTC. */
  datatype Report = Report(uid: string, scheduledAt: int, allDay: bool, values: Values, meta: Metadata)

  /** The stored event: the latest report and the service's own bookkeeping. */
  datatype Event = Event(
    report: Report, status: Status, firstSeen: int, lastSeen: int, ingested: int, updated: int,
    releasedAt: Option<int>, lastValueCheck: Option<int>)

  // ---------------------------------------------------------------- status

  predicate Present(v: Option<string>) { v.Some? && v.value != "" }

  function DeriveStatus(r: Report, at: int, bufferMinutes: int): Status {
    if Present(r.values.actual) || Present(r.values.revised) then Released
    else if r.allDay && at / DAY > r.scheduledAt / DAY then Released
    else if at >= r.scheduledAt then PendingRelease
    else if at >= r.scheduledAt - 60 * MaxInt(0, bufferMinutes) then Imminent
    else Scheduled
  }

  /** For an unchanged report the status never regresses as observation time grows. */
  lemma StatusNeverRegresses(r: Report, a: int, b: int, bufferMinutes: int)
    requires a <= b
    ensures Rank(DeriveStatus(r, a, bufferMinutes)) <= Rank(DeriveStatus(r, b, bufferMinutes))
  {
    assert a / DAY <= b / DAY;
  }

  // ---------------------------------------------------------------- one observation

  function ApplyLifecycle(r: Report, existing: Option<Event>, at: int, valueCheck: bool, bufferMinutes: int): Event {
    var status := DeriveStatus(r, at, bufferMinutes);
    var released := if existing.Some? then existing.value.releasedAt else None;
    Event(
      r,
      status,
      if existing.Some? then existing.value.firstSeen else at,
      at,
      if existing.Some? then existing.value.ingested else at,
      at,
      if status.Released? && released.None? then Some(at) else released,
      if valueCheck || status.PendingRelease? || status.Released? then Some(at)
      else if existing.Some? then existing.value.lastValueCheck else None)
  }

  datatype Reason = Inserted | ValuesChanged | ScheduleChanged | StatusChanged | MetadataChanged

  function SnapshotReason(existing: Option<Event>, e: Event): Option<Reason> {
    if existing.None? then Some(Inserted)
    else
      var x := existing.value;
      if x.report.values != e.report.values || x.releasedAt != e.releasedAt then Some(ValuesChanged)
      else if x.report.scheduledAt != e.report.scheduledAt then Some(ScheduleChanged)
      else if x.status != e.status then Some(StatusChanged)
      else if x.report.meta != e.report.meta then Some(MetadataChanged)
      else None
  }

  /** The fields that a snapshot is meant to follow. */
  datatype Tracked = Tracked(values: Values, releasedAt: Option<int>, scheduledAt: int, status: Status, meta: Metadata)

  function TrackedOf(e: Event): Tracked {
    Tracked(e.report.values, e.releasedAt, e.report.scheduledAt, e.status, e.report.meta)
  }

  /** No snapshot is due exactly when no tracked field differs. */
  lemma SnapshotIffTrackedDiffers(x: Event, e: Event)
    ensures SnapshotReason(Some(x), e).None? <==> TrackedOf(x) == TrackedOf(e)
  {
  }

  // ---------------------------------------------------------------- batches

  datatype Snapshot = Snapshot(reason: Reason, event: Event)

  datatype Calendar = Calendar(events: map<string, Event>, history: map<string, seq<Snapshot>>)

  datatype Batch = Batch(reports: seq<Report>, at: int, valueCheck: bool)

  function Existing(c: Calendar, uid: string): Option<Event> {
    if uid in c.events then Some(c.events[uid]) else None
  }

  function HistoryOf(c: Calendar, uid: string): seq<Snapshot> {
    if uid in c.history then c.history[uid] else []
  }

  /** One report of a batch. `before` is the calendar as it was fetched for the whole batch. */
  function Absorb(before: Calendar, c: Calendar, r: Report, b: Batch, bufferMinutes: int): Calendar {
    var existing := Existing(before, r.uid);
    var e := ApplyLifecycle(r, existing, b.at, b.valueCheck, bufferMinutes);
    var reason := SnapshotReason(existing, e);
    Calendar(
      c.events[r.uid := e],
      if reason.None? then c.history
      else c.history[r.uid := HistoryOf(c, r.uid) + [Snapshot(reason.value, e)]])
  }

  function AbsorbAll(before: Calendar, reports: seq<Report>, b: Batch, bufferMinutes: int): Calendar {
    if reports == [] then before
    else Absorb(before, AbsorbAll(before, reports[..|reports| - 1], b, bufferMinutes),
                reports[|reports| - 1], b, bufferMinutes)
  }

  /** How many reports of the batch are due a snapshot. */
  function SnapshotsDue(before: Calendar, reports: seq<Report>, b: Batch, bufferMinutes: int): nat {
    if reports == [] then 0
    else
      var n := |reports| - 1;
      var existing := Existing(before, reports[n].uid);
      var e := ApplyLifecycle(reports[n], existing, b.at, b.valueCheck, bufferMinutes);
      SnapshotsDue(before, reports[..n], b, bufferMinutes) + (if SnapshotReason(existing, e).Some? then 1 else 0)
  }

  /** How many reports of the batch move their event to another time, so that its old row goes. */
  function DeletesDue(before: Calendar, reports: seq<Report>): nat {
    if reports == [] then 0
    else
      var n := |reports| - 1;
      var existing := Existing(before, reports[n].uid);
      DeletesDue(before, reports[..n])
      + (if existing.Some? && existing.value.report.scheduledAt != reports[n].scheduledAt then 1 else 0)
  }

  function WriteBatch(c: Calendar, b: Batch, bufferMinutes: int): Calendar {
    AbsorbAll(c, b.reports, b, bufferMinutes)
  }

  function AfterBatches(batches: seq<Batch>, bufferMinutes: int): Calendar {
    if batches == [] then Calendar(map[], map[])
    else WriteBatch(AfterBatches(batches[..|batches| - 1], bufferMinutes), batches[|batches| - 1], bufferMinutes)
  }

  /** At most one report per event. */
  ghost predicate DistinctUids(reports: seq<Report>) {
    forall i, j :: 0 <= i < j < |reports| ==> reports[i].uid != reports[j].uid
  }

  /** What a report says of the tracked fields at one instant, the release time apart. */
  datatype Told = Told(values: Values, scheduledAt: int, meta: Metadata, status: Status)

  function ToldBy(r: Report, at: int, bufferMinutes: int): Told {
    Told(r.values, r.scheduledAt, r.meta, DeriveStatus(r, at, bufferMinutes))
  }

  /** Any two reports of the same event in the batch say the same. */
  ghost predicate Agrees(b: Batch, bufferMinutes: int) {
    forall i, j :: 0 <= i < j < |b.reports| && b.reports[i].uid == b.reports[j].uid ==>
      ToldBy(b.reports[i], b.at, bufferMinutes) == ToldBy(b.reports[j], b.at, bufferMinutes)
  }

  // ---------------------------------------------------------------- write-once times

  /** What an event keeps from one calendar to a later one. */
  ghost predicate KeepsTimes(x: Event, y: Event) {
    && x.firstSeen == y.firstSeen
    && x.ingested == y.ingested
    && (x.releasedAt.Some? ==> y.releasedAt == x.releasedAt)
  }

  lemma {:induction false} BatchKeepsTimes(c: Calendar, reports: seq<Report>, b: Batch, buffer: int, uid: string)
    requires uid in c.events
    ensures uid in AbsorbAll(c, reports, b, buffer).events
    ensures KeepsTimes(c.events[uid], AbsorbAll(c, reports, b, buffer).events[uid])
  {
    if reports != [] { BatchKeepsTimes(c, reports[..|reports| - 1], b, buffer, uid); }
  }

  /** Over any run, first-seen and ingested times never change and a release time is written once. */
  lemma {:induction false} TimesAreWriteOnce(before: seq<Batch>, after: seq<Batch>, buffer: int, uid: string)
    requires uid in AfterBatches(before, buffer).events
    ensures uid in AfterBatches(before + after, buffer).events
    ensures KeepsTimes(AfterBatches(before, buffer).events[uid], AfterBatches(before + after, buffer).events[uid])
  {
    if after == [] {
      assert before + after == before;
    } else {
      var n := |after| - 1;
      TimesAreWriteOnce(before, after[..n], buffer, uid);
      assert (before + after)[..|before| + n] == before + after[..n];
      BatchKeepsTimes(AfterBatches(before + after[..n], buffer), after[n].reports, after[n], buffer, uid);
    }
  }

  // ---------------------------------------------------------------- what the stored status means

  /** The provider has published a figure for the event. */
  ghost predicate HasFigure(r: Report) {
    (r.values.actual.Some? && r.values.actual.value != "") || (r.values.revised.Some? && r.values.revised.value != "")
  }

  ghost predicate DayIsOver(r: Report, at: int) {
    r.allDay && at / 86400 > r.scheduledAt / 86400
  }

  /** What a status says of the report and of the time of its last observation. */
  ghost predicate StatusFits(e: Event, bufferMinutes: int) {
    var r, at := e.report, e.lastSeen;
    && (e.status.Released? <==> HasFigure(r) || DayIsOver(r, at))
    && (e.status.PendingRelease? <==> !HasFigure(r) && !DayIsOver(r, at) && r.scheduledAt <= at)
    && (e.status.Imminent? <==>
          && !HasFigure(r) && !DayIsOver(r, at)
          && bufferMinutes > 0 && r.scheduledAt - 60 * bufferMinutes <= at < r.scheduledAt)
    && (e.status.Scheduled? <==>
          && !HasFigure(r) && !DayIsOver(r, at) && at < r.scheduledAt
          && (bufferMinutes > 0 ==> at < r.scheduledAt - 60 * bufferMinutes))
    && (e.status.Released? ==> e.releasedAt.Some?)
    && e.updated == e.lastSeen
    && (e.status.PendingRelease? || e.status.Released? ==> e.lastValueCheck == Some(e.lastSeen))
  }

  lemma PreparedFits(before: Calendar, r: Report, b: Batch, buffer: int)
    ensures StatusFits(Prepared(before, r, b, buffer), buffer)
    ensures Prepared(before, r, b, buffer).report == r && Prepared(before, r, b, buffer).lastSeen == b.at
  {
  }

  /** After any batches the status of every stored event says what its last report and the time of that
      observation say, and a released event has a release time. */
  lemma {:induction false} StoredStatusFits(batches: seq<Batch>, buffer: int, uid: string)
    requires uid in AfterBatches(batches, buffer).events
    ensures StatusFits(AfterBatches(batches, buffer).events[uid], buffer)
    decreases |batches|
  {
    var front, b := Unsnoc(batches);
    var c := AfterBatches(front, buffer);
    AfterSnoc(front, b, buffer);
    if Mentions(b.reports, uid) {
      var i := LastMention(c, b.reports, b, buffer, uid);
      PreparedFits(c, b.reports[i], b, buffer);
    } else {
      UnmentionedUntouched(c, b.reports, b, buffer, uid);
      StoredStatusFits(front, buffer, uid);
    }
  }

  /** The latest report of the event and the time at which it was observed. */
  ghost function LastObservation(batches: seq<Batch>, uid: string): Option<(Report, int)> {
    if batches == [] then None
    else
      var n := |batches| - 1;
      var r := LastReport(batches[n].reports, uid);
      if r.Some? then Some((r.value, batches[n].at)) else LastObservation(batches[..n], uid)
  }

  ghost function LastReport(reports: seq<Report>, uid: string): Option<Report> {
    if reports == [] then None
    else
      var n := |reports| - 1;
      if reports[n].uid == uid then Some(reports[n]) else LastReport(reports[..n], uid)
  }

  lemma {:induction false} LastReportIs(reports: seq<Report>, uid: string, i: nat)
    requires i < |reports| && reports[i].uid == uid && forall j :: i < j < |reports| ==> reports[j].uid != uid
    ensures LastReport(reports, uid) == Some(reports[i])
  {
    if i < |reports| - 1 { LastReportIs(reports[..|reports| - 1], uid, i); }
  }

  lemma {:induction false} NoLastReport(reports: seq<Report>, uid: string)
    requires !Mentions(reports, uid)
    ensures LastReport(reports, uid) == None
  {
    if reports != [] {
      assert reports[|reports| - 1].uid != uid;
      assert forall i :: 0 <= i < |reports| - 1 ==> reports[..|reports| - 1][i] == reports[i];
      NoLastReport(reports[..|reports| - 1], uid);
    }
  }

  lemma LastObservationSnoc(batches: seq<Batch>, b: Batch, uid: string)
    ensures LastObservation(batches + [b], uid)
         == if LastReport(b.reports, uid).Some? then Some((LastReport(b.reports, uid).value, b.at))
            else LastObservation(batches, uid)
  {
    assert (batches + [b])[..|batches|] == batches;
  }

  /** The stored event shows the report of the last observation and its time, and an event is stored
      exactly if it was ever observed. */
  lemma {:induction false} StoreShowsLastObservation(batches: seq<Batch>, buffer: int, uid: string)
    ensures var e := Existing(AfterBatches(batches, buffer), uid);
      LastObservation(batches, uid) == if e.None? then None else Some((e.value.report, e.value.lastSeen))
    decreases |batches|
  {
    if batches != [] {
      var front, b := Unsnoc(batches);
      var c := AfterBatches(front, buffer);
      AfterSnoc(front, b, buffer);
      LastObservationSnoc(front, b, uid);
      if Mentions(b.reports, uid) {
        var i := LastMention(c, b.reports, b, buffer, uid);
        LastReportIs(b.reports, uid, i);
        PreparedFits(c, b.reports[i], b, buffer);
      } else {
        NoLastReport(b.reports, uid);
        UnmentionedUntouched(c, b.reports, b, buffer, uid);
        StoreShowsLastObservation(front, buffer, uid);
      }
    }
  }

  /** The time of the first batch that observed the event and left it released. */
  ghost function FirstRelease(batches: seq<Batch>, buffer: int, uid: string): Option<int> {
    if batches == [] then None
    else
      var n := |batches| - 1;
      var before, e := FirstRelease(batches[..n], buffer, uid), Existing(AfterBatches(batches, buffer), uid);
      if before.Some? then before
      else if Mentions(batches[n].reports, uid) && e.Some? && e.value.status.Released? then Some(batches[n].at)
      else None
  }

  lemma FirstReleaseSnoc(batches: seq<Batch>, b: Batch, buffer: int, uid: string)
    ensures FirstRelease(batches + [b], buffer, uid)
         == var before, e := FirstRelease(batches, buffer, uid), Existing(AfterBatches(batches + [b], buffer), uid);
            if before.Some? then before
            else if Mentions(b.reports, uid) && e.Some? && e.value.status.Released? then Some(b.at)
            else None
  {
    assert (batches + [b])[..|batches|] == batches;
  }

  /** A stored release time is that of the first observation that left the event released. */
  lemma {:induction false} ReleaseTimeIsFirst(batches: seq<Batch>, buffer: int, uid: string)
    ensures var e := Existing(AfterBatches(batches, buffer), uid);
      FirstRelease(batches, buffer, uid) == if e.None? then None else e.value.releasedAt
    decreases |batches|
  {
    if batches != [] {
      var front, b := Unsnoc(batches);
      var c := AfterBatches(front, buffer);
      ReleaseTimeIsFirst(front, buffer, uid);
      AfterSnoc(front, b, buffer);
      FirstReleaseSnoc(front, b, buffer, uid);
      if Mentions(b.reports, uid) {
        var i := LastMention(c, b.reports, b, buffer, uid);
        PreparedRelease(c, b.reports[i], b, buffer);
      } else {
        UnmentionedUntouched(c, b.reports, b, buffer, uid);
      }
    }
  }

  lemma PreparedRelease(before: Calendar, r: Report, b: Batch, buffer: int)
    ensures var x, e := Existing(before, r.uid), Prepared(before, r, b, buffer);
      var held := if x.None? then None else x.value.releasedAt;
      e.releasedAt == if held.Some? then held else if e.status.Released? then Some(b.at) else None
  {
  }

  /** The reason of a snapshot is the first kind of difference, in a fixed order of precedence. */
  lemma ReasonIsFirstDifference(x: Event, e: Event)
    ensures SnapshotReason(None, e) == Some(Inserted)
    ensures SnapshotReason(Some(x), e) != Some(Inserted)
    ensures SnapshotReason(Some(x), e) == Some(ValuesChanged) <==>
              x.report.values != e.report.values || x.releasedAt != e.releasedAt
    ensures SnapshotReason(Some(x), e) == Some(ScheduleChanged) <==>
              && x.report.values == e.report.values && x.releasedAt == e.releasedAt
              && x.report.scheduledAt != e.report.scheduledAt
    ensures SnapshotReason(Some(x), e) == Some(StatusChanged) <==>
              && x.report.values == e.report.values && x.releasedAt == e.releasedAt
              && x.report.scheduledAt == e.report.scheduledAt && x.status != e.status
    ensures SnapshotReason(Some(x), e) == Some(MetadataChanged) <==>
              && x.report.values == e.report.values && x.releasedAt == e.releasedAt
              && x.report.scheduledAt == e.report.scheduledAt && x.status == e.status
              && x.report.meta != e.report.meta
  {
  }

  // ---------------------------------------------------------------- the history explains the store

  /** The tracked fields of a stored event are those of its last snapshot. */
  ghost predicate Explained(c: Calendar, uid: string) {
    uid in c.events ==>
      HistoryOf(c, uid) != [] && TrackedOf(HistoryOf(c, uid)[|HistoryOf(c, uid)| - 1].event) == TrackedOf(c.events[uid])
  }

  ghost predicate Mentions(reports: seq<Report>, uid: string) {
    exists i :: 0 <= i < |reports| && reports[i].uid == uid
  }

  lemma {:induction false} UnmentionedUntouched(c: Calendar, reports: seq<Report>, b: Batch, buffer: int, uid: string)
    requires !Mentions(reports, uid)
    ensures Existing(AbsorbAll(c, reports, b, buffer), uid) == Existing(c, uid)
    ensures HistoryOf(AbsorbAll(c, reports, b, buffer), uid) == HistoryOf(c, uid)
  {
    if reports != [] {
      var n := |reports| - 1;
      assert forall i :: 0 <= i < n ==> reports[..n][i] == reports[i];
      assert !Mentions(reports[..n], uid);
      assert reports[n].uid != uid;
      UnmentionedUntouched(c, reports[..n], b, buffer, uid);
    }
  }

  ghost predicate AllExplained(c: Calendar) {
    forall uid :: Explained(c, uid)
  }

  function Prepared(before: Calendar, r: Report, b: Batch, buffer: int): Event {
    ApplyLifecycle(r, Existing(before, r.uid), b.at, b.valueCheck, buffer)
  }

  /** After a batch an event it mentions is what its last report makes of the row fetched before. */
  lemma {:induction false} LastMention(c: Calendar, reports: seq<Report>, b: Batch, buffer: int, uid: string)
      returns (i: nat)
    requires Mentions(reports, uid)
    ensures i < |reports| && reports[i].uid == uid
    ensures forall j :: i < j < |reports| ==> reports[j].uid != uid
    ensures Existing(AbsorbAll(c, reports, b, buffer), uid) == Some(Prepared(c, reports[i], b, buffer))
  {
    var n := |reports| - 1;
    if reports[n].uid == uid {
      i := n;
    } else {
      assert Mentions(reports[..n], uid);
      i := LastMention(c, reports[..n], b, buffer, uid);
    }
  }

  /** Reports that say the same lead to the same tracked fields, and conversely. */
  lemma SameToldSameTracked(before: Calendar, r: Report, q: Report, b: Batch, buffer: int)
    requires r.uid == q.uid
    ensures TrackedOf(Prepared(before, r, b, buffer)) == TrackedOf(Prepared(before, q, b, buffer))
       <==> ToldBy(r, b.at, buffer) == ToldBy(q, b.at, buffer)
  {
  }

  /** `c` holds the event as fetched, or as an earlier report of the batch left it that said the same. */
  lemma AbsorbExplained(before: Calendar, c: Calendar, r: Report, b: Batch, buffer: int)
    requires Explained(c, r.uid)
    requires Existing(c, r.uid) == Existing(before, r.uid)
      || (r.uid in c.events && TrackedOf(c.events[r.uid]) == TrackedOf(Prepared(before, r, b, buffer)))
    ensures Explained(Absorb(before, c, r, b, buffer), r.uid)
  {
    var existing, e := Existing(before, r.uid), Prepared(before, r, b, buffer);
    if existing.Some? { SnapshotIffTrackedDiffers(existing.value, e); }
  }

  lemma {:induction false} BatchExplained(c: Calendar, reports: seq<Report>, b: Batch, buffer: int, uid: string)
    requires Explained(c, uid)
    requires forall i, j :: 0 <= i < j < |reports| && reports[i].uid == reports[j].uid ==>
      ToldBy(reports[i], b.at, buffer) == ToldBy(reports[j], b.at, buffer)
    ensures Explained(AbsorbAll(c, reports, b, buffer), uid)
  {
    if reports != [] {
      var n := |reports| - 1;
      var front, r := reports[..n], reports[n];
      BatchExplained(c, front, b, buffer, uid);
      if r.uid == uid {
        if Mentions(front, uid) {
          var i := LastMention(c, front, b, buffer, uid);
          assert reports[i].uid == reports[n].uid;
          SameToldSameTracked(c, front[i], r, b, buffer);
        } else {
          UnmentionedUntouched(c, front, b, buffer, uid);
        }
        AbsorbExplained(c, AbsorbAll(c, front, b, buffer), r, b, buffer);
      }
    }
  }

  ghost predicate AllAgree(batches: seq<Batch>, buffer: int) {
    forall i :: 0 <= i < |batches| ==> Agrees(batches[i], buffer)
  }

  /** After any run of batches, each of which agrees with itself, every stored event shows exactly the
      tracked fields of its last snapshot. */
  lemma {:induction false} HistoryExplainsStore(batches: seq<Batch>, buffer: int)
    requires AllAgree(batches, buffer)
    ensures AllExplained(AfterBatches(batches, buffer))
  {
    if batches != [] {
      var n := |batches| - 1;
      HistoryExplainsStore(batches[..n], buffer);
      assert Agrees(batches[n], buffer);
      forall uid ensures Explained(AfterBatches(batches, buffer), uid) {
        BatchExplained(AfterBatches(batches[..n], buffer), batches[n].reports, batches[n], buffer, uid);
      }
    }
  }

  // ---------------------------------------------------------------- which snapshots are written

  /** A batch that mentions an event once adds to its history exactly the snapshot that is due, if any. */
  lemma {:induction false} HistoryGrows(c: Calendar, reports: seq<Report>, b: Batch, buffer: int, i: nat)
    requires DistinctUids(reports) && i < |reports|
    ensures var e := Prepared(c, reports[i], b, buffer);
      var reason := SnapshotReason(Existing(c, reports[i].uid), e);
      HistoryOf(AbsorbAll(c, reports, b, buffer), reports[i].uid)
      == HistoryOf(c, reports[i].uid) + (if reason.None? then [] else [Snapshot(reason.value, e)])
  {
    var n := |reports| - 1;
    if i < n {
      HistoryGrows(c, reports[..n], b, buffer, i);
    } else {
      assert !Mentions(reports[..n], reports[n].uid);
      UnmentionedUntouched(c, reports[..n], b, buffer, reports[n].uid);
    }
  }

  lemma {:induction false} SilentBatch(c: Calendar, reports: seq<Report>, b: Batch, buffer: int)
    requires forall i :: 0 <= i < |reports| ==>
      SnapshotReason(Existing(c, reports[i].uid), Prepared(c, reports[i], b, buffer)).None?
    ensures AbsorbAll(c, reports, b, buffer).history == c.history
    ensures SnapshotsDue(c, reports, b, buffer) == 0
  {
    if reports != [] {
      var n := |reports| - 1;
      assert SnapshotReason(Existing(c, reports[n].uid), Prepared(c, reports[n], b, buffer)).None?;
      SilentBatch(c, reports[..n], b, buffer);
    }
  }

  /** Preparing a report again, over what a report that said the same left, changes no tracked field. */
  lemma PreparedAgain(before: Calendar, after: Calendar, q: Report, r: Report, b: Batch, buffer: int)
    requires q.uid == r.uid && ToldBy(q, b.at, buffer) == ToldBy(r, b.at, buffer)
    requires Existing(after, r.uid) == Some(Prepared(before, q, b, buffer))
    ensures SnapshotReason(Existing(after, r.uid), Prepared(after, r, b, buffer)).None?
  {
  }

  /** Observing an agreeing batch a second time at the same time writes no snapshot at all, whatever the
      calendar held. */
  lemma ReobservedBatchIsSilent(c: Calendar, b: Batch, buffer: int)
    requires Agrees(b, buffer)
    ensures WriteBatch(WriteBatch(c, b, buffer), b, buffer).history == WriteBatch(c, b, buffer).history
    ensures SnapshotsDue(WriteBatch(c, b, buffer), b.reports, b, buffer) == 0
  {
    var after := WriteBatch(c, b, buffer);
    forall i | 0 <= i < |b.reports|
      ensures SnapshotReason(Existing(after, b.reports[i].uid), Prepared(after, b.reports[i], b, buffer)).None?
    {
      var uid := b.reports[i].uid;
      assert Mentions(b.reports, uid);
      var l := LastMention(c, b.reports, b, buffer, uid);
      SaysTheSame(b, buffer, i, l);
      PreparedAgain(c, after, b.reports[l], b.reports[i], b, buffer);
    }
    SilentBatch(after, b.reports, b, buffer);
  }

  lemma SaysTheSame(b: Batch, buffer: int, i: nat, j: nat)
    requires Agrees(b, buffer) && i < |b.reports| && j < |b.reports| && b.reports[i].uid == b.reports[j].uid
    ensures ToldBy(b.reports[j], b.at, buffer) == ToldBy(b.reports[i], b.at, buffer)
  {
    if i < j {
      assert ToldBy(b.reports[i], b.at, buffer) == ToldBy(b.reports[j], b.at, buffer);
    } else if j < i {
      assert ToldBy(b.reports[j], b.at, buffer) == ToldBy(b.reports[i], b.at, buffer);
    }
  }

  // ---------------------------------------------------------------- batches that contradict themselves

  /** The stored event already shows what `last` says: a report that says the same emits nothing, any
      other emits a snapshot that differs from it. */
  ghost predicate Shows(c: Calendar, last: Report, b: Batch, buffer: int) {
    && last.uid in c.events
    && TrackedOf(c.events[last.uid]) == TrackedOf(Prepared(c, last, b, buffer))
  }

  ghost predicate EndsApart(history: seq<Snapshot>, e: Event) {
    history != [] && TrackedOf(history[|history| - 1].event) != TrackedOf(e)
  }

  ghost predicate Contradicts(reports: seq<Report>, last: Report, at: int, buffer: int) {
    exists k :: 0 <= k < |reports| && reports[k].uid == last.uid && ToldBy(reports[k], at, buffer) != ToldBy(last, at, buffer)
  }

  lemma {:induction false} ContradictionStays(c: Calendar, reports: seq<Report>, last: Report, b: Batch, buffer: int)
    requires Shows(c, last, b, buffer) && Contradicts(reports, last, b.at, buffer)
    ensures EndsApart(HistoryOf(AbsorbAll(c, reports, b, buffer), last.uid), c.events[last.uid])
  {
    var n := |reports| - 1;
    var r := reports[n];
    if r.uid == last.uid {
      SameToldSameTracked(c, r, last, b, buffer);
      SnapshotIffTrackedDiffers(c.events[last.uid], Prepared(c, r, b, buffer));
    }
    if r.uid != last.uid || ToldBy(r, b.at, buffer) == ToldBy(last, b.at, buffer) {
      assert Contradicts(reports[..n], last, b.at, buffer) by {
        var k :| 0 <= k < |reports| && reports[k].uid == last.uid && ToldBy(reports[k], b.at, buffer) != ToldBy(last, b.at, buffer);
        assert reports[..n][k] == reports[k];
      }
      ContradictionStays(c, reports[..n], last, b, buffer);
    }
  }

  lemma OneBatch(b: Batch, buffer: int)
    ensures AfterBatches([b], buffer) == WriteBatch(Calendar(map[], map[]), b, buffer)
  {
    AfterSnoc([], b, buffer);
    assert [] + [b] == [b];
  }

  lemma OneReport(c: Calendar, r: Report, b: Batch, buffer: int)
    requires b.reports == [r]
    ensures WriteBatch(c, b, buffer) == Absorb(c, c, r, b, buffer)
  {
    AbsorbAllSnoc(c, [], r, b, buffer);
    assert [] + [r] == [r];
  }

  /** Observing the same report again at the same instant shows nothing new. */
  lemma FirstShows(last: Report, b: Batch, buffer: int)
    ensures Shows(Absorb(Calendar(map[], map[]), Calendar(map[], map[]), last, b, buffer), last, b, buffer)
  {
  }

  lemma AlonesAgree(first: Batch, buffer: int)
    requires |first.reports| == 1
    ensures Agrees(first, buffer) && AllExplained(AfterBatches([first], buffer))
  {
    assert AllAgree([first], buffer);
    HistoryExplainsStore([first], buffer);
  }

  /** The calendar right after a first batch that holds just this report. */
  lemma FirstSighting(last: Report, b: Batch, buffer: int) returns (first: Batch)
    ensures first == Batch([last], b.at, b.valueCheck)
    ensures Agrees(first, buffer) && AllExplained(AfterBatches([first], buffer))
    ensures Shows(AfterBatches([first], buffer), last, b, buffer)
  {
    first := Batch([last], b.at, b.valueCheck);
    AlonesAgree(first, buffer);
    OneBatch(first, buffer);
    OneReport(Calendar(map[], map[]), last, first, buffer);
    SameBatchSameAbsorb(last, first, b, buffer);
    FirstShows(last, b, buffer);
  }

  /** Only the time and the check flag of a batch matter to one report. */
  lemma SameBatchSameAbsorb(r: Report, b: Batch, b': Batch, buffer: int)
    requires b.at == b'.at && b.valueCheck == b'.valueCheck
    ensures Absorb(Calendar(map[], map[]), Calendar(map[], map[]), r, b, buffer)
         == Absorb(Calendar(map[], map[]), Calendar(map[], map[]), r, b', buffer)
  {
  }

  /** Of two reports that disagree at least one disagrees with a third. */
  lemma OneOfTwoContradicts(reports: seq<Report>, i: nat, j: nat, last: Report, at: int, buffer: int)
    requires i < j < |reports| && reports[i].uid == reports[j].uid == last.uid
    requires ToldBy(reports[i], at, buffer) != ToldBy(reports[j], at, buffer)
    ensures Contradicts(reports, last, at, buffer)
  {
    var k := if ToldBy(reports[i], at, buffer) != ToldBy(last, at, buffer) then i else j;
    assert reports[k].uid == last.uid && ToldBy(reports[k], at, buffer) != ToldBy(last, at, buffer);
  }

  lemma ApartIsUnexplained(c: Calendar, after: Calendar, last: Report, b: Batch, buffer: int)
    requires Shows(c, last, b, buffer) && EndsApart(HistoryOf(after, last.uid), c.events[last.uid])
    requires Existing(after, last.uid) == Some(Prepared(c, last, b, buffer))
    ensures !Explained(after, last.uid)
  {
  }

  /** The position of the last mention depends on the reports alone. */
  lemma SameLastMention(reports: seq<Report>, uid: string, i: nat, j: nat)
    requires i < |reports| && reports[i].uid == uid && forall k :: i < k < |reports| ==> reports[k].uid != uid
    requires j < |reports| && reports[j].uid == uid && forall k :: j < k < |reports| ==> reports[k].uid != uid
    ensures i == j
  {
  }

  /** A batch that contradicts itself breaks a calendar that one earlier batch produces. */
  lemma ContradictionBreaks(b: Batch, buffer: int) returns (first: Batch)
    requires !Agrees(b, buffer)
    ensures Agrees(first, buffer) && AllExplained(AfterBatches([first], buffer))
    ensures !AllExplained(WriteBatch(AfterBatches([first], buffer), b, buffer))
  {
    var i, j :| 0 <= i < j < |b.reports| && b.reports[i].uid == b.reports[j].uid
      && ToldBy(b.reports[i], b.at, buffer) != ToldBy(b.reports[j], b.at, buffer);
    var uid := b.reports[i].uid;
    assert Mentions(b.reports, uid);
    var l := LastMention(Calendar(map[], map[]), b.reports, b, buffer, uid);
    first := FirstSighting(b.reports[l], b, buffer);
    OneOfTwoContradicts(b.reports, i, j, b.reports[l], b.at, buffer);
    BreaksAfter(AfterBatches([first], buffer), b, buffer, l);
  }

  lemma BreaksAfter(c: Calendar, b: Batch, buffer: int, l: nat)
    requires l < |b.reports| && forall k :: l < k < |b.reports| ==> b.reports[k].uid != b.reports[l].uid
    requires Shows(c, b.reports[l], b, buffer) && Contradicts(b.reports, b.reports[l], b.at, buffer)
    ensures !Explained(WriteBatch(c, b, buffer), b.reports[l].uid)
  {
    var last := b.reports[l];
    ContradictionStays(c, b.reports, last, b, buffer);
    var l' := LastMention(c, b.reports, b, buffer, last.uid);
    SameLastMention(b.reports, last.uid, l, l');
    ApartIsUnexplained(c, WriteBatch(c, b, buffer), last, b, buffer);
  }

  /** A batch keeps every explained calendar explained exactly when it agrees with itself; already the
      calendars that one agreeing batch produces tell the difference. */
  lemma BatchKeepsHistoryIff(b: Batch, buffer: int)
    ensures (forall c :: AllExplained(c) ==> AllExplained(WriteBatch(c, b, buffer))) <==> Agrees(b, buffer)
    ensures (forall first :: Agrees(first, buffer) ==> AllExplained(WriteBatch(AfterBatches([first], buffer), b, buffer)))
       <==> Agrees(b, buffer)
  {
    if Agrees(b, buffer) {
      forall c | AllExplained(c) ensures AllExplained(WriteBatch(c, b, buffer)) {
        forall uid ensures Explained(WriteBatch(c, b, buffer), uid) {
          BatchExplained(c, b.reports, b, buffer, uid);
        }
      }
      forall first | Agrees(first, buffer) ensures AllExplained(WriteBatch(AfterBatches([first], buffer), b, buffer)) {
        HistoryExplainsStore([first], buffer);
      }
    } else {
      var first := ContradictionBreaks(b, buffer);
    }
  }

  /** Re-observing an unchanged report emits a snapshot exactly when its derived status has moved; at
      the same instant it therefore emits none. */
  lemma ReobservationEmitsIffStatusMoved(
      r: Report, existing: Option<Event>, at: int, later: int, check: bool, check': bool, buffer: int)
    ensures var stored := ApplyLifecycle(r, existing, at, check, buffer);
      var again := ApplyLifecycle(r, Some(stored), later, check', buffer);
      SnapshotReason(Some(stored), again).None? <==> DeriveStatus(r, later, buffer) == DeriveStatus(r, at, buffer)
  {
  }

  /** A concrete failure: an event stored under its first report, then both reports in one batch. Both
      are compared with the old row, and the history ends on a version that is not stored. */
  lemma DuplicateBreaksHistory(first: Report, second: Report, at: int) returns (batches: seq<Batch>)
    requires first.uid == second.uid && first.scheduledAt != second.scheduledAt
    ensures batches == [Batch([first], at, false), Batch([second, first], at, false)]
    ensures !Explained(AfterBatches(batches, 0), first.uid)
  {
    var two := Batch([second, first], at, false);
    var one := FirstSighting(first, two, 0);
    batches := [one, two];
    AfterSnoc([one], two, 0);
    assert batches == [one] + [two];
    var c := AfterBatches([one], 0);
    assert two.reports[0] == second;
    ContradictionStays(c, two.reports, first, two, 0);
    assert two.reports[1].uid == first.uid && Mentions(two.reports, first.uid);
    var l := LastMention(c, two.reports, two, 0, first.uid);
    assert l == 1;
  }

  lemma AbsorbAllSnoc(c: Calendar, reports: seq<Report>, r: Report, b: Batch, buffer: int)
    ensures AbsorbAll(c, reports + [r], b, buffer) == Absorb(c, AbsorbAll(c, reports, b, buffer), r, b, buffer)
    ensures var existing := Existing(c, r.uid);
      var e := ApplyLifecycle(r, existing, b.at, b.valueCheck, buffer);
      SnapshotsDue(c, reports + [r], b, buffer)
      == SnapshotsDue(c, reports, b, buffer) + (if SnapshotReason(existing, e).Some? then 1 else 0)
  {
    assert (reports + [r])[..|reports|] == reports;
  }

  lemma DeletesSnoc(c: Calendar, reports: seq<Report>, r: Report)
    ensures DeletesDue(c, reports + [r])
         == DeletesDue(c, reports)
            + (if r.uid in c.events && c.events[r.uid].report.scheduledAt != r.scheduledAt then 1 else 0)
  {
    assert (reports + [r])[..|reports|] == reports;
  }

  lemma AfterSnoc(batches: seq<Batch>, b: Batch, buffer: int)
    ensures AfterBatches(batches + [b], buffer) == WriteBatch(AfterBatches(batches, buffer), b, buffer)
  {
    assert (batches + [b])[..|batches|] == batches;
  }

  // ---------------------------------------------------------------- the service object

  class EconomicCalendarService {
    const bufferMinutes: int
    var events: map<string, Event>
    var history: map<string, seq<Snapshot>>

    constructor (bufferMinutes: int)
      ensures this.bufferMinutes == bufferMinutes && View() == AfterBatches([], bufferMinutes)
    {
      this.bufferMinutes := bufferMinutes;
      events, history := map[], map[];
    }

    function View(): Calendar
      reads this
    {
      Calendar(events, history)
    }

    /** Prepare every report against the rows fetched at the start, then store rows and snapshots. */
    method WriteEvents(b: Batch) returns (written: nat, snapshots: nat, deleted: nat)
      modifies this
      ensures View() == WriteBatch(old(View()), b, bufferMinutes)
      ensures written == |b.reports| && snapshots == SnapshotsDue(old(View()), b.reports, b, bufferMinutes)
      ensures deleted == DeletesDue(old(View()), b.reports)
    {
      var fetched := View();
      snapshots, deleted := 0, 0;
      for i := 0 to |b.reports|
        invariant View() == AbsorbAll(fetched, b.reports[..i], b, bufferMinutes)
        invariant snapshots == SnapshotsDue(fetched, b.reports[..i], b, bufferMinutes)
        invariant deleted == DeletesDue(fetched, b.reports[..i])
      {
        var r := b.reports[i];
        assert b.reports[..i + 1] == b.reports[..i] + [r];
        AbsorbAllSnoc(fetched, b.reports[..i], r, b, bufferMinutes);
        DeletesSnoc(fetched, b.reports[..i], r);
        var emitted, moved := StoreReport(fetched, r, b);
        if emitted { snapshots := snapshots + 1; }
        if moved { deleted := deleted + 1; }
      }
      assert b.reports[..|b.reports|] == b.reports;
      written := |b.reports|;
    }

    /** One report against the calendar as fetched for the whole batch. */
    method StoreReport(fetched: Calendar, r: Report, b: Batch) returns (emitted: bool, moved: bool)
      modifies this
      ensures View() == Absorb(fetched, old(View()), r, b, bufferMinutes)
      ensures emitted <==> SnapshotReason(Existing(fetched, r.uid), Prepared(fetched, r, b, bufferMinutes)).Some?
      ensures moved <==> r.uid in fetched.events && fetched.events[r.uid].report.scheduledAt != r.scheduledAt
    {
      var existing := if r.uid in fetched.events then Some(fetched.events[r.uid]) else None;
      var prepared := ApplyLifecycle(r, existing, b.at, b.valueCheck, bufferMinutes);
      moved := existing.Some? && existing.value.report.scheduledAt != prepared.report.scheduledAt;
      var reason := SnapshotReason(existing, prepared);
      emitted := reason.Some?;
      events := events[r.uid := prepared];
      if emitted {
        var log := if r.uid in history then history[r.uid] else [];
        history := history[r.uid := log + [Snapshot(reason.value, prepared)]];
      }
    }
  }
}
