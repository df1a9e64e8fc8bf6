/** A calendar job from the providers' reports to the event table: sort, keep one report per event,
    prepare each against its stored row, delete the rows of rescheduled events, upsert the rest. The
    table is keyed by (scheduled time, event), so a rescheduled event moves to another key. */
module CalendarSync {
  import opened Common
  import opened CalendarLifecycle

  // ---------------------------------------------------------------- one report per event

  function InsertReport(s: seq<Report>, r: Report): seq<Report> {
    if s == [] || s[|s| - 1].scheduledAt <= r.scheduledAt then s + [r]
    else InsertReport(s[..|s| - 1], r) + [s[|s| - 1]]
  }

  /** Stable order by scheduled time. */
  function SortBySchedule(reports: seq<Report>): seq<Report> {
    if reports == [] then [] else InsertReport(SortBySchedule(reports[..|reports| - 1]), reports[|reports| - 1])
  }

  /** Where a list with distinct events holds the event. */
  function Find(reports: seq<Report>, uid: string): (i: nat)
    ensures i <= |reports|
    ensures i < |reports| ==> reports[i].uid == uid
    ensures i == |reports| ==> !Mentions(reports, uid)
  {
    if reports == [] then 0
    else
      var i := Find(reports[..|reports| - 1], uid);
      if i < |reports| - 1 then i
      else if reports[|reports| - 1].uid == uid then |reports| - 1
      else FindSnoc(reports, uid); |reports|
  }

  lemma FindSnoc(reports: seq<Report>, uid: string)
    requires reports != [] && reports[|reports| - 1].uid != uid && !Mentions(reports[..|reports| - 1], uid)
    ensures !Mentions(reports, uid)
  {
    forall i | 0 <= i < |reports| ensures reports[i].uid != uid {
      if i < |reports| - 1 { assert reports[..|reports| - 1][i].uid != uid; }
    }
  }

  /** One dictionary assignment: a known event keeps its place and takes the new report. */
  function Put(kept: seq<Report>, r: Report): seq<Report> {
    var i := Find(kept, r.uid);
    if i < |kept| then kept[i := r] else kept + [r]
  }

  /** A dictionary comprehension over the reports. */
  function Deduplicate(reports: seq<Report>): seq<Report> {
    if reports == [] then []
    else Put(Deduplicate(reports[..|reports| - 1]), reports[|reports| - 1])
  }

  function JobReports(fetched: seq<Report>): seq<Report> { Deduplicate(SortBySchedule(fetched)) }

  ghost predicate BySchedule(s: seq<Report>) {
    forall i, j :: 0 <= i < j < |s| ==> s[i].scheduledAt <= s[j].scheduledAt
  }

  lemma {:induction false} InsertKeepsOrder(s: seq<Report>, r: Report)
    requires BySchedule(s)
    ensures BySchedule(InsertReport(s, r))
    ensures forall x :: x in InsertReport(s, r) <==> x in s || x == r
  {
    if s != [] && s[|s| - 1].scheduledAt > r.scheduledAt {
      var front, z := s[..|s| - 1], s[|s| - 1];
      assert s == front + [z];
      InsertKeepsOrder(front, r);
      var inner := InsertReport(front, r);
      forall i | 0 <= i < |inner| ensures inner[i].scheduledAt <= z.scheduledAt {
        assert inner[i] in inner;
      }
    }
  }

  lemma {:induction false} SortFacts(reports: seq<Report>)
    ensures BySchedule(SortBySchedule(reports))
    ensures forall x :: x in SortBySchedule(reports) <==> x in reports
  {
    if reports != [] {
      var n := |reports| - 1;
      assert reports == reports[..n] + [reports[n]];
      SortFacts(reports[..n]);
      InsertKeepsOrder(SortBySchedule(reports[..n]), reports[n]);
    }
  }

  /** Some kept report is of the same event as x and scheduled no earlier. */
  ghost predicate Represents(kept: seq<Report>, x: Report) {
    exists i :: 0 <= i < |kept| && kept[i].uid == x.uid && x.scheduledAt <= kept[i].scheduledAt
  }

  /** `kept` holds one report per event of `all`, none scheduled earlier than another of that event. */
  ghost predicate LatestOf(kept: seq<Report>, all: seq<Report>) {
    && DistinctUids(kept)
    && (forall x :: x in kept ==> x in all)
    && (forall x :: x in all ==> Represents(kept, x))
  }

  lemma PutKeepsDistinct(kept: seq<Report>, r: Report)
    requires DistinctUids(kept)
    ensures DistinctUids(Put(kept, r))
    ensures forall x :: x in Put(kept, r) ==> x in kept || x == r
  {
  }

  lemma PutRepresents(kept: seq<Report>, r: Report, x: Report)
    requires x == r || (Represents(kept, x) && x.scheduledAt <= r.scheduledAt)
    ensures Represents(Put(kept, r), x)
  {
    var i := Find(kept, r.uid);
    assert Put(kept, r)[i] == r;
    if x.uid != r.uid {
      var j :| 0 <= j < |kept| && kept[j].uid == x.uid && x.scheduledAt <= kept[j].scheduledAt;
      assert Put(kept, r)[j] == kept[j];
    }
  }

  lemma PutKeepsLatest(kept: seq<Report>, all: seq<Report>, r: Report)
    requires LatestOf(kept, all) && forall x :: x in all ==> x.scheduledAt <= r.scheduledAt
    ensures LatestOf(Put(kept, r), all + [r])
  {
    PutKeepsDistinct(kept, r);
    forall x | x in all + [r] ensures Represents(Put(kept, r), x) {
      PutRepresents(kept, r, x);
    }
  }

  lemma {:induction false} DeduplicateKeepsLatest(reports: seq<Report>)
    requires BySchedule(reports)
    ensures LatestOf(Deduplicate(reports), reports)
  {
    if reports != [] {
      var n := |reports| - 1;
      assert reports == reports[..n] + [reports[n]];
      DeduplicateKeepsLatest(reports[..n]);
      PutKeepsLatest(Deduplicate(reports[..n]), reports[..n], reports[n]);
    }
  }

  /** A job hands over exactly one report per fetched event, the one scheduled last. */
  lemma JobKeepsLatestReport(fetched: seq<Report>)
    ensures LatestOf(JobReports(fetched), fetched)
  {
    SortFacts(fetched);
    DeduplicateKeepsLatest(SortBySchedule(fetched));
  }

  // ---------------------------------------------------------------- the event table

  type Key = (int, string)

  type Rows = map<Key, Event>

  function KeyOf(e: Event): Key { (e.report.scheduledAt, e.report.uid) }

  function RowAt(rows: Rows, k: Key): Option<Event> {
    if k in rows then Some(rows[k]) else None
  }

  /** What an upsert leaves in a row: on conflict the times already stored win over the new ones. */
  function Coalesced(held: Option<Event>, e: Event): Event {
    if held.None? then e
    else
      e.(firstSeen := held.value.firstSeen,
         ingested := held.value.ingested,
         releasedAt := if held.value.releasedAt.Some? then held.value.releasedAt else e.releasedAt)
  }

  function UpsertAll(rows: Rows, es: seq<Event>): Rows {
    if es == [] then rows
    else
      var before, e := UpsertAll(rows, es[..|es| - 1]), es[|es| - 1];
      before[KeyOf(e) := Coalesced(RowAt(before, KeyOf(e)), e)]
  }

  /** The row is the most recently updated one of its event. */
  ghost predicate IsNewestOf(rows: Rows, uid: string, k: Key) {
    k in rows && k.1 == uid && forall j :: j in rows && j.1 == uid ==> rows[j].updated <= rows[k].updated
  }

  /** The row that the service fetches for an event before a batch. */
  ghost function FetchByUid(rows: Rows, uid: string): Option<Event> {
    if exists k :: IsNewestOf(rows, uid, k)
    then var k :| IsNewestOf(rows, uid, k); Some(rows[k])
    else None
  }

  ghost function Prepare(rows: Rows, r: Report, b: Batch, buffer: int): Event {
    ApplyLifecycle(r, FetchByUid(rows, r.uid), b.at, b.valueCheck, buffer)
  }

  ghost function PrepareAll(rows: Rows, reports: seq<Report>, b: Batch, buffer: int): (es: seq<Event>)
    ensures |es| == |reports|
    ensures forall i :: 0 <= i < |es| ==> es[i] == Prepare(rows, reports[i], b, buffer)
  {
    if reports == [] then []
    else
      var n := |reports| - 1;
      PrepareAll(rows, reports[..n], b, buffer) + [Prepare(rows, reports[n], b, buffer)]
  }

  ghost predicate Rescheduled(rows: Rows, r: Report) {
    var existing := FetchByUid(rows, r.uid);
    existing.Some? && existing.value.report.scheduledAt != r.scheduledAt
  }

  /** The keys to delete: the old rows of rescheduled events. */
  ghost function Doomed(rows: Rows, reports: seq<Report>): set<Key> {
    if reports == [] then {}
    else
      var n := |reports| - 1;
      Doomed(rows, reports[..n])
      + (if Rescheduled(rows, reports[n]) then {KeyOf(FetchByUid(rows, reports[n].uid).value)} else {})
  }

  /** One batch against the table: deletions first, then all upserts. */
  ghost function WriteRows(rows: Rows, b: Batch, buffer: int): Rows {
    UpsertAll(rows - Doomed(rows, b.reports), PrepareAll(rows, b.reports, b, buffer))
  }

  // ---------------------------------------------------------------- one row per event

  /** The table holds exactly one row per event, and it is the event of the calendar. */
  ghost predicate Stores(rows: Rows, events: map<string, Event>) {
    && (forall u :: u in events ==> events[u].report.uid == u && RowAt(rows, KeyOf(events[u])) == Some(events[u]))
    && (forall k :: k in rows ==> k.1 in events && KeyOf(events[k.1]) == k)
  }

  lemma FetchIsExisting(rows: Rows, events: map<string, Event>, uid: string)
    requires Stores(rows, events)
    ensures FetchByUid(rows, uid) == if uid in events then Some(events[uid]) else None
  {
    if uid in events {
      assert IsNewestOf(rows, uid, KeyOf(events[uid]));
    }
  }

  lemma {:induction false} UpsertElsewhere(rows: Rows, es: seq<Event>, k: Key)
    requires forall i :: 0 <= i < |es| ==> KeyOf(es[i]) != k
    ensures RowAt(UpsertAll(rows, es), k) == RowAt(rows, k)
  {
    if es != [] { UpsertElsewhere(rows, es[..|es| - 1], k); }
  }

  lemma {:induction false} UpsertOnce(rows: Rows, es: seq<Event>, i: nat)
    requires i < |es| && forall j :: 0 <= j < |es| && j != i ==> KeyOf(es[j]) != KeyOf(es[i])
    ensures RowAt(UpsertAll(rows, es), KeyOf(es[i])) == Some(Coalesced(RowAt(rows, KeyOf(es[i])), es[i]))
  {
    if i == |es| - 1 {
      UpsertElsewhere(rows, es[..i], KeyOf(es[i]));
    } else {
      UpsertOnce(rows, es[..|es| - 1], i);
    }
  }

  lemma {:induction false} DoomedExactly(rows: Rows, reports: seq<Report>, k: Key)
    ensures k in Doomed(rows, reports) <==>
      exists i :: 0 <= i < |reports| && Rescheduled(rows, reports[i]) && KeyOf(FetchByUid(rows, reports[i].uid).value) == k
  {
    if reports != [] {
      var n := |reports| - 1;
      DoomedExactly(rows, reports[..n], k);
      assert forall i :: 0 <= i < n ==> reports[..n][i] == reports[i];
    }
  }

  /** The reported number of deletions is the number of rows that go, when no event is mentioned twice. */
  lemma {:induction false} DeletionsAreCounted(rows: Rows, c: Calendar, reports: seq<Report>)
    requires Stores(rows, c.events) && DistinctUids(reports)
    ensures |Doomed(rows, reports)| == DeletesDue(c, reports) && Doomed(rows, reports) <= rows.Keys
  {
    if reports != [] {
      var n := |reports| - 1;
      DeletionsAreCounted(rows, c, reports[..n]);
      FetchIsExisting(rows, c.events, reports[n].uid);
      if Rescheduled(rows, reports[n]) {
        var k := KeyOf(FetchByUid(rows, reports[n].uid).value);
        DoomedExactly(rows, reports[..n], k);
        forall i | 0 <= i < n && Rescheduled(rows, reports[i])
          ensures KeyOf(FetchByUid(rows, reports[i].uid).value) != k
        {
          FetchIsExisting(rows, c.events, reports[i].uid);
          assert reports[i].uid != reports[n].uid;
        }
        assert k !in Doomed(rows, reports[..n]);
        assert |Doomed(rows, reports[..n]) + {k}| == |Doomed(rows, reports[..n])| + 1;
      }
    }
  }

  /** The calendar's own result for an event that the batch mentions once. */
  lemma {:induction false} MentionedResult(c: Calendar, reports: seq<Report>, b: Batch, buffer: int, i: nat)
    requires DistinctUids(reports) && i < |reports|
    ensures Existing(AbsorbAll(c, reports, b, buffer), reports[i].uid)
         == Some(ApplyLifecycle(reports[i], Existing(c, reports[i].uid), b.at, b.valueCheck, buffer))
  {
    if i < |reports| - 1 { MentionedResult(c, reports[..|reports| - 1], b, buffer, i); }
  }

  /** What the table holds after the batch for the i-th report: its prepared event and nothing else. */
  lemma MentionedRow(rows: Rows, c: Calendar, b: Batch, buffer: int, i: nat, k: Key)
    requires Stores(rows, c.events) && DistinctUids(b.reports) && i < |b.reports| && k.1 == b.reports[i].uid
    ensures var e := ApplyLifecycle(b.reports[i], Existing(c, k.1), b.at, b.valueCheck, buffer);
      RowAt(WriteRows(rows, b, buffer), k) == if k == KeyOf(e) then Some(e) else None
  {
    var r, es, kept := b.reports[i], PrepareAll(rows, b.reports, b, buffer), rows - Doomed(rows, b.reports);
    FetchIsExisting(rows, c.events, r.uid);
    DoomedExactly(rows, b.reports, k);
    forall j | 0 <= j < |es| && j != i ensures KeyOf(es[j]).1 != k.1 {
      assert b.reports[j].uid != b.reports[i].uid;
    }
    if k == KeyOf(es[i]) {
      UpsertOnce(kept, es, i);
    } else {
      UpsertElsewhere(kept, es, k);
      assert k in rows ==> Rescheduled(rows, r);
    }
  }

  lemma UnmentionedRow(rows: Rows, c: Calendar, b: Batch, buffer: int, k: Key)
    requires Stores(rows, c.events) && !Mentions(b.reports, k.1)
    ensures RowAt(WriteRows(rows, b, buffer), k) == RowAt(rows, k)
  {
    DoomedExactly(rows, b.reports, k);
    forall i | 0 <= i < |b.reports| ensures KeyOf(Prepare(rows, b.reports[i], b, buffer)) != k {
    }
    forall i | 0 <= i < |b.reports| && Rescheduled(rows, b.reports[i])
      ensures KeyOf(FetchByUid(rows, b.reports[i].uid).value) != k
    {
      FetchIsExisting(rows, c.events, b.reports[i].uid);
    }
    UpsertElsewhere(rows - Doomed(rows, b.reports), PrepareAll(rows, b.reports, b, buffer), k);
  }

  /** The row of one event before or after a batch, read off the calendar. */
  lemma RowFollowsCalendar(rows: Rows, c: Calendar, b: Batch, buffer: int, k: Key)
    requires Stores(rows, c.events) && DistinctUids(b.reports)
    ensures var e := Existing(WriteBatch(c, b, buffer), k.1);
      && (e.Some? ==> e.value.report.uid == k.1)
      && RowAt(WriteRows(rows, b, buffer), k) == if e.Some? && KeyOf(e.value) == k then e else None
  {
    if Mentions(b.reports, k.1) {
      var i :| 0 <= i < |b.reports| && b.reports[i].uid == k.1;
      MentionedResult(c, b.reports, b, buffer, i);
      MentionedRow(rows, c, b, buffer, i, k);
    } else {
      UnmentionedUntouched(c, b.reports, b, buffer, k.1);
      UnmentionedRow(rows, c, b, buffer, k);
    }
  }

  /** One batch keeps one row per event, also for events it moves to another time. */
  lemma BatchKeepsOneRow(rows: Rows, c: Calendar, b: Batch, buffer: int)
    requires Stores(rows, c.events) && DistinctUids(b.reports)
    ensures Stores(WriteRows(rows, b, buffer), WriteBatch(c, b, buffer).events)
  {
    var rows', c' := WriteRows(rows, b, buffer), WriteBatch(c, b, buffer);
    forall u | u in c'.events
      ensures c'.events[u].report.uid == u && RowAt(rows', KeyOf(c'.events[u])) == Some(c'.events[u])
    {
      RowFollowsCalendar(rows, c, b, buffer, (c'.events[u].report.scheduledAt, u));
    }
    forall k | k in rows' ensures k.1 in c'.events && KeyOf(c'.events[k.1]) == k {
      RowFollowsCalendar(rows, c, b, buffer, k);
      assert RowAt(rows', k).Some?;
    }
  }

  // ---------------------------------------------------------------- runs of jobs

  datatype Job = Job(fetched: seq<Report>, at: int, valueCheck: bool)

  function BatchOf(j: Job): Batch { Batch(JobReports(j.fetched), j.at, j.valueCheck) }

  function CalendarAfter(jobs: seq<Job>, buffer: int): Calendar {
    if jobs == [] then Calendar(map[], map[])
    else WriteBatch(CalendarAfter(jobs[..|jobs| - 1], buffer), BatchOf(jobs[|jobs| - 1]), buffer)
  }

  ghost function RowsAfter(jobs: seq<Job>, buffer: int): Rows {
    if jobs == [] then map[]
    else WriteRows(RowsAfter(jobs[..|jobs| - 1], buffer), BatchOf(jobs[|jobs| - 1]), buffer)
  }

  /** After any run of jobs, whatever the providers returned: the table holds exactly one row per
      event ever seen, the row is the lifecycle's result, and its tracked fields are those of the
      event's last snapshot. */
  lemma {:induction false} JobsKeepOneExplainedRow(jobs: seq<Job>, buffer: int)
    ensures Stores(RowsAfter(jobs, buffer), CalendarAfter(jobs, buffer).events)
    ensures AllExplained(CalendarAfter(jobs, buffer))
  {
    if jobs != [] {
      var n := |jobs| - 1;
      var c, b := CalendarAfter(jobs[..n], buffer), BatchOf(jobs[n]);
      JobsKeepOneExplainedRow(jobs[..n], buffer);
      JobKeepsLatestReport(jobs[n].fetched);
      BatchKeepsOneRow(RowsAfter(jobs[..n], buffer), c, b, buffer);
      forall uid ensures Explained(CalendarAfter(jobs, buffer), uid) {
        BatchExplained(c, b.reports, b, buffer, uid);
      }
    }
  }

  function BatchesOf(jobs: seq<Job>): (batches: seq<Batch>)
    ensures |batches| == |jobs| && forall i :: 0 <= i < |jobs| ==> batches[i] == BatchOf(jobs[i])
  {
    seq(|jobs|, i requires 0 <= i < |jobs| => BatchOf(jobs[i]))
  }

  lemma {:induction false} JobsAreBatches(jobs: seq<Job>, buffer: int)
    ensures CalendarAfter(jobs, buffer) == AfterBatches(BatchesOf(jobs), buffer)
    decreases |jobs|
  {
    if jobs != [] {
      var front, j := Unsnoc(jobs);
      JobsAreBatches(front, buffer);
      assert BatchesOf(jobs) == BatchesOf(front) + [BatchOf(j)];
      AfterSnoc(BatchesOf(front), BatchOf(j), buffer);
    }
  }

  /** After any jobs every row of the table has the status that its report and the time of its last
      observation demand, its release time is that of the first observation that left it released, and
      its report is that of the last job that fetched the event. */
  lemma RowsShowStatus(jobs: seq<Job>, buffer: int, k: Key)
    ensures var row, batches := RowAt(RowsAfter(jobs, buffer), k), BatchesOf(jobs);
      row.Some? ==>
        && StatusFits(row.value, buffer)
        && row.value.releasedAt == FirstRelease(batches, buffer, k.1)
        && LastObservation(batches, k.1) == Some((row.value.report, row.value.lastSeen))
  {
    if k in RowsAfter(jobs, buffer) {
      JobsKeepOneExplainedRow(jobs, buffer);
      JobsAreBatches(jobs, buffer);
      assert RowsAfter(jobs, buffer)[k] == CalendarAfter(jobs, buffer).events[k.1];
      StoredStatusFits(BatchesOf(jobs), buffer, k.1);
      ReleaseTimeIsFirst(BatchesOf(jobs), buffer, k.1);
      StoreShowsLastObservation(BatchesOf(jobs), buffer, k.1);
    }
  }

  // ---------------------------------------------------------------- which report a job keeps

  /** The fetched report of the event that is scheduled last; of several, the one fetched last. */
  function Preferred(fetched: seq<Report>, uid: string): Option<Report> {
    if fetched == [] then None
    else
      var n := |fetched| - 1;
      var before, r := Preferred(fetched[..n], uid), fetched[n];
      if r.uid == uid && (before.None? || before.value.scheduledAt <= r.scheduledAt) then Some(r) else before
  }

  lemma PreferredSnoc(fetched: seq<Report>, r: Report, uid: string)
    ensures Preferred(fetched + [r], uid)
         == var before := Preferred(fetched, uid);
            if r.uid == uid && (before.None? || before.value.scheduledAt <= r.scheduledAt) then Some(r) else before
  {
    assert (fetched + [r])[..|fetched|] == fetched;
  }

  lemma LastReportSnoc(s: seq<Report>, r: Report, uid: string)
    ensures LastReport(s + [r], uid) == if r.uid == uid then Some(r) else LastReport(s, uid)
  {
    assert (s + [r])[..|s|] == s;
  }

  lemma {:induction false} LastReportIsIn(s: seq<Report>, uid: string)
    ensures LastReport(s, uid).Some? ==> LastReport(s, uid).value in s && LastReport(s, uid).value.uid == uid
  {
    if s != [] { LastReportIsIn(s[..|s| - 1], uid); }
  }

  lemma InsertReportSnoc(front: seq<Report>, z: Report, r: Report)
    ensures InsertReport(front + [z], r)
         == if z.scheduledAt <= r.scheduledAt then front + [z] + [r] else InsertReport(front, r) + [z]
  {
    assert (front + [z])[..|front|] == front;
  }

  /** Inserting a report by schedule makes it the last of its event unless one is scheduled later. */
  lemma {:induction false} InsertedLast(s: seq<Report>, r: Report, uid: string)
    requires BySchedule(s)
    ensures LastReport(InsertReport(s, r), uid)
         == var before := LastReport(s, uid);
            if r.uid == uid && (before.None? || before.value.scheduledAt <= r.scheduledAt) then Some(r) else before
    decreases |s|
  {
    LastReportIsIn(s, uid);
    if s == [] {
      assert InsertReport(s, r) == [] + [r];
      LastReportSnoc([], r, uid);
    } else {
      var front, z := Unsnoc(s);
      InsertReportSnoc(front, z, r);
      LastReportSnoc(front, z, uid);
      if z.scheduledAt <= r.scheduledAt {
        LastReportSnoc(front + [z], r, uid);
        BoundedByLast(s, z, uid);
      } else {
        InsertedLast(front, r, uid);
        LastReportSnoc(InsertReport(front, r), z, uid);
      }
    }
  }

  lemma BoundedByLast(s: seq<Report>, z: Report, uid: string)
    requires s != [] && BySchedule(s) && z == s[|s| - 1]
    ensures LastReport(s, uid).Some? ==> LastReport(s, uid).value.scheduledAt <= z.scheduledAt
  {
    LastReportIsIn(s, uid);
  }

  lemma {:induction false} SortedLast(fetched: seq<Report>, uid: string)
    ensures LastReport(SortBySchedule(fetched), uid) == Preferred(fetched, uid)
    decreases |fetched|
  {
    if fetched != [] {
      var front, r := Unsnoc(fetched);
      SortedLast(front, uid);
      SortFacts(front);
      InsertedLast(SortBySchedule(front), r, uid);
      PreferredSnoc(front, r, uid);
    }
  }

  lemma PutFinds(kept: seq<Report>, r: Report, uid: string)
    requires DistinctUids(kept)
    ensures LastReport(Put(kept, r), uid) == if r.uid == uid then Some(r) else LastReport(kept, uid)
  {
    PutKeepsDistinct(kept, r);
    var i := Find(kept, r.uid);
    if i == |kept| {
      LastReportSnoc(kept, r, uid);
    } else if r.uid == uid {
      LastReportIs(Put(kept, r), uid, i);
    } else {
      ReplacedElsewhere(kept, i, r, uid);
    }
  }

  lemma {:induction false} ReplacedElsewhere(kept: seq<Report>, i: nat, r: Report, uid: string)
    requires i < |kept| && kept[i].uid != uid && r.uid != uid
    ensures LastReport(kept[i := r], uid) == LastReport(kept, uid)
    decreases |kept|
  {
    var n := |kept| - 1;
    if i < n {
      assert kept[i := r][..n] == kept[..n][i := r];
      ReplacedElsewhere(kept[..n], i, r, uid);
    } else {
      assert kept[i := r][..n] == kept[..n];
    }
  }

  lemma {:induction false} DeduplicateFinds(reports: seq<Report>, uid: string)
    ensures DistinctUids(Deduplicate(reports))
    ensures LastReport(Deduplicate(reports), uid) == LastReport(reports, uid)
    decreases |reports|
  {
    if reports != [] {
      var front, r := Unsnoc(reports);
      DeduplicateFinds(front, uid);
      PutKeepsDistinct(Deduplicate(front), r);
      PutFinds(Deduplicate(front), r, uid);
      LastReportSnoc(front, r, uid);
    }
  }

  /** For every event a job hands over exactly the preferred of its fetched reports. */
  lemma JobKeepsPreferred(fetched: seq<Report>, uid: string)
    ensures DistinctUids(JobReports(fetched))
    ensures LastReport(JobReports(fetched), uid) == Preferred(fetched, uid)
  {
    DeduplicateFinds(SortBySchedule(fetched), uid);
    SortedLast(fetched, uid);
  }

  /** On any table, whatever it holds, upserts change no time that is already stored. */
  lemma {:induction false} UpsertsKeepTimes(rows: Rows, es: seq<Event>, k: Key)
    requires k in rows
    ensures k in UpsertAll(rows, es) && KeepsTimes(rows[k], UpsertAll(rows, es)[k])
  {
    if es != [] { UpsertsKeepTimes(rows, es[..|es| - 1], k); }
  }
}
