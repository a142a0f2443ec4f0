// AttendanceEngine, AttendanceService and SyncService of
// backend/attendance/services.py over in-memory tables: sessions and
// attendance rows are identified by their positions in the two tables, rows
// are kept in creation order so that a queryset of Attendance records, ordered
// by `-marked_at`, lists them newest first, and the clock arrives as a
// parameter.

module AttendanceServices {
  import opened Common
  import opened AttendanceModels

  // ---------------------------------------------------------------------------
  // create_session: get_or_create on the session key

  /** The first session with the key, if any. */
  function FindSession(sessions: seq<SessionRow>, key: SessionKey): (r: Option<nat>)
    ensures r.Some? ==> r.value < |sessions| && KeyOf(sessions[r.value]) == key
    ensures r.None? ==> forall i :: 0 <= i < |sessions| ==> KeyOf(sessions[i]) != key
    decreases |sessions|
  {
    if sessions == [] then None
    else if KeyOf(sessions[0]) == key then Some(0)
    else
      var rest := FindSession(sessions[1..], key);
      if rest.Some? then Some(rest.value + 1) else None
  }

  /** The class a session is opened for: its id and its school. */
  datatype ClassRef = ClassRef(id: nat, school: nat)

  /**
   * create_session: an existing session with (klass.school, klass, date,
   * subject) is returned as it is; otherwise an open session is appended with
   * the given term and teacher.
   */
  function CreateSessionStep(sessions: seq<SessionRow>, klass: ClassRef, term: Option<nat>, date: int,
                             subject: Option<nat>, teacher: Option<nat>): (res: (seq<SessionRow>, nat, bool))
    ensures res.1 < |res.0| && KeyOf(res.0[res.1]) == SessionKey(klass.school, klass.id, date, subject)
    ensures res.2 <==> FindSession(sessions, SessionKey(klass.school, klass.id, date, subject)).None?
    ensures !res.2 ==> res.0 == sessions
    ensures res.2 ==> res.0 == sessions + [SessionRow(klass.school, klass.id, term, date, subject, teacher, Open, None, None, false)]
  {
    var key := SessionKey(klass.school, klass.id, date, subject);
    match FindSession(sessions, key)
    case Some(i) => (sessions, i, false)
    case None => (sessions + [SessionRow(klass.school, klass.id, term, date, subject, teacher, Open, None, None, false)], |sessions|, true)
  }

  /** get_or_create keeps the session key unique, and a second call finds the session the first made. */
  lemma CreateSessionIdempotent(sessions: seq<SessionRow>, klass: ClassRef, term: Option<nat>, date: int,
                                subject: Option<nat>, teacher: Option<nat>, term2: Option<nat>, teacher2: Option<nat>)
    requires UniqueSessions(sessions)
    ensures var first := CreateSessionStep(sessions, klass, term, date, subject, teacher);
      var second := CreateSessionStep(first.0, klass, term2, date, subject, teacher2);
      UniqueSessions(first.0) && second.0 == first.0 && second.1 == first.1 && !second.2
  {
    var key := SessionKey(klass.school, klass.id, date, subject);
    var first := CreateSessionStep(sessions, klass, term, date, subject, teacher);
    if first.2 {
      FindSessionFirst(first.0, key, first.1);
    } else {
      FindSessionFirst(sessions, key, first.1);
    }
  }

  /** In a table with unique keys, the row holding a key is the one FindSession returns. */
  lemma {:induction false} FindSessionFirst(sessions: seq<SessionRow>, key: SessionKey, i: nat)
    requires i < |sessions| && KeyOf(sessions[i]) == key
    requires forall j :: 0 <= j < i ==> KeyOf(sessions[j]) != key
    ensures FindSession(sessions, key) == Some(i)
    decreases i
  {
    if i > 0 {
      FindSessionFirst(sessions[1..], key, i - 1);
    }
  }

  // ---------------------------------------------------------------------------
  // mark_attendance and bulk_mark_attendance: update_or_create on (session, student)

  /** The first row for (session, student), if any. */
  function FindRecord(records: seq<AttendanceRow>, session: nat, student: nat): (r: Option<nat>)
    ensures r.Some? ==> r.value < |records| && records[r.value].session == session && records[r.value].student == student
    ensures r.None? ==> forall i :: 0 <= i < |records| ==> (records[i].session, records[i].student) != (session, student)
    decreases |records|
  {
    if records == [] then None
    else if records[0].session == session && records[0].student == student then Some(0)
    else
      var rest := FindRecord(records[1..], session, student);
      if rest.Some? then Some(rest.value + 1) else None
  }

  /** The `defaults` of update_or_create: status, remarks and marker, with synced reset. */
  datatype Marking = Marking(status: string, remarks: string, markedBy: Option<nat>)

  /**
   * update_or_create: an existing row takes the defaults and becomes unsynced;
   * otherwise a new unsynced row is appended, marked now.
   */
  function Upsert(records: seq<AttendanceRow>, session: nat, student: nat, m: Marking, now: int): (res: (seq<AttendanceRow>, bool))
    ensures res.1 <==> FindRecord(records, session, student).None?
    ensures res.1 ==> res.0 == records + [AttendanceRow(session, student, m.status, m.remarks, now, now, m.markedBy, false, None)]
    ensures !res.1 ==> var i := FindRecord(records, session, student).value;
      res.0 == records[i := records[i].(status := m.status, remarks := m.remarks, markedBy := m.markedBy, synced := false, updatedAt := now)]
  {
    match FindRecord(records, session, student)
    case Some(i) =>
      (records[i := records[i].(status := m.status, remarks := m.remarks, markedBy := m.markedBy, synced := false, updatedAt := now)], false)
    case None =>
      (records + [AttendanceRow(session, student, m.status, m.remarks, now, now, m.markedBy, false, None)], true)
  }

  /** After an upsert the pair has exactly one row, carrying the new marking, and no other row changed. */
  lemma UpsertFacts(records: seq<AttendanceRow>, session: nat, student: nat, m: Marking, now: int)
    requires UniqueAttendance(records)
    ensures var after := Upsert(records, session, student, m, now).0;
      UniqueAttendance(after) &&
      FindRecord(after, session, student).Some? &&
      after[FindRecord(after, session, student).value].status == m.status &&
      !after[FindRecord(after, session, student).value].synced &&
      forall i :: 0 <= i < |records| && (records[i].session, records[i].student) != (session, student) ==> after[i] == records[i]
  {
    var after := Upsert(records, session, student, m, now).0;
    match FindRecord(records, session, student)
    case None =>
      FindRecordFirst(after, session, student, |records|);
    case Some(i) =>
      assert forall j :: 0 <= j < |after| ==> (after[j].session, after[j].student) == (records[j].session, records[j].student);
      FindRecordFirst(after, session, student, i);
  }

  /** An upsert for a known session keeps one row per pair and every row's session known. */
  lemma UpsertKeepsSessions(records: seq<AttendanceRow>, session: nat, student: nat, m: Marking, now: int, sessionCount: nat)
    requires UniqueAttendance(records) && session < sessionCount
    requires forall i :: 0 <= i < |records| ==> records[i].session < sessionCount
    ensures var after := Upsert(records, session, student, m, now).0;
      UniqueAttendance(after) && forall i :: 0 <= i < |after| ==> after[i].session < sessionCount
  {
    UpsertFacts(records, session, student, m, now);
  }

  /** In a table with one row per pair, the row holding the pair is the one FindRecord returns. */
  lemma {:induction false} FindRecordFirst(records: seq<AttendanceRow>, session: nat, student: nat, i: nat)
    requires i < |records| && records[i].session == session && records[i].student == student
    requires forall j :: 0 <= j < i ==> (records[j].session, records[j].student) != (session, student)
    ensures FindRecord(records, session, student) == Some(i)
    decreases i
  {
    if i > 0 {
      FindRecordFirst(records[1..], session, student, i - 1);
    }
  }

  /** One item of bulk_mark_attendance's list; an absent 'remarks' is ''. */
  datatype BulkItem = BulkItem(student: nat, status: string, remarks: Option<string>, markedBy: Option<nat>)

  function MarkingOf(item: BulkItem): Marking
  {
    Marking(item.status, if item.remarks.Some? then item.remarks.value else "", item.markedBy)
  }

  /** bulk_mark_attendance's loop over its items: the table after it and the created and updated counts. */
  function BulkUpsert(records: seq<AttendanceRow>, session: nat, items: seq<BulkItem>, now: int): (res: (seq<AttendanceRow>, nat, nat))
    ensures res.1 + res.2 == |items|
    ensures |records| <= |res.0| == |records| + res.1
    decreases |items|
  {
    if items == [] then (records, 0, 0)
    else
      var prev := BulkUpsert(records, session, items[..|items| - 1], now);
      var step := Upsert(prev.0, session, items[|items| - 1].student, MarkingOf(items[|items| - 1]), now);
      if step.1 then (step.0, prev.1 + 1, prev.2) else (step.0, prev.1, prev.2 + 1)
  }

  /** One more item of the bulk loop. */
  lemma BulkUpsertSnoc(records: seq<AttendanceRow>, session: nat, items: seq<BulkItem>, j: nat, now: int,
                       cur: seq<AttendanceRow>, created: nat, updated: nat)
    requires j < |items| && (cur, created, updated) == BulkUpsert(records, session, items[..j], now)
    ensures var step := Upsert(cur, session, items[j].student, MarkingOf(items[j]), now);
      BulkUpsert(records, session, items[..j + 1], now) ==
        if step.1 then (step.0, created + 1, updated) else (step.0, created, updated + 1)
  {
    assert items[..j + 1][..j] == items[..j];
  }

  /** The bulk loop keeps one row per (session, student). */
  lemma {:induction false} BulkUpsertKeepsUnique(records: seq<AttendanceRow>, session: nat, items: seq<BulkItem>, now: int)
    requires UniqueAttendance(records)
    ensures UniqueAttendance(BulkUpsert(records, session, items, now).0)
    decreases |items|
  {
    if items != [] {
      var prev := BulkUpsert(records, session, items[..|items| - 1], now);
      BulkUpsertKeepsUnique(records, session, items[..|items| - 1], now);
      UpsertFacts(prev.0, session, items[|items| - 1].student, MarkingOf(items[|items| - 1]), now);
    }
  }

  /** The last item for a student decides that student's row. */
  lemma BulkLastItemWins(records: seq<AttendanceRow>, session: nat, items: seq<BulkItem>, now: int)
    requires UniqueAttendance(records) && items != []
    ensures var after := BulkUpsert(records, session, items, now).0;
      var last := items[|items| - 1];
      FindRecord(after, session, last.student).Some? &&
      after[FindRecord(after, session, last.student).value].status == last.status
  {
    var prev := BulkUpsert(records, session, items[..|items| - 1], now);
    BulkUpsertKeepsUnique(records, session, items[..|items| - 1], now);
    UpsertFacts(prev.0, session, items[|items| - 1].student, MarkingOf(items[|items| - 1]), now);
  }

  /** The attendance tables of one school system. */
  class AttendanceDb {
    var sessions: seq<SessionRow>
    var records: seq<AttendanceRow>

    /** The two unique_together constraints, and every row in an existing session. */
    predicate Valid()
      reads this
    {
      UniqueSessions(sessions) && UniqueAttendance(records) &&
      forall i :: 0 <= i < |records| ==> records[i].session < |sessions|
    }

    constructor ()
      ensures Valid() && sessions == [] && records == []
    {
      sessions, records := [], [];
    }

    /** AttendanceEngine.create_session */
    method CreateSession(klass: ClassRef, term: Option<nat>, date: int, subject: Option<nat>, teacher: Option<nat>)
      returns (session: nat, created: bool)
      requires Valid()
      modifies this`sessions
      ensures Valid()
      ensures (sessions, session, created) == CreateSessionStep(old(sessions), klass, term, date, subject, teacher)
    {
      var key := SessionKey(klass.school, klass.id, date, subject);
      var found := FindSession(sessions, key);
      if found.Some? {
        session, created := found.value, false;
      } else {
        CreateSessionIdempotent(sessions, klass, term, date, subject, teacher, term, teacher);
        session, created := |sessions|, true;
        sessions := sessions + [SessionRow(klass.school, klass.id, term, date, subject, teacher, Open, None, None, false)];
      }
    }

    /** AttendanceEngine.mark_attendance: a synced session is refused and nothing is written. */
    method MarkAttendance(session: nat, student: nat, status: string, remarks: string, markedBy: Option<nat>, now: int)
      returns (r: Result<bool, string>)
      requires Valid() && session < |sessions|
      modifies this`records
      ensures Valid()
      ensures old(sessions[session].status) == SessionSynced ==> r == Err("Cannot modify synced session") && records == old(records)
      ensures old(sessions[session].status) != SessionSynced ==>
        var step := Upsert(old(records), session, student, Marking(status, remarks, markedBy), now);
        r == Ok(step.1) && records == step.0
    {
      if sessions[session].status == SessionSynced {
        return Err("Cannot modify synced session");
      }
      var step := Upsert(records, session, student, Marking(status, remarks, markedBy), now);
      UpsertKeepsSessions(records, session, student, Marking(status, remarks, markedBy), now, |sessions|);
      records := step.0;
      r := Ok(step.1);
    }

    /** AttendanceEngine.bulk_mark_attendance: no status check; one upsert per item, counted as created or updated. */
    method BulkMarkAttendance(session: nat, items: seq<BulkItem>, now: int) returns (created: nat, updated: nat)
      requires Valid() && session < |sessions|
      modifies this`records
      ensures Valid()
      ensures (records, created, updated) == BulkUpsert(old(records), session, items, now)
    {
      created, updated := 0, 0;
      var j := 0;
      while j < |items|
        invariant 0 <= j <= |items|
        invariant Valid()
        invariant (records, created, updated) == BulkUpsert(old(records), session, items[..j], now)
      {
        BulkUpsertSnoc(old(records), session, items, j, now, records, created, updated);
        created, updated := MarkItem(session, items[j], now, created, updated);
        j := j + 1;
      }
      assert items[..|items|] == items;
    }

    /** One item of bulk_mark_attendance: its upsert, and one more created or updated. */
    method MarkItem(session: nat, item: BulkItem, now: int, created: nat, updated: nat) returns (created': nat, updated': nat)
      requires Valid() && session < |sessions|
      modifies this`records
      ensures Valid()
      ensures var step := Upsert(old(records), session, item.student, MarkingOf(item), now);
        (records, created', updated') == if step.1 then (step.0, created + 1, updated) else (step.0, created, updated + 1)
    {
      var step := Upsert(records, session, item.student, MarkingOf(item), now);
      UpsertKeepsSessions(records, session, item.student, MarkingOf(item), now, |sessions|);
      records := step.0;
      created', updated' := created, updated;
      if step.1 {
        created' := created + 1;
      } else {
        updated' := updated + 1;
      }
    }

    /** SyncService.mark_records_synced: the listed rows become synced, every other row is untouched. */
    method MarkRecordsSynced(ids: set<nat>, now: int)
      requires Valid()
      modifies this`records
      ensures Valid()
      ensures records == SyncedRecords(old(records), ids, now)
    {
      records := SyncedRecords(records, ids, now);
    }
  }

  function SyncedRecords(records: seq<AttendanceRow>, ids: set<nat>, now: int): (r: seq<AttendanceRow>)
    ensures |r| == |records|
    ensures forall i :: 0 <= i < |records| ==> r[i] == if i in ids then RecordSynced(records[i], now) else records[i]
  {
    seq(|records|, i requires 0 <= i < |records| => if i in ids then RecordSynced(records[i], now) else records[i])
  }

  // ---------------------------------------------------------------------------
  // AttendanceService: rates, summaries and the report

  /** The rows whose session satisfies the filter, in table order. */
  function InSessions(records: seq<AttendanceRow>, sessions: seq<SessionRow>, keep: SessionRow -> bool): (r: seq<AttendanceRow>)
    ensures forall x :: x in r ==> x in records && x.session < |sessions| && keep(sessions[x.session])
    ensures forall i :: 0 <= i < |records| && records[i].session < |sessions| && keep(sessions[records[i].session]) ==> records[i] in r
    decreases |records|
  {
    if records == [] then []
    else
      var rest := InSessions(records[..|records| - 1], sessions, keep);
      var last := records[|records| - 1];
      assert forall x :: x in records[..|records| - 1] ==> x in records;
      if last.session < |sessions| && keep(sessions[last.session]) then rest + [last] else rest
  }

  function Statuses(records: seq<AttendanceRow>): (r: seq<string>)
    ensures |r| == |records| && forall i :: 0 <= i < |records| ==> r[i] == records[i].status
  {
    seq(|records|, i requires 0 <= i < |records| => records[i].status)
  }

  /** `if term:` — a term is given or not. */
  predicate InTerm(s: SessionRow, term: Option<nat>)
  {
    term.None? || s.term == term
  }

  /** The rows of one student within the term. */
  function StudentRows(sessions: seq<SessionRow>, records: seq<AttendanceRow>, student: nat, term: Option<nat>): (r: seq<AttendanceRow>)
    ensures forall x :: x in r ==> x.student == student
    decreases |records|
  {
    if records == [] then []
    else
      var rest := StudentRows(sessions, records[..|records| - 1], student, term);
      var last := records[|records| - 1];
      if last.student == student && last.session < |sessions| && InTerm(sessions[last.session], term) then rest + [last] else rest
  }

  /**
   * calculate_attendance_rate: 0 for a student without records in scope, else
   * the share of P as a percentage, or as a fraction when as_percentage is false.
   */
  function AttendanceRate(sessions: seq<SessionRow>, records: seq<AttendanceRow>, student: nat, term: Option<nat>, asPercentage: bool): (r: real)
    ensures StudentRows(sessions, records, student, term) == [] ==> r == 0.0
    ensures asPercentage ==> 0.0 <= r <= 100.0
    ensures !asPercentage ==> 0.0 <= r <= 1.0
    ensures asPercentage ==> r == AttendancePercentage(Statuses(StudentRows(sessions, records, student, term)), "P")
  {
    var statuses := Statuses(StudentRows(sessions, records, student, term));
    if asPercentage then AttendancePercentage(statuses, "P") else Share(statuses, "P")
  }

  /** The dict of get_class_attendance_summary, without the echoed date and class name. */
  datatype Summary = Summary(totalRecords: nat, present: nat, absent: nat, late: nat, excused: nat, presentRate: real)

  function SummaryOf(rows: seq<AttendanceRow>): Summary
  {
    var statuses := Statuses(rows);
    Summary(|rows|, CountStatus(statuses, "P"), CountStatus(statuses, "A"), CountStatus(statuses, "L"),
            CountStatus(statuses, "E"), AttendancePercentage(statuses, "P"))
  }

  /** get_class_attendance_summary for klass on a day, optionally within a term; `date` is today when not given. */
  function ClassSummary(sessions: seq<SessionRow>, records: seq<AttendanceRow>, klass: nat, date: int, term: Option<nat>): (r: Summary)
    ensures r.totalRecords == 0 ==> r.present == 0 && r.absent == 0 && r.late == 0 && r.excused == 0 && r.presentRate == 0.0
    ensures 0.0 <= r.presentRate <= 100.0
  {
    SummaryOf(InSessions(records, sessions, (s: SessionRow) => s.klass == klass && s.date == date && InTerm(s, term)))
  }

  /** The four counters of a summary never exceed its total, and make it up when every status is a known one. */
  lemma {:induction false} SummaryCountsPartition(rows: seq<AttendanceRow>)
    ensures var s := SummaryOf(rows); s.present + s.absent + s.late + s.excused <= s.totalRecords
    ensures (forall i :: 0 <= i < |rows| ==> rows[i].status in ["P", "A", "L", "E"]) ==>
      var s := SummaryOf(rows); s.present + s.absent + s.late + s.excused == s.totalRecords
    decreases |rows|
  {
    FourAtMost(Statuses(rows));
    if forall i :: 0 <= i < |rows| ==> rows[i].status in ["P", "A", "L", "E"] {
      CountStatusPartition(Statuses(rows));
    }
  }

  lemma {:induction false} FourAtMost(statuses: seq<string>)
    ensures CountStatus(statuses, "P") + CountStatus(statuses, "A") + CountStatus(statuses, "L") + CountStatus(statuses, "E") <= |statuses|
    decreases |statuses|
  {
    if statuses != [] {
      FourAtMost(statuses[..|statuses| - 1]);
    }
  }

  /** get_absentees / get_late_arrivals: the rows of klass's sessions on a day with the given status, newest first. */
  function WithStatusOn(sessions: seq<SessionRow>, records: seq<AttendanceRow>, klass: nat, date: int, status: string): (r: seq<AttendanceRow>)
    ensures forall x :: x in r ==> x.status == status && x in records
    ensures forall i :: 0 <= i < |records| && records[i].status == status && records[i].session < |sessions| &&
                        sessions[records[i].session].klass == klass && sessions[records[i].session].date == date
                        ==> records[i] in r
  {
    var day := InSessions(records, sessions, (s: SessionRow) => s.klass == klass && s.date == date);
    NewestHasAll(day);
    FilteredHasAll(NewestFirst(day), status);
    Filtered(NewestFirst(day), status)
  }

  function Filtered(rows: seq<AttendanceRow>, status: string): (r: seq<AttendanceRow>)
    ensures forall x :: x in r ==> x.status == status && x in rows
    ensures |r| == CountStatus(Statuses(rows), status)
    decreases |rows|
  {
    if rows == [] then []
    else
      var rest := Filtered(rows[..|rows| - 1], status);
      assert Statuses(rows)[..|rows| - 1] == Statuses(rows[..|rows| - 1]);
      assert forall x :: x in rows[..|rows| - 1] ==> x in rows;
      if rows[|rows| - 1].status == status then rest + [rows[|rows| - 1]] else rest
  }

  /** Every row with the status is kept. */
  lemma {:induction false} FilteredHasAll(rows: seq<AttendanceRow>, status: string)
    ensures forall x :: x in rows && x.status == status ==> x in Filtered(rows, status)
    decreases |rows|
  {
    if rows != [] {
      var init := rows[..|rows| - 1];
      FilteredHasAll(init, status);
      forall x | x in rows && x.status == status
        ensures x in Filtered(rows, status)
      {
        var k :| 0 <= k < |rows| && rows[k] == x;
        if k < |init| {
          assert init[k] == x;
        }
      }
    }
  }

  /** The absentees of a day are as many as the summary's absent count for that day without a term. */
  lemma AbsenteesMatchSummary(sessions: seq<SessionRow>, records: seq<AttendanceRow>, klass: nat, date: int)
    ensures |WithStatusOn(sessions, records, klass, date, "A")| == ClassSummary(sessions, records, klass, date, None).absent
    ensures |WithStatusOn(sessions, records, klass, date, "L")| == ClassSummary(sessions, records, klass, date, None).late
  {
    var day := InSessions(records, sessions, (s: SessionRow) => s.klass == klass && s.date == date);
    NewestFilteredCount(day, "A");
    NewestFilteredCount(day, "L");
    InSessionsSameFilter(records, sessions, (s: SessionRow) => s.klass == klass && s.date == date,
                         (s: SessionRow) => s.klass == klass && s.date == date && InTerm(s, None));
  }

  /** Every row is still there once the rows are listed newest first. */
  lemma NewestHasAll(rows: seq<AttendanceRow>)
    ensures forall x :: x in rows ==> x in NewestFirst(rows)
  {
    var r := NewestFirst(rows);
    forall x | x in rows
      ensures x in r
    {
      var i :| 0 <= i < |rows| && rows[i] == x;
      assert r[|rows| - 1 - i] == x;
    }
  }

  /** Putting a row in front adds one to the count of its status. */
  lemma {:induction false} FilteredFront(x: AttendanceRow, rows: seq<AttendanceRow>, status: string)
    ensures |Filtered([x] + rows, status)| == |Filtered(rows, status)| + (if x.status == status then 1 else 0)
    decreases |rows|
  {
    if rows != [] {
      var init := rows[..|rows| - 1];
      var last := rows[|rows| - 1];
      var b := if last.status == status then 1 else 0;
      assert ([x] + rows)[..|rows|] == [x] + init;
      assert ([x] + rows)[|rows|] == last;
      assert |Filtered([x] + rows, status)| == |Filtered([x] + init, status)| + b;
      assert |Filtered(rows, status)| == |Filtered(init, status)| + b;
      FilteredFront(x, init, status);
    }
  }

  /** Listing the rows newest first keeps the count of every status. */
  lemma {:induction false} NewestFilteredCount(rows: seq<AttendanceRow>, status: string)
    ensures |Filtered(NewestFirst(rows), status)| == |Filtered(rows, status)|
    decreases |rows|
  {
    if rows != [] {
      var init := rows[..|rows| - 1];
      NewestFilteredCount(init, status);
      FilteredFront(rows[|rows| - 1], NewestFirst(init), status);
    }
  }

  /** Two filters that agree on every session select the same rows. */
  lemma {:induction false} InSessionsSameFilter(records: seq<AttendanceRow>, sessions: seq<SessionRow>, f: SessionRow -> bool, g: SessionRow -> bool)
    requires forall s :: f(s) == g(s)
    ensures InSessions(records, sessions, f) == InSessions(records, sessions, g)
    decreases |records|
  {
    if records != [] {
      InSessionsSameFilter(records[..|records| - 1], sessions, f, g);
    }
  }

  // ---------------------------------------------------------------------------
  // generate_attendance_report

  /** One student's line of the report. */
  datatype ReportEntry = ReportEntry(student: nat, total: nat, present: nat, absent: nat, late: nat, excused: nat, rate: real)

  /** The position of the student's entry, if the report has one yet. */
  function EntryIndex(entries: seq<ReportEntry>, student: nat): (r: Option<nat>)
    ensures r.Some? ==> r.value < |entries| && entries[r.value].student == student
    ensures r.None? ==> forall k :: 0 <= k < |entries| ==> entries[k].student != student
    decreases |entries|
  {
    if entries == [] then None
    else if entries[0].student == student then Some(0)
    else
      var rest := EntryIndex(entries[1..], student);
      if rest.Some? then Some(rest.value + 1) else None
  }

  /** One record counted: the student's entry is made on first sight, then its total and its status counter go up. */
  function Counted(e: ReportEntry, status: string): ReportEntry
  {
    var e := e.(total := e.total + 1);
    if status == "P" then e.(present := e.present + 1)
    else if status == "A" then e.(absent := e.absent + 1)
    else if status == "L" then e.(late := e.late + 1)
    else if status == "E" then e.(excused := e.excused + 1)
    else e
  }

  function Tallied(entries: seq<ReportEntry>, row: AttendanceRow): seq<ReportEntry>
  {
    match EntryIndex(entries, row.student)
    case Some(k) => entries[k := Counted(entries[k], row.status)]
    case None => entries + [Counted(ReportEntry(row.student, 0, 0, 0, 0, 0, 0.0), row.status)]
  }

  /** The grouping loop over the records in scope. */
  function ReportCounts(rows: seq<AttendanceRow>): seq<ReportEntry>
    decreases |rows|
  {
    if rows == [] then [] else Tallied(ReportCounts(rows[..|rows| - 1]), rows[|rows| - 1])
  }

  /** The rows of one student. */
  function RowsOf(rows: seq<AttendanceRow>, student: nat): (r: seq<AttendanceRow>)
    ensures |r| <= |rows|
    decreases |rows|
  {
    if rows == [] then []
    else RowsOf(rows[..|rows| - 1], student) + (if rows[|rows| - 1].student == student then [rows[|rows| - 1]] else [])
  }

  predicate KnownStatus(status: string)
  {
    status == "P" || status == "A" || status == "L" || status == "E"
  }

  /** What every entry of a grouping keeps: its counters only count its own rows. */
  predicate EntryCounts(e: ReportEntry, rows: seq<AttendanceRow>)
  {
    e.total == |RowsOf(rows, e.student)| &&
    e.present + e.absent + e.late + e.excused <= e.total &&
    ((forall i :: 0 <= i < |rows| ==> KnownStatus(rows[i].status)) ==> e.present + e.absent + e.late + e.excused == e.total)
  }

  /** Counting one record adds one to the total, and one to the counters when the status is a known one. */
  lemma CountedFacts(e: ReportEntry, status: string)
    ensures var c := Counted(e, status);
      c.student == e.student && c.rate == e.rate && c.total == e.total + 1 &&
      c.present + c.absent + c.late + c.excused == e.present + e.absent + e.late + e.excused + (if KnownStatus(status) then 1 else 0)
  {
  }

  /** The rows of a student after one more row. */
  lemma RowsOfSnoc(rows: seq<AttendanceRow>, student: nat)
    requires rows != []
    ensures RowsOf(rows, student) == RowsOf(rows[..|rows| - 1], student) + (if rows[|rows| - 1].student == student then [rows[|rows| - 1]] else [])
  {
  }

  /** No two entries of a report are for the same student. */
  predicate DistinctStudents(es: seq<ReportEntry>)
  {
    forall k, l :: 0 <= k < l < |es| ==> es[k].student != es[l].student
  }

  /** The grouping has one entry per student with records and none for anyone else. */
  lemma {:induction false} ReportCountsStudents(rows: seq<AttendanceRow>)
    ensures DistinctStudents(ReportCounts(rows))
    ensures forall student :: EntryIndex(ReportCounts(rows), student).Some? <==> RowsOf(rows, student) != []
    decreases |rows|
  {
    if rows != [] {
      var init := rows[..|rows| - 1];
      var row := rows[|rows| - 1];
      ReportCountsStudents(init);
      var prev := ReportCounts(init);
      var es := Tallied(prev, row);
      assert ReportCounts(rows) == es;
      assert forall k :: 0 <= k < |prev| ==> es[k].student == prev[k].student by {
        forall k | 0 <= k < |prev| ensures es[k].student == prev[k].student {
          if EntryIndex(prev, row.student) == Some(k) {
            CountedFacts(prev[k], row.status);
          }
        }
      }
      if EntryIndex(prev, row.student).None? {
        CountedFacts(ReportEntry(row.student, 0, 0, 0, 0, 0, 0.0), row.status);
        assert es == prev + [Counted(ReportEntry(row.student, 0, 0, 0, 0, 0, 0.0), row.status)];
        assert es[|prev|].student == row.student;
        forall k, l | 0 <= k < l < |es| ensures es[k].student != es[l].student {
          if l == |prev| {
            assert prev[k].student != row.student;
          } else {
            assert es[k].student == prev[k].student && es[l].student == prev[l].student;
          }
        }
      } else {
        assert |es| == |prev|;
        forall k, l | 0 <= k < l < |es| ensures es[k].student != es[l].student {
          assert es[k].student == prev[k].student && es[l].student == prev[l].student;
        }
      }
      forall student
        ensures EntryIndex(es, student).Some? <==> RowsOf(rows, student) != []
      {
        RowsOfSnoc(rows, student);
        match EntryIndex(prev, student)
        case Some(k) =>
          assert es[k].student == student;
        case None =>
          if student == row.student {
            assert es[|prev|].student == student;
          } else {
            assert forall k :: 0 <= k < |es| ==> es[k].student != student;
          }
      }
    }
  }

  /** Each entry's total is its student's number of records, split over the four counters when every status is a known one. */
  lemma {:induction false} ReportCountsTotals(rows: seq<AttendanceRow>)
    ensures forall k :: 0 <= k < |ReportCounts(rows)| ==> EntryCounts(ReportCounts(rows)[k], rows) && ReportCounts(rows)[k].rate == 0.0
    decreases |rows|
  {
    if rows != [] {
      var init := rows[..|rows| - 1];
      var row := rows[|rows| - 1];
      ReportCountsTotals(init);
      ReportCountsStudents(init);
      assert rows == init + [row];
      forall k | 0 <= k < |ReportCounts(rows)|
        ensures EntryCounts(ReportCounts(rows)[k], rows) && ReportCounts(rows)[k].rate == 0.0
      {
        TalliedCounts(ReportCounts(init), init, row, k);
      }
    }
  }

  /** One more record keeps every entry's counts those of its student's records. */
  lemma TalliedCounts(prev: seq<ReportEntry>, init: seq<AttendanceRow>, row: AttendanceRow, k: nat)
    requires forall j :: 0 <= j < |prev| ==> EntryCounts(prev[j], init) && prev[j].rate == 0.0
    requires DistinctStudents(prev)
    requires forall student :: EntryIndex(prev, student).Some? <==> RowsOf(init, student) != []
    requires k < |Tallied(prev, row)|
    ensures EntryCounts(Tallied(prev, row)[k], init + [row]) && Tallied(prev, row)[k].rate == 0.0
  {
    var rows := init + [row];
    var es := Tallied(prev, row);
    assert rows[..|rows| - 1] == init;
    assert (forall i :: 0 <= i < |rows| ==> KnownStatus(rows[i].status)) ==>
      KnownStatus(row.status) && forall i :: 0 <= i < |init| ==> KnownStatus(init[i].status) by {
      assert forall i :: 0 <= i < |init| ==> init[i] == rows[i];
      assert rows[|init|] == row;
    }
    RowsOfSnoc(rows, es[k].student);
    match EntryIndex(prev, row.student)
    case Some(m) =>
      CountedFacts(prev[m], row.status);
      if k != m {
        assert prev[k].student != prev[m].student;
        assert es[k] == prev[k];
      }
    case None =>
      CountedFacts(ReportEntry(row.student, 0, 0, 0, 0, 0, 0.0), row.status);
      if k < |prev| {
        assert es[k] == prev[k];
      } else {
        assert RowsOf(init, row.student) == [];
      }
  }

  /** The rate pass: present / total as a percentage for every entry with records. */
  function RateOf(e: ReportEntry): (r: ReportEntry)
    ensures r == e.(rate := r.rate)
    ensures e.total > 0 && e.present <= e.total ==> 0.0 <= r.rate <= 100.0
  {
    if e.total > 0 then e.(rate := (e.present as real / e.total as real) * 100.0) else e
  }

  /** The records of klass's sessions dated within [start, end], optionally within a term, newest first. */
  function ReportScope(sessions: seq<SessionRow>, records: seq<AttendanceRow>, klass: nat, start: int, end: int, term: Option<nat>): seq<AttendanceRow>
  {
    NewestFirst(InSessions(records, sessions, (s: SessionRow) => s.klass == klass && start <= s.date <= end && InTerm(s, term)))
  }

  /** generate_attendance_report for klass over [start, end], optionally within a term. */
  function Report(sessions: seq<SessionRow>, records: seq<AttendanceRow>, klass: nat, start: int, end: int, term: Option<nat>): seq<ReportEntry>
  {
    var counts := ReportCounts(ReportScope(sessions, records, klass, start, end, term));
    seq(|counts|, k requires 0 <= k < |counts| => RateOf(counts[k]))
  }

  /** The report's lines: distinct students, exactly those with records in range, each rated between 0 and 100. */
  lemma ReportFacts(sessions: seq<SessionRow>, records: seq<AttendanceRow>, klass: nat, start: int, end: int, term: Option<nat>)
    ensures var rows := ReportScope(sessions, records, klass, start, end, term);
      var report := Report(sessions, records, klass, start, end, term);
      DistinctStudents(report) &&
      (forall k :: 0 <= k < |report| ==> EntryCounts(report[k], rows) && report[k].total > 0 && 0.0 <= report[k].rate <= 100.0) &&
      (forall student :: EntryIndex(report, student).Some? <==> RowsOf(rows, student) != [])
  {
    var rows := ReportScope(sessions, records, klass, start, end, term);
    var counts := ReportCounts(rows);
    ReportCountsStudents(rows);
    ReportCountsTotals(rows);
    var report := Report(sessions, records, klass, start, end, term);
    forall k | 0 <= k < |counts|
      ensures counts[k].total > 0
    {
      assert EntryIndex(counts, counts[k].student).Some?;
    }
    forall k | 0 <= k < |report|
      ensures EntryCounts(report[k], rows) && report[k].total > 0 && 0.0 <= report[k].rate <= 100.0
    {
      assert report[k] == RateOf(counts[k]);
      assert EntryCounts(counts[k], rows);
    }
    forall student
      ensures EntryIndex(report, student) == EntryIndex(counts, student)
    {
      SameStudentsSameIndex(counts, report, student);
    }
  }

  lemma {:induction false} SameStudentsSameIndex(a: seq<ReportEntry>, b: seq<ReportEntry>, student: nat)
    requires |a| == |b| && forall k :: 0 <= k < |a| ==> a[k].student == b[k].student
    ensures EntryIndex(a, student) == EntryIndex(b, student)
    decreases |a|
  {
    if a != [] {
      SameStudentsSameIndex(a[1..], b[1..], student);
    }
  }

  /** The report built the way the service builds it: one pass grouping the records, one pass computing the rates. */
  method GenerateAttendanceReport(sessions: seq<SessionRow>, records: seq<AttendanceRow>, klass: nat, start: int, end: int, term: Option<nat>)
    returns (report: seq<ReportEntry>)
    ensures report == Report(sessions, records, klass, start, end, term)
  {
    var rows := ReportScope(sessions, records, klass, start, end, term);
    var counts := GroupRecords(rows);
    report := RateEntries(counts);
  }

  /** The grouping loop: one entry per student, in the order of each student's first record. */
  method GroupRecords(rows: seq<AttendanceRow>) returns (counts: seq<ReportEntry>)
    ensures counts == ReportCounts(rows)
  {
    counts := [];
    var i := 0;
    while i < |rows|
      invariant 0 <= i <= |rows|
      invariant counts == ReportCounts(rows[..i])
    {
      assert rows[..i + 1][..i] == rows[..i];
      counts := Tallied(counts, rows[i]);
      i := i + 1;
    }
    assert rows[..|rows|] == rows;
  }

  /** The rate loop over the grouped entries. */
  method RateEntries(counts: seq<ReportEntry>) returns (report: seq<ReportEntry>)
    ensures |report| == |counts| && forall k :: 0 <= k < |counts| ==> report[k] == RateOf(counts[k])
  {
    report := [];
    var k := 0;
    while k < |counts|
      invariant 0 <= k <= |counts|
      invariant |report| == k && forall j :: 0 <= j < k ==> report[j] == RateOf(counts[j])
    {
      report := report + [RateOf(counts[k])];
      k := k + 1;
    }
  }

  // ---------------------------------------------------------------------------
  // get_pending_sync_count and get_unsynced_records

  /** The unsynced rows, of the school's sessions when a school is given. */
  function Unsynced(sessions: seq<SessionRow>, records: seq<AttendanceRow>, school: Option<nat>): (r: seq<AttendanceRow>)
    ensures forall x :: x in r ==> x in records && !x.synced
    ensures forall i :: 0 <= i < |records| && !records[i].synced && InSchool(sessions, records[i], school) ==> records[i] in r
    decreases |records|
  {
    if records == [] then []
    else
      var rest := Unsynced(sessions, records[..|records| - 1], school);
      var last := records[|records| - 1];
      assert forall x :: x in records[..|records| - 1] ==> x in records;
      if !last.synced && InSchool(sessions, last, school) then rest + [last] else rest
  }

  /** `if school:` — the row's session belongs to the school, or no school is given. */
  predicate InSchool(sessions: seq<SessionRow>, row: AttendanceRow, school: Option<nat>)
  {
    school.None? || (row.session < |sessions| && sessions[row.session].school == school.value)
  }

  function PendingSyncCount(sessions: seq<SessionRow>, records: seq<AttendanceRow>, school: Option<nat>): (n: nat)
    ensures n <= |records|
  {
    UnsyncedAtMost(sessions, records, school);
    |Unsynced(sessions, records, school)|
  }

  lemma {:induction false} UnsyncedAtMost(sessions: seq<SessionRow>, records: seq<AttendanceRow>, school: Option<nat>)
    ensures |Unsynced(sessions, records, school)| <= |records|
    decreases |records|
  {
    if records != [] {
      UnsyncedAtMost(sessions, records[..|records| - 1], school);
    }
  }

  /** The rows newest first: Attendance's `ordering = ['-marked_at']` over rows kept in creation order. */
  function NewestFirst(rows: seq<AttendanceRow>): (r: seq<AttendanceRow>)
    ensures |r| == |rows|
    ensures forall i :: 0 <= i < |rows| ==> r[i] == rows[|rows| - 1 - i]
    decreases |rows|
  {
    if rows == [] then [] else [rows[|rows| - 1]] + NewestFirst(rows[..|rows| - 1])
  }

  /**
   * get_unsynced_records: the `limit` most recently created unsynced rows,
   * newest first; a negative limit is refused by the queryset slice.
   */
  function UnsyncedRecords(sessions: seq<SessionRow>, records: seq<AttendanceRow>, school: Option<nat>, limit: int): (r: Result<seq<AttendanceRow>, string>)
    ensures r.Err? <==> limit < 0
    ensures r.Ok? ==> |r.value| == Min(limit, PendingSyncCount(sessions, records, school))
    ensures r.Ok? ==> var all := Unsynced(sessions, records, school);
      forall i :: 0 <= i < |r.value| ==> r.value[i] == all[|all| - 1 - i]
    ensures r.Ok? ==> forall x :: x in r.value ==> !x.synced
  {
    if limit < 0 then Err("Negative indexing is not supported.")
    else
      var all := Unsynced(sessions, records, school);
      NewestTake(all, limit);
      Ok(Take(NewestFirst(all), limit))
  }

  /** The first n rows newest first are the last n rows, read backwards. */
  lemma NewestTake(all: seq<AttendanceRow>, n: nat)
    ensures var r := Take(NewestFirst(all), n);
      |r| == Min(n, |all|) && (forall i :: 0 <= i < |r| ==> r[i] == all[|all| - 1 - i]) && (forall x :: x in r ==> x in all)
  {
    var r := Take(NewestFirst(all), n);
    forall x | x in r ensures x in all {
      var i :| 0 <= i < |r| && r[i] == x;
      assert r[i] == all[|all| - 1 - i];
    }
  }

  /** marked_at is auto_now_add, so rows in creation order carry nondecreasing times. */
  predicate MarkedInOrder(records: seq<AttendanceRow>)
  {
    forall i, j :: 0 <= i < j < |records| ==> records[i].markedAt <= records[j].markedAt
  }

  lemma {:induction false} UnsyncedInOrder(sessions: seq<SessionRow>, records: seq<AttendanceRow>, school: Option<nat>)
    requires MarkedInOrder(records)
    ensures MarkedInOrder(Unsynced(sessions, records, school))
    decreases |records|
  {
    if records != [] {
      var init := records[..|records| - 1];
      var last := records[|records| - 1];
      assert MarkedInOrder(init);
      UnsyncedInOrder(sessions, init, school);
      var rest := Unsynced(sessions, init, school);
      forall x | x in rest ensures x.markedAt <= last.markedAt {
        var k :| 0 <= k < |init| && init[k] == x;
        assert records[k] == x;
      }
      if !last.synced && InSchool(sessions, last, school) {
        SnocInOrder(rest, last);
      }
    }
  }

  /** A row marked no earlier than every row of a list in marking order extends it in order. */
  lemma SnocInOrder(rows: seq<AttendanceRow>, last: AttendanceRow)
    requires MarkedInOrder(rows) && forall x :: x in rows ==> x.markedAt <= last.markedAt
    ensures MarkedInOrder(rows + [last])
  {
    var r := rows + [last];
    forall i, j | 0 <= i < j < |r| ensures r[i].markedAt <= r[j].markedAt {
      assert r[i] == rows[i];
      if j == |rows| { assert rows[i] in rows; } else { assert r[j] == rows[j]; }
    }
  }

  /** The last rows of a list in marking order, read backwards, are the newest ones. */
  lemma NewestSuffix(all: seq<AttendanceRow>, r: seq<AttendanceRow>)
    requires MarkedInOrder(all) && |r| <= |all|
    requires forall i :: 0 <= i < |r| ==> r[i] == all[|all| - 1 - i]
    ensures forall i, j :: 0 <= i < j < |r| ==> r[i].markedAt >= r[j].markedAt
    ensures forall x, y :: x in r && y in all && y !in r ==> y.markedAt <= x.markedAt
  {
    forall i, j | 0 <= i < j < |r| ensures r[i].markedAt >= r[j].markedAt {
      assert r[i] == all[|all| - 1 - i] && r[j] == all[|all| - 1 - j];
    }
    forall m | |all| - |r| <= m < |all| ensures all[m] in r {
      assert r[|all| - 1 - m] == all[m];
    }
    forall x, y | x in r && y in all && y !in r ensures y.markedAt <= x.markedAt {
      var i :| 0 <= i < |r| && r[i] == x;
      var k :| 0 <= k < |all| && all[k] == y;
      assert x == all[|all| - 1 - i];
    }
  }

  /**
   * With the table in creation order, the rows returned run from newest to
   * oldest, and every unsynced row left out was marked no later than any row
   * returned.
   */
  lemma UnsyncedRecordsNewest(sessions: seq<SessionRow>, records: seq<AttendanceRow>, school: Option<nat>, limit: int)
    requires MarkedInOrder(records) && limit >= 0
    ensures var r := UnsyncedRecords(sessions, records, school, limit).value;
      (forall i, j :: 0 <= i < j < |r| ==> r[i].markedAt >= r[j].markedAt) &&
      (forall x, y :: x in r && y in Unsynced(sessions, records, school) && y !in r ==> y.markedAt <= x.markedAt)
  {
    var all := Unsynced(sessions, records, school);
    var r := UnsyncedRecords(sessions, records, school, limit).value;
    assert |r| <= |all|;
    assert forall i :: 0 <= i < |r| ==> r[i] == all[|all| - 1 - i];
    UnsyncedInOrder(sessions, records, school);
    assert MarkedInOrder(all);
    NewestSuffix(all, r);
  }
}
