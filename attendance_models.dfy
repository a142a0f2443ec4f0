// The records of backend/attendance/models.py: attendance sessions, the
// attendance rows marked in them, and the exceptions that excuse a student
// over a range of dates. Dates are day numbers and instants are seconds; the
// clock arrives as a parameter.

module AttendanceModels {
  import opened Common

  datatype SessionStatus = Open | Closed | SessionSynced

  /** A row of AttendanceSession as a value; `subject` is the only optional part of its unique key. */
  datatype SessionRow = SessionRow(
    school: nat,
    klass: nat,
    term: Option<nat>,
    date: int,
    subject: Option<nat>,
    teacher: Option<nat>,
    status: SessionStatus,
    closedAt: Option<int>,
    syncedAt: Option<int>,
    synced: bool)

  /** The `unique_together` key of a session. */
  datatype SessionKey = SessionKey(school: nat, klass: nat, date: int, subject: Option<nat>)

  function KeyOf(s: SessionRow): SessionKey
  {
    SessionKey(s.school, s.klass, s.date, s.subject)
  }

  /** At most one session per (school, klass, date, subject). */
  predicate UniqueSessions(sessions: seq<SessionRow>)
  {
    forall i, j :: 0 <= i < j < |sessions| ==> KeyOf(sessions[i]) != KeyOf(sessions[j])
  }

  /** mark_closed */
  function ClosedRow(s: SessionRow, now: int): (r: SessionRow)
    ensures r.status == Closed && r.closedAt == Some(now)
    ensures KeyOf(r) == KeyOf(s) && r.synced == s.synced && r.syncedAt == s.syncedAt
  {
    s.(status := Closed, closedAt := Some(now))
  }

  /** mark_synced */
  function SyncedRow(s: SessionRow, now: int): (r: SessionRow)
    ensures r.status == SessionSynced && r.synced && r.syncedAt == Some(now)
    ensures KeyOf(r) == KeyOf(s) && r.closedAt == s.closedAt
  {
    s.(status := SessionSynced, synced := true, syncedAt := Some(now))
  }

  /** mark_closed does not look at the status: a synced session closed afterwards is no longer refused for marking. */
  lemma ClosingSyncedSession(s: SessionRow, now: int, later: int)
    ensures SyncedRow(s, now).status == SessionSynced
    ensures ClosedRow(SyncedRow(s, now), later).status == Closed && ClosedRow(SyncedRow(s, now), later).synced
  {
  }

  class AttendanceSession {
    var school: nat
    var klass: nat
    var term: Option<nat>
    var date: int
    var subject: Option<nat>
    var teacher: Option<nat>
    var status: SessionStatus
    var closedAt: Option<int>
    var syncedAt: Option<int>
    var synced: bool

    function Row(): SessionRow
      reads this
    {
      SessionRow(school, klass, term, date, subject, teacher, status, closedAt, syncedAt, synced)
    }

    /** A new session is open and not yet synced. */
    constructor (school: nat, klass: nat, term: Option<nat>, date: int, subject: Option<nat>, teacher: Option<nat>)
      ensures Row() == SessionRow(school, klass, term, date, subject, teacher, Open, None, None, false)
    {
      this.school, this.klass, this.term, this.date, this.subject, this.teacher := school, klass, term, date, subject, teacher;
      status, closedAt, syncedAt, synced := Open, None, None, false;
    }

    method MarkClosed(now: int)
      modifies this
      ensures Row() == ClosedRow(old(Row()), now)
    {
      status := Closed;
      closedAt := Some(now);
    }

    method MarkSynced(now: int)
      modifies this
      ensures Row() == SyncedRow(old(Row()), now)
    {
      status := SessionSynced;
      synced := true;
      syncedAt := Some(now);
    }
  }

  /** A row of Attendance as a value; `session` is the position of its session in the session table. */
  datatype AttendanceRow = AttendanceRow(
    session: nat,
    student: nat,
    status: string,
    remarks: string,
    markedAt: int,
    updatedAt: int,
    markedBy: Option<nat>,
    synced: bool,
    lastSyncAt: Option<int>)

  /** At most one attendance row per (session, student). */
  predicate UniqueAttendance(records: seq<AttendanceRow>)
  {
    forall i, j :: 0 <= i < j < |records| ==>
      (records[i].session, records[i].student) != (records[j].session, records[j].student)
  }

  /** How many of the statuses equal `status`. */
  function CountStatus(statuses: seq<string>, status: string): (n: nat)
    ensures n <= |statuses|
    decreases |statuses|
  {
    if statuses == [] then 0
    else CountStatus(statuses[..|statuses| - 1], status) + (if statuses[|statuses| - 1] == status then 1 else 0)
  }

  /** The four statuses of the choices list, counted together, make up every status that is one of them. */
  lemma {:induction false} CountStatusPartition(statuses: seq<string>)
    requires forall i :: 0 <= i < |statuses| ==> statuses[i] in ["P", "A", "L", "E"]
    ensures CountStatus(statuses, "P") + CountStatus(statuses, "A") + CountStatus(statuses, "L") + CountStatus(statuses, "E") == |statuses|
    decreases |statuses|
  {
    if statuses != [] {
      CountStatusPartition(statuses[..|statuses| - 1]);
    }
  }

  /**
   * get_attendance_percentage over the statuses of a session's records: 0 for
   * a session without records, else the share of `status` as a percentage.
   */
  function AttendancePercentage(statuses: seq<string>, status: string): (r: real)
    ensures statuses == [] ==> r == 0.0
    ensures 0.0 <= r <= 100.0
    ensures r == 100.0 <==> statuses != [] && CountStatus(statuses, status) == |statuses|
  {
    Share(statuses, status) * 100.0
  }

  /** count / total, or 0 without records. */
  function Share(statuses: seq<string>, status: string): (r: real)
    ensures statuses == [] ==> r == 0.0
    ensures 0.0 <= r <= 1.0
    ensures r == 1.0 <==> statuses != [] && CountStatus(statuses, status) == |statuses|
  {
    if |statuses| == 0 then 0.0
    else CountStatus(statuses, status) as real / |statuses| as real
  }

  /** A session whose every record is marked P or A splits its percentages between the two. */
  lemma PercentagesOfTwo(statuses: seq<string>)
    requires statuses != []
    requires forall i :: 0 <= i < |statuses| ==> statuses[i] == "P" || statuses[i] == "A"
    ensures AttendancePercentage(statuses, "P") + AttendancePercentage(statuses, "A") == 100.0
  {
    CountTwo(statuses);
    SharesOfTwo(CountStatus(statuses, "P"), CountStatus(statuses, "A"));
  }

  lemma {:induction false} CountTwo(statuses: seq<string>)
    requires forall i :: 0 <= i < |statuses| ==> statuses[i] == "P" || statuses[i] == "A"
    ensures CountStatus(statuses, "P") + CountStatus(statuses, "A") == |statuses|
    decreases |statuses|
  {
    if statuses != [] {
      CountTwo(statuses[..|statuses| - 1]);
    }
  }

  lemma SharesOfTwo(p: nat, a: nat)
    requires p + a > 0
    ensures (p as real / (p + a) as real) * 100.0 + (a as real / (p + a) as real) * 100.0 == 100.0
  {
    var n := (p + a) as real;
    assert p as real / n + a as real / n == 1.0;
  }

  lemma {:induction false} NoneCounted(statuses: seq<string>, status: string)
    requires forall i :: 0 <= i < |statuses| ==> statuses[i] != status
    ensures CountStatus(statuses, status) == 0
    decreases |statuses|
  {
    if statuses != [] {
      NoneCounted(statuses[..|statuses| - 1], status);
    }
  }

  /** Attendance.mark_synced */
  function RecordSynced(a: AttendanceRow, now: int): (r: AttendanceRow)
    ensures r.synced && r.lastSyncAt == Some(now)
    ensures r.session == a.session && r.student == a.student && r.status == a.status && r.remarks == a.remarks
  {
    a.(synced := true, lastSyncAt := Some(now))
  }

  class Attendance {
    var session: nat
    var student: nat
    var status: string
    var remarks: string
    var markedAt: int
    var updatedAt: int
    var markedBy: Option<nat>
    var synced: bool
    var lastSyncAt: Option<int>

    function Row(): AttendanceRow
      reads this
    {
      AttendanceRow(session, student, status, remarks, markedAt, updatedAt, markedBy, synced, lastSyncAt)
    }

    constructor (session: nat, student: nat, status: string, remarks: string, markedBy: Option<nat>, now: int)
      ensures Row() == AttendanceRow(session, student, status, remarks, now, now, markedBy, false, None)
    {
      this.session, this.student, this.status, this.remarks, this.markedBy := session, student, status, remarks, markedBy;
      markedAt, updatedAt, synced, lastSyncAt := now, now, false, None;
    }

    method MarkSynced(now: int)
      modifies this
      ensures Row() == RecordSynced(old(Row()), now)
    {
      synced := true;
      lastSyncAt := Some(now);
    }
  }

  /** Attendance.clean: a synced session is refused first, then a session dated after today. */
  function CleanError(sessionStatus: SessionStatus, sessionDate: int, today: int): (r: Option<string>)
    ensures r.None? <==> sessionStatus != SessionSynced && sessionDate <= today
    ensures sessionStatus == SessionSynced ==> r == Some("Cannot modify attendance for synced session")
    ensures sessionStatus != SessionSynced && sessionDate > today ==> r == Some("Cannot mark attendance for future dates")
  {
    if sessionStatus == SessionSynced then Some("Cannot modify attendance for synced session")
    else if sessionDate > today then Some("Cannot mark attendance for future dates")
    else None
  }

  /** A row of AttendanceException as a value. */
  datatype ExceptionRow = ExceptionRow(student: nat, category: string, startDate: int, endDate: int, reason: string)

  /** covers_date: inclusive at both ends, and empty when the range is reversed. */
  predicate CoversDate(e: ExceptionRow, date: int)
  {
    e.startDate <= date <= e.endDate
  }

  lemma CoversDateBounds(e: ExceptionRow, date: int)
    ensures CoversDate(e, e.startDate) <==> e.startDate <= e.endDate
    ensures CoversDate(e, e.endDate) <==> e.startDate <= e.endDate
    ensures e.startDate > e.endDate ==> !CoversDate(e, date)
    ensures date < e.startDate || date > e.endDate ==> !CoversDate(e, date)
  {
  }
}
