// The marking screen of frontend/scripts/attendance-controller.js:
// AttendanceController keeps the marks of the loaded class in
// `attendanceRecords`, an object keyed by the student id as a string, shows
// the tallies, saves the marks and the session to IndexedDB, queues them for
// sync and exports them as CSV. The DOM, the clock, Date.now and the school
// the auth manager reports arrive as parameters.

module AttendanceJs {
  import opened Common
  import opened JsValue
  import opened DbJs
  import SyncJs

  /** A student's mark: status letter and remarks. */
  datatype Mark = Mark(status: string, remarks: string)

  /** One property of attendanceRecords: the student id as a string key, and the mark. */
  datatype Entry = Entry(key: string, mark: Mark)

  /** A loaded student row as the controller reads it. */
  datatype Student = Student(id: JsVal, admission: JsVal, name: JsVal)

  /** The tallies updateCounts writes to the page: present, absent, late and the number of students. */
  datatype Display = Display(present: nat, absent: nat, late: nat, total: nat)

  /** A showMessage call: text and type. */
  datatype Message = Message(text: string, kind: string)

  /** The file exportAsCSV downloads. */
  datatype CsvFile = CsvFile(name: string, text: string)

  /** A plain object has each property once. */
  predicate DistinctKeys(rs: seq<Entry>)
  {
    forall i, j :: 0 <= i < |rs| && 0 <= j < |rs| && rs[i].key == rs[j].key ==> i == j
  }

  /** attendanceRecords[key] */
  function Lookup(rs: seq<Entry>, key: string): Option<Mark>
    decreases |rs|
  {
    if rs == [] then None
    else if rs[0].key == key then Some(rs[0].mark)
    else Lookup(rs[1..], key)
  }

  /** attendanceRecords[key] = mark: an existing property keeps its place, a new one goes last. */
  function SetMark(rs: seq<Entry>, key: string, m: Mark): (r: seq<Entry>)
    decreases |rs|
  {
    if rs == [] then [Entry(key, m)]
    else if rs[0].key == key then [Entry(key, m)] + rs[1..]
    else [rs[0]] + SetMark(rs[1..], key, m)
  }

  lemma DistinctTail(rs: seq<Entry>)
    requires rs != [] && DistinctKeys(rs)
    ensures DistinctKeys(rs[1..]) && forall i :: 0 <= i < |rs| - 1 ==> rs[1..][i].key != rs[0].key
  {
    forall i | 0 <= i < |rs| - 1 ensures rs[1..][i].key != rs[0].key {
      assert rs[1..][i] == rs[i + 1];
    }
  }

  /** Setting a property: its key now holds the mark, every other key keeps its mark, and keys stay distinct. */
  lemma {:induction false} SetMarkFacts(rs: seq<Entry>, key: string, m: Mark, other: string)
    requires DistinctKeys(rs)
    ensures Lookup(SetMark(rs, key, m), key) == Some(m)
    ensures other != key ==> Lookup(SetMark(rs, key, m), other) == Lookup(rs, other)
    ensures DistinctKeys(SetMark(rs, key, m))
    decreases |rs|
  {
    var r := SetMark(rs, key, m);
    if rs == [] {
    } else if rs[0].key == key {
      DistinctTail(rs);
      assert r == [Entry(key, m)] + rs[1..];
      LookupCons(Entry(key, m), rs[1..], key);
      LookupCons(Entry(key, m), rs[1..], other);
      LookupCons(rs[0], rs[1..], other);
      assert rs == [rs[0]] + rs[1..];
      DistinctCons(Entry(key, m), rs[1..]);
    } else {
      DistinctTail(rs);
      SetMarkFacts(rs[1..], key, m, other);
      SetMarkFacts(rs[1..], key, m, rs[0].key);
      assert r == [rs[0]] + SetMark(rs[1..], key, m);
      LookupCons(rs[0], SetMark(rs[1..], key, m), key);
      LookupCons(rs[0], SetMark(rs[1..], key, m), other);
      LookupCons(rs[0], rs[1..], other);
      assert rs == [rs[0]] + rs[1..];
      LookupAbsent(rs[1..], rs[0].key);
      LookupNone(SetMark(rs[1..], key, m), rs[0].key);
      DistinctCons(rs[0], SetMark(rs[1..], key, m));
    }
  }

  lemma {:induction false} LookupNone(rs: seq<Entry>, key: string)
    requires Lookup(rs, key) == None
    ensures forall i :: 0 <= i < |rs| ==> rs[i].key != key
    decreases |rs|
  {
    if rs != [] {
      LookupNone(rs[1..], key);
      forall i | 1 <= i < |rs| ensures rs[i].key != key {
        assert rs[i] == rs[1..][i - 1];
      }
    }
  }

  lemma {:induction false} LookupAbsent(rs: seq<Entry>, key: string)
    requires forall i :: 0 <= i < |rs| ==> rs[i].key != key
    ensures Lookup(rs, key) == None
    decreases |rs|
  {
    if rs != [] {
      assert forall i :: 0 <= i < |rs| - 1 ==> rs[1..][i] == rs[i + 1];
      LookupAbsent(rs[1..], key);
    }
  }

  lemma DistinctCons(e: Entry, rs: seq<Entry>)
    requires DistinctKeys(rs) && forall i :: 0 <= i < |rs| ==> rs[i].key != e.key
    ensures DistinctKeys([e] + rs)
  {
    var q := [e] + rs;
    forall i, j | 0 <= i < |q| && 0 <= j < |q| && q[i].key == q[j].key ensures i == j {
      if i > 0 && j > 0 {
        assert q[i] == rs[i - 1] && q[j] == rs[j - 1];
      }
    }
  }

  /** Looking a key up in a list with a known first property. */
  lemma LookupCons(e: Entry, rs: seq<Entry>, key: string)
    ensures Lookup([e] + rs, key) == if e.key == key then Some(e.mark) else Lookup(rs, key)
  {
    assert ([e] + rs)[1..] == rs;
  }

  // ---------------------------------------------------------------------------
  // Marking

  /** markAttendance's new mark: the status given, and the remarks the student had, or '' without any. */
  function Marked(rs: seq<Entry>, key: string, status: string): seq<Entry>
  {
    var remarks := match Lookup(rs, key) case Some(m) => m.remarks case None => "";
    SetMark(rs, key, Mark(status, ToStr(Or(Str(remarks), Str("")))))
  }

  /** A mark changes the status of that student only and keeps the remarks. */
  lemma MarkedFacts(rs: seq<Entry>, key: string, status: string, other: string)
    requires DistinctKeys(rs)
    ensures Lookup(Marked(rs, key, status), key) == Some(Mark(status, if Lookup(rs, key).Some? then Lookup(rs, key).value.remarks else ""))
    ensures other != key ==> Lookup(Marked(rs, key, status), other) == Lookup(rs, other)
    ensures DistinctKeys(Marked(rs, key, status))
  {
    var remarks := match Lookup(rs, key) case Some(m) => m.remarks case None => "";
    SetMarkFacts(rs, key, Mark(status, remarks), other);
  }

  /** markAllPresent: markAttendance(student.id, 'P') for each loaded student in turn. */
  function AllPresent(rs: seq<Entry>, students: seq<Student>): seq<Entry>
    decreases |students|
  {
    if students == [] then rs
    else Marked(AllPresent(rs, students[..|students| - 1]), ToStr(students[|students| - 1].id), "P")
  }

  /** After markAllPresent every loaded student is present with the remarks kept; other keys are untouched. */
  lemma {:induction false} AllPresentFacts(rs: seq<Entry>, students: seq<Student>, other: string)
    requires DistinctKeys(rs)
    ensures DistinctKeys(AllPresent(rs, students))
    ensures forall i :: 0 <= i < |students| ==>
      Lookup(AllPresent(rs, students), ToStr(students[i].id)).Some? && Lookup(AllPresent(rs, students), ToStr(students[i].id)).value.status == "P"
    ensures (forall i :: 0 <= i < |students| ==> ToStr(students[i].id) != other) ==> Lookup(AllPresent(rs, students), other) == Lookup(rs, other)
    decreases |students|
  {
    if students != [] {
      var init := students[..|students| - 1];
      var key := ToStr(students[|students| - 1].id);
      AllPresentFacts(rs, init, other);
      var mid := AllPresent(rs, init);
      MarkedFacts(mid, key, "P", other);
      forall i | 0 <= i < |students| - 1
        ensures Lookup(AllPresent(rs, students), ToStr(students[i].id)).Some? && Lookup(AllPresent(rs, students), ToStr(students[i].id)).value.status == "P"
      {
        assert init[i] == students[i];
        MarkedFacts(mid, key, "P", ToStr(students[i].id));
      }
    }
  }

  // ---------------------------------------------------------------------------
  // Tallies

  /** How many marks have the given status. */
  function Count(rs: seq<Entry>, status: string): (n: nat)
    ensures n <= |rs|
    decreases |rs|
  {
    if rs == [] then 0 else Count(rs[..|rs| - 1], status) + if rs[|rs| - 1].mark.status == status then 1 else 0
  }

  predicate Pale(status: string)
  {
    status == "P" || status == "A" || status == "L" || status == "E"
  }

  /** How many marks have a status outside P, A, L and E. */
  function CountOther(rs: seq<Entry>): (n: nat)
    decreases |rs|
  {
    if rs == [] then 0 else CountOther(rs[..|rs| - 1]) + if Pale(rs[|rs| - 1].mark.status) then 0 else 1
  }

  /** The four tallies and the other statuses account for every mark exactly once. */
  lemma {:induction false} CountsSum(rs: seq<Entry>)
    ensures Count(rs, "P") + Count(rs, "A") + Count(rs, "L") + Count(rs, "E") + CountOther(rs) == |rs|
    ensures (forall i :: 0 <= i < |rs| ==> Pale(rs[i].mark.status)) ==> Count(rs, "P") + Count(rs, "A") + Count(rs, "L") + Count(rs, "E") == |rs|
    decreases |rs|
  {
    if rs != [] {
      CountsSum(rs[..|rs| - 1]);
      if forall i :: 0 <= i < |rs| ==> Pale(rs[i].mark.status) {
        assert forall i :: 0 <= i < |rs| - 1 ==> rs[..|rs| - 1][i] == rs[i];
        assert Pale(rs[|rs| - 1].mark.status);
      }
    }
  }

  /** What updateCounts shows: present, absent and late among the marks, and the number of loaded students. */
  function Shown(rs: seq<Entry>, students: seq<Student>): Display
  {
    Display(Count(rs, "P"), Count(rs, "A"), Count(rs, "L"), |students|)
  }

  // ---------------------------------------------------------------------------
  // Saving

  /** currentSession?.id */
  function SessionIdOf(session: JsVal): JsVal
  {
    if session.Obj? then Prop(session.fields, "id") else Undefined
  }

  /** The session id saveAttendance uses: the current session's, or a new one from class, date and Date.now(). */
  function SessionIdFor(session: JsVal, classId: string, date: string, stamp: string): (r: JsVal)
    ensures Truthy(r)
  {
    Or(SessionIdOf(session), Str("session_" + classId + "_" + date + "_" + stamp))
  }

  /** The object saveAttendance hands to saveAttendanceRecord for one mark. */
  function RecordData(sid: JsVal, e: Entry, school: JsVal, now: string): Record
  {
    map["id" := Str(ToStr(sid) + "_" + e.key), "sessionId" := sid, "studentId" := ParseInt(e.key),
        "status" := Str(e.mark.status), "remarks" := Or(Str(e.mark.remarks), Str("")), "synced" := Bool(false),
        "schoolId" := school, "markedAt" := Str(now)]
  }

  /** The object saveAttendance hands to saveSession. */
  function SessionData(sid: JsVal, classId: string, date: string, school: JsVal, count: nat): Record
  {
    map["id" := sid, "classId" := ParseInt(classId), "date" := Str(date), "status" := Str("open"),
        "synced" := Bool(false), "schoolId" := school, "recordCount" := Num(count)]
  }

  /** attendanceRecords as the object queued with the batch. */
  function RecordsObject(rs: seq<Entry>): map<string, JsVal>
    decreases |rs|
  {
    if rs == [] then map[]
    else
      var e := rs[|rs| - 1];
      RecordsObject(rs[..|rs| - 1])[e.key := Obj(map["status" := Str(e.mark.status), "remarks" := Str(e.mark.remarks)])]
  }

  /** The data of the attendance_batch change. */
  function BatchData(sid: JsVal, classId: string, date: string, school: JsVal, rs: seq<Entry>): JsVal
  {
    Obj(map["sessionId" := sid, "classId" := ParseInt(classId), "date" := Str(date), "schoolId" := school,
            "records" := Obj(RecordsObject(rs))])
  }

  /** The record saveAttendanceRecord stores for one mark. */
  function StoredRecord(sid: JsVal, e: Entry, school: JsVal, now: string, freshId: string): Record
  {
    SavedRecord(RecordData(sid, e, school, now), freshId, CurrentSchool(school), now)
  }

  lemma StoredRecordKey(sid: JsVal, e: Entry, school: JsVal, now: string, freshId: string)
    ensures Key(StoredRecord(sid, e, school, now, freshId)) == Str(ToStr(sid) + "_" + e.key)
  {
    SavedRecordKeeps(RecordData(sid, e, school, now), freshId, CurrentSchool(school), now, "id");
  }

  /** A saved record is unsynced, with the student id parsed from the key and remarks '' when empty. */
  lemma StoredRecordFields(sid: JsVal, e: Entry, school: JsVal, now: string, freshId: string)
    ensures Prop(StoredRecord(sid, e, school, now, freshId), "synced") == Bool(false)
    ensures Prop(StoredRecord(sid, e, school, now, freshId), "studentId") == ParseInt(e.key)
    ensures Prop(StoredRecord(sid, e, school, now, freshId), "status") == Str(e.mark.status)
    ensures Prop(StoredRecord(sid, e, school, now, freshId), "remarks") == Str(e.mark.remarks)
  {
    var rd := RecordData(sid, e, school, now);
    var r := StoredRecord(sid, e, school, now, freshId);
    assert Prop(r, "synced") == Bool(false) by {
      SavedRecordKeeps(rd, freshId, CurrentSchool(school), now, "synced");
    }
    assert Prop(r, "studentId") == ParseInt(e.key) by {
      SavedRecordKeeps(rd, freshId, CurrentSchool(school), now, "studentId");
    }
    assert Prop(r, "status") == Str(e.mark.status) by {
      SavedRecordKeeps(rd, freshId, CurrentSchool(school), now, "status");
    }
    assert Prop(r, "remarks") == Str(e.mark.remarks) by {
      SavedRecordKeeps(rd, freshId, CurrentSchool(school), now, "remarks");
    }
  }

  /** A saved record names its session and the time it was marked. */
  lemma StoredRecordOrigin(sid: JsVal, e: Entry, school: JsVal, now: string, freshId: string)
    ensures Prop(StoredRecord(sid, e, school, now, freshId), "sessionId") == sid
    ensures Prop(StoredRecord(sid, e, school, now, freshId), "markedAt") == Str(now)
  {
    var rd := RecordData(sid, e, school, now);
    var r := StoredRecord(sid, e, school, now, freshId);
    assert Prop(r, "sessionId") == sid by {
      SavedRecordKeeps(rd, freshId, CurrentSchool(school), now, "sessionId");
    }
    assert Prop(r, "markedAt") == Str(now) by {
      SavedRecordKeeps(rd, freshId, CurrentSchool(school), now, "markedAt");
    }
  }

  /** The attendanceRecords store after the for loop of saveAttendance. */
  function SavedAll(st: Store, sid: JsVal, rs: seq<Entry>, school: JsVal, now: string, freshId: string): Store
    decreases |rs|
  {
    if rs == [] then st
    else
      var prev := SavedAll(st, sid, rs[..|rs| - 1], school, now, freshId);
      match Put(prev, StoredRecord(sid, rs[|rs| - 1], school, now, freshId))
      case Ok(next) => next
      case Err(_) => prev
  }

  /** The record id is a string, so every put of the loop succeeds. */
  lemma StoredRecordPuts(st: Store, sid: JsVal, e: Entry, school: JsVal, now: string, freshId: string)
    ensures Put(st, StoredRecord(sid, e, school, now, freshId)).Ok?
  {
    StoredRecordKey(sid, e, school, now, freshId);
  }

  lemma IdSuffix(p: string, a: string, b: string)
    requires p + "_" + a == p + "_" + b
    ensures a == b
  {
    assert a == (p + "_" + a)[|p| + 1..];
    assert b == (p + "_" + b)[|p| + 1..];
  }

  /** One more mark puts one more record. */
  lemma SavedAllLast(st: Store, sid: JsVal, rs: seq<Entry>, school: JsVal, now: string, freshId: string)
    requires rs != []
    ensures Put(SavedAll(st, sid, rs[..|rs| - 1], school, now, freshId), StoredRecord(sid, rs[|rs| - 1], school, now, freshId)).Ok?
    ensures SavedAll(st, sid, rs, school, now, freshId) ==
      Put(SavedAll(st, sid, rs[..|rs| - 1], school, now, freshId), StoredRecord(sid, rs[|rs| - 1], school, now, freshId)).value
  {
    StoredRecordPuts(SavedAll(st, sid, rs[..|rs| - 1], school, now, freshId), sid, rs[|rs| - 1], school, now, freshId);
  }

  /** The loop's j-th put takes the store saved for the first j marks to the one for the first j + 1. */
  lemma SavedAllStep(st: Store, sid: JsVal, rs: seq<Entry>, j: nat, school: JsVal, now: string, freshId: string)
    requires j < |rs|
    ensures Put(SavedAll(st, sid, rs[..j], school, now, freshId), StoredRecord(sid, rs[j], school, now, freshId)) ==
      Ok(SavedAll(st, sid, rs[..j + 1], school, now, freshId))
  {
    assert rs[..j + 1][..j] == rs[..j];
    SavedAllLast(st, sid, rs[..j + 1], school, now, freshId);
  }

  /** A put under id p_b leaves the record under p_a alone when a and b differ. */
  lemma PutUnderId(prev: Store, next: Store, r: Record, p: string, a: string, b: string, v: Record)
    requires Sorted(prev) && Put(prev, r) == Ok(next) && Key(r) == Str(p + "_" + b)
    requires a != b ==> Get(prev, Str(p + "_" + a)) == Some(v)
    requires a == b ==> v == r
    ensures Get(next, Str(p + "_" + a)) == Some(v)
  {
    PutFacts(prev, r, Str(p + "_" + a));
    if a != b && Str(p + "_" + a) == Key(r) {
      IdSuffix(p, a, b);
    }
  }

  /** After the loop, each mark's record can be read back under its id, and the store stays sorted. */
  lemma {:induction false} SavedAllFacts(st: Store, sid: JsVal, rs: seq<Entry>, school: JsVal, now: string, freshId: string)
    requires Sorted(st) && DistinctKeys(rs)
    ensures Sorted(SavedAll(st, sid, rs, school, now, freshId))
    ensures forall i :: 0 <= i < |rs| ==>
      Get(SavedAll(st, sid, rs, school, now, freshId), Str(ToStr(sid) + "_" + rs[i].key)) == Some(StoredRecord(sid, rs[i], school, now, freshId))
    decreases |rs|
  {
    if rs != [] {
      var init := rs[..|rs| - 1];
      assert DistinctKeys(init) by {
        assert forall i :: 0 <= i < |init| ==> init[i] == rs[i];
      }
      SavedAllFacts(st, sid, init, school, now, freshId);
      var prev := SavedAll(st, sid, init, school, now, freshId);
      var next := SavedAll(st, sid, rs, school, now, freshId);
      var r := StoredRecord(sid, rs[|rs| - 1], school, now, freshId);
      SavedAllLast(st, sid, rs, school, now, freshId);
      StoredRecordKey(sid, rs[|rs| - 1], school, now, freshId);
      assert Put(prev, r) == Ok(next);
      forall i | 0 <= i < |rs|
        ensures Get(next, Str(ToStr(sid) + "_" + rs[i].key)) == Some(StoredRecord(sid, rs[i], school, now, freshId))
      {
        if i < |rs| - 1 {
          assert init[i] == rs[i];
        }
        PutUnderId(prev, next, r, ToStr(sid), rs[i].key, rs[|rs| - 1].key, StoredRecord(sid, rs[i], school, now, freshId));
      }
      PutFacts(prev, r, Null);
    }
  }

  /** The saved session counts the marks, carries the class id as a number and is open and unsynced. */
  lemma SessionFields(sid: JsVal, classId: string, date: string, school: JsVal, count: nat, freshId: string, now: string)
    ensures var r := SavedSession(SessionData(sid, classId, date, school, count), freshId, CurrentSchool(school), now);
      Prop(r, "recordCount") == Num(count) && Prop(r, "classId") == ParseInt(classId) && Prop(r, "date") == Str(date) &&
      Prop(r, "status") == Str("open") && Prop(r, "synced") == Bool(false) && Key(r) == sid
  {
    var sd := SessionData(sid, classId, date, school, count);
    var current := CurrentSchool(school);
    SessionDataFields(sid, classId, date, school, count);
    SavedSessionKeeps(sd, freshId, current, now, "recordCount");
    SavedSessionKeeps(sd, freshId, current, now, "classId");
    SavedSessionKeeps(sd, freshId, current, now, "date");
    SavedSessionKeeps(sd, freshId, current, now, "status");
    SavedSessionKeeps(sd, freshId, current, now, "synced");
    SavedSessionKeeps(sd, freshId, current, now, "id");
  }

  lemma SessionDataFields(sid: JsVal, classId: string, date: string, school: JsVal, count: nat)
    ensures var sd := SessionData(sid, classId, date, school, count);
      "recordCount" in sd && sd["recordCount"] == Num(count) && "classId" in sd && sd["classId"] == ParseInt(classId) &&
      "date" in sd && sd["date"] == Str(date) && "status" in sd && sd["status"] == Str("open") &&
      "synced" in sd && sd["synced"] == Bool(false) && "id" in sd && sd["id"] == sid
  {
  }

  // ---------------------------------------------------------------------------
  // Finding the saved session again

  /** loadSession's sessions.find(s => s.classId === classId && s.date === date), with classId the select's string value. */
  function FindSessionAsWritten(sessions: seq<Record>, classId: string, date: string): Option<Record>
    decreases |sessions|
  {
    if sessions == [] then None
    else if StrictEq(Prop(sessions[0], "classId"), Str(classId)) && StrictEq(Prop(sessions[0], "date"), Str(date)) then Some(sessions[0])
    else FindSessionAsWritten(sessions[1..], classId, date)
  }

  /** A session saveAttendance stored holds the class id as parseInt gives it, so the lookup by the string never finds it. */
  lemma SavedSessionNeverFound(sid: JsVal, classId: string, date: string, school: JsVal, count: nat, freshId: string, now: string)
    ensures FindSessionAsWritten([SavedSession(SessionData(sid, classId, date, school, count), freshId, CurrentSchool(school), now)], classId, date) == None
  {
    SessionFields(sid, classId, date, school, count, freshId, now);
  }

  /** The lookup with the class id parsed the way saveAttendance stores it. */
  function FindSession(sessions: seq<Record>, classId: string, date: string): (r: Option<Record>)
    ensures r.Some? ==> r.value in sessions && StrictEq(Prop(r.value, "classId"), ParseInt(classId)) && StrictEq(Prop(r.value, "date"), Str(date))
    ensures r.None? ==> forall s :: s in sessions ==> !(StrictEq(Prop(s, "classId"), ParseInt(classId)) && StrictEq(Prop(s, "date"), Str(date)))
    decreases |sessions|
  {
    if sessions == [] then None
    else if StrictEq(Prop(sessions[0], "classId"), ParseInt(classId)) && StrictEq(Prop(sessions[0], "date"), Str(date)) then Some(sessions[0])
    else FindSession(sessions[1..], classId, date)
  }

  /** With the select's value String(id), the corrected lookup finds the session saved for that class and date. */
  lemma SavedSessionFound(sid: JsVal, classNo: int, date: string, school: JsVal, count: nat, freshId: string, now: string)
    ensures var classId := ToStr(Num(classNo));
      var saved := SavedSession(SessionData(sid, classId, date, school, count), freshId, CurrentSchool(school), now);
      FindSession([saved], classId, date) == Some(saved)
  {
    SessionFields(sid, ToStr(Num(classNo)), date, school, count, freshId, now);
    ParseIntOfRendered(classNo);
  }

  // ---------------------------------------------------------------------------
  // CSV

  const CsvHeader := "Admission No.,Name,Status,Remarks\n"

  /** statusMap[record.status] as the template renders it. */
  function StatusName(status: string): string
  {
    if status == "P" then "Present"
    else if status == "A" then "Absent"
    else if status == "L" then "Late"
    else if status == "E" then "Excused"
    else "undefined"
  }

  /** The student's mark, present with no remarks when unmarked. */
  function MarkOf(rs: seq<Entry>, s: Student): Mark
  {
    match Lookup(rs, ToStr(s.id)) case Some(m) => m case None => Mark("P", "")
  }

  /** One line of the export: admission number, quoted name, status name and quoted remarks. */
  function CsvRow(s: Student, rs: seq<Entry>): string
  {
    var m := MarkOf(rs, s);
    ToStr(s.admission) + ",\"" + ToStr(s.name) + "\"," + StatusName(m.status) + ",\"" + m.remarks + "\"\n"
  }

  function CsvRows(students: seq<Student>, rs: seq<Entry>): string
    decreases |students|
  {
    if students == [] then "" else CsvRows(students[..|students| - 1], rs) + CsvRow(students[|students| - 1], rs)
  }

  lemma CsvRowsStep(students: seq<Student>, j: nat, rs: seq<Entry>)
    requires j < |students|
    ensures CsvRows(students[..j + 1], rs) == CsvRows(students[..j], rs) + CsvRow(students[j], rs)
  {
    assert students[..j + 1][..j] == students[..j];
  }

  function Newlines(s: string): nat
    decreases |s|
  {
    if s == [] then 0 else Newlines(s[..|s| - 1]) + if s[|s| - 1] == '\n' then 1 else 0
  }

  lemma {:induction false} NewlinesConcat(a: string, b: string)
    ensures Newlines(a + b) == Newlines(a) + Newlines(b)
    decreases |b|
  {
    if b == [] {
      assert a + b == a;
    } else {
      assert (a + b)[..|a + b| - 1] == a + b[..|b| - 1];
      NewlinesConcat(a, b[..|b| - 1]);
    }
  }

  lemma {:induction false} NoNewlines(s: string)
    requires forall i :: 0 <= i < |s| ==> s[i] != '\n'
    ensures Newlines(s) == 0
    decreases |s|
  {
    if s != [] {
      NoNewlines(s[..|s| - 1]);
    }
  }

  /** A student's line is one line when its fields hold no line break. */
  predicate OneLineFields(s: Student, rs: seq<Entry>)
  {
    (forall i :: 0 <= i < |ToStr(s.admission)| ==> ToStr(s.admission)[i] != '\n') &&
    (forall i :: 0 <= i < |ToStr(s.name)| ==> ToStr(s.name)[i] != '\n') &&
    (Lookup(rs, ToStr(s.id)).Some? ==> forall i :: 0 <= i < |Lookup(rs, ToStr(s.id)).value.remarks| ==> Lookup(rs, ToStr(s.id)).value.remarks[i] != '\n')
  }

  lemma RowNewlines(s: Student, rs: seq<Entry>)
    requires OneLineFields(s, rs)
    ensures Newlines(CsvRow(s, rs)) == 1
  {
    var m := match Lookup(rs, ToStr(s.id)) case Some(m) => m case None => Mark("P", "");
    var a := ToStr(s.admission);
    var n := ToStr(s.name);
    var st := StatusName(m.status);
    NoNewlines(a);
    NoNewlines(n);
    NoNewlines(st);
    NoNewlines(m.remarks);
    NoNewlines(",\"");
    NoNewlines("\",");
    NoNewlines(",\"");
    NewlinesConcat(a, ",\"");
    NewlinesConcat(a + ",\"", n);
    NewlinesConcat(a + ",\"" + n, "\",");
    NewlinesConcat(a + ",\"" + n + "\",", st);
    NewlinesConcat(a + ",\"" + n + "\"," + st, ",\"");
    NewlinesConcat(a + ",\"" + n + "\"," + st + ",\"", m.remarks);
    NewlinesConcat(a + ",\"" + n + "\"," + st + ",\"" + m.remarks, "\"\n");
    assert Newlines("\"\n") == 1;
  }

  lemma HeaderNewlines()
    ensures Newlines(CsvHeader) == 1
  {
    var text := "Admission No.,Name,Status,Remarks";
    NoNewlines(text);
    NewlinesConcat(text, "\n");
    assert CsvHeader == text + "\n";
  }

  lemma {:induction false} RowsNewlines(students: seq<Student>, rs: seq<Entry>)
    requires forall i :: 0 <= i < |students| ==> OneLineFields(students[i], rs)
    ensures Newlines(CsvRows(students, rs)) == |students|
    decreases |students|
  {
    if students != [] {
      var init := students[..|students| - 1];
      var row := CsvRow(students[|students| - 1], rs);
      assert forall i :: 0 <= i < |init| ==> init[i] == students[i];
      RowsNewlines(init, rs);
      RowNewlines(students[|students| - 1], rs);
      NewlinesConcat(CsvRows(init, rs), row);
    }
  }

  /** The export is the header line and one line per loaded student. */
  lemma CsvLineCount(students: seq<Student>, rs: seq<Entry>)
    requires forall i :: 0 <= i < |students| ==> OneLineFields(students[i], rs)
    ensures Newlines(CsvHeader + CsvRows(students, rs)) == |students| + 1
  {
    HeaderNewlines();
    RowsNewlines(students, rs);
    NewlinesConcat(CsvHeader, CsvRows(students, rs));
  }

  /** A student with no mark is exported as Present with empty remarks. */
  lemma UnmarkedExportsPresent(s: Student, rs: seq<Entry>)
    requires Lookup(rs, ToStr(s.id)).None?
    ensures CsvRow(s, rs) == ToStr(s.admission) + ",\"" + ToStr(s.name) + "\",Present,\"\"\n"
  {
  }

  // ---------------------------------------------------------------------------
  // The controller

  class AttendanceController {
    var records: seq<Entry>
    var currentSession: JsVal
    var students: seq<Student>
    /** The global IndexedDB manager and sync manager. */
    const db: IndexedDb
    const sync: SyncJs.SyncManager

    predicate Valid()
      reads this
    {
      DistinctKeys(records)
    }

    constructor (db: IndexedDb, sync: SyncJs.SyncManager)
      ensures Valid()
      ensures records == [] && currentSession == Null && students == [] && this.db == db && this.sync == sync
    {
      records := [];
      currentSession := Null;
      students := [];
      this.db := db;
      this.sync := sync;
    }

    /** updateCounts(): tally the marks by status. */
    method UpdateCounts() returns (shown: Display)
      ensures shown == Shown(records, students)
    {
      var p, a, l, e := 0, 0, 0, 0;
      var j := 0;
      while j < |records|
        invariant 0 <= j <= |records|
        invariant p == Count(records[..j], "P") && a == Count(records[..j], "A")
        invariant l == Count(records[..j], "L") && e == Count(records[..j], "E")
      {
        assert records[..j + 1][..j] == records[..j];
        var status := records[j].mark.status;
        if status == "P" {
          p := p + 1;
        } else if status == "A" {
          a := a + 1;
        } else if status == "L" {
          l := l + 1;
        } else if status == "E" {
          e := e + 1;
        }
        j := j + 1;
      }
      assert records[..j] == records;
      shown := Display(p, a, l, |students|);
    }

    /** markAttendance(studentId, status): set the mark, keeping the remarks, and refresh the tallies. */
    method MarkAttendance(studentId: JsVal, status: string) returns (shown: Display)
      requires Valid()
      modifies this
      ensures Valid()
      ensures records == Marked(old(records), ToStr(studentId), status)
      ensures currentSession == old(currentSession) && students == old(students)
      ensures shown == Shown(records, students)
    {
      var key := ToStr(studentId);
      var remarks := match Lookup(records, key) case Some(m) => m.remarks case None => "";
      MarkedFacts(records, key, status, key);
      records := SetMark(records, key, Mark(status, ToStr(Or(Str(remarks), Str("")))));
      shown := UpdateCounts();
    }

    /** markAllPresent(): every loaded student marked P. */
    method MarkAllPresent() returns (msg: Message)
      requires Valid()
      modifies this
      ensures Valid()
      ensures records == AllPresent(old(records), students)
      ensures currentSession == old(currentSession) && students == old(students)
      ensures msg == Message("All marked as present", "success")
    {
      var j := 0;
      while j < |students|
        invariant 0 <= j <= |students|
        invariant Valid() && students == old(students) && currentSession == old(currentSession)
        invariant records == AllPresent(old(records), students[..j])
      {
        assert students[..j + 1][..j] == students[..j];
        var _ := MarkAttendance(students[j].id, "P");
        j := j + 1;
      }
      assert students[..j] == students;
      msg := Message("All marked as present", "success");
    }

    /** resetForm(): no marks and no current session. */
    method ResetForm() returns (shown: Display)
      modifies this
      ensures Valid()
      ensures records == [] && currentSession == Null && students == old(students)
      ensures shown == Display(0, 0, 0, |students|)
    {
      records := [];
      currentSession := Null;
      shown := UpdateCounts();
    }

    /** The for loop of saveAttendance: one saveAttendanceRecord per mark, in order. */
    method SaveRecords(sid: JsVal, school: JsVal, now: string, freshId: string)
      requires db.Valid()
      modifies db
      ensures db.Valid()
      ensures db.stores == old(db.stores)["attendanceRecords" := SavedAll(old(db.stores)["attendanceRecords"], sid, records, school, now, freshId)]
    {
      ghost var m0 := db.stores;
      var j := 0;
      while j < |records|
        invariant 0 <= j <= |records|
        invariant db.Valid()
        invariant db.stores == m0["attendanceRecords" := SavedAll(m0["attendanceRecords"], sid, records[..j], school, now, freshId)]
      {
        SaveNth(sid, school, now, freshId, j, m0);
        j := j + 1;
      }
      assert records[..j] == records;
    }

    /** The loop's j-th pass: the store grows by the j-th mark's record. */
    method SaveNth(sid: JsVal, school: JsVal, now: string, freshId: string, j: nat, ghost m0: map<string, Store>)
      requires db.Valid() && j < |records| && "attendanceRecords" in m0
      requires db.stores == m0["attendanceRecords" := SavedAll(m0["attendanceRecords"], sid, records[..j], school, now, freshId)]
      modifies db
      ensures db.Valid()
      ensures db.stores == m0["attendanceRecords" := SavedAll(m0["attendanceRecords"], sid, records[..j + 1], school, now, freshId)]
    {
      ghost var before := db.stores;
      ghost var prev := SavedAll(m0["attendanceRecords"], sid, records[..j], school, now, freshId);
      ghost var next := SavedAll(m0["attendanceRecords"], sid, records[..j + 1], school, now, freshId);
      SavedAllStep(m0["attendanceRecords"], sid, records, j, school, now, freshId);
      SaveEntry(sid, records[j], school, now, freshId);
      UpdateTwice(m0, before, "attendanceRecords", prev, next);
    }

    /** One saveAttendanceRecord call of that loop. */
    method SaveEntry(sid: JsVal, e: Entry, school: JsVal, now: string, freshId: string)
      requires db.Valid()
      modifies db
      ensures db.Valid()
      ensures match Put(old(db.stores)["attendanceRecords"], StoredRecord(sid, e, school, now, freshId))
        case Err(_) => db.stores == old(db.stores)
        case Ok(st) => db.stores == old(db.stores)["attendanceRecords" := st]
    {
      var _ := db.SaveAttendanceRecord(RecordData(sid, e, school, now), freshId, CurrentSchool(school), now);
    }

    /**
     * saveAttendance(): with a class, a date and a school, put one record per
     * mark, then the session, then queue the batch for sync. The syncPending
     * that follows when online is SyncJs.SyncManager.SyncPending.
     */
    method SaveAttendance(classId: string, date: string, school: JsVal, stamp: string, now: string, freshId: string, queueId: string, online: bool)
      returns (msg: Message)
      requires Valid() && db.Valid() && sync.db == db
      modifies db, sync
      ensures db.Valid()
      ensures classId == "" || date == "" ==>
        msg == Message("Please select class and date", "warning") && db.stores == old(db.stores) && sync.queue == old(sync.queue)
      ensures classId != "" && date != "" && !Truthy(school) ==>
        msg == Message("No school context. Please re-login.", "error") && db.stores == old(db.stores) && sync.queue == old(sync.queue)
      ensures classId != "" && date != "" && Truthy(school) ==>
        var current := CurrentSchool(school);
        var sid := SessionIdFor(currentSession, classId, date, stamp);
        var saved := old(db.stores)["attendanceRecords" := SavedAll(old(db.stores)["attendanceRecords"], sid, records, school, now, freshId)];
        match Put(old(db.stores)["attendanceSessions"], SavedSession(SessionData(sid, classId, date, school, |records|), freshId, current, now))
        case Err(_) =>
          msg == Message("Error saving attendance", "error") && db.stores == saved && sync.queue == old(sync.queue)
        case Ok(sessions) =>
          var item := SyncJs.NewItem(queueId, "attendance_batch", BatchData(sid, classId, date, school, records), school, now);
          var withSession := saved["attendanceSessions" := sessions];
          msg == Message("Attendance saved" + (if online then " and synced" else " (will sync when online)"), "success") &&
          sync.queue == old(sync.queue) + [item] &&
          match Add(withSession["syncQueue"], Added(SyncJs.ItemRecord(item), queueId, current, now))
          case Ok(q) => db.stores == withSession["syncQueue" := q]
          case Err(_) => db.stores == withSession
    {
      if classId == "" || date == "" {
        return Message("Please select class and date", "warning");
      }
      if !Truthy(school) {
        return Message("No school context. Please re-login.", "error");
      }
      var current := CurrentSchool(school);
      var sid := SessionIdFor(currentSession, classId, date, stamp);
      SaveRecords(sid, school, now, freshId);
      assert sync.queue == old(sync.queue);
      assert db.stores["attendanceSessions"] == old(db.stores)["attendanceSessions"];
      msg := SaveSessionAndQueue(SessionData(sid, classId, date, school, |records|), BatchData(sid, classId, date, school, records),
                                 school, now, freshId, queueId, online);
    }

    /** The rest of saveAttendance once the records are stored: the session object, then the queued batch. */
    method SaveSessionAndQueue(sd: Record, batch: JsVal, school: JsVal, now: string, freshId: string, queueId: string, online: bool)
      returns (msg: Message)
      requires db.Valid() && sync.db == db
      modifies db, sync
      ensures db.Valid()
      ensures match Put(old(db.stores)["attendanceSessions"], SavedSession(sd, freshId, CurrentSchool(school), now))
        case Err(_) =>
          msg == Message("Error saving attendance", "error") && db.stores == old(db.stores) && sync.queue == old(sync.queue)
        case Ok(sessions) =>
          var item := SyncJs.NewItem(queueId, "attendance_batch", batch, school, now);
          var withSession := old(db.stores)["attendanceSessions" := sessions];
          msg == Message("Attendance saved" + (if online then " and synced" else " (will sync when online)"), "success") &&
          sync.queue == old(sync.queue) + [item] &&
          match Add(withSession["syncQueue"], Added(SyncJs.ItemRecord(item), queueId, CurrentSchool(school), now))
          case Ok(q) => db.stores == withSession["syncQueue" := q]
          case Err(_) => db.stores == withSession
    {
      var r := db.SaveSession(sd, freshId, CurrentSchool(school), now);
      if r.Err? {
        return Message("Error saving attendance", "error");
      }
      sync.QueueChange("attendance_batch", batch, queueId, school, now);
      msg := Message("Attendance saved" + (if online then " and synced" else " (will sync when online)"), "success");
    }

    /** exportAsCSV(): with a class and a date, the header and one line per loaded student. */
    method ExportAsCsv(classId: string, date: string) returns (r: Result<CsvFile, Message>)
      ensures classId == "" || date == "" ==> r == Err(Message("Please select class and date", "warning"))
      ensures classId != "" && date != "" ==>
        r == Ok(CsvFile("attendance_" + classId + "_" + date + ".csv", CsvHeader + CsvRows(students, records)))
    {
      if classId == "" || date == "" {
        return Err(Message("Please select class and date", "warning"));
      }
      var ss, rs := students, records;
      var body := "";
      var j := 0;
      while j < |ss|
        invariant 0 <= j <= |ss|
        invariant body == CsvRows(ss[..j], rs)
      {
        CsvRowsStep(ss, j, rs);
        var s := ss[j];
        var m := MarkOf(rs, s);
        var line := ToStr(s.admission) + ",\"" + ToStr(s.name) + "\"," + StatusName(m.status) + ",\"" + m.remarks + "\"\n";
        assert line == CsvRow(s, rs);
        body := body + line;
        j := j + 1;
      }
      assert ss[..j] == ss;
      r := Ok(CsvFile("attendance_" + classId + "_" + date + ".csv", CsvHeader + body));
    }
  }
}
