// The offline store of frontend/scripts/db.js: IndexedDBManager over object
// stores keyed by `id`. A store is the sequence of its records in key order,
// which is the order IndexedDB's getAll returns them in: numbers before
// strings, numbers by value, strings by code unit. The clock, the generated
// ids and the school the auth manager reports arrive as parameters.

module DbJs {
  import opened Common
  import opened JsValue

  type Record = map<string, JsVal>

  type Store = seq<Record>

  /** The record's primary key (keyPath 'id'). */
  function Key(r: Record): JsVal
  {
    Prop(r, "id")
  }

  /** The keys stores and indexes accept here: numbers and strings. */
  predicate ValidKey(k: JsVal)
  {
    k.Num? || k.Str?
  }

  /** IndexedDB's key order on valid keys. */
  predicate KeyLess(a: JsVal, b: JsVal)
  {
    (a.Num? && b.Str?) || (a.Num? && b.Num? && a.n < b.n) || (a.Str? && b.Str? && StrLess(a.s, b.s))
  }

  lemma KeyOrder(a: JsVal, b: JsVal)
    requires ValidKey(a) && ValidKey(b)
    ensures a == b || KeyLess(a, b) || KeyLess(b, a)
    ensures !(KeyLess(a, b) && KeyLess(b, a))
  {
    if a.Str? && b.Str? {
      StrLessTrichotomy(a.s, b.s);
    }
  }

  lemma KeyLessTrans(a: JsVal, b: JsVal, c: JsVal)
    requires KeyLess(a, b) && KeyLess(b, c)
    ensures KeyLess(a, c)
  {
    if a.Str? {
      StrLessTrans(a.s, b.s, c.s);
    }
  }

  /** Every key valid and the records in strictly increasing key order, so no key twice. */
  predicate Sorted(st: Store)
  {
    (forall i :: 0 <= i < |st| ==> ValidKey(Key(st[i]))) &&
    (forall i, j :: 0 <= i < j < |st| ==> KeyLess(Key(st[i]), Key(st[j])))
  }

  lemma SortedDistinct(st: Store, i: nat, j: nat)
    requires Sorted(st) && i < |st| && j < |st| && i != j
    ensures Key(st[i]) != Key(st[j])
  {
    if i < j {
      KeyOrder(Key(st[i]), Key(st[j]));
    } else {
      KeyOrder(Key(st[j]), Key(st[i]));
    }
  }

  /** The position of the record with key `k`. */
  function Find(st: Store, k: JsVal): (r: Option<nat>)
    ensures r.Some? ==> r.value < |st| && Key(st[r.value]) == k
    ensures r.None? ==> forall i :: 0 <= i < |st| ==> Key(st[i]) != k
    decreases |st|
  {
    if st == [] then None
    else if Key(st[0]) == k then Some(0)
    else match Find(st[1..], k)
      case None => None
      case Some(i) => Some(i + 1)
  }

  /** store.get(key) */
  function Get(st: Store, k: JsVal): Option<Record>
  {
    match Find(st, k)
    case None => None
    case Some(i) => Some(st[i])
  }

  /** The record placed in key order among the others. */
  function Insert(st: Store, r: Record): (res: Store)
    ensures |res| == |st| + 1
    ensures forall x :: x in res <==> x in st || x == r
    decreases |st|
  {
    if st == [] then [r]
    else if KeyLess(Key(r), Key(st[0])) then [r] + st
    else [st[0]] + Insert(st[1..], r)
  }

  lemma {:induction false} InsertSorted(st: Store, r: Record)
    requires Sorted(st) && ValidKey(Key(r)) && Find(st, Key(r)).None?
    ensures Sorted(Insert(st, r))
    decreases |st|
  {
    if st != [] {
      KeyOrder(Key(r), Key(st[0]));
      if KeyLess(Key(r), Key(st[0])) {
        var res := [r] + st;
        forall i, j | 0 <= i < j < |res| ensures KeyLess(Key(res[i]), Key(res[j])) {
          if i == 0 && j > 1 {
            KeyLessTrans(Key(r), Key(st[0]), Key(st[j - 1]));
          }
        }
      } else {
        var rest := st[1..];
        assert Sorted(rest) by {
          forall i, j | 0 <= i < j < |rest| ensures KeyLess(Key(rest[i]), Key(rest[j])) {
            assert rest[i] == st[i + 1] && rest[j] == st[j + 1];
          }
        }
        assert Find(rest, Key(r)).None?;
        InsertSorted(rest, r);
        var ins := Insert(rest, r);
        var res := [st[0]] + ins;
        forall i, j | 0 <= i < j < |res| ensures KeyLess(Key(res[i]), Key(res[j])) {
          if i == 0 {
            assert res[j] in ins;
            if res[j] != r {
              var k :| 0 <= k < |rest| && rest[k] == res[j];
              assert st[k + 1] == res[j];
            }
          } else {
            assert res[i] == ins[i - 1] && res[j] == ins[j - 1];
          }
        }
        forall i | 0 <= i < |res| ensures ValidKey(Key(res[i])) {
          if i > 0 {
            assert res[i] in ins;
          }
        }
      }
    }
  }

  /** store.add(record): an invalid key or one already present is refused. */
  function Add(st: Store, r: Record): Result<Store, string>
  {
    if !ValidKey(Key(r)) then Err("DataError")
    else if Find(st, Key(r)).Some? then Err("ConstraintError")
    else Ok(Insert(st, r))
  }

  /** store.put(record): replaces the record with the same key, or inserts it. */
  function Put(st: Store, r: Record): Result<Store, string>
  {
    if !ValidKey(Key(r)) then Err("DataError")
    else match Find(st, Key(r))
      case Some(i) => Ok(st[i := r])
      case None => Ok(Insert(st, r))
  }

  /** store.delete(key): removing a key that is not there is not an error. */
  function Delete(st: Store, k: JsVal): Store
  {
    match Find(st, k)
    case None => st
    case Some(i) => st[..i] + st[i + 1..]
  }

  /** put keeps the store sorted, afterwards get of the key finds the new record, and no other key changes. */
  lemma PutFacts(st: Store, r: Record, k: JsVal)
    requires Sorted(st) && Put(st, r).Ok?
    ensures Sorted(Put(st, r).value)
    ensures Get(Put(st, r).value, Key(r)) == Some(r)
    ensures k != Key(r) ==> Get(Put(st, r).value, k) == Get(st, k)
  {
    match Find(st, Key(r))
    case Some(i) => ReplaceFacts(st, r, i, k);
    case None => InsertFacts(st, r, k);
  }

  /** put over an existing record: the store stays sorted and only that key's record changes. */
  lemma ReplaceFacts(st: Store, r: Record, i: nat, k: JsVal)
    requires Sorted(st) && Find(st, Key(r)) == Some(i)
    ensures i < |st| && Sorted(st[i := r])
    ensures Get(st[i := r], Key(r)) == Some(r)
    ensures k != Key(r) ==> Get(st[i := r], k) == Get(st, k)
  {
    var res := st[i := r];
    ReplaceSorted(st, i, r);
    SortedFind(res, i);
    if k != Key(r) {
      FindAfterReplace(st, i, r, k);
    }
  }

  /** Replacing a record by one with the same key keeps the store sorted. */
  lemma ReplaceSorted(st: Store, i: nat, r: Record)
    requires Sorted(st) && i < |st| && Key(r) == Key(st[i])
    ensures Sorted(st[i := r])
  {
    var res := st[i := r];
    forall a, b | 0 <= a < b < |res| ensures KeyLess(Key(res[a]), Key(res[b])) {
      assert Key(res[a]) == Key(st[a]) && Key(res[b]) == Key(st[b]);
    }
  }

  /** put of a new key: the store stays sorted and holds the record, and other keys find what they found before. */
  lemma InsertFacts(st: Store, r: Record, k: JsVal)
    requires Sorted(st) && ValidKey(Key(r)) && Find(st, Key(r)).None?
    ensures Sorted(Insert(st, r))
    ensures Get(Insert(st, r), Key(r)) == Some(r)
    ensures k != Key(r) ==> Get(Insert(st, r), k) == Get(st, k)
  {
    InsertSorted(st, r);
    InsertFindsNew(st, r);
    if k != Key(r) {
      InsertKeepsOthers(st, r, k);
    }
  }

  lemma InsertFindsNew(st: Store, r: Record)
    requires Sorted(Insert(st, r))
    ensures Get(Insert(st, r), Key(r)) == Some(r)
  {
    var res := Insert(st, r);
    assert r in res;
    var j :| 0 <= j < |res| && res[j] == r;
    SortedFind(res, j);
  }

  lemma InsertKeepsOthers(st: Store, r: Record, k: JsVal)
    requires Sorted(st) && Sorted(Insert(st, r)) && k != Key(r)
    ensures Get(Insert(st, r), k) == Get(st, k)
  {
    var res := Insert(st, r);
    match Find(st, k)
    case None =>
      forall a | 0 <= a < |res| ensures Key(res[a]) != k {
        assert res[a] in st || res[a] == r;
      }
    case Some(m) =>
      assert st[m] in res;
      var n :| 0 <= n < |res| && res[n] == st[m];
      SortedFind(res, n);
      SortedFind(st, m);
  }

  lemma SortedFind(st: Store, i: nat)
    requires Sorted(st) && i < |st|
    ensures Find(st, Key(st[i])) == Some(i)
  {
    var f := Find(st, Key(st[i]));
    if f != Some(i) {
      SortedDistinct(st, f.value, i);
    }
  }

  lemma FindAfterReplace(st: Store, i: nat, r: Record, k: JsVal)
    requires Sorted(st) && i < |st| && Key(r) == Key(st[i]) && k != Key(r)
    ensures Get(st[i := r], k) == Get(st, k)
  {
    var res := st[i := r];
    match Find(st, k)
    case None =>
      forall a | 0 <= a < |res| ensures Key(res[a]) != k {
        assert Key(res[a]) == Key(st[a]);
      }
    case Some(m) =>
      assert m != i;
      assert res[m] == st[m];
      var f := Find(res, k);
      if f != Some(m) {
        assert Key(res[f.value]) == Key(st[f.value]);
        SortedDistinct(st, f.value, m);
      }
  }

  /** delete keeps the store sorted, the key is gone and no other key changes. */
  lemma DeleteFacts(st: Store, k: JsVal, other: JsVal)
    requires Sorted(st)
    ensures Sorted(Delete(st, k))
    ensures Get(Delete(st, k), k).None?
    ensures other != k ==> Get(Delete(st, k), other) == Get(st, other)
    ensures forall x :: x in Delete(st, k) <==> x in st && Key(x) != k
  {
    match Find(st, k)
    case None =>
      AbsentKey(st, k);
    case Some(i) =>
      RemoveAtSorted(st, i);
      RemoveAtMembers(st, i);
      MissingKey(st[..i] + st[i + 1..], k);
      if other != k {
        RemoveAtGet(st, i, other);
      }
  }

  /** No record of the store has a key Find misses. */
  lemma AbsentKey(st: Store, k: JsVal)
    requires Find(st, k).None?
    ensures forall x :: x in st ==> Key(x) != k
  {
    forall x | x in st ensures Key(x) != k {
      var a :| 0 <= a < |st| && st[a] == x;
    }
  }

  /** A key no record has is one Find and get miss. */
  lemma MissingKey(st: Store, k: JsVal)
    requires forall x :: x in st ==> Key(x) != k
    ensures Find(st, k).None? && Get(st, k).None?
  {
  }

  lemma RemoveAtSorted(st: Store, i: nat)
    requires Sorted(st) && i < |st|
    ensures Sorted(st[..i] + st[i + 1..])
  {
    var res := st[..i] + st[i + 1..];
    assert forall a :: 0 <= a < |res| ==> res[a] == st[if a < i then a else a + 1];
  }

  lemma RemoveAtMembers(st: Store, i: nat)
    requires Sorted(st) && i < |st|
    ensures forall x :: x in st[..i] + st[i + 1..] <==> x in st && Key(x) != Key(st[i])
  {
    var res := st[..i] + st[i + 1..];
    assert forall a :: 0 <= a < |res| ==> res[a] == st[if a < i then a else a + 1];
    forall x | x in st && Key(x) != Key(st[i]) ensures x in res {
      var a :| 0 <= a < |st| && st[a] == x;
      assert x == res[if a < i then a else a - 1];
    }
    forall x | x in res ensures x in st && Key(x) != Key(st[i]) {
      var a :| 0 <= a < |res| && res[a] == x;
      SortedDistinct(st, i, if a < i then a else a + 1);
    }
  }

  lemma RemoveAtGet(st: Store, i: nat, other: JsVal)
    requires Sorted(st) && i < |st| && other != Key(st[i])
    ensures Get(st[..i] + st[i + 1..], other) == Get(st, other)
  {
    var res := st[..i] + st[i + 1..];
    RemoveAtSorted(st, i);
    assert forall a :: 0 <= a < |res| ==> res[a] == st[if a < i then a else a + 1];
    match Find(st, other)
    case None =>
    case Some(m) =>
      var n := if m < i then m else m - 1;
      assert res[n] == st[m];
      SortedFind(res, n);
  }

  /** Two records of a sorted store with the same key are the same record. */
  lemma SameKeySame(st: Store, x: Record, y: Record)
    requires Sorted(st) && x in st && y in st && Key(x) == Key(y)
    ensures x == y
  {
    var a :| 0 <= a < |st| && st[a] == x;
    var b :| 0 <= b < |st| && st[b] == y;
    if a != b {
      SortedDistinct(st, a, b);
    }
  }

  // ---------------------------------------------------------------------------
  // Tenant filtering and the record builders

  /** getCurrentSchoolId: the auth manager's school, or null when it has none. */
  function CurrentSchool(auth: JsVal): (r: JsVal)
    ensures Truthy(auth) ==> r == auth
    ensures !Truthy(auth) ==> r == Null
  {
    Or(auth, Null)
  }

  /** getAllFromStore's filter: a record without a school, or of the current one. */
  predicate TenantVisible(r: Record, current: JsVal)
  {
    !Truthy(Prop(r, "schoolId")) || StrictEq(Prop(r, "schoolId"), current)
  }

  /** getAllFromStore(storeName) */
  function TenantFilter(rs: seq<Record>, current: JsVal): (res: seq<Record>)
    ensures |res| <= |rs|
    ensures forall x :: x in res <==> x in rs && TenantVisible(x, current)
    decreases |rs|
  {
    if rs == [] then []
    else
      var rest := TenantFilter(rs[..|rs| - 1], current);
      assert rs == rs[..|rs| - 1] + [rs[|rs| - 1]];
      if TenantVisible(rs[|rs| - 1], current) then rest + [rs[|rs| - 1]] else rest
  }

  /** addToStore's record: id, schoolId and createdAt are filled in when falsy; every other field is the caller's. */
  function Added(data: Record, freshId: string, current: JsVal, now: string): (r: Record)
    ensures forall k :: k != "id" && k != "schoolId" && k != "createdAt" ==> (k in r <==> k in data) && Prop(r, k) == Prop(data, k)
    ensures Key(r) == Or(Prop(data, "id"), Str(freshId))
    ensures Prop(r, "schoolId") == Or(Prop(data, "schoolId"), current)
    ensures Prop(r, "createdAt") == Or(Prop(data, "createdAt"), Str(now))
  {
    data["id" := Or(Prop(data, "id"), Str(freshId))]["schoolId" := Or(Prop(data, "schoolId"), current)]["createdAt" := Or(Prop(data, "createdAt"), Str(now))]
  }

  /** updateInStore's record: a falsy schoolId becomes the current school and updatedAt is stamped. */
  function Updated(data: Record, current: JsVal, now: string): (r: Record)
    ensures forall k :: k != "schoolId" && k != "updatedAt" ==> (k in r <==> k in data) && Prop(r, k) == Prop(data, k)
    ensures Prop(r, "schoolId") == Or(Prop(data, "schoolId"), current)
    ensures Prop(r, "updatedAt") == Str(now)
  {
    data["schoolId" := Or(Prop(data, "schoolId"), current)]["updatedAt" := Str(now)]
  }

  /** saveSession's object: defaults first, the caller's fields spread over them, savedAt last. */
  function SessionObject(sd: Record, freshId: string, current: JsVal, now: string): Record
  {
    Spread(SessionDefaults(sd, freshId, current), sd, now)
  }

  /** The fields saveSession writes before spreading the caller's object. */
  function SessionDefaults(sd: Record, freshId: string, current: JsVal): Record
  {
    map[
      "id" := Or(Prop(sd, "id"), Str(freshId)),
      "classId" := Prop(sd, "classId"),
      "date" := Prop(sd, "date"),
      "subject" := Prop(sd, "subject"),
      "teacherId" := Prop(sd, "teacherId"),
      "status" := Or(Prop(sd, "status"), Str("open")),
      "synced" := Or(Prop(sd, "synced"), Bool(false)),
      "recordCount" := Or(Prop(sd, "recordCount"), Num(0)),
      "schoolId" := Or(Prop(sd, "schoolId"), current)]
  }

  /** `{...defaults, ...data, savedAt: now}` */
  function Spread(defaults: Record, data: Record, now: string): Record
  {
    (defaults + data)["savedAt" := Str(now)]
  }

  /** A spread object keeps the caller's fields, fills the others from the defaults, and stamps savedAt. */
  lemma SpreadFields(defaults: Record, data: Record, now: string)
    ensures var o := Spread(defaults, data, now);
      (forall k :: k in data && k != "savedAt" ==> k in o && o[k] == data[k]) &&
      (forall k :: k !in data && k in defaults && k != "savedAt" ==> Prop(o, k) == defaults[k]) &&
      Prop(o, "savedAt") == Str(now)
  {
  }

  /** saveAttendanceRecord's object, built the same way. */
  function RecordObject(rd: Record, freshId: string, current: JsVal, now: string): Record
  {
    Spread(RecordDefaults(rd, freshId, current), rd, now)
  }

  /** The fields saveAttendanceRecord writes before spreading the caller's object. */
  function RecordDefaults(rd: Record, freshId: string, current: JsVal): Record
  {
    map[
      "id" := Or(Prop(rd, "id"), Str(freshId)),
      "sessionId" := Prop(rd, "sessionId"),
      "studentId" := Prop(rd, "studentId"),
      "status" := Prop(rd, "status"),
      "remarks" := Or(Prop(rd, "remarks"), Str("")),
      "synced" := Or(Prop(rd, "synced"), Bool(false)),
      "schoolId" := Or(Prop(rd, "schoolId"), current)]
  }

  /** What saveSession hands to the store. */
  function SavedSession(sd: Record, freshId: string, current: JsVal, now: string): Record
  {
    Updated(SessionObject(sd, freshId, current, now), current, now)
  }

  function SavedRecord(rd: Record, freshId: string, current: JsVal, now: string): Record
  {
    Updated(RecordObject(rd, freshId, current, now), current, now)
  }

  /**
   * The caller's fields win over saveSession's defaults, except savedAt and
   * updatedAt, which are always stamped, and a falsy schoolId, which
   * updateInStore replaces. A default shows only where the caller has no
   * such field at all: a present but falsy status stays.
   */
  lemma SavedSessionFields(sd: Record, freshId: string, current: JsVal, now: string)
    ensures var r := SavedSession(sd, freshId, current, now);
      forall k :: k in sd && k != "savedAt" && k != "updatedAt" && k != "schoolId" ==> k in r && r[k] == sd[k]
    ensures Prop(SavedSession(sd, freshId, current, now), "savedAt") == Str(now)
    ensures Prop(SavedSession(sd, freshId, current, now), "updatedAt") == Str(now)
    ensures "status" !in sd ==> Prop(SavedSession(sd, freshId, current, now), "status") == Str("open")
    ensures "synced" !in sd ==> Prop(SavedSession(sd, freshId, current, now), "synced") == Bool(false)
    ensures "recordCount" !in sd ==> Prop(SavedSession(sd, freshId, current, now), "recordCount") == Num(0)
    ensures "id" !in sd ==> Prop(SavedSession(sd, freshId, current, now), "id") == Str(freshId)
    ensures Prop(SavedSession(sd, freshId, current, now), "schoolId") == Or(Prop(sd, "schoolId"), current)
  {
    var o := SessionObject(sd, freshId, current, now);
    SessionObjectFields(sd, freshId, current, now);
    assert Prop(o, "schoolId") == Prop(sd, "schoolId") || Prop(o, "schoolId") == Or(Prop(sd, "schoolId"), current);
  }

  /** saveSession's object before updateInStore stamps it. */
  lemma SessionObjectFields(sd: Record, freshId: string, current: JsVal, now: string)
    ensures var o := SessionObject(sd, freshId, current, now);
      forall k :: k in sd && k != "savedAt" ==> k in o && o[k] == sd[k]
    ensures Prop(SessionObject(sd, freshId, current, now), "savedAt") == Str(now)
    ensures "status" !in sd ==> Prop(SessionObject(sd, freshId, current, now), "status") == Str("open")
    ensures "synced" !in sd ==> Prop(SessionObject(sd, freshId, current, now), "synced") == Bool(false)
    ensures "recordCount" !in sd ==> Prop(SessionObject(sd, freshId, current, now), "recordCount") == Num(0)
    ensures "id" !in sd ==> Prop(SessionObject(sd, freshId, current, now), "id") == Str(freshId)
    ensures "schoolId" in sd ==> Prop(SessionObject(sd, freshId, current, now), "schoolId") == sd["schoolId"]
    ensures "schoolId" !in sd ==> Prop(SessionObject(sd, freshId, current, now), "schoolId") == current
  {
    var d := SessionDefaults(sd, freshId, current);
    SpreadFields(d, sd, now);
    SessionDefaultsFields(sd, freshId, current);
  }

  lemma SessionDefaultsFields(sd: Record, freshId: string, current: JsVal)
    ensures var d := SessionDefaults(sd, freshId, current);
      "id" in d && d["id"] == Or(Prop(sd, "id"), Str(freshId)) &&
      "status" in d && d["status"] == Or(Prop(sd, "status"), Str("open")) &&
      "synced" in d && d["synced"] == Or(Prop(sd, "synced"), Bool(false)) &&
      "recordCount" in d && d["recordCount"] == Or(Prop(sd, "recordCount"), Num(0)) &&
      "schoolId" in d && d["schoolId"] == Or(Prop(sd, "schoolId"), current)
  {
  }

  lemma SavedRecordFields(rd: Record, freshId: string, current: JsVal, now: string)
    ensures var r := SavedRecord(rd, freshId, current, now);
      forall k :: k in rd && k != "savedAt" && k != "updatedAt" && k != "schoolId" ==> k in r && r[k] == rd[k]
    ensures Prop(SavedRecord(rd, freshId, current, now), "savedAt") == Str(now)
    ensures Prop(SavedRecord(rd, freshId, current, now), "updatedAt") == Str(now)
    ensures "remarks" !in rd ==> Prop(SavedRecord(rd, freshId, current, now), "remarks") == Str("")
    ensures "synced" !in rd ==> Prop(SavedRecord(rd, freshId, current, now), "synced") == Bool(false)
    ensures "id" !in rd ==> Prop(SavedRecord(rd, freshId, current, now), "id") == Str(freshId)
    ensures Prop(SavedRecord(rd, freshId, current, now), "schoolId") == Or(Prop(rd, "schoolId"), current)
  {
    var o := RecordObject(rd, freshId, current, now);
    RecordObjectFields(rd, freshId, current, now);
    assert Prop(o, "schoolId") == Prop(rd, "schoolId") || Prop(o, "schoolId") == Or(Prop(rd, "schoolId"), current);
  }

  /** One field of the caller's object that a saved record keeps. */
  lemma SavedRecordKeeps(rd: Record, freshId: string, current: JsVal, now: string, k: string)
    requires k in rd && k != "savedAt" && k != "updatedAt" && k != "schoolId"
    ensures Prop(SavedRecord(rd, freshId, current, now), k) == rd[k]
  {
    SpreadFields(RecordDefaults(rd, freshId, current), rd, now);
  }

  /** One field of the caller's object that a saved session keeps. */
  lemma SavedSessionKeeps(sd: Record, freshId: string, current: JsVal, now: string, k: string)
    requires k in sd && k != "savedAt" && k != "updatedAt" && k != "schoolId"
    ensures Prop(SavedSession(sd, freshId, current, now), k) == sd[k]
  {
    SpreadFields(SessionDefaults(sd, freshId, current), sd, now);
  }

  /** saveAttendanceRecord's object before updateInStore stamps it. */
  lemma RecordObjectFields(rd: Record, freshId: string, current: JsVal, now: string)
    ensures var o := RecordObject(rd, freshId, current, now);
      forall k :: k in rd && k != "savedAt" ==> k in o && o[k] == rd[k]
    ensures Prop(RecordObject(rd, freshId, current, now), "savedAt") == Str(now)
    ensures "remarks" !in rd ==> Prop(RecordObject(rd, freshId, current, now), "remarks") == Str("")
    ensures "synced" !in rd ==> Prop(RecordObject(rd, freshId, current, now), "synced") == Bool(false)
    ensures "id" !in rd ==> Prop(RecordObject(rd, freshId, current, now), "id") == Str(freshId)
    ensures "schoolId" in rd ==> Prop(RecordObject(rd, freshId, current, now), "schoolId") == rd["schoolId"]
    ensures "schoolId" !in rd ==> Prop(RecordObject(rd, freshId, current, now), "schoolId") == current
  {
    var d := RecordDefaults(rd, freshId, current);
    SpreadFields(d, rd, now);
    RecordDefaultsFields(rd, freshId, current);
  }

  lemma RecordDefaultsFields(rd: Record, freshId: string, current: JsVal)
    ensures var d := RecordDefaults(rd, freshId, current);
      "id" in d && d["id"] == Or(Prop(rd, "id"), Str(freshId)) &&
      "remarks" in d && d["remarks"] == Or(Prop(rd, "remarks"), Str("")) &&
      "synced" in d && d["synced"] == Or(Prop(rd, "synced"), Bool(false)) &&
      "schoolId" in d && d["schoolId"] == Or(Prop(rd, "schoolId"), current)
  {
  }

  // ---------------------------------------------------------------------------
  // Index queries and limits

  /** index.getAll(value): the records whose field holds that key, in primary-key order; a value that is not a key is a DataError. */
  function IndexQuery(st: Store, field: string, value: JsVal): (r: Result<seq<Record>, string>)
    ensures r.Err? <==> !ValidKey(value)
    ensures r.Ok? ==> forall x :: x in r.value <==> x in st && Prop(x, field) == value
  {
    if !ValidKey(value) then Err("DataError") else Ok(WithField(st, field, value))
  }

  function WithField(rs: seq<Record>, field: string, value: JsVal): (res: seq<Record>)
    ensures forall x :: x in res <==> x in rs && Prop(x, field) == value
    decreases |rs|
  {
    if rs == [] then []
    else
      var rest := WithField(rs[..|rs| - 1], field, value);
      assert rs == rs[..|rs| - 1] + [rs[|rs| - 1]];
      if Prop(rs[|rs| - 1], field) == value then rest + [rs[|rs| - 1]] else rest
  }

  /** Array.prototype.slice(start, end): negative positions count from the end, all are clamped to the array. */
  function Slice<T>(s: seq<T>, start: int, end: int): (r: seq<T>)
  {
    var from := if start < 0 then Max(|s| + start, 0) else Min(start, |s|);
    var to := if end < 0 then Max(|s| + end, 0) else Min(end, |s|);
    if from >= to then [] else s[from..to]
  }

  /** getStudentAttendance: the student's tenant-visible records, then slice(-limit). */
  function StudentAttendance(st: Store, studentId: JsVal, current: JsVal, limit: int): Result<seq<Record>, string>
  {
    match IndexQuery(st, "studentId", studentId)
    case Err(e) => Err(e)
    case Ok(rs) =>
      var visible := TenantFilter(rs, current);
      Ok(Slice(visible, -limit, |visible|))
  }

  /**
   * slice(-limit) keeps the last `limit` records; a limit of 0 is slice(-0),
   * which keeps them all, and a negative one drops that many from the front.
   */
  lemma StudentAttendanceLimit(st: Store, studentId: JsVal, current: JsVal, limit: int)
    requires ValidKey(studentId)
    ensures var visible := TenantFilter(WithField(st, "studentId", studentId), current);
      var r := StudentAttendance(st, studentId, current, limit);
      r.Ok? &&
      (0 < limit ==> r.value == visible[|visible| - Min(limit, |visible|)..]) &&
      (limit == 0 ==> r.value == visible) &&
      (limit < 0 ==> r.value == visible[Min(-limit, |visible|)..])
  {
    var visible := TenantFilter(WithField(st, "studentId", studentId), current);
    assert StudentAttendance(st, studentId, current, limit) == Ok(Slice(visible, -limit, |visible|));
    SliceFromEnd(visible, limit);
  }

  /** slice(-n) on a sequence, by the sign of n. */
  lemma SliceFromEnd<T>(s: seq<T>, n: int)
    ensures 0 < n ==> Slice(s, -n, |s|) == s[|s| - Min(n, |s|)..]
    ensures n == 0 ==> Slice(s, -n, |s|) == s
    ensures n < 0 ==> Slice(s, -n, |s|) == s[Min(-n, |s|)..]
  {
  }

  /**
   * getUnsyncedRecords as written: it queries the 'synced' index with the
   * value false, and false is not an IndexedDB key, so the query is refused.
   */
  function UnsyncedAsWritten(st: Store, current: JsVal, limit: int): Result<seq<Record>, string>
  {
    match IndexQuery(st, "synced", Bool(false))
    case Err(e) => Err(e)
    case Ok(rs) =>
      var visible := TenantFilter(rs, current);
      Ok(Slice(visible, 0, limit))
  }

  /** Whatever the store holds, getUnsyncedRecords fails with a DataError. */
  lemma UnsyncedAsWrittenFails(st: Store, current: JsVal, limit: int)
    ensures UnsyncedAsWritten(st, current, limit) == Err("DataError")
  {
  }

  function NotSynced(rs: seq<Record>): (res: seq<Record>)
    ensures forall x :: x in res <==> x in rs && StrictEq(Prop(x, "synced"), Bool(false))
    decreases |rs|
  {
    if rs == [] then []
    else
      var rest := NotSynced(rs[..|rs| - 1]);
      assert rs == rs[..|rs| - 1] + [rs[|rs| - 1]];
      if StrictEq(Prop(rs[|rs| - 1], "synced"), Bool(false)) then rest + [rs[|rs| - 1]] else rest
  }

  /** getUnsyncedRecords as intended: the first `limit` tenant-visible records whose synced is false. */
  function Unsynced(st: Store, current: JsVal, limit: int): (r: seq<Record>)
    ensures forall x :: x in r ==> x in st && StrictEq(Prop(x, "synced"), Bool(false)) && TenantVisible(x, current)
    ensures var all := TenantFilter(NotSynced(st), current);
      0 <= limit ==> r == all[..Min(limit, |all|)]
  {
    var visible := TenantFilter(NotSynced(st), current);
    var r := Slice(visible, 0, limit);
    assert forall x :: x in r ==> x in visible;
    r
  }

  /** getForSchool as written: getAllFromStore already keeps only the current school's records, then those of `sid` are picked. */
  function ForSchool(st: Store, schoolId: JsVal, current: JsVal): (r: seq<Record>)
    ensures var sid := Or(schoolId, current);
      forall x :: x in r <==> x in st && Truthy(sid) && StrictEq(Prop(x, "schoolId"), sid) && TenantVisible(x, current)
  {
    var sid := Or(schoolId, current);
    if !Truthy(sid) then [] else WithSchoolId(TenantFilter(st, current), sid)
  }

  function WithSchoolId(rs: seq<Record>, sid: JsVal): (res: seq<Record>)
    ensures forall x :: x in res <==> x in rs && StrictEq(Prop(x, "schoolId"), sid)
    decreases |rs|
  {
    if rs == [] then []
    else
      var rest := WithSchoolId(rs[..|rs| - 1], sid);
      assert rs == rs[..|rs| - 1] + [rs[|rs| - 1]];
      if StrictEq(Prop(rs[|rs| - 1], "schoolId"), sid) then rest + [rs[|rs| - 1]] else rest
  }

  /** Without a school id there is nothing; by default exactly the current school's records. */
  lemma ForSchoolDefault(st: Store, current: JsVal)
    ensures !Truthy(current) ==> ForSchool(st, Null, current) == []
    ensures Truthy(current) ==> forall x :: x in ForSchool(st, Null, current) <==> x in st && StrictEq(Prop(x, "schoolId"), current)
  {
  }

  /** An explicit school other than the current one gets nothing: the tenant filter has already removed its records. */
  lemma ForOtherSchoolEmpty(st: Store, schoolId: JsVal, current: JsVal)
    requires Truthy(schoolId) && !StrictEq(schoolId, current)
    ensures forall x :: x !in ForSchool(st, schoolId, current)
  {
  }

  /** The stores init() creates. */
  const StoreNames: set<string> := {"appSettings", "syncQueue", "attendanceSessions", "attendanceRecords", "exceptions", "classes", "students", "teachers", "subjects", "terms"}

  /** markRecordsSynced's change to one record: synced and syncedAt set, then updateInStore's stamps. */
  function SyncedCopy(r: Record, current: JsVal, now: string): Record
  {
    Updated(r["synced" := Bool(true)]["syncedAt" := Str(now)], current, now)
  }

  /** The synced copy keeps its key, is synced and carries the time it was synced. */
  lemma SyncedCopyFields(r: Record, current: JsVal, now: string)
    ensures var c := SyncedCopy(r, current, now);
      Key(c) == Key(r) && Prop(c, "synced") == Bool(true) && Prop(c, "syncedAt") == Str(now)
  {
  }

  /** One step of markRecordsSynced: the record with the id, if any, becomes its synced copy. */
  function MarkOne(st: Store, id: string, current: JsVal, now: string): Store
  {
    match Find(st, Str(id))
    case None => st
    case Some(i) => st[i := SyncedCopy(st[i], current, now)]
  }

  /** The put markRecordsSynced makes for a record it finds is that step. */
  lemma MarkOnePut(st: Store, id: string, current: JsVal, now: string)
    ensures Find(st, Str(id)).Some? ==>
      var i := Find(st, Str(id)).value;
      Put(st, Updated(st[i]["synced" := Bool(true)]["syncedAt" := Str(now)], current, now)) == Ok(MarkOne(st, id, current, now))
  {
    match Find(st, Str(id))
    case None =>
    case Some(i) =>
      var rec := SyncedCopy(st[i], current, now);
      assert Key(rec) == Str(id);
  }

  /** The attendance store after markRecordsSynced(ids). */
  function MarkedSynced(st: Store, ids: seq<string>, current: JsVal, now: string): Store
    decreases |ids|
  {
    if ids == [] then st
    else MarkOne(MarkedSynced(st, ids[..|ids| - 1], current, now), ids[|ids| - 1], current, now)
  }

  /** Marking one more id marks the records of the ids before it, then that one. */
  lemma MarkedSyncedSnoc(st: Store, ids: seq<string>, j: nat, current: JsVal, now: string)
    requires j < |ids|
    ensures MarkedSynced(st, ids[..j + 1], current, now) == MarkOne(MarkedSynced(st, ids[..j], current, now), ids[j], current, now)
  {
    assert ids[..j + 1][..j] == ids[..j];
  }

  /** `res` is `st` with the records whose keys are in `keys` synced, and the others as they were. */
  predicate MarkedFrom(st: Store, res: Store, keys: set<JsVal>, now: string)
  {
    |res| == |st| && Sorted(res) &&
    forall i :: 0 <= i < |st| ==>
      Key(res[i]) == Key(st[i]) &&
      (Key(st[i]) in keys ==> Prop(res[i], "synced") == Bool(true) && Prop(res[i], "syncedAt") == Str(now)) &&
      (Key(st[i]) !in keys ==> res[i] == st[i])
  }

  /** In a store with a record per key, every record listed is synced afterwards and every other one is as it was. */
  lemma {:induction false} MarkedSyncedFacts(st: Store, ids: seq<string>, current: JsVal, now: string)
    requires Sorted(st)
    ensures MarkedFrom(st, MarkedSynced(st, ids, current, now), StrKeys(ids), now)
    decreases |ids|
  {
    if ids == [] {
      assert StrKeys(ids) == {};
    } else {
      var init := ids[..|ids| - 1];
      MarkedSyncedFacts(st, init, current, now);
      assert StrKeys(ids) == StrKeys(init) + {Str(ids[|ids| - 1])};
      MarkOneStep(st, MarkedSynced(st, init, current, now), StrKeys(init), ids[|ids| - 1], current, now);
    }
  }

  lemma MarkOneStep(st: Store, prev: Store, keys: set<JsVal>, id: string, current: JsVal, now: string)
    requires Sorted(st) && MarkedFrom(st, prev, keys, now)
    ensures MarkedFrom(st, MarkOne(prev, id, current, now), keys + {Str(id)}, now)
  {
    match Find(prev, Str(id))
    case None =>
    case Some(j) =>
      var res := prev[j := SyncedCopy(prev[j], current, now)];
      SyncedCopyFields(prev[j], current, now);
      ReplaceSorted(prev, j, res[j]);
      forall i | 0 <= i < |st| && i != j ensures Key(st[i]) != Str(id) && res[i] == prev[i] {
        SortedDistinct(prev, i, j);
      }
  }

  function StrKeys(ids: seq<string>): set<JsVal>
  {
    set i | 0 <= i < |ids| :: Str(ids[i])
  }

  /** The store with the records of `keys` deleted one after another. */
  function DeleteAll(st: Store, keys: seq<JsVal>): Store
    decreases |keys|
  {
    if keys == [] then st else Delete(DeleteAll(st, keys[..|keys| - 1]), keys[|keys| - 1])
  }

  lemma {:induction false} DeleteAllFacts(st: Store, keys: seq<JsVal>)
    requires Sorted(st)
    ensures Sorted(DeleteAll(st, keys))
    ensures forall x :: x in DeleteAll(st, keys) <==> x in st && Key(x) !in keys
    decreases |keys|
  {
    if keys != [] {
      var init := keys[..|keys| - 1];
      DeleteAllFacts(st, init);
      DeleteFacts(DeleteAll(st, init), keys[|keys| - 1], Null);
      assert forall k :: k in keys <==> k in init || k == keys[|keys| - 1];
    }
  }

  function KeysOf(rs: seq<Record>): (ks: seq<JsVal>)
    ensures |ks| == |rs| && forall i :: 0 <= i < |rs| ==> ks[i] == Key(rs[i])
  {
    seq(|rs|, i requires 0 <= i < |rs| => Key(rs[i]))
  }

  /** What clearForSchool leaves of a sorted store: a sorted store without the school's records. */
  lemma ClearedFacts(st: Store, schoolId: JsVal, current: JsVal)
    requires Sorted(st)
    ensures var gone := ForSchool(st, schoolId, current);
      Sorted(DeleteAll(st, KeysOf(gone))) &&
      forall x :: x in DeleteAll(st, KeysOf(gone)) <==> x in st && x !in gone
  {
    var gone := ForSchool(st, schoolId, current);
    DeleteAllFacts(st, KeysOf(gone));
    DeleteOwnKeys(st, gone);
  }

  /** Deleting the keys of some of a store's records removes exactly those records. */
  lemma DeleteOwnKeys(st: Store, rs: seq<Record>)
    requires Sorted(st) && forall x :: x in rs ==> x in st
    ensures forall x :: x in DeleteAll(st, KeysOf(rs)) <==> x in st && x !in rs
  {
    DeleteAllFacts(st, KeysOf(rs));
    forall x | x in st && Key(x) in KeysOf(rs) ensures x in rs {
      var i :| 0 <= i < |rs| && KeysOf(rs)[i] == Key(x);
      SameKeySame(st, x, rs[i]);
    }
    forall x | x in rs ensures Key(x) in KeysOf(rs) {
      var i :| 0 <= i < |rs| && rs[i] == x;
      assert KeysOf(rs)[i] == Key(x);
    }
  }

  /** Every store init() creates is there, and each is sorted. */
  predicate ValidStores(m: map<string, Store>)
  {
    (forall n :: n in StoreNames ==> n in m) && (forall n :: n in m ==> Sorted(m[n]))
  }

  lemma ValidStoresUpdate(m: map<string, Store>, name: string, st: Store)
    requires ValidStores(m) && name in m && Sorted(st)
    ensures ValidStores(m[name := st])
  {
  }

  /** A later write to a store replaces an earlier one. */
  lemma UpdateTwice(m0: map<string, Store>, m1: map<string, Store>, name: string, st: Store, st': Store)
    requires m1 == m0[name := st]
    ensures m1[name := st'] == m0[name := st']
  {
  }

  /** The IndexedDB database: one store per name. */
  class IndexedDb {
    var stores: map<string, Store>

    predicate Valid()
      reads this
    {
      ValidStores(stores)
    }

    /** init(): every store created empty. */
    constructor ()
      ensures Valid()
      ensures stores == map n | n in StoreNames :: []
    {
      stores := map n | n in StoreNames :: [];
    }

    /** getAllFromStore(storeName) */
    function GetAll(name: string, current: JsVal): (r: Result<seq<Record>, string>)
      reads this
      ensures r.Ok? <==> name in stores
      ensures r.Ok? ==> forall x :: x in r.value <==> x in stores[name] && TenantVisible(x, current)
    {
      if name !in stores then Err("NotFoundError") else Ok(TenantFilter(stores[name], current))
    }

    /** addToStore(storeName, data) */
    method AddToStore(name: string, data: Record, freshId: string, current: JsVal, now: string) returns (r: Result<JsVal, string>)
      requires Valid()
      modifies this
      ensures Valid()
      ensures name !in old(stores) ==> r == Err("NotFoundError") && stores == old(stores)
      ensures name in old(stores) ==>
        var rec := Added(data, freshId, current, now);
        match Add(old(stores)[name], rec)
        case Err(e) => r == Err(e) && stores == old(stores)
        case Ok(st) => r == Ok(Key(rec)) && stores == old(stores)[name := st]
    {
      if name !in stores {
        return Err("NotFoundError");
      }
      var rec := Added(data, freshId, current, now);
      match Add(stores[name], rec)
      case Err(e) =>
        r := Err(e);
      case Ok(st) =>
        InsertSorted(stores[name], rec);
        stores := stores[name := st];
        r := Ok(Key(rec));
    }

    /** updateInStore(storeName, data) */
    method UpdateInStore(name: string, data: Record, current: JsVal, now: string) returns (r: Result<JsVal, string>)
      requires Valid()
      modifies this
      ensures Valid()
      ensures name !in old(stores) ==> r == Err("NotFoundError") && stores == old(stores)
      ensures name in old(stores) ==>
        var rec := Updated(data, current, now);
        match Put(old(stores)[name], rec)
        case Err(e) => r == Err(e) && stores == old(stores)
        case Ok(st) => r == Ok(Key(rec)) && stores == old(stores)[name := st]
    {
      if name !in stores {
        return Err("NotFoundError");
      }
      var rec := Updated(data, current, now);
      match Put(stores[name], rec)
      case Err(e) =>
        r := Err(e);
      case Ok(st) =>
        PutFacts(stores[name], rec, Null);
        stores := stores[name := st];
        r := Ok(Key(rec));
    }

    /** saveSession(sessionData) */
    method SaveSession(sd: Record, freshId: string, current: JsVal, now: string) returns (r: Result<JsVal, string>)
      requires Valid()
      modifies this
      ensures Valid()
      ensures match Put(old(stores)["attendanceSessions"], SavedSession(sd, freshId, current, now))
        case Err(e) => r == Err(e) && stores == old(stores)
        case Ok(st) => r.Ok? && stores == old(stores)["attendanceSessions" := st]
    {
      r := UpdateInStore("attendanceSessions", SessionObject(sd, freshId, current, now), current, now);
    }

    /** saveAttendanceRecord(recordData) */
    method SaveAttendanceRecord(rd: Record, freshId: string, current: JsVal, now: string) returns (r: Result<JsVal, string>)
      requires Valid()
      modifies this
      ensures Valid()
      ensures match Put(old(stores)["attendanceRecords"], SavedRecord(rd, freshId, current, now))
        case Err(e) => r == Err(e) && stores == old(stores)
        case Ok(st) => r.Ok? && stores == old(stores)["attendanceRecords" := st]
    {
      r := UpdateInStore("attendanceRecords", RecordObject(rd, freshId, current, now), current, now);
    }

    /** deleteFromStore(storeName, id) */
    method DeleteFromStore(name: string, k: JsVal) returns (r: Result<bool, string>)
      requires Valid()
      modifies this
      ensures Valid()
      ensures name !in old(stores) ==> r == Err("NotFoundError") && stores == old(stores)
      ensures name in old(stores) && !ValidKey(k) ==> r == Err("DataError") && stores == old(stores)
      ensures name in old(stores) && ValidKey(k) ==> r == Ok(true) && stores == old(stores)[name := Delete(old(stores)[name], k)]
    {
      if name !in stores {
        return Err("NotFoundError");
      }
      if !ValidKey(k) {
        return Err("DataError");
      }
      DeleteFacts(stores[name], k, Null);
      stores := stores[name := Delete(stores[name], k)];
      r := Ok(true);
    }

    /** markRecordsSynced(recordIds): the count it returns is the number of ids given, found or not. */
    method MarkRecordsSynced(ids: seq<string>, current: JsVal, now: string) returns (n: nat)
      requires Valid()
      modifies this
      ensures Valid()
      ensures n == |ids|
      ensures stores == old(stores)["attendanceRecords" := MarkedSynced(old(stores)["attendanceRecords"], ids, current, now)]
    {
      var start := stores["attendanceRecords"];
      ghost var m0 := stores;
      SyncAll(ids, current, now);
      MarkedSyncedFacts(start, ids, current, now);
      ValidStoresUpdate(m0, "attendanceRecords", MarkedSynced(start, ids, current, now));
      n := |ids|;
    }

    /** markRecordsSynced's loop over the ids. */
    method SyncAll(ids: seq<string>, current: JsVal, now: string)
      requires "attendanceRecords" in stores
      modifies this
      ensures stores == old(stores)["attendanceRecords" := MarkedSynced(old(stores)["attendanceRecords"], ids, current, now)]
    {
      var start := stores["attendanceRecords"];
      ghost var m0 := stores;
      var j := 0;
      while j < |ids|
        invariant 0 <= j <= |ids|
        invariant stores == m0["attendanceRecords" := MarkedSynced(start, ids[..j], current, now)]
      {
        ghost var done := MarkedSynced(start, ids[..j], current, now);
        MarkedSyncedSnoc(start, ids, j, current, now);
        ghost var prev := stores;
        SyncOne(ids[j], current, now);
        UpdateTwice(m0, prev, "attendanceRecords", done, MarkOne(done, ids[j], current, now));
        j := j + 1;
      }
      assert ids[..j] == ids;
    }

    /** One pass of markRecordsSynced's loop: a found record is put back synced, a missing one is skipped. */
    method SyncOne(id: string, current: JsVal, now: string)
      requires "attendanceRecords" in stores
      modifies this
      ensures stores == old(stores)["attendanceRecords" := MarkOne(old(stores)["attendanceRecords"], id, current, now)]
    {
      var st := stores["attendanceRecords"];
      var found := Find(st, Str(id));
      MarkOnePut(st, id, current, now);
      if found.Some? {
        var rec := Updated(st[found.value]["synced" := Bool(true)]["syncedAt" := Str(now)], current, now);
        stores := stores["attendanceRecords" := Put(st, rec).value];
      }
    }

    /** clearForSchool(storeName, schoolId): without a school id it throws; else it deletes getForSchool's records and returns how many. */
    method ClearForSchool(name: string, schoolId: JsVal, current: JsVal) returns (r: Result<nat, string>)
      requires Valid()
      modifies this
      ensures Valid()
      ensures !Truthy(Or(schoolId, current)) ==> r == Err("No school ID available") && stores == old(stores)
      ensures Truthy(Or(schoolId, current)) && name !in old(stores) ==> r == Err("NotFoundError") && stores == old(stores)
      ensures Truthy(Or(schoolId, current)) && name in old(stores) ==>
        var gone := ForSchool(old(stores)[name], schoolId, current);
        r == Ok(|gone|) && name in stores && stores == old(stores)[name := DeleteAll(old(stores)[name], KeysOf(gone))] &&
        forall x :: x in stores[name] <==> x in old(stores)[name] && x !in gone
    {
      var sid := Or(schoolId, current);
      if !Truthy(sid) {
        return Err("No school ID available");
      }
      if name !in stores {
        return Err("NotFoundError");
      }
      var st := stores[name];
      var records := ForSchool(st, schoolId, current);
      var keys := KeysOf(records);
      ghost var m0 := stores;
      DeleteKeys(name, keys);
      ClearedFacts(st, schoolId, current);
      ValidStoresUpdate(m0, name, DeleteAll(st, keys));
      r := Ok(|records|);
    }

    /** The deletes of clearForSchool's loop, one key after another. */
    method DeleteKeys(name: string, keys: seq<JsVal>)
      requires name in stores
      modifies this
      ensures stores == old(stores)[name := DeleteAll(old(stores)[name], keys)]
    {
      var st := stores[name];
      ghost var m0 := stores;
      var j := 0;
      while j < |keys|
        invariant 0 <= j <= |keys|
        invariant stores == m0[name := DeleteAll(st, keys[..j])]
      {
        assert keys[..j + 1][..j] == keys[..j];
        assert DeleteAll(st, keys[..j + 1]) == Delete(DeleteAll(st, keys[..j]), keys[j]);
        stores := stores[name := Delete(stores[name], keys[j])];
        j := j + 1;
      }
      assert keys[..j] == keys;
    }
  }
}
