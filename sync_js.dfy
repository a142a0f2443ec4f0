// The offline sync queue of frontend/scripts/sync.js: SyncManager keeps the
// changes made offline in `syncQueue`, persists each one to the `syncQueue`
// object store, and on a pass sends the current school's changes to the
// server, removing the ones that went through and retrying the rest. The
// server's answers, navigator.onLine, the clock, the generated ids and the
// school the auth manager reports arrive as parameters.

module SyncJs {
  import opened Common
  import opened JsValue
  import opened DbJs
  import Json
  import SyncConflicts

  /** this.maxRetries */
  const MaxRetries: nat := 3

  /** A queued change, as queueChange builds it. */
  datatype QueueItem = QueueItem(id: string, action: string, data: JsVal, timestamp: string, retryCount: nat, status: string, schoolId: JsVal)

  /** What fetch gave back for an item: a response with its ok flag and status, or a rejection. */
  datatype Response = Response(ok: bool, status: int) | NetworkFailure(message: string)

  /** What syncItem did with an item: returned true or false, or threw. */
  datatype Attempt = Returned(success: bool) | Raised(error: string)

  /** The notification a pass ends with: message and type. */
  datatype Notice = Notice(message: string, kind: string)

  /** The actions syncItem sends to an endpoint. */
  predicate KnownAction(action: string)
  {
    action == "attendance_batch" || action == "attendance_single" || action == "exception"
  }

  /**
   * syncItem(item) as syncPending calls it, with retryCount 0. An unknown
   * action returns false without a request; an ok response returns true; a
   * failed request returns false while offline (a retry is scheduled on a
   * timer) and is thrown on otherwise.
   */
  function SyncItem(action: string, response: Response, online: bool): (r: Attempt)
  {
    if !KnownAction(action) then Returned(false)
    else if response.Response? && response.ok then Returned(true)
    else
      var retryCount := 0;
      if retryCount < MaxRetries && !online then Returned(false)
      else Raised(if response.Response? then "HTTP " + IntToString(response.status) else response.message)
  }

  /** The attempt for one queued item, given the server's answer to each item. */
  function AttemptOf(item: QueueItem, net: QueueItem -> Response, online: bool): Attempt
  {
    SyncItem(item.action, net(item), online)
  }

  /** An unknown action never reaches the server and counts as a failed attempt. */
  lemma UnknownActionFails(action: string, response: Response, online: bool)
    requires !KnownAction(action)
    ensures SyncItem(action, response, online) == Returned(false)
  {
  }

  /** A known action succeeds exactly when the response is ok; a failure throws only while online, with the status in the message. */
  lemma KnownActionOutcome(action: string, response: Response, online: bool)
    requires KnownAction(action)
    ensures SyncItem(action, response, online) == Returned(true) <==> response.Response? && response.ok
    ensures SyncItem(action, response, online).Raised? <==> online && !(response.Response? && response.ok)
    ensures response.Response? && !response.ok && online ==> SyncItem(action, response, online) == Raised("HTTP " + IntToString(response.status))
  {
  }

  // ---------------------------------------------------------------------------
  // One pass, step by step

  /** syncQueue.filter(i => i.id !== id) */
  function RemoveId(q: seq<QueueItem>, id: string): (r: seq<QueueItem>)
    ensures |r| <= |q|
    decreases |q|
  {
    if q == [] then [] else (if q[0].id != id then [q[0]] else []) + RemoveId(q[1..], id)
  }

  /** The item with one more retry counted. */
  function Bumped(x: QueueItem): QueueItem
  {
    x.(retryCount := x.retryCount + 1)
  }

  /** item.retryCount++ as seen through syncQueue, which holds the same object. */
  function BumpId(q: seq<QueueItem>, id: string): (r: seq<QueueItem>)
    ensures |r| == |q|
    decreases |q|
  {
    if q == [] then [] else [if q[0].id == id then Bumped(q[0]) else q[0]] + BumpId(q[1..], id)
  }

  /** A failure the pass reports: a throw, or a false result that used up the retries. */
  predicate Failed(item: QueueItem, att: Attempt)
  {
    att.Raised? || (att == Returned(false) && item.retryCount + 1 >= MaxRetries)
  }

  /** The body of the for loop on the in-memory queue. */
  function QueueStep(q: seq<QueueItem>, item: QueueItem, att: Attempt): seq<QueueItem>
  {
    match att
    case Returned(ok) => if ok || item.retryCount + 1 >= MaxRetries then RemoveId(q, item.id) else BumpId(q, item.id)
    case Raised(_) => BumpId(q, item.id)
  }

  /** The state a pass carries: the in-memory queue, the persisted store and the errors array's length. */
  datatype PassState = PassState(queue: seq<QueueItem>, store: Store, errors: nat)

  /** The body of the for loop: a synced item is also deleted from the persisted store. */
  function Step(p: PassState, item: QueueItem, att: Attempt): PassState
  {
    PassState(QueueStep(p.queue, item, att), StoreStep(p.store, item, att), p.errors + if Failed(item, att) then 1 else 0)
  }

  /** The persisted store after one iteration: a synced item's record is deleted. */
  function StoreStep(st: Store, item: QueueItem, att: Attempt): Store
  {
    if att == Returned(true) then Delete(st, Str(item.id)) else st
  }

  /** The for loop over the items, in order. */
  function Run(p: PassState, items: seq<QueueItem>, net: QueueItem -> Response, online: bool): PassState
    decreases |items|
  {
    if items == [] then p
    else
      var last := items[|items| - 1];
      Step(Run(p, items[..|items| - 1], net, online), last, AttemptOf(last, net, online))
  }

  lemma RunStep(p: PassState, items: seq<QueueItem>, j: nat, net: QueueItem -> Response, online: bool)
    requires j < |items|
    ensures Run(p, items[..j + 1], net, online) == Step(Run(p, items[..j], net, online), items[j], AttemptOf(items[j], net, online))
  {
    assert items[..j + 1][..j] == items[..j];
  }

  /** syncQueue.filter(item => item.schoolId === currentSchoolId) */
  function Snapshot(q: seq<QueueItem>, current: JsVal): (r: seq<QueueItem>)
    ensures forall x :: x in r <==> x in q && StrictEq(x.schoolId, current)
    decreases |q|
  {
    if q == [] then [] else (if StrictEq(q[0].schoolId, current) then [q[0]] else []) + Snapshot(q[1..], current)
  }

  /** The message the pass ends with: success with no errors, otherwise the number still queued. */
  function PassNotice(errors: nat, pending: nat): Notice
  {
    if errors == 0 then Notice("Sync complete", "success")
    else Notice("Sync: " + IntToString(pending) + " pending", "warning")
  }

  // ---------------------------------------------------------------------------
  // The same pass as one filter over the queue

  /** Ids are generated unique: no two queued items share one. */
  predicate DistinctIds(q: seq<QueueItem>)
  {
    forall i, j :: 0 <= i < |q| && 0 <= j < |q| && q[i].id == q[j].id ==> i == j
  }

  /** What becomes of an attempted item: gone, or still queued with one more retry. */
  function Fate(x: QueueItem, att: Attempt): Option<QueueItem>
  {
    match att
    case Returned(ok) => if ok || x.retryCount + 1 >= MaxRetries then None else Some(Bumped(x))
    case Raised(_) => Some(Bumped(x))
  }

  function OptSeq(o: Option<QueueItem>): seq<QueueItem>
  {
    match o
    case None => []
    case Some(x) => [x]
  }

  /** The queue once the items whose ids are in `done` have been attempted. */
  function Settled(q: seq<QueueItem>, done: set<string>, net: QueueItem -> Response, online: bool): seq<QueueItem>
    decreases |q|
  {
    if q == [] then []
    else (if q[0].id in done then OptSeq(Fate(q[0], AttemptOf(q[0], net, online))) else [q[0]]) + Settled(q[1..], done, net, online)
  }

  /**
   * The queue after a pass, element by element: an item of another school is
   * kept as it was, an item of the current school is dropped or kept with its
   * retry count bumped, according to its own attempt.
   */
  function Resolved(q: seq<QueueItem>, current: JsVal, net: QueueItem -> Response, online: bool): (r: seq<QueueItem>)
    ensures |r| <= |q|
    decreases |q|
  {
    if q == [] then []
    else (if StrictEq(q[0].schoolId, current) then OptSeq(Fate(q[0], AttemptOf(q[0], net, online))) else [q[0]]) + Resolved(q[1..], current, net, online)
  }

  /** The keys the pass deletes from the persisted store: those of the items that synced. */
  function SyncedKeys(items: seq<QueueItem>, net: QueueItem -> Response, online: bool): seq<JsVal>
    decreases |items|
  {
    if items == [] then []
    else
      var last := items[|items| - 1];
      SyncedKeys(items[..|items| - 1], net, online) + if AttemptOf(last, net, online) == Returned(true) then [Str(last.id)] else []
  }

  /** The errors the pass counts. */
  function FailedCount(items: seq<QueueItem>, net: QueueItem -> Response, online: bool): nat
    decreases |items|
  {
    if items == [] then 0
    else
      var last := items[|items| - 1];
      FailedCount(items[..|items| - 1], net, online) + if Failed(last, AttemptOf(last, net, online)) then 1 else 0
  }

  lemma {:induction false} RemoveIdConcat(a: seq<QueueItem>, b: seq<QueueItem>, id: string)
    ensures RemoveId(a + b, id) == RemoveId(a, id) + RemoveId(b, id)
    decreases |a|
  {
    if a != [] {
      assert (a + b)[0] == a[0] && (a + b)[1..] == a[1..] + b;
      RemoveIdConcat(a[1..], b, id);
      var h := if a[0].id != id then [a[0]] else [];
      assert RemoveId(a + b, id) == h + RemoveId(a[1..] + b, id);
      assert RemoveId(a, id) == h + RemoveId(a[1..], id);
    } else {
      assert a + b == b;
    }
  }

  lemma {:induction false} BumpIdConcat(a: seq<QueueItem>, b: seq<QueueItem>, id: string)
    ensures BumpId(a + b, id) == BumpId(a, id) + BumpId(b, id)
    decreases |a|
  {
    if a != [] {
      assert (a + b)[0] == a[0] && (a + b)[1..] == a[1..] + b;
      BumpIdConcat(a[1..], b, id);
      var h := [if a[0].id == id then Bumped(a[0]) else a[0]];
      assert BumpId(a + b, id) == h + BumpId(a[1..] + b, id);
      assert BumpId(a, id) == h + BumpId(a[1..], id);
    } else {
      assert a + b == b;
    }
  }

  lemma QueueStepConcat(a: seq<QueueItem>, b: seq<QueueItem>, item: QueueItem, att: Attempt)
    ensures QueueStep(a + b, item, att) == QueueStep(a, item, att) + QueueStep(b, item, att)
  {
    RemoveIdConcat(a, b, item.id);
    BumpIdConcat(a, b, item.id);
  }

  /** A step for an id the queue does not hold changes nothing. */
  lemma {:induction false} QueueStepAbsent(q: seq<QueueItem>, item: QueueItem, att: Attempt)
    requires forall x :: x in q ==> x.id != item.id
    ensures QueueStep(q, item, att) == q
    decreases |q|
  {
    if q != [] {
      QueueStepAbsent(q[1..], item, att);
      QueueStepConcat([q[0]], q[1..], item, att);
      assert [q[0]] + q[1..] == q;
    }
  }

  /** Settling keeps ids: an id the queue does not hold does not appear. */
  lemma {:induction false} SettledIds(q: seq<QueueItem>, done: set<string>, net: QueueItem -> Response, online: bool, id: string)
    requires forall x :: x in q ==> x.id != id
    ensures forall y :: y in Settled(q, done, net, online) ==> y.id != id
    decreases |q|
  {
    if q != [] {
      SettledIds(q[1..], done, net, online, id);
    }
  }

  lemma {:induction false} SettledIgnores(q: seq<QueueItem>, done: set<string>, net: QueueItem -> Response, online: bool, id: string)
    requires forall x :: x in q ==> x.id != id
    ensures Settled(q, done + {id}, net, online) == Settled(q, done, net, online)
    decreases |q|
  {
    if q != [] {
      SettledIgnores(q[1..], done, net, online, id);
    }
  }

  lemma DistinctTail(q: seq<QueueItem>)
    requires q != [] && DistinctIds(q)
    ensures DistinctIds(q[1..])
    ensures forall x :: x in q[1..] ==> x.id != q[0].id
  {
    forall x | x in q[1..] ensures x.id != q[0].id {
      var k :| 0 <= k < |q[1..]| && q[1..][k] == x;
      assert q[k + 1] == x;
    }
  }

  /** One iteration of the loop settles exactly the item it attempts. */
  lemma {:induction false} StepSettles(q: seq<QueueItem>, done: set<string>, item: QueueItem, net: QueueItem -> Response, online: bool)
    requires DistinctIds(q) && item in q && item.id !in done
    ensures QueueStep(Settled(q, done, net, online), item, AttemptOf(item, net, online)) == Settled(q, done + {item.id}, net, online)
    decreases |q|
  {
    var att := AttemptOf(item, net, online);
    var x := q[0];
    var head := if x.id in done then OptSeq(Fate(x, AttemptOf(x, net, online))) else [x];
    var head' := if x.id in done + {item.id} then OptSeq(Fate(x, AttemptOf(x, net, online))) else [x];
    DistinctTail(q);
    QueueStepConcat(head, Settled(q[1..], done, net, online), item, att);
    if x == item {
      SettledIds(q[1..], done, net, online, item.id);
      QueueStepAbsent(Settled(q[1..], done, net, online), item, att);
      SettledIgnores(q[1..], done, net, online, item.id);
      assert QueueStep(head, item, att) == head';
    } else {
      assert x.id != item.id by {
        var k :| 0 <= k < |q| && q[k] == item;
      }
      QueueStepAbsent(head, item, att);
      StepSettles(q[1..], done, item, net, online);
    }
  }

  function IdsOf(items: seq<QueueItem>): set<string>
  {
    set x | x in items :: x.id
  }

  lemma DistinctInit(s: seq<QueueItem>)
    requires s != [] && DistinctIds(s)
    ensures DistinctIds(s[..|s| - 1])
    ensures s[|s| - 1].id !in IdsOf(s[..|s| - 1])
    ensures IdsOf(s) == IdsOf(s[..|s| - 1]) + {s[|s| - 1].id}
  {
    var init := s[..|s| - 1];
    assert s == init + [s[|s| - 1]];
    forall k | 0 <= k < |init| ensures init[k].id != s[|s| - 1].id {
      assert init[k] == s[k];
    }
  }

  /** Running the loop over distinct items of the queue settles exactly those items. */
  lemma {:induction false} RunSettles(q: seq<QueueItem>, st: Store, s: seq<QueueItem>, net: QueueItem -> Response, online: bool)
    requires DistinctIds(q) && DistinctIds(s) && forall x :: x in s ==> x in q
    ensures Run(PassState(q, st, 0), s, net, online).queue == Settled(q, IdsOf(s), net, online)
    decreases |s|
  {
    if s == [] {
      SettledNone(q, net, online);
      assert IdsOf(s) == {};
    } else {
      var init := s[..|s| - 1];
      DistinctInit(s);
      RunSettles(q, st, init, net, online);
      StepSettles(q, IdsOf(init), s[|s| - 1], net, online);
    }
  }

  lemma {:induction false} SettledNone(q: seq<QueueItem>, net: QueueItem -> Response, online: bool)
    ensures Settled(q, {}, net, online) == q
    decreases |q|
  {
    if q != [] {
      SettledNone(q[1..], net, online);
    }
  }

  lemma {:induction false} SettledResolved(q: seq<QueueItem>, done: set<string>, current: JsVal, net: QueueItem -> Response, online: bool)
    requires forall x :: x in q ==> (x.id in done <==> StrictEq(x.schoolId, current))
    ensures Settled(q, done, net, online) == Resolved(q, current, net, online)
    decreases |q|
  {
    if q != [] {
      SettledResolved(q[1..], done, current, net, online);
    }
  }

  lemma SnapshotDistinct(q: seq<QueueItem>, current: JsVal)
    requires DistinctIds(q)
    ensures DistinctIds(Snapshot(q, current))
    ensures forall x :: x in q ==> (x.id in IdsOf(Snapshot(q, current)) <==> StrictEq(x.schoolId, current))
  {
    var s := Snapshot(q, current);
    SnapshotDistinctIds(q, current);
    forall x | x in q && x.id in IdsOf(s) ensures StrictEq(x.schoolId, current) {
      var y :| y in s && y.id == x.id;
      SameIdSame(q, x, y);
    }
  }

  lemma SameIdSame(q: seq<QueueItem>, x: QueueItem, y: QueueItem)
    requires DistinctIds(q) && x in q && y in q && x.id == y.id
    ensures x == y
  {
    var i :| 0 <= i < |q| && q[i] == x;
    var k :| 0 <= k < |q| && q[k] == y;
  }

  lemma DistinctCons(x: QueueItem, r: seq<QueueItem>)
    requires DistinctIds(r) && forall y :: y in r ==> y.id != x.id
    ensures DistinctIds([x] + r)
  {
    var q := [x] + r;
    forall i, j | 0 <= i < |q| && 0 <= j < |q| && q[i].id == q[j].id ensures i == j {
      if i > 0 && j > 0 {
        assert q[i] == r[i - 1] && q[j] == r[j - 1];
      } else if i > 0 {
        assert q[i] == r[i - 1];
      }
    }
  }

  /** The snapshot keeps distinct ids distinct. */
  lemma {:induction false} SnapshotDistinctIds(q: seq<QueueItem>, current: JsVal)
    requires DistinctIds(q)
    ensures DistinctIds(Snapshot(q, current))
    decreases |q|
  {
    if q != [] {
      DistinctTail(q);
      SnapshotDistinctIds(q[1..], current);
      if StrictEq(q[0].schoolId, current) {
        DistinctCons(q[0], Snapshot(q[1..], current));
      }
    }
  }

  /** The whole pass, on the in-memory queue: the loop is the element-by-element rule Resolved. */
  lemma PassQueue(q: seq<QueueItem>, st: Store, current: JsVal, net: QueueItem -> Response, online: bool)
    requires DistinctIds(q)
    ensures Run(PassState(q, st, 0), Snapshot(q, current), net, online).queue == Resolved(q, current, net, online)
  {
    var s := Snapshot(q, current);
    SnapshotDistinct(q, current);
    RunSettles(q, st, s, net, online);
    SettledResolved(q, IdsOf(s), current, net, online);
  }

  /** On the persisted store the pass deletes the synced items' keys, and it counts the failures. */
  lemma {:induction false} PassStore(q: seq<QueueItem>, st: Store, s: seq<QueueItem>, net: QueueItem -> Response, online: bool)
    ensures Run(PassState(q, st, 0), s, net, online).store == DeleteAll(st, SyncedKeys(s, net, online))
    ensures Run(PassState(q, st, 0), s, net, online).errors == FailedCount(s, net, online)
    decreases |s|
  {
    if s != [] {
      var init := s[..|s| - 1];
      var last := s[|s| - 1];
      PassStore(q, st, init, net, online);
      var keys := SyncedKeys(s, net, online);
      if AttemptOf(last, net, online) == Returned(true) {
        assert keys == SyncedKeys(init, net, online) + [Str(last.id)];
        assert keys[..|keys| - 1] == SyncedKeys(init, net, online) && keys[|keys| - 1] == Str(last.id);
      } else {
        assert keys == SyncedKeys(init, net, online);
      }
    }
  }

  lemma {:induction false} SyncedKeysOf(s: seq<QueueItem>, net: QueueItem -> Response, online: bool)
    ensures forall k :: k in SyncedKeys(s, net, online) <==> exists x :: x in s && AttemptOf(x, net, online) == Returned(true) && k == Str(x.id)
    decreases |s|
  {
    if s != [] {
      var init := s[..|s| - 1];
      SyncedKeysOf(init, net, online);
      assert s == init + [s[|s| - 1]];
    }
  }

  // ---------------------------------------------------------------------------
  // What a pass does to each queued item

  lemma {:induction false} ResolvedKeeps(q: seq<QueueItem>, current: JsVal, net: QueueItem -> Response, online: bool, x: QueueItem)
    requires x in q
    ensures !StrictEq(x.schoolId, current) ==> x in Resolved(q, current, net, online)
    ensures StrictEq(x.schoolId, current) && Fate(x, AttemptOf(x, net, online)).Some? ==>
      Fate(x, AttemptOf(x, net, online)).value in Resolved(q, current, net, online)
    decreases |q|
  {
    if q[0] != x {
      ResolvedKeeps(q[1..], current, net, online, x);
    }
  }

  lemma {:induction false} ResolvedDrops(q: seq<QueueItem>, current: JsVal, net: QueueItem -> Response, online: bool, x: QueueItem)
    requires DistinctIds(q) && x in q && StrictEq(x.schoolId, current) && Fate(x, AttemptOf(x, net, online)).None?
    ensures forall y :: y in Resolved(q, current, net, online) ==> y.id != x.id
    decreases |q|
  {
    DistinctTail(q);
    if q[0] != x {
      ResolvedDrops(q[1..], current, net, online, x);
      assert q[0].id != x.id by {
        var k :| 0 <= k < |q| && q[k] == x;
      }
    } else {
      ResolvedIds(q[1..], current, net, online, x.id);
    }
  }

  lemma {:induction false} ResolvedIds(q: seq<QueueItem>, current: JsVal, net: QueueItem -> Response, online: bool, id: string)
    requires forall x :: x in q ==> x.id != id
    ensures forall y :: y in Resolved(q, current, net, online) ==> y.id != id
    decreases |q|
  {
    if q != [] {
      ResolvedIds(q[1..], current, net, online, id);
    }
  }

  /** Items of another school are not attempted and stay queued unchanged. */
  lemma OtherSchoolUntouched(q: seq<QueueItem>, st: Store, current: JsVal, net: QueueItem -> Response, online: bool, x: QueueItem)
    requires DistinctIds(q) && x in q && !StrictEq(x.schoolId, current)
    ensures x in Run(PassState(q, st, 0), Snapshot(q, current), net, online).queue
  {
    PassQueue(q, st, current, net, online);
    ResolvedKeeps(q, current, net, online, x);
  }

  /** An item the server accepted leaves the in-memory queue and the persisted store. */
  lemma SyncedLeaves(q: seq<QueueItem>, st: Store, current: JsVal, net: QueueItem -> Response, online: bool, x: QueueItem)
    requires DistinctIds(q) && Sorted(st) && x in q && StrictEq(x.schoolId, current)
    requires AttemptOf(x, net, online) == Returned(true)
    ensures var p := Run(PassState(q, st, 0), Snapshot(q, current), net, online);
      (forall y :: y in p.queue ==> y.id != x.id) && forall r :: r in p.store ==> Key(r) != Str(x.id)
  {
    var s := Snapshot(q, current);
    PassQueue(q, st, current, net, online);
    ResolvedDrops(q, current, net, online, x);
    PassStore(q, st, s, net, online);
    SyncedKeysOf(s, net, online);
    DeleteAllFacts(st, SyncedKeys(s, net, online));
    assert Str(x.id) in SyncedKeys(s, net, online);
  }

  /** A false result that reaches the retry limit drops the item from memory, but the persisted copy stays. */
  lemma ExhaustedStaysPersisted(q: seq<QueueItem>, st: Store, current: JsVal, net: QueueItem -> Response, online: bool, x: QueueItem)
    requires DistinctIds(q) && Sorted(st) && x in q && StrictEq(x.schoolId, current)
    requires AttemptOf(x, net, online) == Returned(false) && x.retryCount + 1 >= MaxRetries
    ensures var p := Run(PassState(q, st, 0), Snapshot(q, current), net, online);
      (forall y :: y in p.queue ==> y.id != x.id) && forall r :: Key(r) == Str(x.id) ==> (r in p.store <==> r in st)
  {
    var s := Snapshot(q, current);
    PassQueue(q, st, current, net, online);
    ResolvedDrops(q, current, net, online, x);
    PassStore(q, st, s, net, online);
    SyncedKeysOf(s, net, online);
    DeleteAllFacts(st, SyncedKeys(s, net, online));
    if Str(x.id) in SyncedKeys(s, net, online) {
      var y :| y in s && AttemptOf(y, net, online) == Returned(true) && Str(x.id) == Str(y.id);
      SameIdSame(q, x, y);
    }
  }

  lemma FateRetried(x: QueueItem, att: Attempt)
    requires att.Raised? || (att == Returned(false) && x.retryCount + 1 < MaxRetries)
    ensures Fate(x, att) == Some(Bumped(x))
  {
  }

  /** A false result below the limit, and any throw whatever the count, keep the item queued with one more retry. */
  lemma RetriedStaysQueued(q: seq<QueueItem>, st: Store, current: JsVal, net: QueueItem -> Response, online: bool, x: QueueItem)
    requires DistinctIds(q) && x in q && StrictEq(x.schoolId, current)
    requires AttemptOf(x, net, online).Raised? || (AttemptOf(x, net, online) == Returned(false) && x.retryCount + 1 < MaxRetries)
    ensures Bumped(x) in Run(PassState(q, st, 0), Snapshot(q, current), net, online).queue
  {
    FateRetried(x, AttemptOf(x, net, online));
    PassQueue(q, st, current, net, online);
    ResolvedKeeps(q, current, net, online, x);
  }

  // ---------------------------------------------------------------------------
  // handleConflict

  /**
   * handleConflict: the local record wins when its marked_at is a later date
   * than the server's; a date that does not parse (None) compares false, so
   * the server's record wins then.
   */
  function HandleConflict<T>(localTime: Option<int>, serverTime: Option<int>, local: T, server: T): (r: T)
  {
    if localTime.Some? && serverTime.Some? && localTime.value > serverTime.value then local else server
  }

  /** Local wins exactly when both dates parse and local is strictly newer. */
  lemma HandleConflictWinner<T>(localTime: Option<int>, serverTime: Option<int>, local: T, server: T)
    requires local != server
    ensures HandleConflict(localTime, serverTime, local, server) == local <==>
      localTime.Some? && serverTime.Some? && localTime.value > serverTime.value
  {
  }

  /** On numeric timestamps the browser and the backend resolve a conflict the same way. */
  lemma HandleConflictAgreesWithBackend(localTime: int, serverTime: int, localRest: map<string, Json.Value>, serverRest: map<string, Json.Value>)
    ensures var local := SyncConflicts.Stamped(Json.JInt(localTime), localRest);
      var server := SyncConflicts.Stamped(Json.JInt(serverTime), serverRest);
      SyncConflicts.ResolveAttendanceConflict(server, local) == Ok(HandleConflict(Some(localTime), Some(serverTime), local, server))
  {
    SyncConflicts.LastWriteWinsOnNumbers(serverTime, localTime, serverRest, localRest);
  }

  /** Without a local timestamp the browser keeps the server's record where the backend raises. */
  lemma MissingLocalTime(serverTime: int, localRest: map<string, Json.Value>, serverRest: map<string, Json.Value>)
    requires "marked_at" !in localRest
    ensures HandleConflict(None, Some(serverTime), Json.JObj(localRest), SyncConflicts.Stamped(Json.JInt(serverTime), serverRest)) ==
      SyncConflicts.Stamped(Json.JInt(serverTime), serverRest)
    ensures SyncConflicts.ResolveAttendanceConflict(SyncConflicts.Stamped(Json.JInt(serverTime), serverRest), Json.JObj(localRest)).Err?
  {
    SyncConflicts.MissingTimestampRaises(serverRest["marked_at" := Json.JInt(serverTime)], localRest);
  }

  // ---------------------------------------------------------------------------
  // SyncManager

  /** The object queueChange hands to addToStore. */
  function ItemRecord(item: QueueItem): (r: Record)
    ensures Key(r) == Str(item.id) && Prop(r, "retryCount") == Num(item.retryCount)
    ensures Prop(r, "status") == Str(item.status) && Prop(r, "schoolId") == item.schoolId
  {
    map["id" := Str(item.id), "action" := Str(item.action), "data" := item.data, "timestamp" := Str(item.timestamp),
        "retryCount" := Num(item.retryCount), "status" := Str(item.status), "schoolId" := item.schoolId]
  }

  /** The change queueChange builds: pending, not yet retried, stamped with the current school. */
  function NewItem(id: string, action: string, data: JsVal, school: JsVal, now: string): (r: QueueItem)
    ensures r.status == "pending" && r.retryCount == 0 && r.schoolId == CurrentSchool(school)
    ensures r.id == id && r.action == action && r.data == data && r.timestamp == now
  {
    QueueItem(id, action, data, now, 0, "pending", CurrentSchool(school))
  }

  /** A change queued while the school stays the same is attempted on the next pass, unless the school is an object. */
  lemma QueuedIsAttempted(q: seq<QueueItem>, id: string, action: string, data: JsVal, school: JsVal, now: string)
    requires !school.Obj?
    ensures NewItem(id, action, data, school, now) in Snapshot(q + [NewItem(id, action, data, school, now)], CurrentSchool(school))
  {
    var item := NewItem(id, action, data, school, now);
    assert (q + [item])[|q|] == item;
  }

  class SyncManager {
    var queue: seq<QueueItem>
    var isSyncing: bool
    var lastSyncTime: Option<string>
    /** The global IndexedDB manager the queue is persisted to. */
    const db: IndexedDb

    constructor (db: IndexedDb)
      ensures queue == [] && !isSyncing && lastSyncTime == None && this.db == db
    {
      queue := [];
      isSyncing := false;
      lastSyncTime := None;
      this.db := db;
    }

    /** queueChange(action, data): append the change, then persist it; a failed write is only logged. */
    method QueueChange(action: string, data: JsVal, id: string, school: JsVal, now: string)
      requires db.Valid()
      modifies this, db
      ensures db.Valid()
      ensures queue == old(queue) + [NewItem(id, action, data, school, now)]
      ensures isSyncing == old(isSyncing) && lastSyncTime == old(lastSyncTime)
      ensures match Add(old(db.stores)["syncQueue"], Added(ItemRecord(NewItem(id, action, data, school, now)), id, CurrentSchool(school), now))
        case Ok(st) => db.stores == old(db.stores)["syncQueue" := st]
        case Err(_) => db.stores == old(db.stores)
    {
      var change := NewItem(id, action, data, school, now);
      queue := queue + [change];
      var _ := db.AddToStore("syncQueue", ItemRecord(change), id, CurrentSchool(school), now);
    }

    /** One iteration of syncPending's loop, given what syncItem did with the item; returns whether it joins `errors`. */
    method SyncOne(item: QueueItem, att: Attempt) returns (failed: bool)
      requires db.Valid()
      modifies this, db
      ensures db.Valid()
      ensures failed == Failed(item, att)
      ensures queue == QueueStep(old(queue), item, att)
      ensures isSyncing == old(isSyncing) && lastSyncTime == old(lastSyncTime)
      ensures db.stores == old(db.stores)["syncQueue" := StoreStep(old(db.stores)["syncQueue"], item, att)]
    {
      failed := false;
      if att == Returned(true) {
        queue := RemoveId(queue, item.id);
        var _ := db.DeleteFromStore("syncQueue", Str(item.id));
      } else if att == Returned(false) {
        if item.retryCount + 1 >= MaxRetries {
          failed := true;
          queue := RemoveId(queue, item.id);
        } else {
          queue := BumpId(queue, item.id);
        }
      } else {
        queue := BumpId(queue, item.id);
        failed := true;
      }
    }

    /**
     * syncPending(): nothing while a pass runs or when the queue is empty;
     * otherwise attempt every item of the current school in queue order,
     * then clear isSyncing, stamp lastSyncTime and notify.
     */
    method SyncPending(net: QueueItem -> Response, online: bool, school: JsVal, now: string) returns (notice: Option<Notice>)
      requires db.Valid()
      modifies this, db
      ensures db.Valid()
      ensures old(isSyncing) || old(queue) == [] ==>
        notice == None && queue == old(queue) && isSyncing == old(isSyncing) && lastSyncTime == old(lastSyncTime) && db.stores == old(db.stores)
      ensures !old(isSyncing) && old(queue) != [] ==>
        var p := Run(PassState(old(queue), old(db.stores)["syncQueue"], 0), Snapshot(old(queue), CurrentSchool(school)), net, online);
        !isSyncing && lastSyncTime == Some(now) && queue == p.queue && db.stores == old(db.stores)["syncQueue" := p.store] &&
        notice == Some(PassNotice(p.errors, |p.queue|))
    {
      if isSyncing || |queue| == 0 {
        return None;
      }
      isSyncing := true;
      var current := CurrentSchool(school);
      var items := Snapshot(queue, current);
      ghost var start := PassState(queue, db.stores["syncQueue"], 0);
      ghost var m0 := db.stores;
      ghost var p := start;
      var errors := 0;
      var j := 0;
      while j < |items|
        invariant 0 <= j <= |items|
        invariant db.Valid() && isSyncing
        invariant p == Run(start, items[..j], net, online)
        invariant queue == p.queue && errors == p.errors && db.stores == m0["syncQueue" := p.store]
      {
        RunStep(start, items, j, net, online);
        var item := items[j];
        var att := SyncItem(item.action, net(item), online);
        ghost var next := Step(p, item, att);
        assert next.queue == QueueStep(queue, item, att) && next.store == StoreStep(db.stores["syncQueue"], item, att);
        ghost var m1 := db.stores;
        var failed := SyncOne(item, att);
        UpdateTwice(m0, m1, "syncQueue", p.store, next.store);
        if failed {
          errors := errors + 1;
        }
        p := next;
        j := j + 1;
      }
      assert items[..j] == items;
      isSyncing := false;
      lastSyncTime := Some(now);
      notice := Some(PassNotice(errors, |queue|));
    }
  }
}
