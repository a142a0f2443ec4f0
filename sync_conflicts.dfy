// Last-write-wins conflict resolution of backend/sync/conflicts.py. The same
// rule is written out again as SyncService.handle_sync_conflict in
// backend/attendance/services.py, with the client record called the local one;
// both are this one function.

module SyncConflicts {
  import opened Common
  import opened Json

  /**
   * resolve_attendance_conflict: the client record wins only when its
   * marked_at is strictly greater than the server's. The two marked_at values
   * are read client first, and comparing them raises TypeError when Python
   * cannot order them (a missing timestamp gives None).
   */
  function ResolveAttendanceConflict(server: Value, client: Value): (r: Result<Value, string>)
    ensures r.Ok? ==> r.value == client || r.value == server
    ensures r.Ok? <==>
      server.JObj? && client.JObj? &&
      PyGreater(Get(client, "marked_at", JNull).value, Get(server, "marked_at", JNull).value).Ok?
    ensures r.Ok? && r.value != server ==> PyGreater(Get(client, "marked_at", JNull).value, Get(server, "marked_at", JNull).value) == Ok(true)
  {
    match Get(client, "marked_at", JNull)
    case Err(e) => Err(e)
    case Ok(clientTime) =>
      match Get(server, "marked_at", JNull)
      case Err(e) => Err(e)
      case Ok(serverTime) =>
        match PyGreater(clientTime, serverTime)
        case Err(e) => Err(e)
        case Ok(newer) => Ok(if newer then client else server)
  }

  /** Two dicts with the given marked_at values. */
  function Stamped(markedAt: Value, rest: map<string, Value>): Value
  {
    JObj(rest["marked_at" := markedAt])
  }

  /** ISO timestamps: the client wins exactly when its text sorts after the server's; a tie keeps the server's record. */
  lemma LastWriteWinsOnText(serverTime: string, clientTime: string, serverRest: map<string, Value>, clientRest: map<string, Value>)
    ensures var server := Stamped(JStr(serverTime), serverRest);
      var client := Stamped(JStr(clientTime), clientRest);
      ResolveAttendanceConflict(server, client) == Ok(if StrLess(serverTime, clientTime) then client else server)
    ensures serverTime == clientTime ==>
      ResolveAttendanceConflict(Stamped(JStr(serverTime), serverRest), Stamped(JStr(clientTime), clientRest)) ==
        Ok(Stamped(JStr(serverTime), serverRest))
  {
    StrLessTrichotomy(serverTime, clientTime);
  }

  /** Numeric timestamps: strictly newer wins, a tie or an older client keeps the server's record. */
  lemma LastWriteWinsOnNumbers(serverTime: int, clientTime: int, serverRest: map<string, Value>, clientRest: map<string, Value>)
    ensures var server := Stamped(JInt(serverTime), serverRest);
      var client := Stamped(JInt(clientTime), clientRest);
      ResolveAttendanceConflict(server, client) == Ok(if clientTime > serverTime then client else server)
  {
  }

  /** A record without marked_at cannot be compared: the resolution raises. */
  lemma MissingTimestampRaises(server: map<string, Value>, client: map<string, Value>)
    requires "marked_at" !in client
    ensures ResolveAttendanceConflict(JObj(server), JObj(client)).Err?
  {
  }
}
