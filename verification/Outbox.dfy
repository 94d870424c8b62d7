/** The kiosk's durable scan queue: one table, the statements on it, and the drain that empties it.
    Instants are ticks of the kiosk's clock (IsoTimestamp shows that ordering their text is ordering them). */
module Outbox {
  import opened Options

  type EventId = nat

  datatype Intent = In | Out

  datatype RowState = Pending | Dead

  datatype Row = Row(
    participant: nat, scannedAt: int, attempts: nat, lastStatus: Option<int>, state: RowState,
    token: Option<string>, lastAttemptAt: Option<int>, intent: Intent, clockSuspect: bool, closeConfirmed: bool)

  type Rows = map<EventId, Row>

  // ---------------------------------------------------------------------------
  // Responses
  // ---------------------------------------------------------------------------

  datatype Body = NotAnObject | Object(kind: string, hasError: bool, token: Option<string>, confirmSeconds: Option<int>)

  datatype Outcome = Ack | Retry | DeadLetter

  predicate HasType(body: Body, kind: string) {
    body.Object? && body.kind == kind
  }

  /** `classify_response`, test by test. */
  function ClassifyResponse(status: int, body: Body): (r: Outcome)
    ensures r == Ack <==>
              && !(body.Object? && body.kind == "warming")
              && (status in {200, 201} || (status == 400 && body.Object? && body.kind == "warning"))
    ensures r == DeadLetter <==>
              && !(body.Object? && body.kind == "warming")
              && (status in {404, 409} || (status == 400 && !(body.Object? && body.kind == "warning")))
  {
    if HasType(body, "warming") then Retry
    else if status == 0 then Retry
    else if status == 200 || status == 201 then Ack
    else if status == 401 then Retry
    else if status == 429 then Retry
    else if status == 426 then Retry
    else if status == 400 && HasType(body, "warning") then Ack
    else if status == 400 || status == 404 || status == 409 then DeadLetter
    else if status == 503 then Retry
    else if 500 <= status < 600 then Retry
    else Retry
  }

  // ---------------------------------------------------------------------------
  // The statements
  // ---------------------------------------------------------------------------

  predicate IsPending(rows: Rows, id: EventId) {
    id in rows && rows[id].state == Pending
  }

  predicate IsDead(rows: Rows, id: EventId) {
    id in rows && rows[id].state == Dead
  }

  predicate HasPendingFor(rows: Rows, participant: nat) {
    exists id | id in rows :: rows[id].state == Pending && rows[id].participant == participant
  }

  /** First by `ORDER BY scanned_at ASC` (any of them, on a tie). */
  ghost predicate IsOldestPending(rows: Rows, id: EventId) {
    IsPending(rows, id) && forall other | IsPending(rows, other) :: rows[id].scannedAt <= rows[other].scannedAt
  }

  /** `ORDER BY (last_attempt_at IS NOT NULL), last_attempt_at ASC, scanned_at ASC`. */
  predicate RotatesBefore(a: Row, b: Row) {
    match (a.lastAttemptAt, b.lastAttemptAt)
    case (None, None) => a.scannedAt <= b.scannedAt
    case (None, Some(_)) => true
    case (Some(_), None) => false
    case (Some(s), Some(t)) => s < t || (s == t && a.scannedAt <= b.scannedAt)
  }

  ghost predicate IsNextDead(rows: Rows, id: EventId) {
    IsDead(rows, id) && forall other | IsDead(rows, other) :: RotatesBefore(rows[id], rows[other])
  }

  function Enqueued(rows: Rows, id: EventId, row: Row): Rows {
    if id in rows then rows else rows[id := row]
  }

  function Bumped(rows: Rows, id: EventId, status: int): Rows {
    if id in rows then rows[id := rows[id].(attempts := rows[id].attempts + 1, lastStatus := Some(status))] else rows
  }

  function MarkedDead(rows: Rows, id: EventId, status: int): Rows {
    if id in rows then rows[id := rows[id].(state := Dead, lastStatus := Some(status))] else rows
  }

  function Stamped(rows: Rows, id: EventId, now: int): Rows {
    if id in rows then rows[id := rows[id].(lastAttemptAt := Some(now))] else rows
  }

  function Suspected(rows: Rows): Rows {
    map id | id in rows :: if rows[id].state == Pending then rows[id].(clockSuspect := true) else rows[id]
  }

  /** What the drain does to the table with the response to a pending row. */
  function Settled(rows: Rows, id: EventId, status: int, body: Body): Rows {
    match ClassifyResponse(status, body)
    case Ack => rows - {id}
    case DeadLetter => MarkedDead(rows, id, status)
    case Retry => Bumped(rows, id, status)
  }

  /** ... and to a dead one: any 2xx deletes it, unclassified. */
  function DeadSettled(rows: Rows, id: EventId, status: int, now: int): Rows {
    if 200 <= status < 300 then rows - {id} else Stamped(rows, id, now)
  }

  function NewRow(participant: nat, scannedAt: int, token: Option<string>, intent: Intent, suspect: bool, closeConfirmed: bool): Row {
    Row(participant, scannedAt, 0, None, Pending, token, None, intent, suspect, closeConfirmed)
  }

  class Table {
    var rows: Rows

    constructor ()
      ensures rows == map[]
    {
      rows := map[];
    }

    /** `INSERT OR IGNORE`. */
    method Enqueue(id: EventId, row: Row)
      modifies this
      ensures rows == Enqueued(old(rows), id, row)
    {
      if id !in rows {
        rows := rows[id := row];
      }
    }

    method HasPendingForParticipant(participant: nat) returns (found: bool)
      ensures found == HasPendingFor(rows, participant)
    {
      found := false;
      var ids := rows.Keys;
      while ids != {}
        invariant ids <= rows.Keys && !found
        invariant forall id | id in rows && id !in ids :: !(rows[id].state == Pending && rows[id].participant == participant)
        decreases ids
      {
        var id :| id in ids;
        if rows[id].state == Pending && rows[id].participant == participant {
          return true;
        }
        ids := ids - {id};
      }
    }

    /** The head of `pending_rows`, the only row of it the drain uses. */
    method PendingHead() returns (head: Option<EventId>)
      ensures head.None? <==> forall id :: !IsPending(rows, id)
      ensures head.Some? ==> IsOldestPending(rows, head.value)
    {
      head := None;
      var ids := rows.Keys;
      while ids != {}
        invariant ids <= rows.Keys
        invariant head.Some? ==> IsPending(rows, head.value)
        invariant forall id | IsPending(rows, id) && id !in ids :: head.Some? && rows[head.value].scannedAt <= rows[id].scannedAt
        decreases ids
      {
        var id :| id in ids;
        if rows[id].state == Pending && (head == None || rows[id].scannedAt < rows[head.value].scannedAt) {
          head := Some(id);
        }
        ids := ids - {id};
      }
    }

    /** `dead_rows`: the one row the next dead pass will send. */
    method NextDead() returns (next: Option<EventId>)
      ensures next.None? <==> forall id :: !IsDead(rows, id)
      ensures next.Some? ==> IsNextDead(rows, next.value)
    {
      next := None;
      var ids := rows.Keys;
      while ids != {}
        invariant ids <= rows.Keys
        invariant next.Some? ==> IsDead(rows, next.value)
        invariant forall id | IsDead(rows, id) && id !in ids :: next.Some? && RotatesBefore(rows[next.value], rows[id])
        decreases ids
      {
        var id :| id in ids;
        if rows[id].state == Dead && (next == None || !RotatesBefore(rows[next.value], rows[id])) {
          next := Some(id);
        }
        ids := ids - {id};
      }
    }

    method MarkClockSuspect()
      modifies this
      ensures rows == Suspected(old(rows))
    {
      rows := map id | id in rows :: if rows[id].state == Pending then rows[id].(clockSuspect := true) else rows[id];
    }

    method Ack(id: EventId)
      modifies this
      ensures rows == old(rows) - {id}
    {
      rows := rows - {id};
    }

    method BumpAttempt(id: EventId, status: int)
      modifies this
      ensures rows == Bumped(old(rows), id, status)
    {
      if id in rows {
        rows := rows[id := rows[id].(attempts := rows[id].attempts + 1, lastStatus := Some(status))];
      }
    }

    method MarkDead(id: EventId, status: int)
      modifies this
      ensures rows == MarkedDead(old(rows), id, status)
    {
      if id in rows {
        rows := rows[id := rows[id].(state := Dead, lastStatus := Some(status))];
      }
    }

    method MarkDeadAttempt(id: EventId, now: int)
      modifies this
      ensures rows == Stamped(old(rows), id, now)
    {
      if id in rows {
        rows := rows[id := rows[id].(lastAttemptAt := Some(now))];
      }
    }
  }

  // ---------------------------------------------------------------------------
  // Backoff
  // ---------------------------------------------------------------------------

  const MIN_BACKOFF := 30.0
  const MAX_BACKOFF := 300.0
  const PACE := 1.0

  predicate InRange(backoff: real) {
    MIN_BACKOFF <= backoff <= MAX_BACKOFF
  }

  function Clamp(x: real): (r: real)
    ensures InRange(r)
    ensures InRange(x) ==> r == x
  {
    if x < MIN_BACKOFF then MIN_BACKOFF else if x > MAX_BACKOFF then MAX_BACKOFF else x
  }

  function Jittered(base: real, jitter: real): (waited: real)
    requires InRange(base) && -0.1 <= jitter <= 0.1
    ensures 0.9 * base <= waited <= 1.1 * base
  {
    JitterIsSmall(base, jitter);
    base + base * jitter
  }

  /** The wait is what the server asked for, or else the current backoff, between half a minute and five, give or take the
      jitter. */
  predicate WaitsFor(wait: real, retryAfter: Option<real>, current: real, jitter: real) {
    var asked := if retryAfter.Some? then retryAfter.value else current;
    var base := if asked < 30.0 then 30.0 else if asked > 300.0 then 300.0 else asked;
    wait == base + base * jitter
  }

  /** `_backoff_seconds`, for a Retry-After that parses (or not) and a jitter drawn from [-0.1, 0.1]. */
  function BackoffSeconds(retryAfter: Option<real>, current: real, jitter: real): (wait: real)
    requires -0.1 <= jitter <= 0.1
    ensures WaitsFor(wait, retryAfter, current, jitter) && 27.0 <= wait <= 330.0
  {
    var waited := Jittered(Clamp(if retryAfter.Some? then retryAfter.value else current), jitter);
    if waited < 1.0 then 1.0 else waited
  }

  lemma JitterIsSmall(base: real, jitter: real)
    requires base >= 0.0 && -0.1 <= jitter <= 0.1
    ensures -0.1 * base <= base * jitter <= 0.1 * base
  {
    assert base * (jitter + 0.1) >= 0.0 && base * (0.1 - jitter) >= 0.0;
  }

  function Doubled(backoff: real): (r: real)
    ensures r <= 2.0 * backoff && r <= 300.0 && (r == 2.0 * backoff || r == 300.0)
    ensures InRange(backoff) ==> InRange(r)
  {
    if backoff * 2.0 < MAX_BACKOFF then backoff * 2.0 else MAX_BACKOFF
  }

  // ---------------------------------------------------------------------------
  // One turn of the drain
  // ---------------------------------------------------------------------------

  /** What the network says to the one request a turn may send. */
  datatype Response = Response(status: int, body: Body, retryAfter: Option<real>)

  /** What a turn sends: a pending row as it stands, or a dead one. */
  datatype Sent = Nothing | Replay(id: EventId, row: Row) | DeadSend(id: EventId, row: Row)

  /** The loop variables of `replay_drain`. */
  class Drain {
    var backoff: real
    var deadBackoff: real

    constructor ()
      ensures InRange(backoff) && InRange(deadBackoff)
    {
      backoff, deadBackoff := MIN_BACKOFF, MIN_BACKOFF;
    }

    /** `_send_dead_row`. */
    method SendDeadRow(outbox: Table, response: Response, jitter: real, now: int) returns (sent: Sent, wait: Option<real>, next: real)
      requires -0.1 <= jitter <= 0.1 && InRange(deadBackoff)
      modifies outbox
      ensures sent == Nothing <==> forall id :: !IsDead(old(outbox.rows), id)
      ensures sent == Nothing ==> outbox.rows == old(outbox.rows)
      ensures !sent.Replay?
      ensures sent.DeadSend? ==>
                && IsNextDead(old(outbox.rows), sent.id)
                && outbox.rows == DeadSettled(old(outbox.rows), sent.id, response.status, now)
      ensures sent.DeadSend? ==> sent.row == old(outbox.rows)[sent.id]
      ensures InRange(next)
      ensures wait.Some? ==> 27.0 <= wait.value <= 330.0
      ensures wait.Some? <==> sent.DeadSend? && !(200 <= response.status < 300)
      ensures wait.Some? ==> WaitsFor(wait.value, response.retryAfter, deadBackoff, jitter)
      ensures next == if wait.None? then 30.0 else if 2.0 * deadBackoff < 300.0 then 2.0 * deadBackoff else 300.0
    {
      var id := outbox.NextDead();
      if id == None {
        return Nothing, None, MIN_BACKOFF;
      }
      sent := DeadSend(id.value, outbox.rows[id.value]);
      if 200 <= response.status < 300 {
        outbox.Ack(id.value);
        return sent, None, MIN_BACKOFF;
      }
      outbox.MarkDeadAttempt(id.value, now);
      return sent, Some(BackoffSeconds(response.retryAfter, deadBackoff, jitter)), Doubled(deadBackoff);
    }

    /** One iteration: nothing at all in the closed window or before the server advertises replays, else the oldest
        pending row, else one dead row. */
    method Turn(outbox: Table, closedWindow: bool, protocolOk: bool, response: Response, jitter: real, now: int)
      returns (sent: Sent, sleep: real)
      requires -0.1 <= jitter <= 0.1 && InRange(backoff) && InRange(deadBackoff)
      modifies this, outbox
      ensures InRange(backoff) && InRange(deadBackoff)
      ensures 1.0 <= sleep <= 330.0
      ensures closedWindow || !protocolOk ==> sent == Nothing
      ensures sent == Nothing ==> outbox.rows == old(outbox.rows)
      ensures sent.Replay? ==>
                && IsOldestPending(old(outbox.rows), sent.id)
                && outbox.rows == Settled(old(outbox.rows), sent.id, response.status, response.body)
      ensures sent.DeadSend? ==>
                && (forall id :: !IsPending(old(outbox.rows), id))
                && IsNextDead(old(outbox.rows), sent.id)
                && outbox.rows == DeadSettled(old(outbox.rows), sent.id, response.status, now)
      ensures !closedWindow && protocolOk && old(outbox.rows) != map[] ==> sent != Nothing
      // What is sent, and what the answer does to that row, no other row being touched.
      ensures !sent.Nothing? ==> sent.id in old(outbox.rows) && sent.row == old(outbox.rows)[sent.id]
      ensures sent.Replay? ==>
                outbox.rows == match ClassifyResponse(response.status, response.body)
                               case Ack => old(outbox.rows) - {sent.id}
                               case DeadLetter =>
                                 old(outbox.rows)[sent.id := sent.row.(state := Dead, lastStatus := Some(response.status))]
                               case Retry =>
                                 old(outbox.rows)[sent.id := sent.row.(attempts := sent.row.attempts + 1,
                                                                       lastStatus := Some(response.status))]
      ensures sent.DeadSend? ==>
                outbox.rows == if 200 <= response.status < 300 then old(outbox.rows) - {sent.id}
                               else old(outbox.rows)[sent.id := sent.row.(lastAttemptAt := Some(now))]
      // How long it sleeps, and from where it backs off next.
      ensures closedWindow || !protocolOk ==> sleep == 1.0 && backoff == old(backoff) && deadBackoff == old(deadBackoff)
      ensures !closedWindow && protocolOk && sent.Nothing? ==> sleep == 1.0 && backoff == 30.0 && deadBackoff == 30.0
      ensures sent.Replay? ==>
                && deadBackoff == old(deadBackoff)
                && (if ClassifyResponse(response.status, response.body) == Retry
                    then WaitsFor(sleep, response.retryAfter, old(backoff), jitter)
                         && backoff == if 2.0 * old(backoff) < 300.0 then 2.0 * old(backoff) else 300.0
                    else sleep == 1.0 && backoff == 30.0)
      ensures sent.DeadSend? ==>
                && backoff == 30.0
                && (if 200 <= response.status < 300 then sleep == 1.0 && deadBackoff == 30.0
                    else WaitsFor(sleep, response.retryAfter, old(deadBackoff), jitter)
                         && deadBackoff == if 2.0 * old(deadBackoff) < 300.0 then 2.0 * old(deadBackoff) else 300.0)
    {
      if closedWindow || !protocolOk {
        return Nothing, PACE;
      }
      var head := outbox.PendingHead();
      if head == None {
        backoff := MIN_BACKOFF;
        var wait, next;
        sent, wait, next := SendDeadRow(outbox, response, jitter, now);
        deadBackoff := next;
        sleep := if wait.Some? then wait.value else PACE;
        if sent == Nothing {
          assert forall id | id in outbox.rows :: IsPending(outbox.rows, id) || IsDead(outbox.rows, id);
        }
        return;
      }
      var id := head.value;
      sent := Replay(id, outbox.rows[id]);
      match ClassifyResponse(response.status, response.body)
      case Ack =>
        outbox.Ack(id);
        backoff := MIN_BACKOFF;
        sleep := PACE;
      case DeadLetter =>
        outbox.MarkDead(id, response.status);
        backoff := MIN_BACKOFF;
        sleep := PACE;
      case Retry =>
        outbox.BumpAttempt(id, response.status);
        sleep := BackoffSeconds(response.retryAfter, backoff, jitter);
        backoff := Doubled(backoff);
    }
  }

  /** The answers on which the unclassified test deletes a dead row that nobody has acknowledged. */
  predicate DeletesUnacknowledged(status: int, body: Body) {
    200 <= status < 300 && (status > 201 || HasType(body, "warming"))
  }

  /** "Deleted only on an acknowledgement" holds of a dead row exactly off those answers. */
  lemma DeadDeletedOnlyOnAckIff(rows: Rows, id: EventId, status: int, body: Body, now: int)
    requires IsDead(rows, id)
    ensures (id !in DeadSettled(rows, id, status, now) ==> ClassifyResponse(status, body) == Ack)
            <==> !DeletesUnacknowledged(status, body)
  {
  }

  /** A captive portal's 200 deletes a dead row that nobody has taken. */
  lemma DeadRowsGoUnacknowledged(rows: Rows, id: EventId, now: int)
    requires IsDead(rows, id)
    ensures var captivePortal := Object("warming", true, None, None);
            ClassifyResponse(200, captivePortal) == Retry && id !in DeadSettled(rows, id, 200, now)
  {
  }

  /** A pending row that was not acknowledged is still there. */
  lemma PendingRowsNeedAnAck(rows: Rows, id: EventId, status: int, body: Body, other: EventId)
    requires other in rows
    ensures other !in Settled(rows, id, status, body) <==> other == id && ClassifyResponse(status, body) == Ack
  {
  }

  // ---------------------------------------------------------------------------
  // Dead-row rotation
  // ---------------------------------------------------------------------------

  function DeadIds(rows: Rows): set<EventId> {
    set id | id in rows && rows[id].state == Dead
  }

  function DeadPart(rows: Rows): Rows {
    map id | id in rows && rows[id].state == Dead :: rows[id]
  }

  /** A failed dead send: the table it found, the row it took, the stamp it left. */
  datatype FailedSend = FailedSend(rows: Rows, id: EventId, at: int)

  /** Failed dead sends, each finding the dead rows as the one before left them, whatever else happened in between:
      each takes the next row of the rotation and stamps it later than every stamp before. */
  ghost predicate IsRotation(sends: seq<FailedSend>) {
    && (forall i | 0 <= i < |sends| :: IsNextDead(sends[i].rows, sends[i].id))
    && (forall i | 0 <= i < |sends| - 1 ::
          DeadPart(sends[i + 1].rows) == DeadPart(Stamped(sends[i].rows, sends[i].id, sends[i].at)))
    && (forall i, j | 0 <= i < j < |sends| :: sends[i].at < sends[j].at)
    && (forall i | 0 <= i < |sends| :: StampedBefore(sends[0].rows, sends[i].at))
  }

  /** Every dead row was last tried before now. */
  ghost predicate StampedBefore(rows: Rows, now: int) {
    forall id | IsDead(rows, id) && rows[id].lastAttemptAt.Some? :: rows[id].lastAttemptAt.value < now
  }

  lemma StampedDeadPart(rows: Rows, id: EventId, now: int)
    requires IsDead(rows, id)
    ensures DeadPart(Stamped(rows, id, now)) == DeadPart(rows)[id := rows[id].(lastAttemptAt := Some(now))]
  {
  }

  predicate Picked(sends: seq<FailedSend>, n: nat, id: EventId)
    requires n <= |sends|
  {
    exists i | 0 <= i < n :: sends[i].id == id
  }

  /** After n failed sends the rows picked carry the new stamps, and the others what they carried. */
  lemma {:induction false} RotationState(sends: seq<FailedSend>, n: nat, id: EventId)
    requires IsRotation(sends) && n < |sends|
    ensures DeadPart(sends[n].rows).Keys == DeadPart(sends[0].rows).Keys
    ensures IsDead(sends[0].rows, id) && !Picked(sends, n, id) ==> DeadPart(sends[n].rows)[id] == sends[0].rows[id]
    ensures IsDead(sends[0].rows, id) && Picked(sends, n, id) ==>
              exists i | 0 <= i < n :: DeadPart(sends[n].rows)[id].lastAttemptAt == Some(sends[i].at)
  {
    if n > 0 {
      var last := sends[n - 1];
      RotationState(sends, n - 1, id);
      StampedDeadPart(last.rows, last.id, last.at);
      var before, now := DeadPart(last.rows), DeadPart(sends[n - 1 + 1].rows);
      assert now == before[last.id := last.rows[last.id].(lastAttemptAt := Some(last.at))];
      assert now.Keys == before.Keys;
      if IsDead(sends[0].rows, id) && id != last.id && Picked(sends, n, id) {
        var i :| 0 <= i < n - 1 && before[id].lastAttemptAt == Some(sends[i].at);
        assert now[id].lastAttemptAt == Some(sends[i].at);
      }
    }
  }

  /** Until all dead rows have had their turn, the next one picked has not. */
  lemma PickIsNew(sends: seq<FailedSend>, n: nat)
    requires IsRotation(sends) && n < |sends| && n < |DeadIds(sends[0].rows)|
    ensures !Picked(sends, n, sends[n].id)
  {
    var other := SomeoneUnpicked(DeadIds(sends[0].rows), sends, n);
    RotationState(sends, n, other);
    RotationState(sends, n, sends[n].id);
    assert other in DeadPart(sends[n].rows) && sends[n].id in DeadPart(sends[n].rows);
    assert RotatesBefore(sends[n].rows[sends[n].id], sends[n].rows[other]);
  }

  lemma SomeoneUnpicked(dead: set<EventId>, sends: seq<FailedSend>, n: nat) returns (other: EventId)
    requires n <= |sends| && n < |dead|
    ensures other in dead && !Picked(sends, n, other)
  {
    var picked := set i | 0 <= i < n :: sends[i].id;
    ImageIsSmall(sends, n);
    if dead <= picked {
      SubsetIsSmall(dead, picked);
    }
    other :| other in dead && other !in picked;
  }

  lemma {:induction false} ImageIsSmall(sends: seq<FailedSend>, n: nat)
    requires n <= |sends|
    ensures |set i | 0 <= i < n :: sends[i].id| <= n
  {
    var all := set i | 0 <= i < n :: sends[i].id;
    if n > 0 {
      ImageIsSmall(sends, n - 1);
      var fewer := set i | 0 <= i < n - 1 :: sends[i].id;
      assert all == fewer + {sends[n - 1].id};
    } else {
      assert all == {};
    }
  }

  lemma SubsetIsSmall(a: set<EventId>, b: set<EventId>)
    requires a <= b
    ensures |a| <= |b|
  {
    assert b == a + (b - a);
  }

  /** With k dead rows and no new ones, k failed sends in a row go to k different rows: nobody is starved. */
  lemma RotationDoesNotStarve(sends: seq<FailedSend>, i: nat, j: nat)
    requires i < j < |sends| && IsRotation(sends) && |sends| <= |DeadIds(sends[0].rows)|
    ensures sends[i].id != sends[j].id
  {
    PickIsNew(sends, j);
  }
}
