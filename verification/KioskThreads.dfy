/** The kiosk's two threads over one outbox: the scanner runs `handle_scan`, the drain runs `replay_drain`.
    Each outbox statement is atomic (the outbox lock); everything between two statements may interleave. */
module KioskThreads {
  import opened Options
  import opened Outbox

  datatype Scan = Scan(id: EventId, row: Row)

  datatype Scanner =
    | Idle
    | Taken(scan: Scan)                    // has its id and time
    | Clear(scan: Scan)                      // found no pending predecessor: about to post live
    | Answered(scan: Scan, outcome: Outcome)
    | Queueing(scan: Scan)                   // about to insert

  datatype Drainer =
    | Resting
    | Holding(id: EventId)                   // rows[0] of the pending rows it fetched
    | Replied(id: EventId, status: int, body: Body)
    | NonePending                            // fetched no pending row, now at the dead pass
    | HoldingDead(id: EventId)
    | DeadReplied(id: EventId, status: int, body: Body)

  /** `clock` is the last time read; `inserted` and `removed` remember every id that ever entered or left the table. */
  datatype Kiosk = Kiosk(rows: Rows, clock: int, nextId: EventId, scanner: Scanner, drain: Drainer,
                         inserted: set<EventId>, removed: set<EventId>)

  datatype Move =
    | TakeScan(participant: nat, now: int, token: Option<string>, intent: Intent, suspect: bool, closeConfirmed: bool)
    | CheckPredecessor
    | PostLive(status: int, body: Body)
    | FinishLive
    | Insert
    | Fetch(id: EventId)
    | FetchNothing
    | PostReplay(status: int, body: Body)
    | Settle
    | FetchDead(id: EventId)
    | FetchNoDead
    | PostDead(status: int, body: Body)
    | SettleDead(now: int)
    | Restart                                // the process dies and comes back, with no scan in memory

  /** The network is free to answer anything, and the clock to show anything. */
  ghost predicate Can(k: Kiosk, m: Move) {
    match m
    case TakeScan(_, _, _, _, _, _) => k.scanner.Idle?
    case CheckPredecessor => k.scanner.Taken?
    case PostLive(_, _) => k.scanner.Clear?
    case FinishLive => k.scanner.Answered?
    case Insert => k.scanner.Queueing?
    case Fetch(id) => k.drain.Resting? && IsOldestPending(k.rows, id)
    case FetchNothing => k.drain.Resting? && forall id :: !IsPending(k.rows, id)
    case PostReplay(_, _) => k.drain.Holding?
    case Settle => k.drain.Replied?
    case FetchDead(id) => k.drain.NonePending? && IsNextDead(k.rows, id)
    case FetchNoDead => k.drain.NonePending? && forall id :: !IsDead(k.rows, id)
    case PostDead(_, _) => k.drain.HoldingDead?
    case SettleDead(_) => k.drain.DeadReplied?
    case Restart => k.scanner.Idle?
  }

  function Do(k: Kiosk, m: Move): Kiosk {
    match m
    case TakeScan(participant, now, token, intent, suspect, closeConfirmed) =>
      var scan := Scan(k.nextId, NewRow(participant, now, token, intent, suspect, closeConfirmed));
      k.(clock := now, nextId := k.nextId + 1, scanner := Taken(scan), rows := if suspect then Suspected(k.rows) else k.rows)
    case CheckPredecessor =>
      if !k.scanner.Taken? then k
      else
        var scan := k.scanner.scan;
        k.(scanner := if HasPendingFor(k.rows, scan.row.participant) then Queueing(scan) else Clear(scan))
    case PostLive(status, body) =>
      if !k.scanner.Clear? then k else k.(scanner := Answered(k.scanner.scan, ClassifyResponse(status, body)))
    case FinishLive =>
      if !k.scanner.Answered? then k
      else k.(scanner := if k.scanner.outcome == Retry then Queueing(k.scanner.scan) else Idle)
    case Insert =>
      if !k.scanner.Queueing? then k
      else
        var scan := k.scanner.scan;
        k.(rows := Enqueued(k.rows, scan.id, scan.row), inserted := k.inserted + {scan.id}, scanner := Idle)
    case Fetch(id) => k.(drain := Holding(id))
    case FetchNothing => k.(drain := NonePending)
    case PostReplay(status, body) => if !k.drain.Holding? then k else k.(drain := Replied(k.drain.id, status, body))
    case Settle =>
      if !k.drain.Replied? then k
      else
        var d := k.drain;
        var gone := if ClassifyResponse(d.status, d.body) == Ack then {d.id} else {};
        k.(rows := Settled(k.rows, d.id, d.status, d.body), removed := k.removed + gone, drain := Resting)
    case FetchDead(id) => k.(drain := HoldingDead(id))
    case FetchNoDead => k.(drain := Resting)
    case PostDead(status, body) =>
      if !k.drain.HoldingDead? then k else k.(drain := DeadReplied(k.drain.id, status, body))
    case SettleDead(now) =>
      if !k.drain.DeadReplied? then k
      else
        var d := k.drain;
        var gone := if 200 <= d.status < 300 then {d.id} else {};
        k.(rows := DeadSettled(k.rows, d.id, d.status, now), removed := k.removed + gone, drain := Resting, clock := now)
    case Restart => k.(drain := Resting)
  }

  // ---------------------------------------------------------------------------
  // What always holds, whatever the clock does
  // ---------------------------------------------------------------------------

  predicate InHand(scanner: Scanner) {
    !scanner.Idle?
  }

  /** Nothing is lost or duplicated: what ever entered is in the table or has left it, never both. Ids grow with the
      scans, and the scan in hand is the newest. */
  ghost predicate Accounted(k: Kiosk) {
    && k.inserted == k.rows.Keys + k.removed
    && k.rows.Keys !! k.removed
    && (forall id | id in k.inserted :: id < k.nextId)
    && (InHand(k.scanner) ==> k.scanner.scan.id < k.nextId && forall id | id in k.inserted :: id < k.scanner.scan.id)
    && (InHand(k.scanner) ==> k.scanner.scan.row.state == Pending && k.scanner.scan.row.lastAttemptAt == None)
  }

  /** No row older than this one was pending with an earlier time when it was fetched. */
  ghost predicate FirstOfOlder(rows: Rows, id: EventId) {
    IsPending(rows, id) && forall other: EventId | IsPending(rows, other) && other < id :: rows[id].scannedAt <= rows[other].scannedAt
  }

  ghost predicate ThreadsAreRight(k: Kiosk) {
    && (k.scanner.Clear? ==> !HasPendingFor(k.rows, k.scanner.scan.row.participant))
    && (k.drain.Holding? || k.drain.Replied? ==> FirstOfOlder(k.rows, k.drain.id))
    && (k.drain.HoldingDead? || k.drain.DeadReplied? ==> IsNextDead(k.rows, k.drain.id))
    && (forall id | IsPending(k.rows, id) :: k.rows[id].lastAttemptAt == None)
  }

  ghost predicate Inv(k: Kiosk) {
    Accounted(k) && ThreadsAreRight(k)
  }

  function Fresh(clock: int): Kiosk {
    Kiosk(map[], clock, 0, Idle, Resting, {}, {})
  }

  lemma FreshIsFine(clock: int)
    ensures Inv(Fresh(clock)) && InScanOrder(Fresh(clock))
  {
  }

  predicate IsScannerMove(m: Move) {
    m.TakeScan? || m.CheckPredecessor? || m.PostLive? || m.FinishLive? || m.Insert?
  }

  lemma InsertKeepsInv(k: Kiosk)
    requires Inv(k) && k.scanner.Queueing?
    ensures Inv(Do(k, Insert))
  {
    var scan, next := k.scanner.scan, Do(k, Insert);
    assert next.rows == k.rows[scan.id := scan.row];
    assert Accounted(next);
  }

  /** The scanner's moves change the table only by inserting the scan in hand (and by marking rows suspect). */
  lemma ScannerMoveKeepsInv(k: Kiosk, m: Move)
    requires Inv(k) && Can(k, m) && IsScannerMove(m)
    ensures Inv(Do(k, m))
  {
    var next := Do(k, m);
    if m.Insert? {
      InsertKeepsInv(k);
    } else {
      assert next.rows.Keys == k.rows.Keys;
      assert forall id | id in k.rows :: next.rows[id] == k.rows[id].(clockSuspect := next.rows[id].clockSuspect);
    }
  }

  lemma SettleKeepsInv(k: Kiosk, m: Move)
    requires Inv(k) && Can(k, m) && (m.Settle? || m.SettleDead?)
    ensures Inv(Do(k, m))
  {
    var next := Do(k, m);
    assert forall id | id in next.rows :: id in k.rows && next.rows[id].participant == k.rows[id].participant;
    assert Accounted(next);
  }

  /** The drain's moves only remove rows, mark them, or change nothing. */
  lemma DrainMoveKeepsInv(k: Kiosk, m: Move)
    requires Inv(k) && Can(k, m) && !IsScannerMove(m)
    ensures Inv(Do(k, m))
  {
    if m.Settle? || m.SettleDead? {
      SettleKeepsInv(k, m);
    } else {
      assert Do(k, m).rows == k.rows;
    }
  }

  lemma MoveKeepsInv(k: Kiosk, m: Move)
    requires Inv(k) && Can(k, m)
    ensures Inv(Do(k, m))
  {
    if IsScannerMove(m) {
      ScannerMoveKeepsInv(k, m);
    } else {
      DrainMoveKeepsInv(k, m);
    }
  }

  ghost predicate IsRun(k: Kiosk, moves: seq<Move>)
    decreases |moves|
  {
    moves != [] ==> Can(k, moves[0]) && IsRun(Do(k, moves[0]), moves[1..])
  }

  function Run(k: Kiosk, moves: seq<Move>): Kiosk
    decreases |moves|
  {
    if moves == [] then k else Run(Do(k, moves[0]), moves[1..])
  }

  lemma {:induction false} RunKeepsInv(k: Kiosk, moves: seq<Move>)
    requires Inv(k) && IsRun(k, moves)
    ensures Inv(Run(k, moves))
    decreases |moves|
  {
    if moves != [] {
      MoveKeepsInv(k, moves[0]);
      RunKeepsInv(Do(k, moves[0]), moves[1..]);
    }
  }

  // ---------------------------------------------------------------------------
  // Order, with a clock that does not step back
  // ---------------------------------------------------------------------------

  /** The clock may stand still but not step back. */
  ghost predicate SteadyClock(k: Kiosk, moves: seq<Move>)
    decreases |moves|
  {
    moves != [] ==>
      && (moves[0].TakeScan? || moves[0].SettleDead? ==> k.clock <= moves[0].now)
      && SteadyClock(Do(k, moves[0]), moves[1..])
  }

  /** Times grow along the order of scans. */
  ghost predicate InScanOrder(k: Kiosk) {
    && (forall id | id in k.rows :: k.rows[id].scannedAt <= k.clock)
    && (forall a, b | a in k.rows && b in k.rows && a < b :: k.rows[a].scannedAt <= k.rows[b].scannedAt)
    && (InHand(k.scanner) ==> forall id | id in k.rows :: k.rows[id].scannedAt <= k.scanner.scan.row.scannedAt)
    && (InHand(k.scanner) ==> k.scanner.scan.row.scannedAt <= k.clock)
  }

  lemma InsertKeepsScanOrder(k: Kiosk)
    requires Inv(k) && InScanOrder(k) && k.scanner.Queueing?
    ensures InScanOrder(Do(k, Insert))
  {
    var scan, next := k.scanner.scan, Do(k, Insert);
    assert next.rows == k.rows[scan.id := scan.row];
    assert forall id | id in k.rows :: id < scan.id && k.rows[id].scannedAt <= scan.row.scannedAt;
  }

  lemma FewerRowsKeepScanOrder(k: Kiosk, next: Kiosk)
    requires InScanOrder(k) && k.clock <= next.clock
    requires forall id | id in next.rows :: id in k.rows && next.rows[id].scannedAt == k.rows[id].scannedAt
    requires InHand(next.scanner) ==> next.scanner.scan.row.scannedAt == next.clock
                                      || (InHand(k.scanner) && next.scanner.scan == k.scanner.scan)
    ensures InScanOrder(next)
  {
  }

  lemma MoveKeepsScanOrder(k: Kiosk, m: Move)
    requires Inv(k) && InScanOrder(k) && Can(k, m) && (m.TakeScan? || m.SettleDead? ==> k.clock <= m.now)
    ensures InScanOrder(Do(k, m))
  {
    if m.Insert? {
      InsertKeepsScanOrder(k);
    } else {
      FewerRowsKeepScanOrder(k, Do(k, m));
    }
  }

  lemma {:induction false} RunKeepsScanOrder(k: Kiosk, moves: seq<Move>)
    requires Inv(k) && InScanOrder(k) && IsRun(k, moves) && SteadyClock(k, moves)
    ensures InScanOrder(Run(k, moves))
    decreases |moves|
  {
    if moves != [] {
      MoveKeepsInv(k, moves[0]);
      MoveKeepsScanOrder(k, moves[0]);
      RunKeepsScanOrder(Do(k, moves[0]), moves[1..]);
    }
  }

  predicate IsScanSend(m: Move) {
    m.PostLive? || m.PostReplay?
  }

  /** The scan a send carries. */
  function SentScan(k: Kiosk, m: Move): Scan
    requires (m.PostLive? && k.scanner.Clear?) || (m.PostReplay? && k.drain.Holding? && k.drain.id in k.rows)
  {
    if m.PostLive? then k.scanner.scan else Scan(k.drain.id, k.rows[k.drain.id])
  }

  /** In any interleaving and for any answers of the network: when a scan goes out, live or replayed, every other
      scan of the same badge still pending was taken later, or in the same tick of the clock. */
  lemma NoScanOvertakes(clock: int, moves: seq<Move>, m: Move, other: EventId)
    requires IsRun(Fresh(clock), moves) && SteadyClock(Fresh(clock), moves) && IsScanSend(m)
    requires Can(Run(Fresh(clock), moves), m) && IsPending(Run(Fresh(clock), moves).rows, other)
    ensures var k := Run(Fresh(clock), moves);
            && (m.PostReplay? ==> k.drain.id in k.rows)
            && (var scan := SentScan(k, m);
                k.rows[other].participant == scan.row.participant && other != scan.id ==>
                  && m.PostReplay?
                  && scan.row.scannedAt <= k.rows[other].scannedAt
                  && (scan.row.scannedAt < k.rows[other].scannedAt ==> scan.id < other))
  {
    FreshIsFine(clock);
    RunKeepsInv(Fresh(clock), moves);
    RunKeepsScanOrder(Fresh(clock), moves);
  }

  // ---------------------------------------------------------------------------
  // Order, with any clock
  // ---------------------------------------------------------------------------

  /** A live send overtakes nobody, however the clock jumps. */
  lemma LiveSendsNeverOvertake(clock: int, moves: seq<Move>, other: EventId)
    requires IsRun(Fresh(clock), moves) && Run(Fresh(clock), moves).scanner.Clear?
    requires IsPending(Run(Fresh(clock), moves).rows, other)
    ensures var k := Run(Fresh(clock), moves); k.rows[other].participant != k.scanner.scan.row.participant
  {
    FreshIsFine(clock);
    RunKeepsInv(Fresh(clock), moves);
  }

  /** The later scan is about to be replayed while the earlier one is still pending. */
  ghost predicate Overtakes(k: Kiosk, moves: seq<Move>, earlier: EventId, later: EventId) {
    IsRun(k, moves) && Run(k, moves).drain == Holding(later) && IsPending(Run(k, moves).rows, earlier)
  }

  lemma {:induction false} RemovedStaysRemoved(k: Kiosk, moves: seq<Move>, id: EventId)
    requires Inv(k) && IsRun(k, moves) && id in k.removed
    ensures id !in Run(k, moves).rows
    decreases |moves|
  {
    if moves != [] {
      MoveKeepsInv(k, moves[0]);
      RemovedStaysRemoved(Do(k, moves[0]), moves[1..], id);
    }
  }

  lemma {:induction false} StampsStay(k: Kiosk, moves: seq<Move>, id: EventId)
    requires Inv(k) && IsRun(k, moves) && id in k.rows && id in Run(k, moves).rows
    ensures Run(k, moves).rows[id].scannedAt == k.rows[id].scannedAt
    decreases |moves|
  {
    if moves != [] {
      var next := Do(k, moves[0]);
      MoveKeepsInv(k, moves[0]);
      if id in next.rows {
        StampsStay(next, moves[1..], id);
      } else {
        RemovedStaysRemoved(next, moves[1..], id);
        assert false;
      }
    }
  }

  lemma {:induction false} OldestAmong(rows: Rows, ids: set<EventId>) returns (oldest: EventId)
    requires ids != {} && ids <= rows.Keys
    ensures oldest in ids && forall id | id in ids :: rows[oldest].scannedAt <= rows[id].scannedAt
    decreases ids
  {
    oldest :| oldest in ids;
    if ids != {oldest} {
      var other := OldestAmong(rows, ids - {oldest});
      if rows[other].scannedAt < rows[oldest].scannedAt {
        oldest := other;
      }
    }
  }

  /** A drain that gets an acknowledgement for everything before the later scan comes to that scan. */
  lemma {:induction false} DrainReaches(k: Kiosk, earlier: EventId, later: EventId) returns (moves: seq<Move>)
    requires k.drain.Resting? && IsPending(k.rows, earlier) && IsPending(k.rows, later) && earlier != later
    requires k.rows[later].scannedAt <= k.rows[earlier].scannedAt
    ensures Overtakes(k, moves, earlier, later)
    decreases |k.rows|
  {
    var pending := set id | id in k.rows && k.rows[id].state == Pending;
    assert later in pending;
    var oldest := OldestAmong(k.rows, pending);
    if k.rows[later].scannedAt <= k.rows[oldest].scannedAt {
      moves := [Fetch(later)];
      assert Run(k, moves) == Run(Do(k, moves[0]), moves[1..]);
    } else {
      var turn := [Fetch(oldest), PostReplay(200, NotAnObject), Settle];
      var after := TurnAcks(k, oldest);
      var rest := DrainReaches(after, earlier, later);
      moves := turn + rest;
      RunAppend(k, turn, rest);
    }
  }

  lemma TurnAcks(k: Kiosk, id: EventId) returns (after: Kiosk)
    requires k.drain.Resting? && IsOldestPending(k.rows, id)
    ensures var turn := [Fetch(id), PostReplay(200, NotAnObject), Settle];
            IsRun(k, turn) && Run(k, turn) == after
    ensures after.drain.Resting? && after.rows == k.rows - {id} && |after.rows| < |k.rows|
  {
    var turn := [Fetch(id), PostReplay(200, NotAnObject), Settle];
    var held := Do(k, turn[0]);
    var replied := Do(held, turn[1]);
    after := Do(replied, turn[2]);
    Chain([k, held, replied, after], turn);
    assert after.rows.Keys == k.rows.Keys - {id};
    assert |after.rows| == |after.rows.Keys| && |k.rows| == |k.rows.Keys|;
  }

  /** A run given by its states. */
  lemma {:induction false} Chain(states: seq<Kiosk>, moves: seq<Move>)
    requires |states| == |moves| + 1
    requires forall i | 0 <= i < |moves| :: Can(states[i], moves[i]) && Do(states[i], moves[i]) == states[i + 1]
    ensures IsRun(states[0], moves) && Run(states[0], moves) == states[|moves|]
    decreases |moves|
  {
    if moves != [] {
      assert Can(states[0], moves[0]) && Do(states[0], moves[0]) == states[1];
      forall i | 0 <= i < |moves| - 1
        ensures Can(states[1..][i], moves[1..][i]) && Do(states[1..][i], moves[1..][i]) == states[1..][i + 1]
      {
        assert Can(states[i + 1], moves[i + 1]) && Do(states[i + 1], moves[i + 1]) == states[i + 2];
      }
      Chain(states[1..], moves[1..]);
    }
  }

  lemma {:induction false} RunAppend(k: Kiosk, a: seq<Move>, b: seq<Move>)
    requires IsRun(k, a)
    ensures IsRun(k, a + b) <==> IsRun(Run(k, a), b)
    ensures Run(k, a + b) == Run(Run(k, a), b)
    decreases |a|
  {
    if a == [] {
      assert a + b == b;
    } else {
      assert (a + b)[1..] == a[1..] + b;
      RunAppend(Do(k, a[0]), a[1..], b);
    }
  }

  /** Of two pending scans the later can be replayed first exactly when its time is not later: on times inverted by a
      clock that stepped back, or on the same tick. */
  lemma OvertakingIff(k: Kiosk, earlier: EventId, later: EventId)
    requires Inv(k) && k.drain.Resting? && IsPending(k.rows, earlier) && IsPending(k.rows, later) && earlier < later
    ensures (exists moves :: Overtakes(k, moves, earlier, later))
            <==> k.rows[later].scannedAt <= k.rows[earlier].scannedAt
  {
    if k.rows[later].scannedAt <= k.rows[earlier].scannedAt {
      var moves := DrainReaches(k, earlier, later);
    }
    forall moves | Overtakes(k, moves, earlier, later) ensures k.rows[later].scannedAt <= k.rows[earlier].scannedAt {
      RunKeepsInv(k, moves);
      StampsStay(k, moves, earlier);
      StampsStay(k, moves, later);
    }
  }

  /** A kiosk whose clock steps back from 10 to 5 between two offline scans of one badge replays the second first. */
  lemma BackwardClockOvertakes(participant: nat) returns (moves: seq<Move>)
    ensures Overtakes(Fresh(0), moves, 0, 1)
  {
    var first := NewRow(participant, 10, None, In, false, false);
    var second := NewRow(participant, 5, None, Out, false, false);
    var taken := [TakeScan(participant, 10, None, In, false, false), CheckPredecessor, PostLive(0, NotAnObject),
                  FinishLive, Insert];
    var behind := [TakeScan(participant, 5, None, Out, false, false), CheckPredecessor, Insert];
    var one := Kiosk(map[0 := first], 10, 1, Idle, Resting, {0}, {});
    var two := Kiosk(map[0 := first, 1 := second], 5, 2, Idle, Resting, {0, 1}, {});
    OfflineScan(Fresh(0), participant, 10, In);
    assert Run(Fresh(0), taken) == one by {
      assert map[][0 := first] == one.rows && {} + {0} == one.inserted;
    }
    assert one.rows[0].participant == participant && HasPendingFor(one.rows, participant);
    QueuedScan(one, participant, 5, Out);
    assert Run(one, behind) == two by {
      assert two.rows == one.rows[1 := second] && two.inserted == one.inserted + {1};
    }
    var rest := DrainReaches(two, 0, 1);
    RunAppend(one, behind, rest);
    RunAppend(Fresh(0), taken, behind + rest);
    moves := taken + (behind + rest);
  }

  /** A scan that found no predecessor and no network. */
  lemma OfflineScan(k: Kiosk, participant: nat, now: int, intent: Intent)
    requires k.scanner.Idle? && !HasPendingFor(k.rows, participant) && k.nextId !in k.rows
    ensures var moves := [TakeScan(participant, now, None, intent, false, false), CheckPredecessor,
                          PostLive(0, NotAnObject), FinishLive, Insert];
            && IsRun(k, moves)
            && Run(k, moves) == k.(rows := k.rows[k.nextId := NewRow(participant, now, None, intent, false, false)],
                                   clock := now, nextId := k.nextId + 1, inserted := k.inserted + {k.nextId})
  {
    var moves := [TakeScan(participant, now, None, intent, false, false), CheckPredecessor, PostLive(0, NotAnObject),
                  FinishLive, Insert];
    var a := Do(k, moves[0]);
    var b := Do(a, moves[1]);
    var c := Do(b, moves[2]);
    var d := Do(c, moves[3]);
    Chain([k, a, b, c, d, Do(d, Insert)], moves);
  }

  /** A scan behind a pending one of its badge. */
  lemma QueuedScan(k: Kiosk, participant: nat, now: int, intent: Intent)
    requires k.scanner.Idle? && HasPendingFor(k.rows, participant) && k.nextId !in k.rows
    ensures var moves := [TakeScan(participant, now, None, intent, false, false), CheckPredecessor, Insert];
            && IsRun(k, moves)
            && Run(k, moves) == k.(rows := k.rows[k.nextId := NewRow(participant, now, None, intent, false, false)],
                                   clock := now, nextId := k.nextId + 1, inserted := k.inserted + {k.nextId})
  {
    var moves := [TakeScan(participant, now, None, intent, false, false), CheckPredecessor, Insert];
    var a := Do(k, moves[0]);
    var b := Do(a, moves[1]);
    Chain([k, a, b, Do(b, Insert)], moves);
  }

  // ---------------------------------------------------------------------------
  // A turn of the drain is a run of its thread
  // ---------------------------------------------------------------------------

  lemma ReplayTurnIsARun(k: Kiosk, id: EventId, status: int, body: Body)
    requires k.drain.Resting? && IsOldestPending(k.rows, id)
    ensures var turn := [Fetch(id), PostReplay(status, body), Settle];
            IsRun(k, turn) && Run(k, turn).rows == Settled(k.rows, id, status, body) && Run(k, turn).drain.Resting?
  {
    var turn := [Fetch(id), PostReplay(status, body), Settle];
    var held := Do(k, turn[0]);
    var replied := Do(held, turn[1]);
    Chain([k, held, replied, Do(replied, Settle)], turn);
  }

  lemma DeadTurnIsARun(k: Kiosk, id: EventId, status: int, body: Body, now: int)
    requires k.drain.Resting? && (forall other :: !IsPending(k.rows, other)) && IsNextDead(k.rows, id)
    ensures var turn := [FetchNothing, FetchDead(id), PostDead(status, body), SettleDead(now)];
            IsRun(k, turn) && Run(k, turn).rows == DeadSettled(k.rows, id, status, now) && Run(k, turn).drain.Resting?
  {
    var turn := [FetchNothing, FetchDead(id), PostDead(status, body), SettleDead(now)];
    var none := Do(k, turn[0]);
    var held := Do(none, turn[1]);
    var replied := Do(held, turn[2]);
    Chain([k, none, held, replied, Do(replied, turn[3])], turn);
  }

  // ---------------------------------------------------------------------------
  // Conservation
  // ---------------------------------------------------------------------------

  /** Over any run the ids ever inserted are the disjoint union of pending, dead and removed. */
  lemma EveryScanIsAccountedFor(clock: int, moves: seq<Move>, id: EventId)
    requires IsRun(Fresh(clock), moves)
    ensures var k := Run(Fresh(clock), moves);
            && (id in k.inserted <==> IsPending(k.rows, id) || IsDead(k.rows, id) || id in k.removed)
            && !(IsPending(k.rows, id) && id in k.removed)
            && !(IsDead(k.rows, id) && id in k.removed)
  {
    FreshIsFine(clock);
    RunKeepsInv(Fresh(clock), moves);
  }

  /** A pending row leaves only by an acknowledgement of its own replay, and dies only by a terminal answer to it. */
  lemma PendingFateIsItsOwnReply(k: Kiosk, m: Move, id: EventId)
    requires Inv(k) && Can(k, m) && IsPending(k.rows, id) && !IsPending(Do(k, m).rows, id)
    ensures m.Settle? && k.drain.id == id
    ensures ClassifyResponse(k.drain.status, k.drain.body) == if id in Do(k, m).rows then DeadLetter else Ack
  {
  }

  /** A scan posted live is forgotten only when the server answered it definitively; otherwise it is queued next. */
  lemma LiveScanIsKeptUnlessAnswered(k: Kiosk, m: Move)
    requires Inv(k) && Can(k, m) && InHand(k.scanner) && Do(k, m).scanner.Idle?
    ensures (m.Insert? && IsPending(Do(k, m).rows, k.scanner.scan.id))
            || (m.FinishLive? && k.scanner.outcome != Retry)
  {
  }

  /** Over any run, the end of a pending row is a definite answer to a replay of that very row: an acknowledgement if
      the row went, a terminal rejection if it turned dead. */
  lemma {:induction false} PendingRowEndsByItsOwnReply(k: Kiosk, moves: seq<Move>, id: EventId) returns (i: nat)
    requires Inv(k) && IsRun(k, moves) && IsPending(k.rows, id) && !IsPending(Run(k, moves).rows, id)
    ensures i < |moves| && moves[i].Settle?
    ensures var s := Run(k, moves[..i]);
            && IsPending(s.rows, id) && s.drain.Replied? && s.drain.id == id
            && ClassifyResponse(s.drain.status, s.drain.body) == if id in Do(s, moves[i]).rows then DeadLetter else Ack
    decreases |moves|
  {
    var next := Do(k, moves[0]);
    if IsPending(next.rows, id) {
      MoveKeepsInv(k, moves[0]);
      var later := PendingRowEndsByItsOwnReply(next, moves[1..], id);
      i := later + 1;
      assert moves[..i][1..] == moves[1..][..later];
    } else {
      PendingFateIsItsOwnReply(k, moves[0], id);
      i := 0;
    }
  }

  lemma {:induction false} InsertedGrows(k: Kiosk, moves: seq<Move>)
    requires IsRun(k, moves)
    ensures k.inserted <= Run(k, moves).inserted
    decreases |moves|
  {
    if moves != [] {
      InsertedGrows(Do(k, moves[0]), moves[1..]);
    }
  }

  /** The server has answered the live post of scan id for good. */
  ghost predicate AnsweredForGood(k: Kiosk, m: Move, id: EventId) {
    m.FinishLive? && k.scanner.Answered? && k.scanner.scan.id == id && k.scanner.outcome != Retry
  }

  /** Over any run, a scan once taken is still in hand, or was queued, or was answered for good. */
  lemma {:induction false} NoTakenScanIsLost(k: Kiosk, moves: seq<Move>)
    requires Inv(k) && IsRun(k, moves) && InHand(k.scanner)
    ensures var id, end := k.scanner.scan.id, Run(k, moves);
            || (InHand(end.scanner) && end.scanner.scan.id == id)
            || id in end.inserted
            || exists i :: 0 <= i < |moves| && AnsweredForGood(Run(k, moves[..i]), moves[i], id)
    decreases |moves|
  {
    if moves != [] {
      var id, next := k.scanner.scan.id, Do(k, moves[0]);
      MoveKeepsInv(k, moves[0]);
      if InHand(next.scanner) {
        NoTakenScanIsLost(next, moves[1..]);
        forall i: nat | i < |moves| - 1 && AnsweredForGood(Run(next, moves[1..][..i]), moves[1..][i], id)
          ensures AnsweredForGood(Run(k, moves[..i + 1]), moves[i + 1], id)
        {
          assert moves[..i + 1][1..] == moves[1..][..i];
        }
      } else {
        LiveScanIsKeptUnlessAnswered(k, moves[0]);
        InsertedGrows(next, moves[1..]);
        assert moves[..0] == [];
        assert moves[0].FinishLive? ==> AnsweredForGood(Run(k, moves[..0]), moves[0], id);
      }
    }
  }

  /** Over any run, a dead row goes only by a 2xx answer to a delivery of that very row; that answer was an
      acknowledgement unless it is one of those the unclassified test lets through. */
  lemma {:induction false} DeadRowEndsByItsOwnReply(k: Kiosk, moves: seq<Move>, id: EventId) returns (i: nat)
    requires Inv(k) && IsRun(k, moves) && IsDead(k.rows, id) && id !in Run(k, moves).rows
    ensures i < |moves| && moves[i].SettleDead?
    ensures var s := Run(k, moves[..i]);
            && IsDead(s.rows, id) && s.drain.DeadReplied? && s.drain.id == id && 200 <= s.drain.status < 300
            && (ClassifyResponse(s.drain.status, s.drain.body) == Ack
                <==> !DeletesUnacknowledged(s.drain.status, s.drain.body))
    decreases |moves|
  {
    var next := Do(k, moves[0]);
    if id in next.rows {
      MoveKeepsInv(k, moves[0]);
      assert IsDead(next.rows, id);
      var later := DeadRowEndsByItsOwnReply(next, moves[1..], id);
      i := later + 1;
      assert moves[..i][1..] == moves[1..][..later];
    } else {
      i := 0;
      assert moves[..0] == [];
    }
  }

  // ---------------------------------------------------------------------------
  // Dead rows take turns
  // ---------------------------------------------------------------------------

  /** The dead deliveries settled along a run. */
  function DeadSends(k: Kiosk, moves: seq<Move>): seq<FailedSend>
    decreases |moves|
  {
    if moves == [] then []
    else SettledSend(k, moves[0]) + DeadSends(Do(k, moves[0]), moves[1..])
  }

  /** No row turns dead, no dead row goes, and each stamp is later than those before; anything else may happen. */
  ghost predicate DeadRowsStay(k: Kiosk, moves: seq<Move>)
    decreases |moves|
  {
    moves != [] ==>
      && DeadIds(Do(k, moves[0]).rows) == DeadIds(k.rows)
      && (moves[0].SettleDead? ==> StampedBefore(k.rows, moves[0].now))
      && DeadRowsStay(Do(k, moves[0]), moves[1..])
  }

  lemma MoveKeepsDeadPart(k: Kiosk, m: Move)
    requires Inv(k) && Can(k, m) && DeadIds(Do(k, m).rows) == DeadIds(k.rows)
    ensures DeadPart(Do(k, m).rows)
            == DeadPart(if m.SettleDead? then Stamped(k.rows, k.drain.id, m.now) else k.rows)
  {
    var next := Do(k, m);
    assert forall id :: IsDead(next.rows, id) <==> id in DeadIds(next.rows);
    assert forall id :: IsDead(k.rows, id) <==> id in DeadIds(k.rows);
  }

  /** A later time beats the stamps of equal dead rows. */
  lemma SameDeadPartSameStamps(a: Rows, b: Rows, now: int)
    requires DeadPart(a) == DeadPart(b) && StampedBefore(a, now)
    ensures StampedBefore(b, now)
  {
    forall id | IsDead(b, id) ensures IsDead(a, id) && a[id] == b[id] {
      assert id in DeadPart(b) && DeadPart(b)[id] == b[id];
      assert id in DeadPart(a) && DeadPart(a)[id] == a[id];
    }
  }

  /** A rotation that starts with the dead rows at hand. */
  ghost predicate RotatesFrom(rows: Rows, sends: seq<FailedSend>) {
    && IsRotation(sends)
    && (sends != [] ==> DeadPart(sends[0].rows) == DeadPart(rows))
    && (forall i | 0 <= i < |sends| :: StampedBefore(rows, sends[i].at))
  }

  lemma RotatesFromEqual(a: Rows, b: Rows, sends: seq<FailedSend>)
    requires DeadPart(a) == DeadPart(b) && RotatesFrom(a, sends)
    ensures RotatesFrom(b, sends)
  {
    forall i | 0 <= i < |sends| ensures StampedBefore(b, sends[i].at) {
      SameDeadPartSameStamps(a, b, sends[i].at);
    }
  }

  /** The dead delivery a move settles, if any. */
  function SettledSend(k: Kiosk, m: Move): seq<FailedSend> {
    if m.SettleDead? && k.drain.DeadReplied? then [FailedSend(k.rows, k.drain.id, m.now)] else []
  }

  lemma MoveRotates(k: Kiosk, m: Move, rest: seq<FailedSend>)
    requires Inv(k) && Can(k, m) && DeadIds(Do(k, m).rows) == DeadIds(k.rows)
    requires m.SettleDead? ==> StampedBefore(k.rows, m.now)
    requires RotatesFrom(Do(k, m).rows, rest)
    ensures RotatesFrom(k.rows, SettledSend(k, m) + rest)
  {
    MoveKeepsDeadPart(k, m);
    if m.SettleDead? {
      ConsRotation(FailedSend(k.rows, k.drain.id, m.now), rest, Do(k, m).rows);
    } else {
      RotatesFromEqual(Do(k, m).rows, k.rows, rest);
      assert SettledSend(k, m) + rest == rest;
    }
  }

  /** The dead sends of such a run are one. */
  lemma {:induction false} RunRotates(k: Kiosk, moves: seq<Move>)
    requires Inv(k) && IsRun(k, moves) && DeadRowsStay(k, moves)
    ensures RotatesFrom(k.rows, DeadSends(k, moves))
    decreases |moves|
  {
    if moves != [] {
      MoveKeepsInv(k, moves[0]);
      RunRotates(Do(k, moves[0]), moves[1..]);
      MoveRotates(k, moves[0], DeadSends(Do(k, moves[0]), moves[1..]));
    }
  }

  /** Later than the stamp just left, and than all those before it. */
  lemma LaterThanStamped(first: FailedSend, after: Rows, now: int)
    requires IsNextDead(first.rows, first.id) && StampedBefore(first.rows, first.at)
    requires DeadPart(after) == DeadPart(Stamped(first.rows, first.id, first.at)) && StampedBefore(after, now)
    ensures first.at < now && StampedBefore(first.rows, now)
  {
    var stamped := Stamped(first.rows, first.id, first.at);
    SameDeadPartSameStamps(after, stamped, now);
    assert IsDead(stamped, first.id) && stamped[first.id].lastAttemptAt == Some(first.at);
    forall id | IsDead(first.rows, id) && first.rows[id].lastAttemptAt.Some?
      ensures first.rows[id].lastAttemptAt.value < now
    {
      assert IsDead(stamped, id);
    }
  }

  lemma ConsRotation(first: FailedSend, rest: seq<FailedSend>, after: Rows)
    requires IsNextDead(first.rows, first.id) && StampedBefore(first.rows, first.at)
    requires RotatesFrom(after, rest) && DeadPart(after) == DeadPart(Stamped(first.rows, first.id, first.at))
    ensures RotatesFrom(first.rows, [first] + rest)
  {
    var all := [first] + rest;
    forall i | 0 <= i < |rest| ensures first.at < rest[i].at && StampedBefore(first.rows, rest[i].at) {
      LaterThanStamped(first, after, rest[i].at);
    }
    assert forall i | 0 < i < |all| :: all[i] == rest[i - 1];
  }

  /** In any run of the two threads in which no row turns dead and none of the dead goes, the deliveries of k dead rows
      go, k at a time, to k different rows, whatever is scanned, queued and replayed in between. */
  lemma DeadRowsTakeTurns(k: Kiosk, moves: seq<Move>, i: nat, j: nat)
    requires Inv(k) && IsRun(k, moves) && DeadRowsStay(k, moves)
    requires i < j < |DeadSends(k, moves)| <= |DeadIds(k.rows)|
    ensures DeadSends(k, moves)[i].id != DeadSends(k, moves)[j].id
  {
    var sends := DeadSends(k, moves);
    RunRotates(k, moves);
    assert DeadIds(sends[0].rows) == DeadPart(sends[0].rows).Keys == DeadPart(k.rows).Keys == DeadIds(k.rows);
    RotationDoesNotStarve(sends, i, j);
  }
}
