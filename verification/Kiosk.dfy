/** The kiosk's scan handler and the state it keeps between badges: the two force-close confirms and the
    presence view that decides the displayed direction. Monotonic times are milliseconds. */
module Kiosk {
  import opened Options
  import opened Outbox
  import Threads = KioskThreads

  const CONFIRM_MS := 15_000
  const CLOCK_STEP_MS := 180_000

  datatype Roster = Roster(present: set<nat>, keyholders: set<nat>, keyholderCount: int, total: int)

  /** The fields of `AttendanceState` a scan reads or writes. */
  datatype View = View(
    confirmToken: Option<string>, confirmDeadline: int,
    localClose: Option<nat>, localDeadline: int,
    roster: Roster)

  // ---------------------------------------------------------------------------
  // The confirms
  // ---------------------------------------------------------------------------

  function TakenConfirm(v: View, now: int): (Option<string>, View) {
    (if now < v.confirmDeadline then v.confirmToken else None, v.(confirmToken := None, confirmDeadline := 0))
  }

  function TakenLocalClose(v: View, participant: nat, now: int): (bool, View) {
    var live := now < v.localDeadline;
    var taken := v.localClose == Some(participant) && live;
    (taken, if taken || !live then v.(localClose := None, localDeadline := 0) else v)
  }

  predicate OfflineLastKeyholder(v: View, participant: nat) {
    participant in v.roster.keyholders && v.roster.keyholderCount <= 1 && v.roster.total > 1
  }

  class ClockWatch {
    var lastWall: int
    var lastMono: int

    constructor (wall: int, mono: int)
      ensures lastWall == wall && lastMono == mono
    {
      lastWall, lastMono := wall, mono;
    }

    /** The wall clock moved otherwise than the monotonic one since the last scan. */
    method Check(wall: int, mono: int) returns (jumped: bool)
      modifies this
      ensures jumped <==> ClockJumped(old(lastWall), old(lastMono), wall, mono)
      ensures lastWall == wall && lastMono == mono
    {
      var step := (wall - lastWall) - (mono - lastMono);
      jumped := (if step < 0 then -step else step) > CLOCK_STEP_MS;
      lastWall, lastMono := wall, mono;
    }
  }

  class AttendanceState {
    var confirmToken: Option<string>
    var confirmDeadline: int
    var localClose: Option<nat>
    var localDeadline: int
    var roster: Roster

    constructor (roster: Roster)
      ensures ToView() == View(None, 0, None, 0, roster)
    {
      confirmToken, confirmDeadline, localClose, localDeadline := None, 0, None, 0;
      this.roster := roster;
    }

    function ToView(): View
      reads this
    {
      View(confirmToken, confirmDeadline, localClose, localDeadline, roster)
    }

    method ArmConfirm(token: string, ms: int, now: int)
      modifies this
      ensures ToView() == old(ToView()).(confirmToken := Some(token), confirmDeadline := now + ms)
    {
      confirmToken, confirmDeadline := Some(token), now + ms;
    }

    method TakeConfirm(now: int) returns (token: Option<string>)
      modifies this
      ensures (token, ToView()) == TakenConfirm(old(ToView()), now)
    {
      token := confirmToken;
      var live := now < confirmDeadline;
      confirmToken, confirmDeadline := None, 0;
      if !live {
        token := None;
      }
    }

    method ArmLocalClose(participant: nat, ms: int, now: int)
      modifies this
      ensures ToView() == old(ToView()).(localClose := Some(participant), localDeadline := now + ms)
    {
      localClose, localDeadline := Some(participant), now + ms;
    }

    method TakeLocalClose(participant: nat, now: int) returns (taken: bool)
      modifies this
      ensures (taken, ToView()) == TakenLocalClose(old(ToView()), participant, now)
    {
      var live := now < localDeadline;
      if localClose == Some(participant) && live {
        localClose, localDeadline := None, 0;
        return true;
      }
      if !live {
        localClose, localDeadline := None, 0;
      }
      return false;
    }

    method NotePresence(participant: nat, checkingIn: bool)
      modifies this
      ensures ToView() == Noted(old(ToView()), participant, checkingIn)
    {
      roster := roster.(present := if checkingIn then roster.present + {participant} else roster.present - {participant});
    }
  }

  function Noted(v: View, participant: nat, checkingIn: bool): View {
    v.(roster := v.roster.(present := if checkingIn then v.roster.present + {participant} else v.roster.present - {participant}))
  }

  // ---------------------------------------------------------------------------
  // One scan
  // ---------------------------------------------------------------------------

  /** A badge and everything the outside contributes to its handling: the times at which the confirms are taken and
      armed, whether a predecessor is pending, the server's answer, and the roster fetched after an ack. */
  datatype Input = Input(participant: nat, now: int, armAt: int, predecessor: bool, status: int, body: Body, fetched: Option<Roster>)

  datatype Effects = Effects(intent: Intent, token: Option<string>, closeConfirmed: bool, posted: bool, queued: bool, armed: bool)

  /** The countdown the banner shows: a warning that carries a token, for its own seconds if they are sane. */
  function Countdown(status: int, body: Body): int {
    if body.Object? && (status >= 400 || body.hasError) && body.kind == "warning" && body.token.Some? && body.token.value != "" then
      (if body.confirmSeconds.Some? && 0 < body.confirmSeconds.value <= 120 then body.confirmSeconds.value else 15)
    else 0
  }

  function TakenBoth(v: View, i: Input): (bool, Option<string>, View) {
    var (local, v1) := TakenLocalClose(v, i.participant, i.now);
    var (token, v2) := TakenConfirm(v1, i.now);
    (local, token, v2)
  }

  predicate NonEmpty(token: Option<string>) {
    token.Some? && token.value != ""
  }

  function EffectsOf(v: View, i: Input): Effects {
    var (local, token, after) := TakenBoth(v, i);
    var intent := if NonEmpty(token) || local || i.participant in after.roster.present then Out else In;
    var retry := ClassifyResponse(i.status, i.body) == Retry;
    var seen := Noted(after, i.participant, intent == In);
    Effects(intent, token, local, !i.predecessor, i.predecessor || retry,
            !i.predecessor && retry && !local && intent == Out && OfflineLastKeyholder(seen, i.participant))
  }

  function ViewAfter(v: View, i: Input): View {
    var e := EffectsOf(v, i);
    var seen := Noted(TakenBoth(v, i).2, i.participant, e.intent == In);
    AfterDelivery(seen, i, e.queued, e.armed)
  }

  function AfterDelivery(seen: View, i: Input, queued: bool, armed: bool): View {
    if armed then seen.(localClose := Some(i.participant), localDeadline := i.armAt + CONFIRM_MS)
    else if queued then seen
    else Answered(seen, i)
  }

  /** What the scan carries, live or queued. */
  method ReadBadge(state: AttendanceState, i: Input) returns (localClose: bool, token: Option<string>, intent: Intent)
    modifies state
    ensures var e := EffectsOf(old(state.ToView()), i);
            localClose == e.closeConfirmed && token == e.token && intent == e.intent
    ensures state.ToView() == Noted(TakenBoth(old(state.ToView()), i).2, i.participant, intent == In)
  {
    localClose := state.TakeLocalClose(i.participant, i.now);
    token := state.TakeConfirm(i.now);
    intent := Out;
    if !(NonEmpty(token) || localClose) {
      intent := if i.participant in state.roster.present then Out else In;
    }
    state.NotePresence(i.participant, intent == In);
  }

  function Answered(v: View, i: Input): View {
    var countdown := Countdown(i.status, i.body);
    var shown := if countdown > 0 then v.(confirmToken := i.body.token, confirmDeadline := i.armAt + 1000 * countdown) else v;
    if ClassifyResponse(i.status, i.body) == Ack && i.fetched.Some? then shown.(roster := i.fetched.value) else shown
  }

  method ShowAnswer(state: AttendanceState, i: Input)
    modifies state
    ensures state.ToView() == Answered(old(state.ToView()), i)
  {
    var countdown := Countdown(i.status, i.body);
    if countdown > 0 {
      state.ArmConfirm(i.body.token.value, 1000 * countdown, i.armAt);
    }
    if ClassifyResponse(i.status, i.body) == Ack && i.fetched.Some? {
      state.roster := i.fetched.value;
    }
  }

  predicate ClockJumped(wasWall: int, wasMono: int, wall: int, mono: int) {
    var drift := (wall - mono) - (wasWall - wasMono);
    drift > CLOCK_STEP_MS || -drift > CLOCK_STEP_MS
  }

  /** The row is this scan, with the confirms that were armed when it was made and the direction then on display: OUT if
      it confirms something or its badge is shown as present. */
  predicate CarriesScan(row: Row, v: View, i: Input, scannedAt: int, suspect: bool) {
    && row.participant == i.participant && row.scannedAt == scannedAt && row.clockSuspect == suspect
    && row.state == Pending && row.attempts == 0 && row.lastStatus == None && row.lastAttemptAt == None
    && (row.closeConfirmed <==> v.localClose == Some(i.participant) && i.now < v.localDeadline)
    && row.token == (if i.now < v.confirmDeadline then v.confirmToken else None)
    && (row.intent == Out <==>
          row.closeConfirmed || (row.token.Some? && row.token.value != "") || i.participant in v.roster.present)
  }

  /** The moves of the scanner thread that make one scan. */
  function MovesOf(scan: Row, waiting: bool, status: int, body: Body): seq<Threads.Move> {
    [Threads.TakeScan(scan.participant, scan.scannedAt, scan.token, scan.intent, scan.clockSuspect, scan.closeConfirmed),
     Threads.CheckPredecessor]
    + (if waiting then [Threads.Insert]
       else if ClassifyResponse(status, body) == Retry then [Threads.PostLive(status, body), Threads.FinishLive, Threads.Insert]
       else [Threads.PostLive(status, body), Threads.FinishLive])
  }

  /** On the table, these moves are the whole scan. */
  ghost predicate IsScannerRun(before: Rows, after: Rows, id: EventId, scan: Row, status: int, body: Body) {
    forall k: Threads.Kiosk | k.rows == before && k.nextId == id && k.scanner.Idle? ::
      EndsIdleWith(k, MovesOf(scan, HasPendingFor(before, scan.participant), status, body), after)
  }

  ghost predicate EndsIdleWith(k: Threads.Kiosk, moves: seq<Threads.Move>, after: Rows) {
    && Threads.IsRun(k, moves)
    && Threads.Run(k, moves).rows == after && Threads.Run(k, moves).scanner.Idle?
  }

  lemma ScanIsARun(k: Threads.Kiosk, scan: Row, status: int, body: Body)
    requires k.scanner.Idle?
    requires scan == NewRow(scan.participant, scan.scannedAt, scan.token, scan.intent, scan.clockSuspect, scan.closeConfirmed)
    ensures var kept := if scan.clockSuspect then Suspected(k.rows) else k.rows;
            var waiting := HasPendingFor(k.rows, scan.participant);
            EndsIdleWith(k, MovesOf(scan, waiting, status, body),
                         if waiting || ClassifyResponse(status, body) == Retry then Enqueued(kept, k.nextId, scan) else kept)
  {
    var waiting := HasPendingFor(k.rows, scan.participant);
    var moves := MovesOf(scan, waiting, status, body);
    SuspicionKeepsPending(k.rows, scan.participant);
    var a := Threads.Do(k, moves[0]);
    var b := Threads.Do(a, moves[1]);
    if waiting {
      Threads.Chain([k, a, b, Threads.Do(b, Threads.Insert)], moves);
    } else {
      var c := Threads.Do(b, moves[2]);
      var d := Threads.Do(c, moves[3]);
      if ClassifyResponse(status, body) == Retry {
        Threads.Chain([k, a, b, c, d, Threads.Do(d, Threads.Insert)], moves);
      } else {
        Threads.Chain([k, a, b, c, d], moves);
      }
    }
  }

  /** `handle_scan`. A scan behind a pending one of the same badge is queued without being sent; any other is sent at
      once, and queued if nothing definite came back. On the outbox that is a run of the scanner thread. */
  method HandleScan(state: AttendanceState, watch: ClockWatch, outbox: Table, id: EventId, scannedAt: int, wall: int, i: Input)
    returns (scan: Row, posted: bool)
    requires i.predecessor == HasPendingFor(outbox.rows, i.participant)
    modifies state, watch, outbox
    ensures state.ToView() == ViewAfter(old(state.ToView()), i)
    ensures var drift := (wall - i.now) - old(watch.lastWall - watch.lastMono);
            CarriesScan(scan, old(state.ToView()), i, scannedAt, drift > 180_000 || drift < -180_000)
    ensures posted <==> !HasPendingFor(old(outbox.rows), i.participant)
    ensures id !in old(outbox.rows) ==>
              if posted && ClassifyResponse(i.status, i.body) != Retry then id !in outbox.rows
              else id in outbox.rows && outbox.rows[id] == scan
    ensures forall r | r in old(outbox.rows) ::
              && r in outbox.rows
              && outbox.rows[r] == if scan.clockSuspect && old(outbox.rows)[r].state == Pending
                                   then old(outbox.rows)[r].(clockSuspect := true) else old(outbox.rows)[r]
    ensures outbox.rows.Keys <= old(outbox.rows.Keys) + {id}
    ensures IsScannerRun(old(outbox.rows), outbox.rows, id, scan, i.status, i.body)
  {
    ghost var before := outbox.rows;
    var suspect := watch.Check(wall, i.now);
    if suspect {
      outbox.MarkClockSuspect();
    }
    ghost var kept := outbox.rows;
    SuspicionKeepsPending(before, i.participant);
    var localClose, token, intent := ReadBadge(state, i);
    scan := NewRow(i.participant, scannedAt, token, intent, suspect, localClose);
    posted := Deliver(state, outbox, id, scan, i);
    forall k: Threads.Kiosk | k.scanner.Idle? {
      ScanIsARun(k, scan, i.status, i.body);
    }
    ScanIsQueued(before, kept, id, scan, i);
  }

  /** The second half of `handle_scan`: send it, or queue it. */
  method Deliver(state: AttendanceState, outbox: Table, id: EventId, scan: Row, i: Input) returns (posted: bool)
    requires i.predecessor == HasPendingFor(outbox.rows, i.participant) && scan.participant == i.participant
    modifies state, outbox
    ensures posted <==> !i.predecessor
    ensures outbox.rows == if i.predecessor || ClassifyResponse(i.status, i.body) == Retry then Enqueued(old(outbox.rows), id, scan)
                           else old(outbox.rows)
    ensures var retry := ClassifyResponse(i.status, i.body) == Retry;
            state.ToView() == AfterDelivery(old(state.ToView()), i, i.predecessor || retry,
                                            !i.predecessor && retry && !scan.closeConfirmed && scan.intent == Out
                                            && OfflineLastKeyholder(old(state.ToView()), i.participant))
  {
    var waiting := outbox.HasPendingForParticipant(scan.participant);
    if waiting {
      outbox.Enqueue(id, scan);
      return false;
    }
    posted := true;
    var outcome := ClassifyResponse(i.status, i.body);
    if outcome == Retry {
      outbox.Enqueue(id, scan);
      if !scan.closeConfirmed && scan.intent == Out && OfflineLastKeyholder(state.ToView(), i.participant) {
        state.ArmLocalClose(i.participant, CONFIRM_MS, i.armAt);
      }
      return;
    }
    ShowAnswer(state, i);
  }

  lemma ScanIsQueued(before: Rows, kept: Rows, id: EventId, scan: Row, i: Input)
    requires kept == if scan.clockSuspect then Suspected(before) else before
    ensures var queued := i.predecessor || ClassifyResponse(i.status, i.body) == Retry;
            var after := if queued then Enqueued(kept, id, scan) else kept;
            && (id !in before ==> if queued then id in after && after[id] == scan else id !in after)
            && (forall r | r in before ::
                  && r in after
                  && after[r] == if scan.clockSuspect && before[r].state == Pending then before[r].(clockSuspect := true) else before[r])
            && after.Keys <= before.Keys + {id}
  {
  }

  /** What the kiosk remembers of a scan. Its badge is shown with the scan's direction until a roster comes with an
      acknowledgement; both confirms are used up, or run out, but for another badge's offline close; a force-close warning
      with a token arms the online confirm for its own seconds, or fifteen; and an OUT of the only keyholder present, with
      others there, that confirms nothing and reaches nobody, arms the offline one for fifteen. */
  lemma ScanIsRemembered(v: View, i: Input, row: Row, scannedAt: int, suspect: bool)
    requires CarriesScan(row, v, i, scannedAt, suspect)
    ensures var after, retry := ViewAfter(v, i), ClassifyResponse(i.status, i.body) == Retry;
            var sent := !i.predecessor && !retry;
            var present := if row.intent == In then v.roster.present + {i.participant} else v.roster.present - {i.participant};
            var warned := sent && i.body.Object? && (i.status >= 400 || i.body.hasError) && i.body.kind == "warning"
                          && i.body.token.Some? && i.body.token.value != "";
            var arms := !i.predecessor && retry && !row.closeConfirmed && row.intent == Out
                        && i.participant in v.roster.keyholders && v.roster.keyholderCount <= 1 && v.roster.total > 1;
            && after.roster == (if sent && ClassifyResponse(i.status, i.body) == Ack && i.fetched.Some? then i.fetched.value
                                else v.roster.(present := present))
            && after.confirmToken == (if warned then i.body.token else None)
            && (warned ==>
                  var own := i.body.confirmSeconds;
                  after.confirmDeadline
                  == i.armAt + (if own.Some? && 1 <= own.value <= 120 then 1000 * own.value else 15_000))
            && (arms ==> after.localClose == Some(i.participant) && after.localDeadline == i.armAt + 15_000)
            && (!arms ==> after.localClose == (if row.closeConfirmed || i.now >= v.localDeadline then None else v.localClose))
  {
  }

  lemma SuspicionKeepsPending(rows: Rows, participant: nat)
    ensures HasPendingFor(Suspected(rows), participant) == HasPendingFor(rows, participant)
  {
    forall id | id in rows ensures Suspected(rows)[id].state == rows[id].state && Suspected(rows)[id].participant == rows[id].participant {
    }
  }

  // ---------------------------------------------------------------------------
  // Runs of scans
  // ---------------------------------------------------------------------------

  /** Between two scans the roster may be fetched anew. */
  predicate SameButRoster(a: View, b: View) {
    a == b.(roster := a.roster)
  }

  ghost predicate IsRun(views: seq<View>, scans: seq<Input>) {
    && |views| == |scans| + 1
    && (forall k | 0 <= k < |scans| :: SameButRoster(views[k + 1], ViewAfter(views[k], scans[k])))
  }

  /** Scan k warned about an offline close of its badge and was the last to do so before scan i; nobody confirmed since. */
  ghost predicate LastWarning(views: seq<View>, scans: seq<Input>, k: int, i: int)
    requires |views| > |scans|
  {
    && 0 <= k < i <= |scans|
    && EffectsOf(views[k], scans[k]).armed
    && (forall j | k < j < i :: !EffectsOf(views[j], scans[j]).armed && !EffectsOf(views[j], scans[j]).closeConfirmed)
  }

  /** An armed offline close was armed by the latest warning. */
  lemma {:induction false} ArmedByLastWarning(views: seq<View>, scans: seq<Input>, i: nat) returns (k: nat)
    requires IsRun(views, scans) && views[0].localClose == None && i <= |scans|
    requires views[i].localClose.Some?
    ensures LastWarning(views, scans, k, i)
    ensures views[i].localClose == Some(scans[k].participant) && views[i].localDeadline == scans[k].armAt + CONFIRM_MS
  {
    var e := EffectsOf(views[i - 1], scans[i - 1]);
    if e.armed {
      k := i - 1;
    } else {
      assert views[i].localClose == views[i - 1].localClose && views[i].localDeadline == views[i - 1].localDeadline;
      k := ArmedByLastWarning(views, scans, i - 1);
    }
  }

  /** An offline close is confirmed only by the badge that was warned, within fifteen seconds of the latest warning,
      and each warning is redeemed at most once. */
  lemma OfflineConfirmIsBound(views: seq<View>, scans: seq<Input>, i: nat) returns (k: nat)
    requires IsRun(views, scans) && views[0].localClose == None && i < |scans|
    requires EffectsOf(views[i], scans[i]).closeConfirmed
    ensures LastWarning(views, scans, k, i)
    ensures scans[k].participant == scans[i].participant && scans[i].now < scans[k].armAt + CONFIRM_MS
    ensures EffectsOf(views[i], scans[i]).intent == Out
  {
    k := ArmedByLastWarning(views, scans, i);
  }

  /** The server answers the scan with a force-close warning and its token. */
  predicate WarnsWith(v: View, i: Input, token: string) {
    !EffectsOf(v, i).queued && Countdown(i.status, i.body) > 0 && i.body.token == Some(token)
  }

  predicate InCountdown(warned: Input, i: Input) {
    i.now < warned.armAt + 1000 * Countdown(warned.status, warned.body)
  }

  /** The online token is bound to no badge: it goes to the scan right after the warning, whoever's it is, if that comes
      within the countdown, and to no other. */
  lemma TokenGoesToTheNextScan(views: seq<View>, scans: seq<Input>, j: nat, token: string)
    requires IsRun(views, scans) && views[0].confirmToken == None && j < |scans|
    ensures EffectsOf(views[j], scans[j]).token == Some(token)
            <==> j > 0 && WarnsWith(views[j - 1], scans[j - 1], token) && InCountdown(scans[j - 1], scans[j])
  {
    if j > 0 {
      var before, i := views[j - 1], scans[j - 1];
      assert SameButRoster(views[j - 1 + 1], ViewAfter(before, i));
      assert TakenBoth(before, i).2.confirmToken == None;
      assert views[j].confirmToken == Some(token) <==> WarnsWith(before, i, token);
    }
  }

  /** So the badge that was warned redeems its token exactly when it is also the next to scan, within the countdown. */
  lemma WarnedBadgeRedeemsIff(views: seq<View>, scans: seq<Input>, i: nat, token: string)
    requires IsRun(views, scans) && views[0].confirmToken == None && i < |scans|
    requires WarnsWith(views[i], scans[i], token)
    requires forall k | 0 <= k < |scans| && k != i :: !WarnsWith(views[k], scans[k], token)
    ensures (exists j | i < j < |scans| ::
               scans[j].participant == scans[i].participant && EffectsOf(views[j], scans[j]).token == Some(token))
            <==> i + 1 < |scans| && scans[i + 1].participant == scans[i].participant && InCountdown(scans[i], scans[i + 1])
  {
    forall j: nat | i < j < |scans|
      ensures EffectsOf(views[j], scans[j]).token == Some(token) <==> j == i + 1 && InCountdown(scans[i], scans[j])
    {
      TokenGoesToTheNextScan(views, scans, j, token);
    }
  }
}
