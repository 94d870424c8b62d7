/** Check-in, check-out and the last-keyholder close, one request at a time. */
module ScanService {
  import opened Options
  import V = Visits
  import opened Supervision

  const SUPERVISION_CONFIRM_MS := 15000

  datatype Reason = FacilityClosed | ForceCloseReview

  /** A row of the raw badge log; `review` is null until the scan is put up for review. */
  datatype Badge = Badge(personId: nat, timestamp: int, clientEventId: Option<nat>, review: Option<Reason>)

  /** A scan at check-out. `newToken` is the random value that is used if this scan is answered with a warning. */
  datatype Scan = Scan(
    visit: nat,
    token: Option<nat>,
    replayOf: Option<nat>,
    forceCloseConfirmed: bool,
    visitTime: int,
    now: int,
    today: int,
    newToken: nat)

  datatype Outcome =
    | CheckedIn(visit: nat, shortOfSupervision: bool)
    | FacilityIsClosed
    | Parked(reason: Reason)
    | ForceCloseWarning(token: nat)
    | SupervisionWarning(left: nat)
    | CheckedOut(facilityClosed: bool, advice: Option<nat>, recorded: bool)
    | RecordMissing

  // ---------------------------------------------------------------------------
  // What the building looks like without one visit
  // ---------------------------------------------------------------------------

  function OpenKeyholders(visits: Roster): set<nat> {
    set w | w in visits && Open(visits[w]) && visits[w].person.isKeyholder
  }

  function Others(visits: Roster, v: nat): set<nat> {
    set w | w in visits && Open(visits[w]) && w != v
  }

  predicate LastKeyholder(visits: Roster, v: nat)
    requires v in visits
  {
    visits[v].person.isKeyholder && OpenKeyholders(visits) - {v} == {}
  }

  /** Closing now would leave somebody behind. */
  predicate Contested(visits: Roster, v: nat)
    requires v in visits
  {
    LastKeyholder(visits, v) && Others(visits, v) != {}
  }

  predicate Echoes(row: Row, token: Option<nat>) {
    token.Some? && row.forceCloseToken == token
  }

  datatype Decision = Stay | Close | Warn | Hold

  /** The rule both close paths implement. */
  function Decide(visits: Roster, v: nat, token: Option<nat>, replay: bool, confirmedOffline: bool): Decision
    requires v in visits
  {
    if !LastKeyholder(visits, v) then Stay
    else if Contested(visits, v) && !Echoes(visits[v], token) && !(replay && confirmedOffline) then
      if replay then Hold else Warn
    else Close
  }

  // ---------------------------------------------------------------------------
  // Writes
  // ---------------------------------------------------------------------------

  function Minted(visits: Roster, v: nat, token: nat, now: int): Roster
    requires v in visits
  {
    visits[v := visits[v].(forceCloseToken := Some(token), forceCloseWarnedAt := Some(now))]
  }

  function Spent(visits: Roster, v: nat): Roster
    requires v in visits
  {
    visits[v := visits[v].(forceCloseToken := None, forceCloseWarnedAt := None)]
  }

  function Stamped(visits: Roster, v: nat, now: int): Roster
    requires v in visits
  {
    visits[v := visits[v].(supervisionWarnedAt := Some(now))]
  }

  function CloseRow(row: Row, at: int, via: V.Source): Row {
    var cap := row.arrivedAt + V.MAX_VISIT_MS;
    row.(departedAt := Some(if at < cap then at else cap), departedVia := Some(via))
  }

  /** A row that is no longer open is left alone. */
  function Departed(visits: Roster, v: nat, at: int): Roster
    requires v in visits
  {
    if Open(visits[v]) then visits[v := CloseRow(visits[v], at, V.Scanner)] else visits
  }

  function Swept(visits: Roster, now: int): Roster {
    map v | v in visits :: if Open(visits[v]) then CloseRow(visits[v], now, V.FacilityClose) else visits[v]
  }

  // ---------------------------------------------------------------------------
  // The supervision ladder
  // ---------------------------------------------------------------------------

  datatype Rung = Quiet | Advise(left: nat) | Confirmed | Confirm(left: nat)

  predicate FreshStamp(row: Row, now: int) {
    row.supervisionWarnedAt.Some? && now - row.supervisionWarnedAt.value <= SUPERVISION_CONFIRM_MS
  }

  /** Which rung a departure stands on, in terms of the household it would take away. */
  function RungOf(visits: Roster, v: nat, today: int, now: int): Rung
    requires v in visits
  {
    var count := Count(visits, today);
    OneDepartureCountsOnce(Supervising(visits, today), v);
    if !OnlyOneOfItsHousehold(Supervising(visits, today), v) || count > MIN_SUPERVISING_ADULTS + 1 then Quiet
    else if count == MIN_SUPERVISING_ADULTS + 1 || !YouthPresent(visits) then Advise(count - 1)
    else if FreshStamp(visits[v], now) then Confirmed
    else Confirm(count - 1)
  }

  // ---------------------------------------------------------------------------
  // One request
  // ---------------------------------------------------------------------------

  datatype Reply = Reply(visits: Roster, outcome: Outcome)

  function NewRow(person: Person, at: int): Row {
    Row(person, at, None, None, false, None, None, None)
  }

  function CheckinReply(visits: Roster, person: Person, kiosk: bool, at: int, today: int, newVisit: nat): Reply {
    if !person.isKeyholder && OpenKeyholders(visits) == {} then
      Reply(visits, if kiosk then Parked(FacilityClosed) else FacilityIsClosed)
    else
      var after := visits[newVisit := NewRow(person, at)];
      Reply(after, CheckedIn(newVisit, IsYouth(person) && Count(after, today) < MIN_SUPERVISING_ADULTS))
  }

  /** A departure that closes nothing: replays go straight through. */
  function LeaveReply(visits: Roster, scan: Scan): Reply
    requires scan.visit in visits
  {
    var v := scan.visit;
    var rung := if scan.replayOf.Some? then Quiet else RungOf(visits, v, scan.today, scan.now);
    match rung
    case Confirm(left) => Reply(Stamped(visits, v, scan.now), SupervisionWarning(left))
    case Advise(left) => Reply(Departed(visits, v, scan.visitTime), CheckedOut(false, Some(left), Open(visits[v])))
    case _ => Reply(Departed(visits, v, scan.visitTime), CheckedOut(false, None, Open(visits[v])))
  }

  function CheckoutReply(visits: Roster, scan: Scan, root: bool): Reply
    requires scan.visit in visits
  {
    var v := scan.visit;
    match Decide(visits, v, scan.token, scan.replayOf.Some?, scan.forceCloseConfirmed)
    case Stay => LeaveReply(visits, scan)
    case Hold => Reply(visits, Parked(ForceCloseReview))
    case Warn => Reply(Minted(visits, v, scan.newToken, scan.now), ForceCloseWarning(scan.newToken))
    case Close =>
      if root then Reply(Swept(Spent(visits, v), scan.now), CheckedOut(true, None, false))
      else Reply(Departed(Spent(visits, v), v, scan.visitTime), CheckedOut(true, None, Open(visits[v])))
  }

  datatype GuardResult = Proceed(facilityClosed: bool) | WarnWeb(token: nat)

  function GuardReply(visits: Roster, v: nat, token: Option<nat>, now: int, newToken: nat): (Roster, GuardResult)
    requires v in visits
  {
    var decision := Decide(visits, v, token, false, false);
    if decision == Stay then (visits, Proceed(false))
    else if decision == Close then (Spent(visits, v), Proceed(true))
    else (Minted(visits, v, newToken, now), WarnWeb(newToken))
  }

  // ---------------------------------------------------------------------------
  // The review queue
  // ---------------------------------------------------------------------------

  predicate Unreviewed(b: Badge, personId: nat) {
    b.personId == personId && b.review.None?
  }

  /** The person's newest scan that is not under review yet, and no other, is put up for review. */
  predicate NewestIsHeld(before: seq<Badge>, after: seq<Badge>, personId: nat) {
    if forall i :: 0 <= i < |before| ==> !Unreviewed(before[i], personId) then after == before
    else exists i :: 0 <= i < |before| && IsNewest(before, i, personId)
                     && after == before[i := before[i].(review := Some(FacilityClosed))]
  }

  predicate IsNewest(badges: seq<Badge>, i: int, personId: nat)
    requires 0 <= i < |badges|
  {
    && Unreviewed(badges[i], personId)
    && forall k :: 0 <= k < |badges| && Unreviewed(badges[k], personId) ==> badges[k].timestamp <= badges[i].timestamp
  }

  function HeldEvent(badges: seq<Badge>, event: nat): seq<Badge> {
    seq(|badges|, i requires 0 <= i < |badges| =>
      if badges[i].clientEventId == Some(event) then badges[i].(review := Some(ForceCloseReview)) else badges[i])
  }

  predicate Logged(badges: seq<Badge>, event: nat) {
    exists i :: 0 <= i < |badges| && badges[i].clientEventId == Some(event)
  }

  // ---------------------------------------------------------------------------
  // The code
  // ---------------------------------------------------------------------------

  predicate IsIn(visits: Roster, w: nat) {
    w in visits && visits[w].departedAt.None? && !visits[w].deleted
  }

  predicate SomebodyIn(visits: Roster, but: set<nat>) {
    exists w | w in visits && w !in but :: IsIn(visits, w)
  }

  predicate SomeKeyholderIn(visits: Roster, but: set<nat>) {
    exists w | w in visits && w !in but :: IsIn(visits, w) && visits[w].person.isKeyholder
  }

  lemma NobodyInIff(visits: Roster, v: nat)
    ensures OpenKeyholders(visits) == {} <==> !SomeKeyholderIn(visits, {})
    ensures OpenKeyholders(visits) - {v} == {} <==> !SomeKeyholderIn(visits, {v})
    ensures Others(visits, v) == {} <==> !SomebodyIn(visits, {v})
  {
    forall w ensures w in OpenKeyholders(visits) <==> w in visits && IsIn(visits, w) && visits[w].person.isKeyholder
             ensures w in Others(visits, v) <==> w in visits && w != v && IsIn(visits, w) {
    }
  }

  /** The row has departed through the scanner, at the time the scan was made, or 24 hours after its arrival if that is
      earlier. */
  predicate DepartedAt(before: Row, after: Row, visitTime: int) {
    && after.departedVia == Some(V.Scanner) && after.departedAt.Some?
    && after.person == before.person && after.arrivedAt == before.arrivedAt && after.deleted == before.deleted
    && after.departedAt.value <= visitTime
    && after.departedAt.value - after.arrivedAt <= 86_400_000
    && (visitTime - after.arrivedAt <= 86_400_000 ==> after.departedAt.value == visitTime)
    && (visitTime - after.arrivedAt > 86_400_000 ==> after.departedAt.value == after.arrivedAt + 86_400_000)
  }

  datatype Interrupt = NoInterrupt | Proceeding(warning: Option<nat>) | ConfirmRequired(left: nat)

  class Facility {
    var visits: Roster
    var badges: seq<Badge>

    method FindNewestUnreviewed(personId: nat) returns (found: Option<nat>)
      ensures found.None? ==> forall i :: 0 <= i < |badges| ==> !Unreviewed(badges[i], personId)
      ensures found.Some? ==> found.value < |badges| && IsNewest(badges, found.value, personId)
    {
      found := None;
      for i := 0 to |badges|
        invariant found.None? ==> forall k :: 0 <= k < i ==> !Unreviewed(badges[k], personId)
        invariant found.Some? ==> found.value < i && Unreviewed(badges[found.value], personId)
        invariant found.Some? ==> forall k :: 0 <= k < i && Unreviewed(badges[k], personId)
                                              ==> badges[k].timestamp <= badges[found.value].timestamp
      {
        if Unreviewed(badges[i], personId) && (found.None? || badges[found.value].timestamp < badges[i].timestamp) {
          found := Some(i);
        }
      }
    }

    method ProcessCheckin(person: Person, kiosk: bool, visitTime: int, today: int, newVisit: nat)
      returns (outcome: Outcome)
      requires newVisit !in visits
      modifies this
      ensures Reply(visits, outcome) == CheckinReply(old(visits), person, kiosk, visitTime, today, newVisit)
      ensures if outcome == Parked(FacilityClosed) then NewestIsHeld(old(badges), badges, person.id)
              else badges == old(badges)
      ensures outcome.CheckedIn? <==> person.isKeyholder || SomeKeyholderIn(old(visits), {})
      ensures !outcome.CheckedIn? ==>
                visits == old(visits) && outcome == (if kiosk then Parked(FacilityClosed) else FacilityIsClosed)
      ensures outcome.CheckedIn? ==>
                && visits == old(visits)[newVisit := Row(person, visitTime, None, None, false, None, None, None)]
                && outcome.visit == newVisit
                && (outcome.shortOfSupervision <==>
                      !person.isDeclaredAdult && person.isYouthByBirth
                      && |HouseholdsOf(Supervising(visits, today), {})| < 2)
    {
      NobodyInIff(visits, newVisit);
      if !person.isKeyholder {
        var activeKeyholders := set w | w in visits && Open(visits[w]) && visits[w].person.isKeyholder;
        assert activeKeyholders == OpenKeyholders(visits);
        if activeKeyholders == {} {
          if kiosk {
            var badge := FindNewestUnreviewed(person.id);
            if badge.Some? {
              badges := badges[badge.value := badges[badge.value].(review := Some(FacilityClosed))];
            }
            return Parked(FacilityClosed);
          }
          return FacilityIsClosed;
        }
      }
      visits := visits[newVisit := NewRow(person, visitTime)];
      var short := false;
      if !person.isDeclaredAdult && person.isYouthByBirth {
        var supervising := SupervisingAdultVisits(visits, today);
        var count := SupervisingAdultCount(supervising, None);
        short := count < MIN_SUPERVISING_ADULTS;
      }
      return CheckedIn(newVisit, short);
    }

    method SupervisionInterrupt(v: nat, today: int, now: int) returns (interrupt: Interrupt)
      requires v in visits
      modifies this`visits
      ensures interrupt == match RungOf(old(visits), v, today, now)
                           case Quiet => NoInterrupt
                           case Advise(left) => Proceeding(Some(left))
                           case Confirmed => Proceeding(None)
                           case Confirm(left) => ConfirmRequired(left)
      ensures visits == if interrupt.ConfirmRequired? then Stamped(old(visits), v, now) else old(visits)
      ensures var before, remaining := Count(old(visits), today), CountWithout(old(visits), today, v);
              var warnedAt := old(visits)[v].supervisionWarnedAt;
              var inTime := warnedAt.Some? && now - warnedAt.value <= 15_000;
              interrupt == if remaining == before || remaining > 2 then NoInterrupt
                           else if remaining == 2 || !YouthPresent(old(visits)) then Proceeding(Some(remaining))
                           else if inTime then Proceeding(None)
                           else ConfirmRequired(remaining)
      ensures interrupt.ConfirmRequired? ==> visits == old(visits)[v := old(visits)[v].(supervisionWarnedAt := Some(now))]
    {
      var supervising := SupervisingAdultVisits(visits, today);
      var before := SupervisingAdultCount(supervising, None);
      var remaining := SupervisingAdultCount(supervising, Some(v));
      OneDepartureCountsOnce(supervising, v);
      if remaining >= before || remaining > MIN_SUPERVISING_ADULTS {
        return NoInterrupt;
      }
      if remaining == MIN_SUPERVISING_ADULTS {
        return Proceeding(Some(remaining));
      }
      var youth := YouthIsPresent(visits);
      if !youth {
        return Proceeding(Some(remaining));
      }
      var warnedAt := visits[v].supervisionWarnedAt;
      if warnedAt.Some? && now - warnedAt.value <= SUPERVISION_CONFIRM_MS {
        return Proceeding(None);
      }
      visits := visits[v := visits[v].(supervisionWarnedAt := Some(now))];
      return ConfirmRequired(remaining);
    }

    /** One statement over the whole table. */
    method CloseAllOpenVisits(now: int)
      modifies this`visits
      ensures visits == Swept(old(visits), now)
      ensures visits.Keys == old(visits.Keys) && forall v | v in visits :: !Open(visits[v])
      ensures forall v | v in visits && !Open(old(visits)[v]) :: visits[v] == old(visits)[v]
      ensures forall v | v in visits && Open(old(visits)[v]) ::
                && visits[v].arrivedAt == old(visits)[v].arrivedAt && visits[v].departedVia == Some(V.FacilityClose)
                && visits[v].departedAt.value <= now && visits[v].departedAt.value - visits[v].arrivedAt <= 86_400_000
                && (now - visits[v].arrivedAt <= 86_400_000 ==> visits[v].departedAt.value == now)
    {
      visits := map v | v in visits ::
        if visits[v].departedAt.None? && !visits[v].deleted
        then CloseRow(visits[v], now, V.FacilityClose)
        else visits[v];
    }

    method ProcessVisitCheckout(v: nat, at: int) returns (recorded: bool)
      requires v in visits
      modifies this`visits
      ensures visits == Departed(old(visits), v, at) && recorded == Open(old(visits)[v])
    {
      if visits[v].departedAt.Some? || visits[v].deleted {
        return false;
      }
      visits := visits[v := CloseRow(visits[v], at, V.Scanner)];
      return true;
    }

    /** The last-keyholder part of a check-out: a reply of its own ends the scan there. */
    method CloseInterrupt(scan: Scan, root: bool) returns (closing: bool, reply: Option<Outcome>)
      requires scan.visit in visits
      modifies this
      ensures var was, v := old(visits), scan.visit;
              var decision := Decide(was, v, scan.token, scan.replayOf.Some?, scan.forceCloseConfirmed);
              && (closing <==> decision == Close)
              && visits == (if decision == Warn then Minted(was, v, scan.newToken, scan.now)
                            else if decision == Close && root then Swept(Spent(was, v), scan.now)
                            else if decision == Close then Spent(was, v)
                            else was)
              && reply == (if decision == Warn then Some(ForceCloseWarning(scan.newToken))
                           else if decision != Hold then None
                           else if Logged(old(badges), scan.replayOf.value) then Some(Parked(ForceCloseReview))
                           else Some(RecordMissing))
      ensures badges == if reply == Some(Parked(ForceCloseReview)) then HeldEvent(old(badges), scan.replayOf.value)
                        else old(badges)
      ensures var was, v := old(visits), scan.visit;
              var last, othersIn := was[v].person.isKeyholder && !SomeKeyholderIn(was, {v}), SomebodyIn(was, {v});
              var confirmed := || (scan.token.Some? && was[v].forceCloseToken == scan.token)
                               || (scan.replayOf.Some? && scan.forceCloseConfirmed);
              && (closing <==> last && (!othersIn || confirmed))
              && (reply.Some? <==> last && othersIn && !confirmed)
              && (reply.Some? ==> (reply.value.ForceCloseWarning? <==> scan.replayOf.None?))
              && (reply.Some? && reply.value.ForceCloseWarning? ==>
                    && reply.value.token == scan.newToken
                    && visits == was[v := was[v].(forceCloseToken := Some(scan.newToken), forceCloseWarnedAt := Some(scan.now))])
              && (!closing && !(reply.Some? && reply.value.ForceCloseWarning?) ==> visits == was)
              && (closing && !root ==> visits == was[v := was[v].(forceCloseToken := None, forceCloseWarnedAt := None)])
    {
      var v := scan.visit;
      NobodyInIff(visits, v);
      closing, reply := false, None;
      if visits[v].person.isKeyholder {
        var remainingKeyholders := set w | w in visits && Open(visits[w]) && visits[w].person.isKeyholder && w != v;
        assert remainingKeyholders == OpenKeyholders(visits) - {v};
        if remainingKeyholders == {} {
          var remainingUsers := set w | w in visits && Open(visits[w]) && w != v;
          assert remainingUsers == Others(visits, v);
          if remainingUsers != {} {
            var stored := visits[v].forceCloseToken;
            var confirmForceClose := scan.token.Some? && stored.Some? && stored.value == scan.token.value;
            var offlineConfirmed := scan.forceCloseConfirmed && scan.replayOf.Some?;
            if !confirmForceClose && !offlineConfirmed && scan.replayOf.Some? {
              if !Logged(badges, scan.replayOf.value) {
                return false, Some(RecordMissing);
              }
              badges := HeldEvent(badges, scan.replayOf.value);
              return false, Some(Parked(ForceCloseReview));
            }
            if !confirmForceClose && !offlineConfirmed {
              visits := visits[v := visits[v].(forceCloseWarnedAt := Some(scan.now), forceCloseToken := Some(scan.newToken))];
              return false, Some(ForceCloseWarning(scan.newToken));
            }
          }
          closing := true;
          visits := visits[v := visits[v].(forceCloseWarnedAt := None, forceCloseToken := None)];
          if root {
            CloseAllOpenVisits(scan.now);
          }
        }
      }
    }

    method ProcessCheckout(scan: Scan, root: bool) returns (outcome: Outcome)
      requires scan.visit in visits
      modifies this
      ensures var expected := CheckoutReply(old(visits), scan, root);
              if expected.outcome == Parked(ForceCloseReview) && !Logged(old(badges), scan.replayOf.value)
              then visits == old(visits) && outcome == RecordMissing
              else Reply(visits, outcome) == expected
      ensures badges == if outcome == Parked(ForceCloseReview) then HeldEvent(old(badges), scan.replayOf.value)
                        else old(badges)
      ensures outcome == Parked(ForceCloseReview) ==>
                && |badges| == |old(badges)|
                && (forall b | 0 <= b < |badges| ::
                      badges[b] == if old(badges)[b].clientEventId == scan.replayOf
                                   then old(badges)[b].(review := Some(ForceCloseReview)) else old(badges)[b])
      ensures outcome.CheckedOut? && outcome.recorded ==>
                DepartedAt(old(visits)[scan.visit], visits[scan.visit], scan.visitTime)
      ensures outcome.CheckedOut? && !outcome.facilityClosed ==>
                && visits.Keys == old(visits.Keys) && (forall w | w in visits && w != scan.visit :: visits[w] == old(visits)[w])
                && (outcome.recorded <==> IsIn(old(visits), scan.visit))
      ensures outcome.CheckedOut? && outcome.facilityClosed && !root ==>
                && visits.Keys == old(visits.Keys) && (forall w | w in visits && w != scan.visit :: visits[w] == old(visits)[w])
                && (outcome.recorded <==> IsIn(old(visits), scan.visit))
    {
      var v := scan.visit;
      var closing, reply := CloseInterrupt(scan, root);
      if reply.Some? {
        return reply.value;
      }
      var warning := None;
      if !closing && scan.replayOf.None? {
        var interrupt := SupervisionInterrupt(v, scan.today, scan.now);
        if interrupt.ConfirmRequired? {
          return SupervisionWarning(interrupt.left);
        }
        if interrupt.Proceeding? {
          warning := interrupt.warning;
        }
      }
      var recorded := ProcessVisitCheckout(v, scan.visitTime);
      return CheckedOut(closing, warning, recorded);
    }

    /** The guard of the web paths; its caller departs or removes the visit and then closes the facility. */
    method LastKeyholderGuard(v: nat, clientToken: Option<nat>, now: int, newToken: nat) returns (result: GuardResult)
      requires v in visits
      modifies this`visits
      ensures (visits, result) == GuardReply(old(visits), v, clientToken, now, newToken)
      ensures var was := old(visits);
              var last, othersIn := was[v].person.isKeyholder && !SomeKeyholderIn(was, {v}), SomebodyIn(was, {v});
              var confirmed := clientToken.Some? && was[v].forceCloseToken == clientToken;
              && (result.WarnWeb? <==> last && othersIn && !confirmed)
              && (result.Proceed? ==> (result.facilityClosed <==> last))
              && (result.WarnWeb? ==>
                    && result.token == newToken
                    && visits == was[v := was[v].(forceCloseToken := Some(newToken), forceCloseWarnedAt := Some(now))])
    {
      NobodyInIff(visits, v);
      if !visits[v].person.isKeyholder {
        return Proceed(false);
      }
      var remainingKeyholders := set w | w in visits && Open(visits[w]) && visits[w].person.isKeyholder && w != v;
      assert remainingKeyholders == OpenKeyholders(visits) - {v};
      if remainingKeyholders != {} {
        return Proceed(false);
      }
      var remainingUsers := set w | w in visits && Open(visits[w]) && w != v;
      assert remainingUsers == Others(visits, v);
      if remainingUsers != {} {
        var stored := visits[v].forceCloseToken;
        var confirmed := clientToken.Some? && stored.Some? && stored.value == clientToken.value;
        if !confirmed {
          visits := visits[v := visits[v].(forceCloseWarnedAt := Some(now), forceCloseToken := Some(newToken))];
          return WarnWeb(newToken);
        }
      }
      visits := visits[v := visits[v].(forceCloseWarnedAt := None, forceCloseToken := None)];
      return Proceed(true);
    }

    /** After the commit: the sweep runs only if the reply said that the facility closed. */
    method FinalizeFacilityClose(reply: Outcome, now: int)
      modifies this`visits
      ensures visits == if reply.CheckedOut? && reply.facilityClosed then Swept(old(visits), now) else old(visits)
    {
      if !(reply.CheckedOut? && reply.facilityClosed) {
        return;
      }
      CloseAllOpenVisits(now);
    }
  }

  // ---------------------------------------------------------------------------
  // The answers, from what is in the table
  // ---------------------------------------------------------------------------

  /** Which answer a check-out gets: a last keyholder closes if nobody else is in or the close is confirmed, and is
      otherwise warned, or, unattended, held; anybody else leaves, an unattended scan at once and a live one by the
      number of supervising adults who stay. */
  lemma CheckoutAnswers(visits: Roster, scan: Scan, root: bool)
    requires scan.visit in visits
    ensures var v, outcome := scan.visit, CheckoutReply(visits, scan, root).outcome;
            var last, othersIn := visits[v].person.isKeyholder && !SomeKeyholderIn(visits, {v}), SomebodyIn(visits, {v});
            var confirmed := || (scan.token.Some? && visits[v].forceCloseToken == scan.token)
                             || (scan.replayOf.Some? && scan.forceCloseConfirmed);
            var before, remaining := Count(visits, scan.today), CountWithout(visits, scan.today, v);
            var warnedAt := visits[v].supervisionWarnedAt;
            var inTime := warnedAt.Some? && scan.now - warnedAt.value <= 15_000;
            outcome ==
              if last && (!othersIn || confirmed) then CheckedOut(true, None, !root && IsIn(visits, v))
              else if last && scan.replayOf.Some? then Parked(ForceCloseReview)
              else if last then ForceCloseWarning(scan.newToken)
              else if scan.replayOf.Some? || remaining == before || remaining > 2 then CheckedOut(false, None, IsIn(visits, v))
              else if remaining == 2 || !YouthPresent(visits) then CheckedOut(false, Some(remaining), IsIn(visits, v))
              else if inTime then CheckedOut(false, None, IsIn(visits, v))
              else SupervisionWarning(remaining)
  {
    NobodyInIff(visits, scan.visit);
    OneDepartureCountsOnce(Supervising(visits, scan.today), scan.visit);
  }
}
