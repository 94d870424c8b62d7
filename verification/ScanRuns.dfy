/** What every sequence of check-ins, check-outs, web closes and sweeps keeps: who may close the building over other
    people's heads, and when a room may run short of supervision. */
module ScanRuns {
  import opened Options
  import opened Supervision
  import opened ScanService
  import V = Visits

  datatype Action =
    | CheckIn(person: Person, kiosk: bool, at: int, on: int, newVisit: nat)
    | CheckOut(scan: Scan, root: bool)
    | Guard(visit: nat, token: Option<nat>, now: int, newToken: nat)
    | WebDeparture(visit: nat, at: int)
    | WebRemoval(visit: nat)
    | Sweep(now: int)

  /** New rows get unused ids; the scan route looks up the open visit it checks out. */
  predicate Possible(visits: Roster, a: Action) {
    match a
    case CheckIn(_, _, _, _, newVisit) => newVisit !in visits
    case CheckOut(scan, _) => scan.visit in visits && Open(visits[scan.visit])
    case Guard(v, _, _, _) => v in visits
    case WebDeparture(v, _) => v in visits
    case WebRemoval(v) => v in visits
    case Sweep(_) => true
  }

  function Step(visits: Roster, a: Action): Roster
    requires Possible(visits, a)
  {
    match a
    case CheckIn(person, kiosk, at, on, newVisit) => CheckinReply(visits, person, kiosk, at, on, newVisit).visits
    case CheckOut(scan, root) => CheckoutReply(visits, scan, root).visits
    case Guard(v, token, now, newToken) => GuardReply(visits, v, token, now, newToken).0
    case WebDeparture(v, at) => Departed(visits, v, at)
    case WebRemoval(v) => visits[v := visits[v].(deleted := true)]
    case Sweep(now) => Swept(visits, now)
  }

  predicate Run(start: Roster, run: seq<Action>)
    decreases |run|, 0
  {
    run == [] ||
    (var front := run[..|run| - 1];
     Run(start, front) && Possible(After(start, front), run[|run| - 1]))
  }

  function After(start: Roster, run: seq<Action>): Roster
    requires Run(start, run)
    decreases |run|, 1
  {
    if run == [] then start else Step(After(start, run[..|run| - 1]), run[|run| - 1])
  }

  /** Nobody has been warned yet. */
  predicate Unwarned(start: Roster) {
    forall v :: v in start ==> start[v].forceCloseToken.None? && start[v].supervisionWarnedAt.None?
  }

  lemma {:induction false} PrefixIsARun(start: Roster, run: seq<Action>, i: nat)
    requires Run(start, run) && i <= |run|
    ensures Run(start, run[..i])
    ensures i < |run| ==> Possible(After(start, run[..i]), run[i])
    ensures i < |run| ==> Run(start, run[..i + 1])
                          && After(start, run[..i + 1]) == Step(After(start, run[..i]), run[i])
    decreases |run|
  {
    if i == |run| {
      assert run[..i] == run;
    } else if i + 1 == |run| {
      assert run[..i + 1] == run;
    } else {
      var front := run[..|run| - 1];
      PrefixIsARun(start, front, i);
      assert front[..i] == run[..i] && front[..i + 1] == run[..i + 1];
    }
  }

  function At(start: Roster, run: seq<Action>, i: nat): Roster
    requires Run(start, run) && i <= |run|
  {
    PrefixIsARun(start, run, i);
    After(start, run[..i])
  }

  lemma AtStart(start: Roster, run: seq<Action>)
    requires Run(start, run)
    ensures At(start, run, 0) == start
  {
    assert run[..0] == [];
  }

  // ---------------------------------------------------------------------------
  // Warnings and closes
  // ---------------------------------------------------------------------------

  /** What a step means for the confirm tokens. */
  datatype Mark = Warned(visit: nat, token: nat) | Closed(visit: nat) | Nothing

  function MarkOf(visits: Roster, a: Action): Mark
    requires Possible(visits, a)
  {
    match a
    case CheckOut(scan, root) =>
      var outcome := CheckoutReply(visits, scan, root).outcome;
      if outcome.ForceCloseWarning? then Warned(scan.visit, outcome.token)
      else if outcome.CheckedOut? && outcome.facilityClosed then Closed(scan.visit)
      else Nothing
    case Guard(v, token, now, newToken) =>
      var result := GuardReply(visits, v, token, now, newToken).1;
      if result.WarnWeb? then Warned(v, result.token)
      else if result.facilityClosed then Closed(v)
      else Nothing
    case _ => Nothing
  }

  function MarkAt(start: Roster, run: seq<Action>, i: nat): Mark
    requires Run(start, run) && i < |run|
  {
    PrefixIsARun(start, run, i);
    MarkOf(At(start, run, i), run[i])
  }

  predicate About(m: Mark, v: nat) {
    !m.Nothing? && m.visit == v
  }

  function Stored(visits: Roster, v: nat): Option<nat> {
    if v in visits then visits[v].forceCloseToken else None
  }

  function NextToken(held: Option<nat>, m: Mark, v: nat): Option<nat> {
    if !About(m, v) then held else if m.Warned? then Some(m.token) else None
  }

  /** Only a warning or a close of v itself touches the token v holds. */
  lemma StepMovesToken(visits: Roster, a: Action, v: nat)
    requires Possible(visits, a)
    ensures Stored(Step(visits, a), v) == NextToken(Stored(visits, v), MarkOf(visits, a), v)
  {
  }

  function Marks(start: Roster, run: seq<Action>): (marks: seq<Mark>)
    requires Run(start, run)
    ensures |marks| == |run|
  {
    seq(|run|, i requires 0 <= i < |run| => MarkAt(start, run, i))
  }

  /** v's latest warning before step i is step j, and no close of v came between. */
  predicate LatestWarning(marks: seq<Mark>, i: nat, v: nat, token: nat, j: nat) {
    && j < i <= |marks| && marks[j] == Warned(v, token)
    && forall k :: j < k < i ==> !About(marks[k], v)
  }

  /** The tokens v holds along a run. */
  predicate Follows(held: seq<Option<nat>>, marks: seq<Mark>, v: nat) {
    && |held| == |marks| + 1 && held[0].None?
    && forall i :: 0 <= i < |marks| ==> held[i + 1] == NextToken(held[i], marks[i], v)
  }

  lemma {:induction false} FindLatestWarning(held: seq<Option<nat>>, marks: seq<Mark>, i: nat, v: nat) returns (j: nat)
    requires Follows(held, marks, v) && i <= |marks| && held[i].Some?
    ensures LatestWarning(marks, i, v, held[i].value, j)
    decreases i
  {
    j := i - 1;
    assert held[j + 1] == NextToken(held[j], marks[j], v);
    if !About(marks[j], v) {
      j := FindLatestWarning(held, marks, j, v);
    }
  }

  lemma {:induction false} LatestWarningIsHeld(
      held: seq<Option<nat>>, marks: seq<Mark>, i: nat, v: nat, token: nat, j: nat)
    requires Follows(held, marks, v) && LatestWarning(marks, i, v, token, j)
    ensures held[i] == Some(token)
    decreases i
  {
    assert held[i - 1 + 1] == NextToken(held[i - 1], marks[i - 1], v);
    if j < i - 1 {
      LatestWarningIsHeld(held, marks, i - 1, v, token, j);
    }
  }

  function Held(start: Roster, run: seq<Action>, v: nat): (held: seq<Option<nat>>)
    requires Run(start, run)
    ensures |held| == |run| + 1
  {
    seq(|run| + 1, i requires 0 <= i <= |run| => Stored(At(start, run, i), v))
  }

  lemma HeldFollows(start: Roster, run: seq<Action>, v: nat)
    requires Unwarned(start) && Run(start, run)
    ensures Follows(Held(start, run, v), Marks(start, run), v)
  {
    AtStart(start, run);
    forall i: nat | i < |run|
      ensures Stored(At(start, run, i + 1), v) == NextToken(Stored(At(start, run, i), v), MarkAt(start, run, i), v)
    {
      PrefixIsARun(start, run, i);
      StepMovesToken(At(start, run, i), run[i], v);
    }
  }

  /** The token on a row is the one of its latest warning, and the other way round. */
  lemma TokenIsFromTheLatestWarning(start: Roster, run: seq<Action>, i: nat, v: nat, token: nat)
    requires Unwarned(start) && Run(start, run) && i <= |run|
    ensures Held(start, run, v)[i] == Some(token)
            <==> exists j: nat :: LatestWarning(Marks(start, run), i, v, token, j)
  {
    var held, marks := Held(start, run, v), Marks(start, run);
    HeldFollows(start, run, v);
    if held[i] == Some(token) {
      var j := FindLatestWarning(held, marks, i, v);
    }
    forall j: nat | LatestWarning(marks, i, v, token, j) ensures held[i] == Some(token) {
      LatestWarningIsHeld(held, marks, i, v, token, j);
    }
  }

  /** A checked-out visit is never opened again. */
  lemma {:induction false} OpenAllAlong(start: Roster, run: seq<Action>, k: nat, i: nat, v: nat)
    requires Run(start, run) && k <= i <= |run|
    requires v in At(start, run, k) && v in At(start, run, i) && Open(At(start, run, i)[v])
    ensures Open(At(start, run, k)[v])
    decreases i - k
  {
    if k < i {
      PrefixIsARun(start, run, k);
      StepNeverReopens(At(start, run, k), run[k], v);
      OpenAllAlong(start, run, k + 1, i, v);
    }
  }

  lemma StepNeverReopens(visits: Roster, a: Action, v: nat)
    requires Possible(visits, a) && v in visits
    ensures v in Step(visits, a)
    ensures Open(Step(visits, a)[v]) ==> Open(visits[v])
    ensures Step(visits, a)[v].person == visits[v].person
  {
  }

  predicate OpenAt(start: Roster, run: seq<Action>, k: nat, v: nat)
    requires Run(start, run) && k <= |run|
  {
    v in At(start, run, k) && Open(At(start, run, k)[v])
  }

  /** Closing over the heads of others takes the token of the latest warning given on that visit; the only other way
      is a queued scan that was confirmed at the kiosk. */
  lemma ContestedCloseEchoesLatestWarning(start: Roster, run: seq<Action>, i: nat)
    requires Unwarned(start) && Run(start, run) && i < |run| && run[i].CheckOut?
    requires Possible(At(start, run, i), run[i]) && Contested(At(start, run, i), run[i].scan.visit)
    ensures var scan := run[i].scan;
            Marks(start, run)[i] == Closed(scan.visit) <==>
              || (scan.replayOf.Some? && scan.forceCloseConfirmed)
              || (scan.token.Some?
                  && exists j: nat :: LatestWarning(Marks(start, run), i, scan.visit, scan.token.value, j))
  {
    var scan := run[i].scan;
    ContestedCloseEchoesHeldToken(start, run, i);
    if scan.token.Some? {
      TokenIsFromTheLatestWarning(start, run, i, scan.visit, scan.token.value);
    }
  }

  lemma ContestedCloseEchoesHeldToken(start: Roster, run: seq<Action>, i: nat)
    requires Run(start, run) && i < |run| && run[i].CheckOut?
    requires Possible(At(start, run, i), run[i]) && Contested(At(start, run, i), run[i].scan.visit)
    ensures var scan := run[i].scan;
            Marks(start, run)[i] == Closed(scan.visit) <==>
              || (scan.replayOf.Some? && scan.forceCloseConfirmed)
              || (scan.token.Some? && Held(start, run, scan.visit)[i] == scan.token)
  {
  }

  /** That warning was given on the same stay: the visit was open from then on. */
  lemma WarnedVisitStayedOpen(start: Roster, run: seq<Action>, i: nat, v: nat, token: nat, j: nat, k: nat)
    requires Run(start, run) && i <= |run| && OpenAt(start, run, i, v)
    requires LatestWarning(Marks(start, run), i, v, token, j) && j <= k <= i
    ensures OpenAt(start, run, k, v)
  {
    WarningIsOnARow(start, run, j);
    KeptThroughout(start, run, j, k, v);
    OpenAllAlong(start, run, k, i, v);
  }

  lemma WarningIsOnARow(start: Roster, run: seq<Action>, j: nat)
    requires Run(start, run) && j < |run|
    ensures Marks(start, run)[j].Warned? ==> Marks(start, run)[j].visit in At(start, run, j)
  {
    PrefixIsARun(start, run, j);
  }

  lemma {:induction false} KeptThroughout(start: Roster, run: seq<Action>, j: nat, k: nat, v: nat)
    requires Run(start, run) && j <= k <= |run| && v in At(start, run, j)
    ensures v in At(start, run, k)
    decreases k
  {
    if j < k {
      KeptThroughout(start, run, j, k - 1, v);
      PrefixIsARun(start, run, k - 1);
      StepNeverReopens(At(start, run, k - 1), run[k - 1], v);
    }
  }

  function NewToken(a: Action): Option<nat> {
    match a
    case CheckOut(scan, _) => Some(scan.newToken)
    case Guard(_, _, _, newToken) => Some(newToken)
    case _ => None
  }

  /** Random tokens never repeat. */
  predicate TokensDiffer(run: seq<Action>) {
    forall i, j :: 0 <= i < j < |run| && NewToken(run[i]).Some? ==> NewToken(run[i]) != NewToken(run[j])
  }

  /** The token with which a step, from the reader, from the queue or from the web, closes over others' heads. */
  function Redeemed(visits: Roster, a: Action): Option<nat>
    requires Possible(visits, a)
  {
    match MarkOf(visits, a)
    case Closed(v) =>
      var token := if a.CheckOut? then a.scan.token else if a.Guard? then a.token else None;
      if Contested(visits, v) && Echoes(visits[v], token) then token else None
    case _ => None
  }

  lemma NoTokenClosesTwice(start: Roster, run: seq<Action>, i: nat, j: nat)
    requires Unwarned(start) && Run(start, run) && TokensDiffer(run) && i < j < |run|
    requires Possible(At(start, run, i), run[i]) && Redeemed(At(start, run, i), run[i]).Some?
    requires Possible(At(start, run, j), run[j]) && Redeemed(At(start, run, j), run[j]).Some?
    ensures Redeemed(At(start, run, i), run[i]) != Redeemed(At(start, run, j), run[j])
  {
    var v := RedeemedIsHeld(start, run, i);
    var w := RedeemedIsHeld(start, run, j);
    HeldFollows(start, run, v);
    HeldFollows(start, run, w);
    MarksHaveOwnTokens(start, run);
    HeldTokensDiffer(Held(start, run, v), Held(start, run, w), Marks(start, run), i, j);
  }

  predicate OwnTokens(marks: seq<Mark>) {
    forall p, q :: 0 <= p < q < |marks| && marks[p].Warned? && marks[q].Warned? ==> marks[p].token != marks[q].token
  }

  lemma MarksHaveOwnTokens(start: Roster, run: seq<Action>)
    requires Run(start, run) && TokensDiffer(run)
    ensures OwnTokens(Marks(start, run))
  {
    var marks := Marks(start, run);
    forall p: nat | p < |marks| && marks[p].Warned? ensures NewToken(run[p]) == Some(marks[p].token) {
      WarningUsesNewToken(start, run, p);
    }
  }

  /** What a close at i used up is not what a close at j finds. */
  lemma HeldTokensDiffer(heldByV: seq<Option<nat>>, heldByW: seq<Option<nat>>, marks: seq<Mark>, i: nat, j: nat)
    requires i < j < |marks| && marks[i].Closed? && marks[j].Closed? && OwnTokens(marks)
    requires Follows(heldByV, marks, marks[i].visit) && Follows(heldByW, marks, marks[j].visit)
    requires heldByV[i].Some? && heldByW[j].Some?
    ensures heldByV[i] != heldByW[j]
  {
    var p := FindLatestWarning(heldByV, marks, i, marks[i].visit);
    var q := FindLatestWarning(heldByW, marks, j, marks[j].visit);
    assert q > i || !About(marks[i], marks[j].visit);
  }

  lemma RedeemedIsHeld(start: Roster, run: seq<Action>, i: nat) returns (v: nat)
    requires Run(start, run) && i < |run|
    requires Possible(At(start, run, i), run[i]) && Redeemed(At(start, run, i), run[i]).Some?
    ensures Marks(start, run)[i] == Closed(v)
    ensures Held(start, run, v)[i] == Redeemed(At(start, run, i), run[i])
  {
    v := MarkAt(start, run, i).visit;
  }

  lemma WarningUsesNewToken(start: Roster, run: seq<Action>, p: nat)
    requires Run(start, run) && p < |run|
    ensures var m := Marks(start, run)[p];
            m.Warned? ==> NewToken(run[p]) == Some(m.token)
  {
  }

  /** An unattended scan leaves every token as it was or spends its own, and is held for review, changing nothing,
      when it would need a confirmation nobody gave. */
  lemma ReplayNeverMints(visits: Roster, scan: Scan, root: bool)
    requires Possible(visits, CheckOut(scan, root)) && scan.replayOf.Some?
    ensures var reply := CheckoutReply(visits, scan, root);
            && !MarkOf(visits, CheckOut(scan, root)).Warned?
            && (forall v :: v in visits ==>
                  Stored(reply.visits, v) == Stored(visits, v)
                  || (v == scan.visit && Stored(reply.visits, v).None? && reply.outcome.CheckedOut?))
            && (reply.outcome == Parked(ForceCloseReview) <==>
                  Contested(visits, scan.visit) && !Echoes(visits[scan.visit], scan.token) && !scan.forceCloseConfirmed)
            && (reply.outcome == Parked(ForceCloseReview) ==> reply.visits == visits)
  {
  }

  /** The web guard decides as a live scan does, and leaves the same tokens, except where the scan is stopped or waved
      through by the supervision ladder, which the web paths do not have. */
  lemma WebGuardMatchesLiveScan(visits: Roster, scan: Scan, root: bool)
    requires Possible(visits, CheckOut(scan, root)) && scan.replayOf.None?
    ensures var (guarded, result) := GuardReply(visits, scan.visit, scan.token, scan.now, scan.newToken);
            var reply := CheckoutReply(visits, scan, root);
            && (result.WarnWeb? <==> reply.outcome.ForceCloseWarning?)
            && (result.WarnWeb? ==> reply == Reply(guarded, ForceCloseWarning(result.token)))
            && (result == Proceed(true) <==> reply.outcome.CheckedOut? && reply.outcome.facilityClosed)
            && (forall v :: v in visits ==> SameTokens(visits, scan, root, v))
  {
    forall v | v in visits ensures SameTokens(visits, scan, root, v) {
      TokensOfBothPaths(visits, scan, root, v);
    }
  }

  predicate SameTokens(visits: Roster, scan: Scan, root: bool, v: nat)
    requires scan.visit in visits && v in visits
  {
    var guarded := GuardReply(visits, scan.visit, scan.token, scan.now, scan.newToken).0;
    var after := CheckoutReply(visits, scan, root).visits;
    && v in guarded && v in after
    && guarded[v].forceCloseToken == after[v].forceCloseToken
    && guarded[v].forceCloseWarnedAt == after[v].forceCloseWarnedAt
  }

  lemma TokensOfBothPaths(visits: Roster, scan: Scan, root: bool, v: nat)
    requires scan.visit in visits && v in visits && scan.replayOf.None?
    ensures SameTokens(visits, scan, root, v)
  {
  }

  /** Sweeping before the keyholder's own departure or after it gives the same table but for the keyholder's own row,
      which the early sweep stamps as closed by the facility, and the later check-out then leaves alone. */
  lemma SweepOrderShowsOnlyOnTheKeyholder(visits: Roster, scan: Scan)
    requires Possible(visits, CheckOut(scan, true))
    requires Decide(visits, scan.visit, scan.token, scan.replayOf.Some?, scan.forceCloseConfirmed) == Close
    ensures var early := CheckoutReply(visits, scan, true).visits;
            var late := Swept(CheckoutReply(visits, scan, false).visits, scan.now);
            && late == early[scan.visit := CloseRow(Spent(visits, scan.visit)[scan.visit], scan.visitTime, V.Scanner)]
            && late != early
            && forall v :: v in late ==> !Open(late[v])
  {
    var early := CheckoutReply(visits, scan, true).visits;
    var late := Swept(CheckoutReply(visits, scan, false).visits, scan.now);
    assert early[scan.visit].departedVia != late[scan.visit].departedVia;
  }

  // ---------------------------------------------------------------------------
  // Supervision
  // ---------------------------------------------------------------------------

  function Stamp(visits: Roster, v: nat): Option<int> {
    if v in visits then visits[v].supervisionWarnedAt else None
  }

  /** Step j told v's holder that leaving takes the room below two, and asked for a second scan. */
  predicate AskedAt(start: Roster, run: seq<Action>, j: nat, v: nat)
    requires Run(start, run) && j < |run|
  {
    PrefixIsARun(start, run, j);
    run[j].CheckOut? && run[j].scan.visit == v
    && CheckoutReply(At(start, run, j), run[j].scan, run[j].root).outcome.SupervisionWarning?
  }

  lemma StepMovesStamp(visits: Roster, a: Action, v: nat)
    requires Possible(visits, a)
    ensures Stamp(Step(visits, a), v)
            == if a.CheckOut? && a.scan.visit == v
                  && CheckoutReply(visits, a.scan, a.root).outcome.SupervisionWarning?
               then Some(a.scan.now) else Stamp(visits, v)
  {
  }

  lemma {:induction false} StampIsFromAWarning(start: Roster, run: seq<Action>, i: nat, v: nat) returns (j: nat)
    requires Unwarned(start) && Run(start, run) && i <= |run| && Stamp(At(start, run, i), v).Some?
    ensures j < i && AskedAt(start, run, j, v)
    ensures Stamp(At(start, run, i), v) == Some(run[j].scan.now)
    decreases i
  {
    PrefixIsARun(start, run, i);
    if i == 0 {
      assert false;
    } else {
      PrefixIsARun(start, run, i - 1);
      StepMovesStamp(At(start, run, i - 1), run[i - 1], v);
      if AskedAt(start, run, i - 1, v) {
        j := i - 1;
      } else {
        j := StampIsFromAWarning(start, run, i - 1, v);
      }
    }
  }

  /** A live check-out that closes nothing. */
  predicate LiveDeparture(visits: Roster, a: Action)
    requires Possible(visits, a)
  {
    && a.CheckOut? && a.scan.replayOf.None?
    && !MarkOf(visits, a).Closed?
  }

  /** One such step changes the count by its own household at most. */
  lemma LiveDepartureCounts(visits: Roster, a: Action)
    requires Possible(visits, a) && LiveDeparture(visits, a)
    ensures var today := a.scan.today;
            var before, after := Count(visits, today), Count(Step(visits, a), today);
            && before - 1 <= after <= before
            && (after < before <==> CheckoutReply(visits, a.scan, a.root).outcome.CheckedOut?
                                    && OnlyOneOfItsHousehold(Supervising(visits, today), a.scan.visit))
            && (after < before && after < MIN_SUPERVISING_ADULTS && YouthPresent(visits)
                ==> FreshStamp(visits[a.scan.visit], a.scan.now))
  {
    var today, v := a.scan.today, a.scan.visit;
    var after := Step(visits, a);
    if CheckoutReply(visits, a.scan, a.root).outcome.CheckedOut? {
      var row := CloseRow(visits[v], a.scan.visitTime, V.Scanner);
      assert after == visits[v := row];
      CountAfterDeparture(visits, v, row, today);
    } else {
      assert Supervising(after, today) == Supervising(visits, today);
    }
  }

  /** Whoever takes the room below two with a youth in it was asked first, on this visit, no longer ago than the
      confirm window. */
  lemma ShortRoomWasWarned(start: Roster, run: seq<Action>, i: nat) returns (j: nat)
    requires Unwarned(start) && Run(start, run) && i < |run|
    requires Possible(At(start, run, i), run[i]) && LiveDeparture(At(start, run, i), run[i])
    requires Count(At(start, run, i + 1), run[i].scan.today) < Count(At(start, run, i), run[i].scan.today)
    requires Count(At(start, run, i + 1), run[i].scan.today) < MIN_SUPERVISING_ADULTS
    requires YouthPresent(At(start, run, i))
    ensures j < i && AskedAt(start, run, j, run[i].scan.visit)
    ensures run[i].scan.now - run[j].scan.now <= SUPERVISION_CONFIRM_MS
  {
    PrefixIsARun(start, run, i);
    LiveDepartureCounts(At(start, run, i), run[i]);
    j := StampIsFromAWarning(start, run, i, run[i].scan.visit);
  }

  /** A run of nothing but live departures on one day. */
  predicate LiveDepartures(start: Roster, run: seq<Action>, today: int)
    requires Run(start, run)
  {
    forall i :: 0 <= i < |run| ==> LiveDepartureAt(start, run, i, today)
  }

  predicate LiveDepartureAt(start: Roster, run: seq<Action>, i: nat, today: int)
    requires Run(start, run) && i < |run|
  {
    PrefixIsARun(start, run, i);
    LiveDeparture(At(start, run, i), run[i]) && run[i].scan.today == today
  }

  lemma {:induction false} YouthWasThere(start: Roster, run: seq<Action>, i: nat, today: int)
    requires Run(start, run) && LiveDepartures(start, run, today) && i <= |run|
    requires YouthPresent(After(start, run))
    ensures YouthPresent(At(start, run, i))
    decreases |run| - i
  {
    if i == |run| {
      assert run[..i] == run;
    } else {
      YouthWasThere(start, run, i + 1, today);
      PrefixIsARun(start, run, i);
      assert LiveDepartureAt(start, run, i, today);
      YouthBeforeStep(At(start, run, i), run[i]);
    }
  }

  lemma YouthBeforeStep(visits: Roster, a: Action)
    requires Possible(visits, a) && a.CheckOut? && YouthPresent(Step(visits, a))
    ensures YouthPresent(visits)
  {
    var v :| v in Step(visits, a) && YouthRow(Step(visits, a)[v]);
    assert v in visits;
    StepNeverReopens(visits, a, v);
    assert YouthRow(visits[v]);
  }

  /** The room, left by departures alone, passes from two supervising adults to one over a youth's head only through a
      departure that was warned and confirmed in time. */
  lemma {:induction false} RoomRunsShortOnlyAfterAWarning(start: Roster, run: seq<Action>, today: int, n: nat)
    returns (i: nat, j: nat)
    requires Unwarned(start) && Run(start, run) && LiveDepartures(start, run, today) && n <= |run|
    requires Count(start, today) >= MIN_SUPERVISING_ADULTS > Count(At(start, run, n), today)
    requires YouthPresent(After(start, run))
    ensures j < i < n && Count(At(start, run, i), today) == 2 && Count(At(start, run, i + 1), today) == 1
    ensures run[i].CheckOut? && AskedAt(start, run, j, run[i].scan.visit)
    ensures run[i].scan.now - run[j].scan.now <= SUPERVISION_CONFIRM_MS
    decreases n
  {
    AtStart(start, run);
    i := n - 1;
    if Count(At(start, run, i), today) < MIN_SUPERVISING_ADULTS {
      i, j := RoomRunsShortOnlyAfterAWarning(start, run, today, i);
    } else {
      YouthWasThere(start, run, i, today);
      DepartureAt(start, run, i, today);
      j := ShortRoomWasWarned(start, run, i);
    }
  }

  lemma DepartureAt(start: Roster, run: seq<Action>, i: nat, today: int)
    requires Run(start, run) && LiveDepartures(start, run, today) && i < |run|
    ensures Possible(At(start, run, i), run[i]) && LiveDeparture(At(start, run, i), run[i])
    ensures run[i].CheckOut? && run[i].scan.today == today
    ensures Count(At(start, run, i), today) - 1 <= Count(At(start, run, i + 1), today)
  {
    PrefixIsARun(start, run, i);
    assert LiveDepartureAt(start, run, i, today);
    LiveDepartureCounts(At(start, run, i), run[i]);
  }
}
