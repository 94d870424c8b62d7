/** Closing the building while people come and go: check-ins and the close sweep take the facility lock, check-outs do
    not, and every request may be interleaved with every other between its reads and its commit. */
module CloseProtocol {
  import Options
  import Supervision
  import Service = ScanService

  /** A check-in under the lock, before and after its look at the building. The row it writes shows at its commit. */
  datatype Lock = Free | Asking(isKeyholder: bool) | Admitted(isKeyholder: bool)

  /** What a keyholder's check-out has decided from its count of the other keyholders. */
  datatype Plan = Closing | Staying

  /** present: the open visits, and which of them are keyholders'. leaving: keyholders' check-outs under way.
      sweeps: closes that are committed and whose sweep has not run. issued: every visit id ever handed out. */
  datatype State = State(
    present: map<nat, bool>,
    lock: Lock,
    leaving: map<nat, Plan>,
    sweeps: nat,
    issued: set<nat>)

  datatype Action =
    | TakeLock(isKeyholder: bool)
    | Look
    | CommitCheckin(id: nat)
    | VisitorLeaves(id: nat)
    | Read(id: nat)
    | CommitCheckout(id: nat)
    | Abort(id: nat)
    | Sweep

  const EMPTY := State(map[], Free, map[], 0, {})

  predicate IsKeyholder(s: State, id: nat) {
    id in s.present && s.present[id]
  }

  predicate KeyholderIn(s: State) {
    exists id :: id in s.present && IsKeyholder(s, id)
  }

  predicate OtherKeyholderIn(s: State, id: nat) {
    exists other :: other in s.present && other != id && IsKeyholder(s, other)
  }

  predicate VisitorIn(s: State) {
    exists id :: id in s.present && !s.present[id]
  }

  /** A person's own lock keeps a second check-out of the same visit from starting. */
  predicate Can(s: State, a: Action) {
    match a
    case TakeLock(_) => s.lock.Free?
    case Look => s.lock.Asking?
    case CommitCheckin(id) => s.lock.Admitted? && id !in s.issued
    case VisitorLeaves(id) => id in s.present && !s.present[id]
    case Read(id) => IsKeyholder(s, id) && id !in s.leaving
    case CommitCheckout(id) => id in s.leaving
    case Abort(id) => id in s.leaving
    case Sweep => s.lock.Free? && s.sweeps > 0
  }

  function Step(s: State, a: Action): State
    requires Can(s, a)
  {
    match a
    case TakeLock(isKeyholder) => s.(lock := Asking(isKeyholder))
    case Look =>
      s.(lock := if s.lock.isKeyholder || KeyholderIn(s) then Admitted(s.lock.isKeyholder) else Free)
    case CommitCheckin(id) =>
      s.(present := s.present[id := s.lock.isKeyholder], lock := Free, issued := s.issued + {id})
    case VisitorLeaves(id) => s.(present := s.present - {id})
    case Read(id) => s.(leaving := s.leaving[id := if OtherKeyholderIn(s, id) then Staying else Closing])
    case CommitCheckout(id) =>
      s.(present := s.present - {id}, leaving := s.leaving - {id},
         sweeps := if s.leaving[id].Closing? then s.sweeps + 1 else s.sweeps)
    case Abort(id) => s.(leaving := s.leaving - {id})
    case Sweep => s.(present := map[], sweeps := s.sweeps - 1)
  }

  predicate Executes(s: State, run: seq<Action>)
    decreases |run|
  {
    run == [] || (Can(s, run[0]) && Executes(Step(s, run[0]), run[1..]))
  }

  function End(s: State, run: seq<Action>): State
    requires Executes(s, run)
    decreases |run|
  {
    if run == [] then s else End(Step(s, run[0]), run[1..])
  }

  // ---------------------------------------------------------------------------
  // The steps are those of the scan service
  // ---------------------------------------------------------------------------

  /** The visit table as this protocol sees it. */
  function Seen(visits: Supervision.Roster): map<nat, bool> {
    map v | v in visits && Supervision.Open(visits[v]) :: visits[v].person.isKeyholder
  }

  lemma LookAdmitsAsCheckin(s: State, visits: Supervision.Roster, person: Supervision.Person, kiosk: bool, at: int, today: int,
                            id: nat)
    requires s.present == Seen(visits) && s.lock == Asking(person.isKeyholder) && id !in visits && id !in s.issued
    ensures var reply := Service.CheckinReply(visits, person, kiosk, at, today, id);
            var looked := Step(s, Look);
            && (looked.lock.Admitted? <==> reply.outcome.CheckedIn?)
            && (looked.lock.Admitted? ==> Step(looked, CommitCheckin(id)).present == Seen(reply.visits))
            && (looked.lock.Free? ==> s.present == Seen(reply.visits))
  {
    assert forall v :: v in visits ==> (v in Service.OpenKeyholders(visits) <==> IsKeyholder(s, v));
    assert KeyholderIn(s) <==> Service.OpenKeyholders(visits) != {};
    var reply := Service.CheckinReply(visits, person, kiosk, at, today, id);
    if reply.outcome.CheckedIn? {
      assert reply.visits == visits[id := Service.NewRow(person, at)];
      assert Seen(reply.visits) == Seen(visits)[id := person.isKeyholder];
    }
  }

  lemma OthersAgree(s: State, visits: Supervision.Roster, v: nat)
    requires s.present == Seen(visits)
    ensures OtherKeyholderIn(s, v) <==> Service.OpenKeyholders(visits) - {v} != {}
  {
    forall w ensures w in Service.OpenKeyholders(visits) <==> w in s.present && IsKeyholder(s, w) {
    }
    if OtherKeyholderIn(s, v) {
      var other :| other in s.present && other != v && IsKeyholder(s, other);
      assert other in Service.OpenKeyholders(visits) - {v};
    }
  }

  /** A check-out decides against closing on the same count of keyholders. */
  lemma CheckoutDecidesAsRead(s: State, visits: Supervision.Roster, scan: Service.Scan)
    requires s.present == Seen(visits) && Can(s, Read(scan.visit))
    ensures var decision :=
              Service.Decide(visits, scan.visit, scan.token, scan.replayOf.Some?, scan.forceCloseConfirmed);
            Step(s, Read(scan.visit)).leaving[scan.visit].Staying? <==> decision == Service.Stay
  {
    OthersAgree(s, visits, scan.visit);
  }

  /** Departing takes one row out of the building, with or without spending the token; the sweep takes them all. */
  lemma WritesAgree(s: State, visits: Supervision.Roster, v: nat, at: int)
    requires s.present == Seen(visits) && v in visits
    ensures Seen(Service.Departed(visits, v, at)) == s.present - {v}
    ensures Seen(Service.Departed(Service.Spent(visits, v), v, at)) == s.present - {v}
    ensures Seen(Service.Swept(visits, at)) == map[]
  {
  }

  // ---------------------------------------------------------------------------
  // What must never happen
  // ---------------------------------------------------------------------------

  /** A visitor in the building, no keyholder, and no sweep on its way. */
  predicate Stranded(s: State) {
    VisitorIn(s) && !KeyholderIn(s) && s.sweeps == 0
  }

  /** An open keyholder's visit that is not about to end without closing. */
  predicate Anchors(s: State, id: nat) {
    IsKeyholder(s, id) && !(id in s.leaving && s.leaving[id].Staying?)
  }

  predicate Anchored(s: State) {
    exists id :: id in s.present && Anchors(s, id)
  }

  /** A check-out that decides against closing relies on a keyholder who is not leaving in the same way. */
  predicate OverlapSafe(s: State, a: Action) {
    a.Read? && OtherKeyholderIn(s, a.id) ==> exists other :: other in s.present && other != a.id && Anchors(s, other)
  }

  predicate Careful(s: State, run: seq<Action>)
    requires Executes(s, run)
    decreases |run|
  {
    run == [] || (OverlapSafe(s, run[0]) && Careful(Step(s, run[0]), run[1..]))
  }

  ghost predicate Inv(s: State) {
    && s.present.Keys + s.leaving.Keys <= s.issued
    && (s.present.Keys != {} || s.lock == Admitted(false) ==> s.sweeps > 0 || Anchored(s))
  }

  lemma StepKeepsInv(s: State, a: Action)
    requires Inv(s) && Can(s, a) && OverlapSafe(s, a)
    ensures Inv(Step(s, a))
  {
    var t := Step(s, a);
    if Anchored(s) {
      var id :| id in s.present && Anchors(s, id);
      match a
      case TakeLock(_) => assert Anchors(t, id);
      case Look => assert Anchors(t, id);
      case CommitCheckin(_) => assert Anchors(t, id);
      case VisitorLeaves(_) => assert Anchors(t, id);
      case Read(out) =>
        if OtherKeyholderIn(s, out) {
          var other :| other in s.present && other != out && Anchors(s, other);
          assert Anchors(t, other);
        } else {
          assert Anchors(t, out);
        }
      case CommitCheckout(out) =>
        if out != id {
          assert Anchors(t, id);
        }
      case Abort(_) => assert Anchors(t, id);
      case Sweep =>
    } else {
      LookWithoutAnchor(s, a);
    }
  }

  /** With no anchor, whatever is in the building or about to be is covered by a sweep that only a sweep uses up. */
  lemma LookWithoutAnchor(s: State, a: Action)
    requires Inv(s) && Can(s, a) && OverlapSafe(s, a) && !Anchored(s)
    ensures Inv(Step(s, a))
  {
    if a.CommitCheckin? && s.lock == Admitted(true) {
      assert Anchors(Step(s, a), a.id);
    }
    if a.Look? && KeyholderIn(s) {
      assert s.present.Keys != {};
    }
  }

  /** In any interleaving, a visitor in the building has a keyholder in the building or a sweep on its way, as long as
      keyholders who leave without closing do not rely on one another. */
  lemma {:induction false} NobodyIsStranded(s: State, run: seq<Action>)
    requires Inv(s) && Executes(s, run) && Careful(s, run)
    ensures Inv(End(s, run)) && !Stranded(End(s, run))
    decreases |run|
  {
    if run == [] {
      if VisitorIn(s) && s.sweeps == 0 {
        var id :| id in s.present && Anchors(s, id);
        assert KeyholderIn(s);
      }
    } else {
      StepKeepsInv(s, run[0]);
      NobodyIsStranded(Step(s, run[0]), run[1..]);
    }
  }

  /** One keyholder's check-out at a time. */
  predicate Serial(s: State, run: seq<Action>)
    requires Executes(s, run)
    decreases |run|
  {
    run == [] || ((run[0].Read? ==> s.leaving == map[]) && Serial(Step(s, run[0]), run[1..]))
  }

  lemma {:induction false} SerialRunsAreCareful(s: State, run: seq<Action>)
    requires Executes(s, run) && Serial(s, run)
    ensures Careful(s, run)
    decreases |run|
  {
    if run != [] {
      if run[0].Read? && OtherKeyholderIn(s, run[0].id) {
        var other :| other in s.present && other != run[0].id && IsKeyholder(s, other);
        assert Anchors(s, other);
      }
      SerialRunsAreCareful(Step(s, run[0]), run[1..]);
    }
  }

  lemma SerialCheckoutsStrandNobody(run: seq<Action>)
    requires Executes(EMPTY, run) && Serial(EMPTY, run)
    ensures !Stranded(End(EMPTY, run))
  {
    SerialRunsAreCareful(EMPTY, run);
    NobodyIsStranded(EMPTY, run);
  }

  // ---------------------------------------------------------------------------
  // The sweep
  // ---------------------------------------------------------------------------

  /** Visit ids are never used again, so what is closed stays closed. */
  lemma {:induction false} ClosedStaysClosed(s: State, run: seq<Action>, id: nat)
    requires Executes(s, run) && id in s.issued && id !in s.present
    ensures id !in End(s, run).present
    decreases |run|
  {
    if run != [] {
      ClosedStaysClosed(Step(s, run[0]), run[1..], id);
    }
  }

  /** Step i lets a visitor in, because it sees a keyholder who is none of those given. */
  predicate LetsInUnder(s: State, run: seq<Action>, i: nat, gone: set<nat>)
    requires Executes(s, run) && i < |run|
  {
    PrefixExecutes(s, run, i);
    var before := End(s, run[..i]);
    run[i].Look? && before.lock == Asking(false) && exists k :: k in before.present && k !in gone && before.present[k]
  }

  lemma {:induction false} PrefixExecutes(s: State, run: seq<Action>, i: nat)
    requires Executes(s, run) && i <= |run|
    ensures Executes(s, run[..i])
    decreases |run|
  {
    if i > 0 {
      PrefixExecutes(Step(s, run[0]), run[1..], i - 1);
      assert run[..i][1..] == run[1..][..i - 1];
    }
  }

  /** A visitor who is in, where none was nor was about to be, was let in on sight of a keyholder. */
  lemma {:induction false} VisitorWasLetIn(s: State, run: seq<Action>, gone: set<nat>) returns (i: nat)
    requires Executes(s, run) && !VisitorIn(s) && s.lock != Admitted(false) && VisitorIn(End(s, run))
    requires gone <= s.issued && forall id | id in gone :: id !in s.present
    ensures i < |run| && LetsInUnder(s, run, i, gone)
    decreases |run|
  {
    var t := Step(s, run[0]);
    assert forall id :: id in t.present && !t.present[id] ==> id in s.present && !s.present[id];
    PrefixExecutes(s, run, 0);
    assert run[..0] == [];
    if t.lock == Admitted(false) {
      i := 0;
      var k :| k in s.present && IsKeyholder(s, k);
      assert k !in gone;
    } else {
      var later := VisitorWasLetIn(t, run[1..], gone);
      i := later + 1;
      PrefixExecutes(s, run, i);
      PrefixExecutes(t, run[1..], later);
      assert run[..i][1..] == run[1..][..later];
    }
  }

  /** Whoever was in when the sweep ran is out for good; and as the sweep waits for the lock, nobody was halfway in: a
      visitor who is in later was let in on sight of a keyholder who came in after the sweep. */
  lemma SweepLeavesNobody(s: State, run: seq<Action>)
    requires Inv(s) && Can(s, Sweep) && Executes(Step(s, Sweep), run)
    ensures forall id :: id in s.present ==> id !in End(Step(s, Sweep), run).present
    ensures VisitorIn(End(Step(s, Sweep), run)) ==>
              exists i: nat :: i < |run| && LetsInUnder(Step(s, Sweep), run, i, s.present.Keys)
  {
    var t := Step(s, Sweep);
    forall id | id in s.present ensures id !in End(t, run).present {
      ClosedStaysClosed(t, run, id);
    }
    if VisitorIn(End(t, run)) {
      var i := VisitorWasLetIn(t, run, s.present.Keys);
    }
  }

  /** Without the lock the sweep could pass a visitor who has been let in and is not yet in the table. */
  lemma UnlockedSweepStrandsTheAdmitted(s: State, id: nat)
    requires s.lock == Admitted(false) && s.sweeps == 1 && id !in s.issued
    ensures var unlocked := s.(present := map[], sweeps := 0);
            Can(unlocked, CommitCheckin(id)) && Stranded(Step(unlocked, CommitCheckin(id)))
  {
    var t := Step(s.(present := map[], sweeps := 0), CommitCheckin(id));
    assert id in t.present && !t.present[id];
  }

  // ---------------------------------------------------------------------------
  // Keyholders who rely on one another
  // ---------------------------------------------------------------------------

  predicate OnlyCheckouts(run: seq<Action>) {
    forall i :: 0 <= i < |run| ==> run[i].CommitCheckout?
  }

  /** The check-outs under way can strand a visitor by doing nothing but commit. */
  ghost predicate CommitsCanStrand(s: State) {
    exists run :: OnlyCheckouts(run) && Executes(s, run) && Stranded(End(s, run))
  }

  /** With a visitor in and no sweep on its way, they can exactly when no keyholder stays or closes. */
  lemma StrandableIffUnanchored(s: State)
    requires VisitorIn(s) && s.sweeps == 0
    ensures CommitsCanStrand(s) <==> !Anchored(s)
  {
    if Anchored(s) {
      forall run | OnlyCheckouts(run) && Executes(s, run) ensures !Stranded(End(s, run)) {
        CommitsKeepCover(s, run);
      }
    } else {
      var run := CommitAll(s, set id | id in s.present && s.present[id]);
    }
  }

  /** With a visitor in and no sweep on its way, deciding against a close opens that possibility exactly when the
      decision relies on keyholders all of whom are leaving in the same way. */
  lemma UnsafeReadIff(s: State, id: nat)
    requires VisitorIn(s) && s.sweeps == 0 && Can(s, Read(id)) && OtherKeyholderIn(s, id)
    ensures CommitsCanStrand(Step(s, Read(id))) <==> !OverlapSafe(s, Read(id))
  {
    var t := Step(s, Read(id));
    var visitor :| visitor in s.present && !s.present[visitor];
    assert visitor in t.present && !t.present[visitor];
    StrandableIffUnanchored(t);
    forall other ensures Anchors(t, other) <==> other != id && Anchors(s, other) {
    }
  }

  lemma {:induction false} CommitsKeepCover(s: State, run: seq<Action>)
    requires OnlyCheckouts(run) && Executes(s, run) && (s.sweeps > 0 || Anchored(s))
    ensures !Stranded(End(s, run))
    decreases |run|
  {
    if run == [] {
      if Anchored(s) {
        var id :| id in s.present && Anchors(s, id);
        assert IsKeyholder(s, id);
      }
    } else {
      var t := Step(s, run[0]);
      assert run[0].CommitCheckout?;
      if s.sweeps == 0 {
        var id :| id in s.present && Anchors(s, id);
        assert id == run[0].id || Anchors(t, id);
      }
      CommitsKeepCover(t, run[1..]);
    }
  }

  lemma {:induction false} CommitAll(s: State, keyholders: set<nat>) returns (run: seq<Action>)
    requires keyholders == set id | id in s.present && s.present[id]
    requires VisitorIn(s) && s.sweeps == 0 && !Anchored(s)
    ensures OnlyCheckouts(run) && Executes(s, run) && Stranded(End(s, run))
    decreases keyholders
  {
    if keyholders == {} {
      run := [];
      assert forall id :: IsKeyholder(s, id) ==> id in keyholders;
    } else {
      var id :| id in keyholders;
      assert !Anchors(s, id);
      var first := CommitCheckout(id);
      var t := Step(s, first);
      forall other ensures !Anchors(t, other) {
        assert !Anchors(s, other);
      }
      var visitor :| visitor in s.present && !s.present[visitor];
      assert visitor in t.present && !t.present[visitor];
      var rest := CommitAll(t, keyholders - {id});
      run := [first] + rest;
      assert run[1..] == rest;
    }
  }

  const ONE: State := State(map[1 := true], Free, map[], 0, {1})
  const TWO: State := State(map[1 := true, 2 := true], Free, map[], 0, {1, 2})
  const THREE: State := State(map[1 := true, 2 := true, 3 := false], Free, map[], 0, {1, 2, 3})

  predicate Follows(before: State, a: Action, after: State) {
    Can(before, a) && Step(before, a) == after
  }

  /** One person comes in: lock, look, commit. */
  lemma Arrival(s: State, isKeyholder: bool, id: nat)
    requires s.lock.Free? && id !in s.issued && (isKeyholder || KeyholderIn(s))
    ensures var run := [TakeLock(isKeyholder), Look, CommitCheckin(id)];
            && Executes(s, run)
            && End(s, run) == s.(present := s.present[id := isKeyholder], issued := s.issued + {id})
  {
    var admitted := s.(lock := Admitted(isKeyholder));
    var asking := s.(lock := Asking(isKeyholder));
    assert KeyholderIn(s) ==> KeyholderIn(asking) by {
      if KeyholderIn(s) {
        var k :| k in s.present && IsKeyholder(s, k);
        assert IsKeyholder(asking, k);
      }
    }
    var after := s.(present := s.present[id := isKeyholder], issued := s.issued + {id});
    assert Follows(s, TakeLock(isKeyholder), asking);
    assert Follows(asking, Look, admitted);
    assert Follows(admitted, CommitCheckin(id), after);
    Chain([s, asking, admitted, after], [TakeLock(isKeyholder), Look, CommitCheckin(id)]);
  }

  const BOTH_LEAVING: State := THREE.(leaving := map[1 := Staying, 2 := Staying])

  lemma TwoReadTogether()
    ensures Executes(THREE, [Read(1), Read(2)]) && End(THREE, [Read(1), Read(2)]) == BOTH_LEAVING
  {
    var a := THREE.(leaving := map[1 := Staying]);
    assert IsKeyholder(THREE, 1) && IsKeyholder(THREE, 2) && IsKeyholder(a, 1) && IsKeyholder(a, 2);
    assert Follows(THREE, Read(1), a);
    assert Follows(a, Read(2), BOTH_LEAVING);
    Chain([THREE, a, BOTH_LEAVING], [Read(1), Read(2)]);
  }

  lemma TwoCommitTogether()
    ensures var run := [CommitCheckout(1), CommitCheckout(2)];
            Executes(BOTH_LEAVING, run) && Stranded(End(BOTH_LEAVING, run))
  {
    var c := State(map[2 := true, 3 := false], Free, map[2 := Staying], 0, {1, 2, 3});
    var d := State(map[3 := false], Free, map[], 0, {1, 2, 3});
    assert Follows(BOTH_LEAVING, CommitCheckout(1), c);
    assert Follows(c, CommitCheckout(2), d);
    Chain([BOTH_LEAVING, c, d], [CommitCheckout(1), CommitCheckout(2)]);
    assert 3 in d.present;
  }

  /** Keyholders 1 and 2, and then visitor 3, come in one after the other; the keyholders check out at the same moment.
      Each counts the other, so neither closes, and the visitor is left alone. */
  lemma TwoKeyholdersStrandAVisitor()
    ensures var together := [TakeLock(true), Look, CommitCheckin(1)] + [TakeLock(true), Look, CommitCheckin(2)]
                            + [TakeLock(false), Look, CommitCheckin(3)]
                            + [Read(1), Read(2)] + [CommitCheckout(1), CommitCheckout(2)];
            Executes(EMPTY, together) && Stranded(End(EMPTY, together))
  {
    var first, second := [TakeLock(true), Look, CommitCheckin(1)], [TakeLock(true), Look, CommitCheckin(2)];
    var third := [TakeLock(false), Look, CommitCheckin(3)];
    var looks, commits := [Read(1), Read(2)], [CommitCheckout(1), CommitCheckout(2)];
    assert IsKeyholder(TWO, 1);
    Arrival(EMPTY, true, 1);
    assert End(EMPTY, first) == ONE;
    Arrival(ONE, true, 2);
    assert End(ONE, second) == TWO;
    Arrival(TWO, false, 3);
    assert End(TWO, third) == THREE;
    TwoReadTogether();
    TwoCommitTogether();
    EndOfParts(THREE, looks, commits, BOTH_LEAVING);
    EndOfParts(TWO, third, looks + commits, THREE);
    EndOfParts(ONE, second, third + (looks + commits), TWO);
    EndOfParts(EMPTY, first, second + (third + (looks + commits)), ONE);
    assert first + second + third + looks + commits == first + (second + (third + (looks + commits)));
  }

  lemma {:induction false} EndOfParts(s: State, first: seq<Action>, rest: seq<Action>, middle: State)
    requires Executes(s, first) && middle == End(s, first)
    ensures Executes(s, first + rest) <==> Executes(middle, rest)
    ensures Executes(middle, rest) ==> End(s, first + rest) == End(middle, rest)
    decreases |first|
  {
    if first == [] {
      assert first + rest == rest;
    } else {
      assert (first + rest)[1..] == first[1..] + rest;
      EndOfParts(Step(s, first[0]), first[1..], rest, middle);
    }
  }

  lemma {:induction false} Chain(states: seq<State>, run: seq<Action>)
    requires |states| == |run| + 1
    requires forall i :: 0 <= i < |run| ==> Follows(states[i], run[i], states[i + 1])
    ensures Executes(states[0], run) && End(states[0], run) == states[|run|]
    decreases |run|
  {
    if run != [] {
      assert Follows(states[0], run[0], states[1]);
      forall i | 0 <= i < |run| - 1 ensures Follows(states[1..][i], run[1..][i], states[1..][i + 1]) {
        assert Follows(states[i + 1], run[i + 1], states[i + 2]);
      }
      Chain(states[1..], run[1..]);
    }
  }
}
