/** Role writes at once: `setRoleFlag` as the steps of concurrent READ COMMITTED transactions.
    `SELECT ... FOR UPDATE` takes its snapshot when the statement starts, waits for the rows of that snapshot,
    and locks those that still exist; rows inserted meanwhile are neither seen nor locked. The role row and the mirror
    column are written by two statements, and both show at the commit. */
module RoleTransactions {
  import opened Options
  import opened Roles

  /** How far a transaction is past its lock statement. `changes` says whether the row write changed anything. */
  datatype Stage =
    | Locked
    | Differing              // this person's roles were read, and differ from the request
    | Approved               // the guards let the change through
    | Written(changes: bool)
    | MirrorSet(changes: bool)

  /** A waiting lock statement knows the row ids below `since`. */
  datatype Phase = Waiting(since: nat) | Past(since: nat, locks: set<nat>, stage: Stage)

  datatype Tx = Tx(grant: Grant, on: bool, phase: Phase)

  /** Committed role rows by row id, mirror columns, and the transactions under way. */
  datatype State = State(rows: map<nat, Grant>, mirrors: set<Grant>, nextRow: nat, txs: map<nat, Tx>)

  datatype Action =
    | Begin(t: nat, grant: Grant, on: bool)
    | Acquire(t: nat)
    | Read(t: nat)
    | Guard(t: nat)
    | Write(t: nat)
    | SetMirror(t: nat)
    | Commit(t: nat)
    | Abort(t: nat)   // a refusal by the matrix or the denied-household guard, or any error

  function BoardRows(s: State): set<nat> {
    set r | r in s.rows && s.rows[r].kind == BOARD
  }

  predicate HasRow(s: State, grant: Grant) {
    exists r | r in s.rows :: s.rows[r] == grant
  }

  function RowsOf(s: State, grant: Grant): set<nat> {
    set r | r in s.rows && s.rows[r] == grant
  }

  predicate Holds(s: State, t: nat) {
    t in s.txs && s.txs[t].phase.Past?
  }

  /** The transaction has an uncommitted insert or delete of its row. */
  predicate Changing(tx: Tx) {
    tx.phase.Past? && (tx.phase.stage == Written(true) || tx.phase.stage == MirrorSet(true))
  }

  predicate HoldsPerson(tx: Tx) {
    tx.phase.Past? && tx.phase.stage.MirrorSet? && HasMirror(tx.grant.kind)
  }

  /** Row locks last until the transaction ends: those of the lock statement, and those of an uncommitted delete. */
  function HeldBy(s: State, tx: Tx): set<nat> {
    if tx.phase.Waiting? then {}
    else tx.phase.locks + if Changing(tx) && !tx.on then RowsOf(s, tx.grant) else {}
  }

  /** No transaction but t holds any of the rows. */
  predicate FreeFor(s: State, t: nat, rows: set<nat>) {
    forall u | u in s.txs && u != t :: HeldBy(s, s.txs[u]) !! rows
  }

  /** No transaction but t has an uncommitted write under the unique key of the grant. */
  predicate KeyFree(s: State, t: nat, grant: Grant) {
    forall u | u in s.txs && u != t :: Changing(s.txs[u]) ==> s.txs[u].grant != grant
  }

  predicate PersonFree(s: State, t: nat, person: nat) {
    forall u | u in s.txs && u != t :: HoldsPerson(s.txs[u]) ==> s.txs[u].grant.person != person
  }

  function LockSet(s: State, since: nat): set<nat> {
    set r | r in BoardRows(s) && r < since
  }

  function SetPhase(s: State, t: nat, phase: Phase): State
    requires t in s.txs
  {
    s.(txs := s.txs[t := s.txs[t].(phase := phase)])
  }

  function SetStage(s: State, t: nat, stage: Stage): State
    requires Holds(s, t)
  {
    SetPhase(s, t, s.txs[t].phase.(stage := stage))
  }

  function Leave(s: State, t: nat): State {
    s.(txs := s.txs - {t})
  }

  function Mirrored(mirrors: set<Grant>, grant: Grant, on: bool): set<Grant> {
    if !HasMirror(grant.kind) then mirrors else if on then mirrors + {grant} else mirrors - {grant}
  }

  /** The committed table once t is done. */
  function Applied(s: State, grant: Grant, on: bool, changes: bool): State {
    var mirrors := Mirrored(s.mirrors, grant, on);
    if !changes then s.(mirrors := mirrors)
    else if on then s.(rows := s.rows[s.nextRow := grant], nextRow := s.nextRow + 1, mirrors := mirrors)
    else s.(rows := s.rows - RowsOf(s, grant), mirrors := mirrors)
  }

  predicate AtStage(s: State, t: nat, stage: Stage) {
    Holds(s, t) && s.txs[t].phase.stage == stage
  }

  /** One step, or None where it must wait or makes no sense. */
  function Next(s: State, a: Action): Option<State> {
    match a
    case Begin(t, grant, on) =>
      if t in s.txs then None else Some(s.(txs := s.txs[t := Tx(grant, on, Waiting(s.nextRow))]))
    case Acquire(t) =>
      if t !in s.txs || !s.txs[t].phase.Waiting? then None
      else
        var since := s.txs[t].phase.since;
        var locks := LockSet(s, since);
        if FreeFor(s, t, locks) then Some(SetPhase(s, t, Past(since, locks, Locked))) else None
    case Read(t) =>
      if !AtStage(s, t, Locked) then None
      else if HasRow(s, s.txs[t].grant) == s.txs[t].on then Some(Leave(s, t))
      else Some(SetStage(s, t, Differing))
    case Guard(t) =>
      if !AtStage(s, t, Differing) then None
      else if s.txs[t].grant.kind == BOARD && !s.txs[t].on && |BoardRows(s)| <= 1 then Some(Leave(s, t))
      else Some(SetStage(s, t, Approved))
    case Write(t) =>
      if !AtStage(s, t, Approved) then None
      else
        var tx := s.txs[t];
        if if tx.on then KeyFree(s, t, tx.grant) else FreeFor(s, t, RowsOf(s, tx.grant)) then
          Some(SetStage(s, t, Written(HasRow(s, tx.grant) != tx.on)))
        else None
    case SetMirror(t) =>
      if !Holds(s, t) || !s.txs[t].phase.stage.Written? then None
      else if HasMirror(s.txs[t].grant.kind) && !PersonFree(s, t, s.txs[t].grant.person) then None
      else Some(SetStage(s, t, MirrorSet(s.txs[t].phase.stage.changes)))
    case Commit(t) =>
      if !Holds(s, t) || !s.txs[t].phase.stage.MirrorSet? then None
      else Some(Leave(Applied(s, s.txs[t].grant, s.txs[t].on, s.txs[t].phase.stage.changes), t))
    case Abort(t) =>
      if t in s.txs then Some(Leave(s, t)) else None
  }

  function Run(s: State, actions: seq<Action>): Option<State>
    decreases |actions|
  {
    if actions == [] then Some(s)
    else
      match Next(s, actions[0])
      case None => None
      case Some(next) => Run(next, actions[1..])
  }

  /** The lock statement finds at least one row of its snapshot still there. */
  predicate AnchoredStep(s: State, a: Action) {
    a.Acquire? && a.t in s.txs && s.txs[a.t].phase.Waiting? ==> LockSet(s, s.txs[a.t].phase.since) != {}
  }

  ghost predicate AnchoredRun(s: State, actions: seq<Action>)
    decreases |actions|
  {
    actions != [] ==>
      && AnchoredStep(s, actions[0])
      && (Next(s, actions[0]).Some? ==> AnchoredRun(Next(s, actions[0]).value, actions[1..]))
  }

  /** A lock statement returns only while no other transaction is past its own. */
  predicate ExclusiveStep(s: State, a: Action) {
    a.Acquire? ==> forall u | u in s.txs :: !Holds(s, u)
  }

  ghost predicate ExclusiveRun(s: State, actions: seq<Action>)
    decreases |actions|
  {
    actions != [] ==>
      && ExclusiveStep(s, actions[0])
      && (Next(s, actions[0]).Some? ==> ExclusiveRun(Next(s, actions[0]).value, actions[1..]))
  }

  // ---------------------------------------------------------------------------
  // One at a time: a board, and mirrors that agree
  // ---------------------------------------------------------------------------

  ghost predicate Unique(s: State) {
    forall r, q | r in s.rows && q in s.rows && s.rows[r] == s.rows[q] :: r == q
  }

  /** A holder's locks are exactly the board rows older than its snapshot: they cannot go while it holds them. */
  ghost predicate LocksAreCurrent(s: State) {
    && (forall r | r in s.rows :: r < s.nextRow)
    && (forall t | t in s.txs :: s.txs[t].phase.since <= s.nextRow)
    && (forall t | Holds(s, t) :: s.txs[t].phase.locks == LockSet(s, s.txs[t].phase.since))
  }

  ghost predicate AtMostOne(s: State) {
    forall t, u | Holds(s, t) && Holds(s, u) :: t == u
  }

  /** What a transaction still knows at its stage. */
  ghost predicate Knows(s: State, tx: Tx, stage: Stage) {
    && (!stage.Locked? ==> HasRow(s, tx.grant) == !tx.on)
    && (stage.Written? || stage.MirrorSet? ==> stage.changes)
    && (!stage.Locked? && !stage.Differing? && tx.grant.kind == BOARD && !tx.on ==> |BoardRows(s)| > 1)
  }

  ghost predicate ReadsStillTrue(s: State) {
    forall t | Holds(s, t) :: Knows(s, s.txs[t], s.txs[t].phase.stage)
  }

  ghost predicate MirrorsMatch(s: State) {
    forall g: Grant | HasMirror(g.kind) :: g in s.mirrors <==> HasRow(s, g)
  }

  ghost predicate Inv(s: State) {
    Unique(s) && LocksAreCurrent(s) && AtMostOne(s) && ReadsStillTrue(s) && MirrorsMatch(s)
  }

  /** Changing nothing but the transactions, and those only by t moving on. */
  lemma TxStepKeepsInv(s: State, next: State, t: nat)
    requires Inv(s) && next == s.(txs := next.txs)
    requires forall u | Holds(next, u) && u != t :: Holds(s, u) && next.txs[u] == s.txs[u]
    requires forall u | u in next.txs :: next.txs[u].phase.since <= s.nextRow
    requires Holds(next, t) ==>
               && (forall u | Holds(s, u) :: u == t)
               && next.txs[t].phase.locks == LockSet(s, next.txs[t].phase.since)
               && Knows(s, next.txs[t], next.txs[t].phase.stage)
    ensures Inv(next) && BoardRows(next) == BoardRows(s)
  {
    assert BoardRows(next) == BoardRows(s);
    assert forall since :: LockSet(next, since) == LockSet(s, since);
    assert forall g :: HasRow(next, g) == HasRow(s, g);
    forall u | Holds(next, u) ensures Knows(next, next.txs[u], next.txs[u].phase.stage) {
      assert Knows(s, next.txs[u], next.txs[u].phase.stage);
    }
  }

  lemma AppliedRows(s: State, grant: Grant, on: bool, g: Grant)
    requires Unique(s) && (forall r | r in s.rows :: r < s.nextRow) && HasRow(s, grant) == !on
    ensures HasRow(Applied(s, grant, on, true), g) <==> if g == grant then on else HasRow(s, g)
  {
    var next := Applied(s, grant, on, true);
    if HasRow(s, g) && g != grant {
      var r :| r in s.rows && s.rows[r] == g;
      assert r in next.rows && next.rows[r] == g;
    }
    if on {
      assert s.nextRow in next.rows && next.rows[s.nextRow] == grant;
    }
  }

  lemma AppliedKeepsBoard(s: State, grant: Grant, on: bool)
    requires Unique(s) && (forall r | r in s.rows :: r < s.nextRow) && HasRow(s, grant) == !on
    requires grant.kind == BOARD && !on ==> |BoardRows(s)| > 1
    ensures BoardRows(s) != {} ==> BoardRows(Applied(s, grant, on, true)) != {}
  {
    var next := Applied(s, grant, on, true);
    if BoardRows(s) != {} {
      if on {
        var q :| q in BoardRows(s);
        assert q in BoardRows(next);
      } else {
        var r :| r in s.rows && s.rows[r] == grant;
        if grant.kind == BOARD {
          assert |BoardRows(s)| != |{r}|;
          assert BoardRows(s) - {r} != {};
        }
        var q :| q in BoardRows(s) && (grant.kind == BOARD ==> q != r);
        assert q in BoardRows(next);
      }
    }
  }

  lemma CommitKeepsInv(s: State, t: nat)
    requires Inv(s) && AtStage(s, t, MirrorSet(true))
    ensures var next := Next(s, Commit(t)).value; Inv(next) && (BoardRows(s) != {} ==> BoardRows(next) != {})
  {
    var tx := s.txs[t];
    var applied := Applied(s, tx.grant, tx.on, true);
    var next := Next(s, Commit(t)).value;
    assert Knows(s, tx, MirrorSet(true));
    assert next.txs == s.txs - {t};
    forall u ensures !Holds(next, u) {
      assert Holds(next, u) ==> Holds(s, u) && u != t;
    }
    forall g ensures HasRow(next, g) <==> if g == tx.grant then tx.on else HasRow(s, g) {
      AppliedRows(s, tx.grant, tx.on, g);
      assert HasRow(next, g) == HasRow(applied, g);
    }
    AppliedKeepsBoard(s, tx.grant, tx.on);
    assert BoardRows(next) == BoardRows(applied);
  }

  /** Every exclusive step keeps the invariant, and never empties the board. */
  lemma StepKeepsInv(s: State, a: Action)
    requires Inv(s) && ExclusiveStep(s, a) && Next(s, a).Some?
    ensures Inv(Next(s, a).value)
    ensures BoardRows(s) != {} ==> BoardRows(Next(s, a).value) != {}
  {
    assert Holds(s, a.t) ==> Knows(s, s.txs[a.t], s.txs[a.t].phase.stage);
    if a.Commit? {
      CommitKeepsInv(s, a.t);
    } else {
      TxStepKeepsInv(s, Next(s, a).value, a.t);
    }
  }

  /** However role writes interleave, the empty system of a first grant included: while one transaction at a time is past
      its lock statement, every mirror column agrees with its role row after every commit, and the board, once
      non-empty, stays so. */
  lemma {:induction false} ExclusiveRunIsSafe(s: State, actions: seq<Action>)
    requires Inv(s) && ExclusiveRun(s, actions) && Run(s, actions).Some?
    ensures Inv(Run(s, actions).value)
    ensures BoardRows(s) != {} ==> BoardRows(Run(s, actions).value) != {}
    decreases |actions|
  {
    if actions != [] {
      StepKeepsInv(s, actions[0]);
      ExclusiveRunIsSafe(Next(s, actions[0]).value, actions[1..]);
    }
  }

  // ---------------------------------------------------------------------------
  // Lock statements that find a row make it one at a time
  // ---------------------------------------------------------------------------

  /** Whoever is past the lock statement holds a board row, unless there is none to hold. */
  ghost predicate Covered(s: State) {
    (forall t | Holds(s, t) :: s.txs[t].phase.locks != {}) || BoardRows(s) == {}
  }

  /** A lock statement that finds a row waits for whoever is past its own: of two snapshots one contains the other. */
  lemma MutualExclusion(s: State, t: nat, u: nat)
    requires LocksAreCurrent(s) && Covered(s)
    requires t in s.txs && s.txs[t].phase.Waiting? && AnchoredStep(s, Acquire(t)) && Holds(s, u)
    ensures Next(s, Acquire(t)).None?
  {
    var mine, theirs := s.txs[t].phase.since, s.txs[u].phase.since;
    assert LockSet(s, mine) <= BoardRows(s) && s.txs[u].phase.locks == LockSet(s, theirs) != {};
    var older := if mine <= theirs then mine else theirs;
    var r :| r in LockSet(s, older);
    assert r in LockSet(s, mine) && r in LockSet(s, theirs);
    assert r in HeldBy(s, s.txs[u]);
  }

  lemma AnchoredStepIsExclusive(s: State, a: Action)
    requires Inv(s) && Covered(s) && AnchoredStep(s, a) && Next(s, a).Some?
    ensures ExclusiveStep(s, a) && Covered(Next(s, a).value)
  {
    var next := Next(s, a).value;
    if a.Acquire? {
      forall u | u in s.txs ensures !Holds(s, u) {
        if Holds(s, u) {
          MutualExclusion(s, a.t, u);
        }
      }
    } else if a.Commit? {
      assert next.txs == s.txs - {a.t};
      forall u ensures !Holds(next, u) {
        assert Holds(next, u) ==> Holds(s, u) && Holds(s, a.t) && u != a.t;
      }
    } else {
      assert BoardRows(next) == BoardRows(s);
      assert forall u | Holds(next, u) :: Holds(s, u) && next.txs[u].phase.locks == s.txs[u].phase.locks;
    }
  }

  lemma {:induction false} AnchoredRunIsExclusive(s: State, actions: seq<Action>)
    requires Inv(s) && Covered(s) && AnchoredRun(s, actions) && Run(s, actions).Some?
    ensures ExclusiveRun(s, actions) && Covered(Run(s, actions).value)
    decreases |actions|
  {
    if actions != [] {
      AnchoredStepIsExclusive(s, actions[0]);
      StepKeepsInv(s, actions[0]);
      AnchoredRunIsExclusive(Next(s, actions[0]).value, actions[1..]);
    }
  }

  /** While every lock statement finds a row to lock, board and mirrors are safe after every commit. */
  lemma AnchoredRunIsSafe(s: State, actions: seq<Action>)
    requires Inv(s) && Covered(s) && AnchoredRun(s, actions) && Run(s, actions).Some?
    ensures MirrorsMatch(Run(s, actions).value)
    ensures BoardRows(s) != {} ==> BoardRows(Run(s, actions).value) != {}
  {
    AnchoredRunIsExclusive(s, actions);
    ExclusiveRunIsSafe(s, actions);
  }

  // ---------------------------------------------------------------------------
  // Building runs
  // ---------------------------------------------------------------------------

  lemma {:induction false} RunAppend(s: State, a: seq<Action>, b: seq<Action>)
    requires Run(s, a).Some?
    ensures Run(s, a + b) == Run(Run(s, a).value, b)
    ensures AnchoredRun(s, a) && AnchoredRun(Run(s, a).value, b) ==> AnchoredRun(s, a + b)
    decreases |a|
  {
    if a == [] {
      assert a + b == b;
    } else {
      assert (a + b)[1..] == a[1..] + b;
      RunAppend(Next(s, a[0]).value, a[1..], b);
    }
  }

  /** A run given by its states. */
  lemma {:induction false} Chain(states: seq<State>, actions: seq<Action>)
    requires |states| == |actions| + 1
    requires forall i | 0 <= i < |actions| :: Next(states[i], actions[i]) == Some(states[i + 1])
    ensures Run(states[0], actions) == Some(states[|actions|])
    ensures (forall i | 0 <= i < |actions| :: AnchoredStep(states[i], actions[i])) ==> AnchoredRun(states[0], actions)
    decreases |actions|
  {
    if actions != [] {
      assert Next(states[0], actions[0]) == Some(states[1]);
      forall i | 0 <= i < |actions| - 1 ensures Next(states[1..][i], actions[1..][i]) == Some(states[1..][i + 1]) {
        assert Next(states[i + 1], actions[i + 1]) == Some(states[i + 2]);
      }
      Chain(states[1..], actions[1..]);
    }
  }

  function Served(u: nat): seq<Action> {
    [Acquire(u), Read(u), Guard(u), Write(u), SetMirror(u), Commit(u)]
  }

  function PastAt(s: State, u: nat, stage: Stage): State
    requires u in s.txs
  {
    SetPhase(s, u, Past(s.txs[u].phase.since, LockSet(s, s.txs[u].phase.since), stage))
  }

  /** Nobody but u keeps anybody waiting. */
  predicate OnlyInTheWay(s: State, u: nat) {
    forall v | v in s.txs && v != u :: HeldBy(s, s.txs[v]) == {} && !Changing(s.txs[v]) && !HoldsPerson(s.txs[v])
  }

  /** The write is wanted and allowed. */
  predicate Wanted(s: State, grant: Grant, on: bool) {
    HasRow(s, grant) != on && (grant.kind == BOARD && !on ==> |BoardRows(s)| > 1)
  }

  /** u at one of its stages changes nothing that the steps look at. */
  lemma SameTable(s: State, u: nat, stage: Stage)
    requires u in s.txs && OnlyInTheWay(s, u)
    ensures var next := PastAt(s, u, stage);
            && BoardRows(next) == BoardRows(s)
            && (forall g :: HasRow(next, g) == HasRow(s, g) && RowsOf(next, g) == RowsOf(s, g))
            && OnlyInTheWay(next, u)
  {
    var next := PastAt(s, u, stage);
    assert forall v | v in next.txs && v != u :: HeldBy(next, next.txs[v]) == HeldBy(s, s.txs[v]);
  }

  lemma StageSteps(s: State, u: nat)
    requires OnlyInTheWay(s, u) && u in s.txs && s.txs[u].phase.Waiting? && Wanted(s, s.txs[u].grant, s.txs[u].on)
    ensures Next(s, Acquire(u)) == Some(PastAt(s, u, Locked))
    ensures Next(PastAt(s, u, Locked), Read(u)) == Some(PastAt(s, u, Differing))
    ensures Next(PastAt(s, u, Differing), Guard(u)) == Some(PastAt(s, u, Approved))
  {
    SameTable(s, u, Locked);
    SameTable(s, u, Differing);
    assert PastAt(s, u, Locked).txs[u := PastAt(s, u, Differing).txs[u]] == PastAt(s, u, Differing).txs;
    assert PastAt(s, u, Differing).txs[u := PastAt(s, u, Approved).txs[u]] == PastAt(s, u, Approved).txs;
  }

  lemma WriteSteps(s: State, u: nat)
    requires OnlyInTheWay(s, u) && u in s.txs && s.txs[u].phase.Waiting? && Wanted(s, s.txs[u].grant, s.txs[u].on)
    ensures Next(PastAt(s, u, Approved), Write(u)) == Some(PastAt(s, u, Written(true)))
    ensures Next(PastAt(s, u, Written(true)), SetMirror(u)) == Some(PastAt(s, u, MirrorSet(true)))
    ensures Next(PastAt(s, u, MirrorSet(true)), Commit(u)) == Some(Leave(Applied(s, s.txs[u].grant, s.txs[u].on, true), u))
  {
    SameTable(s, u, Approved);
    SameTable(s, u, Written(true));
    SameTable(s, u, MirrorSet(true));
    assert PastAt(s, u, Approved).txs[u := PastAt(s, u, Written(true)).txs[u]] == PastAt(s, u, Written(true)).txs;
    assert PastAt(s, u, Written(true)).txs[u := PastAt(s, u, MirrorSet(true)).txs[u]] == PastAt(s, u, MirrorSet(true)).txs;
    assert PastAt(s, u, MirrorSet(true)).txs - {u} == s.txs - {u};
  }

  /** One write served from its lock statement to its commit, with nobody in the way. */
  lemma ServeAlone(s: State, u: nat)
    requires OnlyInTheWay(s, u) && u in s.txs && s.txs[u].phase.Waiting? && Wanted(s, s.txs[u].grant, s.txs[u].on)
    ensures Run(s, Served(u)) == Some(Leave(Applied(s, s.txs[u].grant, s.txs[u].on, true), u))
    ensures LockSet(s, s.txs[u].phase.since) != {} ==> AnchoredRun(s, Served(u))
  {
    StageSteps(s, u);
    WriteSteps(s, u);
    Chain([s, PastAt(s, u, Locked), PastAt(s, u, Differing), PastAt(s, u, Approved), PastAt(s, u, Written(true)),
           PastAt(s, u, MirrorSet(true)), Leave(Applied(s, s.txs[u].grant, s.txs[u].on, true), u)], Served(u));
  }

  lemma {:induction false} AbortOthers(s: State, t: nat) returns (actions: seq<Action>)
    requires t in s.txs
    ensures Run(s, actions) == Some(s.(txs := map[t := s.txs[t]])) && AnchoredRun(s, actions)
    decreases |s.txs.Keys|
  {
    if u :| u in s.txs && u != t {
      var next := Leave(s, u);
      assert next.txs.Keys == s.txs.Keys - {u};
      var rest := AbortOthers(next, t);
      actions := [Abort(u)] + rest;
      assert actions[1..] == rest;
    } else {
      actions := [];
      assert s.txs == map[t := s.txs[t]];
    }
  }

  // ---------------------------------------------------------------------------
  // Without a lock: what can overtake an approved write
  // ---------------------------------------------------------------------------

  ghost predicate Sound(s: State) {
    Unique(s) && forall r | r in s.rows :: r < s.nextRow
  }

  /** t is under way alone, holds no row, and has written nothing. */
  predicate AloneAndBare(s: State, t: nat) {
    s.txs.Keys == {t} && HeldBy(s, s.txs[t]) == {} && !Changing(s.txs[t]) && !HoldsPerson(s.txs[t])
  }

  lemma AppliedIsSound(s: State, grant: Grant, on: bool)
    requires Sound(s) && HasRow(s, grant) != on
    ensures Sound(Applied(s, grant, on, true))
  {
    assert on ==> forall r | r in s.rows :: s.rows[r] != grant;
  }

  /** A whole other write comes and goes while t is under way. */
  lemma Interloper(s: State, t: nat, grant: Grant, on: bool) returns (actions: seq<Action>)
    requires Sound(s) && AloneAndBare(s, t) && Wanted(s, grant, on)
    ensures Run(s, actions) == Some(Applied(s, grant, on, true))
    ensures BoardRows(s) != {} ==> AnchoredRun(s, actions)
    ensures Sound(Applied(s, grant, on, true)) && AloneAndBare(Applied(s, grant, on, true), t)
  {
    var u := t + 1;
    var begun := Next(s, Begin(u, grant, on)).value;
    assert BoardRows(begun) == BoardRows(s) && HasRow(begun, grant) == HasRow(s, grant);
    assert RowsOf(begun, grant) == RowsOf(s, grant) && LockSet(begun, s.nextRow) == BoardRows(s);
    ServeAlone(begun, u);
    assert Leave(Applied(begun, grant, on, true), u).txs == s.txs;
    actions := [Begin(u, grant, on)] + Served(u);
    assert actions[1..] == Served(u);
    AppliedIsSound(s, grant, on);
  }

  /** What is left of a write that nobody disturbs any more. */
  lemma FinishWritten(s: State, t: nat, changes: bool)
    requires s.txs.Keys == {t} && AtStage(s, t, Written(changes))
    ensures var actions := [SetMirror(t), Commit(t)];
            Run(s, actions) == Some(Leave(Applied(s, s.txs[t].grant, s.txs[t].on, changes), t)) && AnchoredRun(s, actions)
  {
    var tx := s.txs[t];
    var mirrored := SetStage(s, t, MirrorSet(changes));
    assert RowsOf(mirrored, tx.grant) == RowsOf(s, tx.grant);
    assert mirrored.txs - {t} == s.txs - {t};
    Chain([s, mirrored, Leave(Applied(s, tx.grant, tx.on, changes), t)], [SetMirror(t), Commit(t)]);
  }

  lemma FinishApproved(s: State, t: nat)
    requires s.txs.Keys == {t} && AtStage(s, t, Approved)
    ensures var actions := [Write(t), SetMirror(t), Commit(t)];
            var changes := HasRow(s, s.txs[t].grant) != s.txs[t].on;
            Run(s, actions) == Some(Leave(Applied(s, s.txs[t].grant, s.txs[t].on, changes), t)) && AnchoredRun(s, actions)
  {
    var tx := s.txs[t];
    var changes := HasRow(s, tx.grant) != tx.on;
    var written := SetStage(s, t, Written(changes));
    assert RowsOf(written, tx.grant) == RowsOf(s, tx.grant);
    assert written.txs - {t} == s.txs - {t};
    FinishWritten(written, t, changes);
    assert [Write(t), SetMirror(t), Commit(t)][1..] == [SetMirror(t), Commit(t)];
  }

  lemma PairInSet(s: set<nat>, a: nat, b: nat)
    requires a in s && b in s && a != b
    ensures |s| > 1
  {
    assert b in s - {a};
    assert |s - {a}| == |s| - 1;
  }

  /** An approved board removal that holds no lock can be overtaken until nobody is left: every other member is
      removed by a write that counts it among the remaining ones. */
  lemma {:induction false} OvertakenRemovalEmptiesTheBoard(s: State, t: nat) returns (actions: seq<Action>)
    requires Sound(s) && AloneAndBare(s, t) && AtStage(s, t, Approved)
    requires !s.txs[t].on && s.txs[t].grant.kind == BOARD && HasRow(s, s.txs[t].grant)
    ensures AnchoredRun(s, actions) && Run(s, actions).Some? && BoardRows(Run(s, actions).value) == {}
    decreases |BoardRows(s)|
  {
    var grant := s.txs[t].grant;
    var r :| r in s.rows && s.rows[r] == grant;
    if BoardRows(s) == {r} {
      FinishApproved(s, t);
      actions := [Write(t), SetMirror(t), Commit(t)];
      assert RowsOf(s, grant) == {r};
    } else {
      assert r in BoardRows(s);
      var q :| q in BoardRows(s) && q != r;
      PairInSet(BoardRows(s), q, r);
      assert HasRow(s, s.rows[q]);
      var first := Interloper(s, t, s.rows[q], false);
      var next := Applied(s, s.rows[q], false, true);
      assert RowsOf(s, s.rows[q]) == {q};
      assert BoardRows(next) == BoardRows(s) - {q};
      assert r in next.rows && next.rows[r] == grant;
      var rest := OvertakenRemovalEmptiesTheBoard(next, t);
      RunAppend(s, first, rest);
      actions := first + rest;
    }
  }

  /** The same transactions, and t alone. */
  lemma AloneFromSole(s: State, t: nat)
    requires Inv(s) && AtStage(s, t, Approved) && s.txs[t].phase.locks == {}
    ensures var alone := s.(txs := map[t := s.txs[t]]);
            && Sound(alone) && MirrorsMatch(alone) && AloneAndBare(alone, t)
            && BoardRows(alone) == BoardRows(s) && Wanted(alone, s.txs[t].grant, s.txs[t].on)
  {
    var alone := s.(txs := map[t := s.txs[t]]);
    assert BoardRows(alone) == BoardRows(s);
    assert forall g :: HasRow(alone, g) == HasRow(s, g);
    assert Knows(s, s.txs[t], Approved);
  }

  /** Let a board removal be approved, and the only transaction past its lock statement. Anchored writes can empty the
      board from there exactly when its lock statement came back with nothing. */
  lemma BoardCanEmptyIff(s: State, t: nat)
    requires Inv(s) && AtStage(s, t, Approved) && s.txs[t].grant.kind == BOARD && !s.txs[t].on
    ensures (exists run :: AnchoredRun(s, run) && Run(s, run).Some? && BoardRows(Run(s, run).value) == {})
            <==> s.txs[t].phase.locks == {}
  {
    assert Knows(s, s.txs[t], Approved);
    if s.txs[t].phase.locks == {} {
      AloneFromSole(s, t);
      var first := AbortOthers(s, t);
      var rest := OvertakenRemovalEmptiesTheBoard(s.(txs := map[t := s.txs[t]]), t);
      RunAppend(s, first, rest);
      assert AnchoredRun(s, first + rest);
    } else {
      forall run | AnchoredRun(s, run) && Run(s, run).Some? ensures BoardRows(Run(s, run).value) != {} {
        AnchoredRunIsSafe(s, run);
      }
    }
  }

  /** A write is overtaken between its approval and its row write, undone between that and its mirror write, and so
      leaves the mirror behind. */
  lemma OvertakenWriteLeavesItsMirror(s: State, t: nat) returns (actions: seq<Action>)
    requires Sound(s) && MirrorsMatch(s) && AloneAndBare(s, t) && AtStage(s, t, Approved)
    requires Wanted(s, s.txs[t].grant, s.txs[t].on) && HasMirror(s.txs[t].grant.kind)
    requires s.txs[t].grant.kind == BOARD ==> BoardRows(s) != {}
    ensures Run(s, actions).Some? && !MirrorsMatch(Run(s, actions).value)
    ensures BoardRows(s) != {} ==> AnchoredRun(s, actions)
  {
    var grant, on := s.txs[t].grant, s.txs[t].on;
    var overtaken := Applied(s, grant, on, true);
    var first := Interloper(s, t, grant, on);
    AppliedRows(s, grant, on, grant);
    AppliedKeepsBoard(s, grant, on);
    var written := SetStage(overtaken, t, Written(false));
    WritesNothing(overtaken, t);
    AnotherMember(s, grant, on);
    assert BoardRows(written) == BoardRows(overtaken) && HasRow(written, grant) == HasRow(overtaken, grant);
    var second := Interloper(written, t, grant, !on);
    var undone := Applied(written, grant, !on, true);
    AppliedRows(written, grant, !on, grant);
    FinishWritten(undone, t, false);
    var third := [SetMirror(t), Commit(t)];
    var end := Leave(Applied(undone, grant, on, false), t);
    assert HasRow(end, grant) == HasRow(undone, grant);
    RunAppend(written, second, third);
    RunAppend(overtaken, [Write(t)], second + third);
    RunAppend(s, first, [Write(t)] + (second + third));
    actions := first + ([Write(t)] + (second + third));
  }

  lemma WritesNothing(s: State, t: nat)
    requires s.txs.Keys == {t} && AtStage(s, t, Approved) && HasRow(s, s.txs[t].grant) == s.txs[t].on
    ensures Run(s, [Write(t)]) == Some(SetStage(s, t, Written(false))) && AnchoredRun(s, [Write(t)])
  {
    Chain([s, SetStage(s, t, Written(false))], [Write(t)]);
  }

  /** A grant into a board that is not empty can be taken back. */
  lemma AnotherMember(s: State, grant: Grant, on: bool)
    requires Sound(s) && Wanted(s, grant, on) && (grant.kind == BOARD ==> BoardRows(s) != {})
    ensures grant.kind == BOARD && on ==> |BoardRows(Applied(s, grant, on, true))| > 1
  {
    if grant.kind == BOARD && on {
      var q :| q in BoardRows(s);
      var next := Applied(s, grant, on, true);
      PairInSet(BoardRows(next), q, s.nextRow);
    }
  }

  /** Let a write of a mirrored role be approved, and the only transaction past its lock statement. Anchored writes can
      leave a mirror that disagrees with the table exactly when its lock statement came back with nothing although there
      is a board. */
  lemma MirrorCanDisagreeIff(s: State, t: nat)
    requires Inv(s) && AtStage(s, t, Approved) && HasMirror(s.txs[t].grant.kind)
    ensures (exists run :: AnchoredRun(s, run) && Run(s, run).Some? && !MirrorsMatch(Run(s, run).value))
            <==> s.txs[t].phase.locks == {} && BoardRows(s) != {}
  {
    if s.txs[t].phase.locks == {} && BoardRows(s) != {} {
      AloneFromSole(s, t);
      var first := AbortOthers(s, t);
      var rest := OvertakenWriteLeavesItsMirror(s.(txs := map[t := s.txs[t]]), t);
      RunAppend(s, first, rest);
      assert AnchoredRun(s, first + rest);
    } else {
      forall run | AnchoredRun(s, run) && Run(s, run).Some? ensures MirrorsMatch(Run(s, run).value) {
        AnchoredRunIsSafe(s, run);
      }
    }
  }

  // ---------------------------------------------------------------------------
  // Two runs
  // ---------------------------------------------------------------------------

  const K := Grant(1, KEYHOLDER)

  function OneKeyholder(): State {
    State(map[0 := K], {K}, 1, map[])
  }

  lemma RevokeIsApproved(s: State)
    requires s == State(map[0 := K], {K}, 1, map[1 := Tx(K, false, Waiting(1))])
    ensures var approved := SetPhase(s, 1, Past(1, {}, Approved));
            && Run(s, [Acquire(1), Read(1), Guard(1)]) == Some(approved)
            && (forall g :: HasRow(approved, g) <==> g == K) && RowsOf(approved, K) == {0} && BoardRows(approved) == {}
  {
    assert s.rows[0] == K;
    assert LockSet(s, 1) == {};
    StageSteps(s, 1);
    Chain([s, PastAt(s, 1, Locked), PastAt(s, 1, Differing), PastAt(s, 1, Approved)], [Acquire(1), Read(1), Guard(1)]);
    assert PastAt(s, 1, Approved).rows[0] == K;
  }

  /** Without a board nothing is ever locked: a revoke is overtaken by another revoke and by a new grant, and leaves a
      keyholder whose mirror says otherwise. */
  lemma UnlockedRevokeLeavesItsMirror() returns (actions: seq<Action>)
    ensures Inv(OneKeyholder()) && BoardRows(OneKeyholder()) == {}
    ensures Run(OneKeyholder(), actions).Some?
    ensures var end := Run(OneKeyholder(), actions).value; !MirrorsMatch(end)
  {
    var s := OneKeyholder();
    assert s.rows[0] == K;
    assert forall g :: HasRow(s, g) <==> g == K;
    var begun := State(map[0 := K], {K}, 1, map[1 := Tx(K, false, Waiting(1))]);
    RevokeIsApproved(begun);
    var rest := OvertakenWriteLeavesItsMirror(SetPhase(begun, 1, Past(1, {}, Approved)), 1);
    RunAppend(begun, [Acquire(1), Read(1), Guard(1)], rest);
    actions := [Begin(1, K, false)] + ([Acquire(1), Read(1), Guard(1)] + rest);
    assert actions[1..] == [Acquire(1), Read(1), Guard(1)] + rest;
    assert Next(s, Begin(1, K, false)) == Some(begun);
  }

  // A board of one, two members being added, the first leaving, and a removal that waited through all of it.
  const X := Grant(1, BOARD)
  const Y := Grant(2, BOARD)
  const Z := Grant(3, BOARD)

  function OneMember(): State {
    State(map[0 := X], {X}, 1, map[])
  }

  const TX_1 := Tx(Y, true, Waiting(1))
  const TX_2 := Tx(Z, true, Waiting(1))
  const TX_3 := Tx(X, false, Waiting(1))
  const TX_4 := Tx(Y, false, Waiting(1))

  function Queued(): State {
    State(map[0 := X], {X}, 1, map[1 := TX_1, 2 := TX_2, 3 := TX_3, 4 := TX_4])
  }

  function WithY(): State {
    State(map[0 := X, 1 := Y], {X, Y}, 2, map[2 := TX_2, 3 := TX_3, 4 := TX_4])
  }

  function WithYZ(): State {
    State(map[0 := X, 1 := Y, 2 := Z], {X, Y, Z}, 3, map[3 := TX_3, 4 := TX_4])
  }

  function WithoutX(): State {
    State(map[1 := Y, 2 := Z], {Y, Z}, 3, map[4 := TX_4])
  }

  const QUEUE := [Begin(1, Y, true), Begin(2, Z, true), Begin(3, X, false), Begin(4, Y, false)]

  lemma FourAreQueued()
    ensures Run(OneMember(), QUEUE) == Some(Queued())
  {
    var s := OneMember();
    var a := s.(txs := map[1 := TX_1]);
    var b := s.(txs := map[1 := TX_1, 2 := TX_2]);
    var c := s.(txs := map[1 := TX_1, 2 := TX_2, 3 := TX_3]);
    Chain([s, a, b, c, Queued()], QUEUE);
  }

  lemma YIsAdded()
    ensures Run(Queued(), Served(1)) == Some(WithY())
  {
    ServeAlone(Queued(), 1);
    YMakesTwo(Queued());
  }

  lemma YMakesTwo(s: State)
    requires s == State(map[0 := X], {X}, 1, map[1 := TX_1, 2 := TX_2, 3 := TX_3, 4 := TX_4])
    ensures Leave(Applied(s, Y, true, true), 1) == WithY()
  {
    assert s.rows[1 := Y] == WithY().rows && s.txs - {1} == WithY().txs;
    assert s.mirrors + {Y} == WithY().mirrors;
  }

  lemma ZIsAdded()
    ensures Run(WithY(), Served(2)) == Some(WithYZ())
  {
    ServeAlone(WithY(), 2);
    ZMakesThree(WithY());
  }

  lemma ZMakesThree(s: State)
    requires s == State(map[0 := X, 1 := Y], {X, Y}, 2, map[2 := TX_2, 3 := TX_3, 4 := TX_4])
    ensures Leave(Applied(s, Z, true, true), 2) == WithYZ()
  {
    assert s.rows[2 := Z] == WithYZ().rows && s.txs - {2} == WithYZ().txs;
    assert s.mirrors + {Z} == WithYZ().mirrors;
  }

  lemma XIsOneOfThree(s: State)
    requires s.rows == map[0 := X, 1 := Y, 2 := Z]
    ensures Wanted(s, X, false) && RowsOf(s, X) == {0}
  {
    assert s.rows[0] == X;
    PairInSet(BoardRows(s), 0, 1);
  }

  lemma XIsRemoved()
    ensures Run(WithYZ(), Served(3)) == Some(WithoutX())
  {
    XIsOneOfThree(WithYZ());
    ServeAlone(WithYZ(), 3);
    XLeavesTwo(WithYZ());
  }

  lemma XLeavesTwo(s: State)
    requires s == State(map[0 := X, 1 := Y, 2 := Z], {X, Y, Z}, 3, map[3 := TX_3, 4 := TX_4]) && RowsOf(s, X) == {0}
    ensures Leave(Applied(s, X, false, true), 3) == WithoutX()
  {
    assert s.rows - {0} == WithoutX().rows && s.txs - {3} == WithoutX().txs;
    assert s.mirrors - {X} == WithoutX().mirrors;
  }

  lemma YIsApproved()
    ensures var first := [Acquire(4), Read(4), Guard(4)];
            Run(WithoutX(), first) == Some(SetPhase(WithoutX(), 4, Past(1, {}, Approved)))
  {
    var s := WithoutX();
    assert s.rows[1] == Y;
    PairInSet(BoardRows(s), 1, 2);
    assert LockSet(s, 1) == {};
    StageSteps(s, 4);
    Chain([s, PastAt(s, 4, Locked), PastAt(s, 4, Differing), PastAt(s, 4, Approved)], [Acquire(4), Read(4), Guard(4)]);
  }

  lemma EmptyFromWithoutX() returns (actions: seq<Action>)
    ensures Run(WithoutX(), actions).Some? && BoardRows(Run(WithoutX(), actions).value) == {}
  {
    YIsApproved();
    var s := SetPhase(WithoutX(), 4, Past(1, {}, Approved));
    assert s.rows[1] == Y;
    var rest := OvertakenRemovalEmptiesTheBoard(s, 4);
    RunAppend(WithoutX(), [Acquire(4), Read(4), Guard(4)], rest);
    actions := [Acquire(4), Read(4), Guard(4)] + rest;
  }

  lemma StartIsFine()
    ensures Inv(OneMember()) && BoardRows(OneMember()) != {}
  {
    var s := OneMember();
    assert s.rows[0] == X && 0 in BoardRows(s);
    assert forall g :: HasRow(s, g) <==> g == X;
  }

  /** From one board member, ordinary grants and removals reach an empty board: the last of four queued writes
      finds every row of its snapshot gone, locks nothing, and is overtaken. */
  lemma QueuedWritesCanEmptyTheBoard() returns (actions: seq<Action>)
    ensures Inv(OneMember()) && BoardRows(OneMember()) != {}
    ensures Run(OneMember(), actions).Some? && BoardRows(Run(OneMember(), actions).value) == {}
  {
    StartIsFine();
    FourAreQueued();
    YIsAdded();
    ZIsAdded();
    XIsRemoved();
    actions := EmptyFromWithoutX();
    RunAppend(WithYZ(), Served(3), actions);
    actions := Served(3) + actions;
    RunAppend(WithY(), Served(2), actions);
    actions := Served(2) + actions;
    RunAppend(Queued(), Served(1), actions);
    actions := Served(1) + actions;
    RunAppend(OneMember(), QUEUE, actions);
    actions := QUEUE + actions;
  }
}
