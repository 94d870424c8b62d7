/** Role writes: the one choke point for granting and revoking a role flag. */
module Roles {
  import opened Options

  datatype Kind = SYSADMIN | BOARD | KEYHOLDER | BG_REVIEWER | OPERATIONS

  /** Session flags; FlagKind is the hand-written map from flags to table kinds. */
  datatype Flag = IsSysadmin | IsBoardMember | IsKeyholder | IsBackgroundCheckReviewer | IsOperations

  function FlagKind(flag: Flag): (kind: Kind)
    ensures (flag, kind) in {(IsSysadmin, SYSADMIN), (IsBoardMember, BOARD), (IsKeyholder, KEYHOLDER),
                             (IsBackgroundCheckReviewer, BG_REVIEWER), (IsOperations, OPERATIONS)}
  {
    match flag
    case IsSysadmin => SYSADMIN
    case IsBoardMember => BOARD
    case IsKeyholder => KEYHOLDER
    case IsBackgroundCheckReviewer => BG_REVIEWER
    case IsOperations => OPERATIONS
  }

  /** Every kind but OPERATIONS has a legacy column on the person. */
  predicate HasMirror(kind: Kind): (mirrored: bool)
    ensures mirrored <==> kind in {SYSADMIN, BOARD, KEYHOLDER, BG_REVIEWER}
  {
    kind != OPERATIONS
  }

  const ROLE_FLAGS: set<Flag> := {IsSysadmin, IsBoardMember, IsKeyholder, IsBackgroundCheckReviewer, IsOperations}

  function RolesToFlags(held: set<Kind>): (flags: set<Flag>)
    ensures forall flag :: flag in flags <==> FlagKind(flag) in held
  {
    set flag | flag in ROLE_FLAGS && FlagKind(flag) in held
  }

  datatype Grant = Grant(person: nat, kind: Kind)

  datatype Actor = System | Member(isBoardMember: bool, isSysadmin: bool)

  datatype Refusal = Forbidden | LastBoardMember | DeniedHousehold

  datatype Verdict = Unchanged(before: bool) | Refused(why: Refusal) | Changed(before: bool, after: bool)

  function Board(rows: set<Grant>): set<Grant> {
    set g | g in rows && g.kind == BOARD
  }

  /** The authority matrix, the last-member guard and the denied-household guard, in the order they are asked. */
  function Judge(rows: set<Grant>, denied: set<nat>, person: nat, kind: Kind, on: bool, actor: Actor): Verdict {
    var before := Grant(person, kind) in rows;
    if before == on then Unchanged(before)
    else if actor.Member? && !actor.isBoardMember && (!actor.isSysadmin || (kind == BOARD && !on)) then Refused(Forbidden)
    else if kind == BOARD && !on && |Board(rows)| <= 1 then Refused(LastBoardMember)
    else if kind == BOARD && on && person in denied then Refused(DeniedHousehold)
    else Changed(before, on)
  }

  datatype Request = Request(person: nat, flag: Flag, on: bool, actor: Actor)

  /** The table after one write. */
  function RowsAfter(rows: set<Grant>, denied: set<nat>, r: Request): set<Grant> {
    var grant := Grant(r.person, FlagKind(r.flag));
    if !Judge(rows, denied, r.person, grant.kind, r.on, r.actor).Changed? then rows
    else if r.on then rows + {grant} else rows - {grant}
  }

  ghost predicate MirrorsAgree(rows: set<Grant>, mirrors: set<Grant>) {
    forall g: Grant | HasMirror(g.kind) :: g in mirrors <==> g in rows
  }

  class RoleStore {
    var rows: set<Grant>
    var mirrors: set<Grant>

    constructor ()
      ensures rows == {} && mirrors == {}
    {
      rows, mirrors := {}, {};
    }

    /** `applyRoleFlag`: the row and its mirror column in one transaction. */
    method ApplyRoleFlag(person: nat, kind: Kind, on: bool)
      modifies this
      ensures rows == if on then old(rows) + {Grant(person, kind)} else old(rows) - {Grant(person, kind)}
      ensures mirrors == if !HasMirror(kind) then old(mirrors)
                         else if on then old(mirrors) + {Grant(person, kind)} else old(mirrors) - {Grant(person, kind)}
    {
      var grant := Grant(person, kind);
      if on {
        rows := rows + {grant};
      } else {
        rows := rows - {grant};
      }
      if HasMirror(kind) {
        mirrors := if on then mirrors + {grant} else mirrors - {grant};
      }
    }

    /** `setRoleFlag`, alone: what the code does when no other role write is under way. */
    method SetRoleFlag(person: nat, flag: Flag, on: bool, actor: Actor, denied: set<nat>) returns (verdict: Verdict)
      modifies this
      ensures verdict == Judge(old(rows), denied, person, FlagKind(flag), on, actor)
      ensures !verdict.Changed? ==> rows == old(rows) && mirrors == old(mirrors)
      ensures verdict.Changed? ==>
                && (Grant(person, FlagKind(flag)) in rows) == on
                && (forall g | g != Grant(person, FlagKind(flag)) :: g in rows <==> g in old(rows))
      ensures MirrorsAgree(old(rows), old(mirrors)) ==> MirrorsAgree(rows, mirrors)
      ensures Board(old(rows)) != {} ==> Board(rows) != {}
      ensures rows == RowsAfter(old(rows), denied, Request(person, flag, on, actor))
    {
      var kind := FlagKind(flag);
      var held := set g | g in rows && g.person == person :: g.kind;
      var before := flag in RolesToFlags(held);
      assert before == (Grant(person, kind) in rows);
      if before == on {
        return Unchanged(before);
      }
      if actor.Member? {
        if !actor.isBoardMember {
          if !actor.isSysadmin {
            return Refused(Forbidden);
          }
          if flag == IsBoardMember && !on {
            return Refused(Forbidden);
          }
        }
      }
      if flag == IsBoardMember && !on {
        var boardCount := |Board(rows)|;
        if boardCount <= 1 {
          return Refused(LastBoardMember);
        }
      }
      if flag == IsBoardMember && on && person in denied {
        return Refused(DeniedHousehold);
      }
      ghost var boardBefore := Board(rows);
      ApplyRoleFlag(person, kind, on);
      SomeoneRemains(boardBefore, Board(rows), Grant(person, kind));
      return Changed(before, on);
    }
  }

  lemma SomeoneRemains(before: set<Grant>, after: set<Grant>, grant: Grant)
    requires forall g | g in before && g != grant :: g in after
    ensures after == {} && grant in before ==> |before| <= 1
    ensures after == {} && grant !in before ==> before == {}
  {
    if after == {} && grant in before {
      assert before == {grant};
    }
  }

  // ---------------------------------------------------------------------------
  // Who may change what
  // ---------------------------------------------------------------------------

  predicate OnBoard(rows: set<Grant>, person: nat) {
    Grant(person, BOARD) in rows
  }

  lemma BoardCount(rows: set<Grant>, person: nat)
    requires OnBoard(rows, person)
    ensures |Board(rows)| <= 1 <==> forall g | g in rows && g.kind == BOARD :: g.person == person
  {
    var mine := Grant(person, BOARD);
    assert mine in Board(rows);
    if forall g | g in rows && g.kind == BOARD :: g.person == person {
      assert Board(rows) == {mine};
    } else {
      var other :| other in rows && other.kind == BOARD && other.person != person;
      assert other in Board(rows) - {mine};
      assert |Board(rows) - {mine}| == |Board(rows)| - 1;
    }
  }

  /** The answer to a request that differs from the table: a member who is neither on the board nor a sysadmin is refused,
      and a sysadmin who is not on the board may not take anybody off it; nobody leaves the board as its last member, and
      nobody of a denied household joins it, whoever asks; everything else goes through. A request that does not differ is
      answered as it stands. */
  lemma AnswerIs(rows: set<Grant>, denied: set<nat>, r: Request)
    ensures var verdict := Judge(rows, denied, r.person, FlagKind(r.flag), r.on, r.actor);
            var held := Grant(r.person, FlagKind(r.flag)) in rows;
            var leaves, joins := r.flag == IsBoardMember && !r.on, r.flag == IsBoardMember && r.on;
            && (verdict == Unchanged(r.on) <==> held == r.on)
            && (verdict == Refused(Forbidden) <==>
                  held != r.on && r.actor.Member? && !r.actor.isBoardMember && (leaves || !r.actor.isSysadmin))
            && (verdict == Refused(LastBoardMember) <==>
                  held != r.on && leaves && (r.actor.System? || r.actor.isBoardMember)
                  && forall g | g in rows && g.kind == BOARD :: g.person == r.person)
            && (verdict == Refused(DeniedHousehold) <==>
                  held != r.on && joins && r.person in denied
                  && (r.actor.System? || r.actor.isBoardMember || r.actor.isSysadmin))
            && (verdict.Changed? ==> verdict == Changed(held, r.on) && held != r.on)
            && (verdict.Unchanged? ==> verdict == Unchanged(r.on))
  {
    if r.flag == IsBoardMember && !r.on && OnBoard(rows, r.person) {
      BoardCount(rows, r.person);
    }
  }

  function RowsAfterAll(rows: set<Grant>, denied: set<nat>, requests: seq<Request>): set<Grant>
    decreases |requests|
  {
    if requests == [] then rows else RowsAfterAll(RowsAfter(rows, denied, requests[0]), denied, requests[1..])
  }

  /** However many writes by members who are not on the board: nobody leaves it. */
  lemma {:induction false} OutsidersNeverShrinkTheBoard(rows: set<Grant>, denied: set<nat>, requests: seq<Request>, person: nat)
    requires forall i | 0 <= i < |requests| :: requests[i].actor.Member? && !requests[i].actor.isBoardMember
    requires OnBoard(rows, person)
    ensures OnBoard(RowsAfterAll(rows, denied, requests), person)
    decreases |requests|
  {
    if requests != [] {
      AnswerIs(rows, denied, requests[0]);
      OutsidersNeverShrinkTheBoard(RowsAfter(rows, denied, requests[0]), denied, requests[1..], person);
    }
  }

  /** ... and by members who are not sysadmins either: nothing changes. */
  lemma {:induction false} StrangersChangeNothing(rows: set<Grant>, denied: set<nat>, requests: seq<Request>)
    requires forall i | 0 <= i < |requests| ::
               requests[i].actor.Member? && !requests[i].actor.isBoardMember && !requests[i].actor.isSysadmin
    ensures RowsAfterAll(rows, denied, requests) == rows
    decreases |requests|
  {
    if requests != [] {
      AnswerIs(rows, denied, requests[0]);
      StrangersChangeNothing(rows, denied, requests[1..]);
    }
  }

  /** Whoever writes: nobody of a denied household is ever put on the board. */
  lemma {:induction false} TheDeniedNeverJoin(rows: set<Grant>, denied: set<nat>, requests: seq<Request>, person: nat)
    requires person in denied && !OnBoard(rows, person)
    ensures !OnBoard(RowsAfterAll(rows, denied, requests), person)
    decreases |requests|
  {
    if requests != [] {
      AnswerIs(rows, denied, requests[0]);
      TheDeniedNeverJoin(RowsAfter(rows, denied, requests[0]), denied, requests[1..], person);
    }
  }

  /** A role write changes the one row it is about, to what was asked for, or nothing at all. */
  lemma OnlyTheRequestedRow(rows: set<Grant>, denied: set<nat>, r: Request, g: Grant)
    ensures var after, verdict := RowsAfter(rows, denied, r), Judge(rows, denied, r.person, FlagKind(r.flag), r.on, r.actor);
            g in after <==> if verdict.Changed? && g == Grant(r.person, FlagKind(r.flag)) then r.on else g in rows
  {
  }
}
