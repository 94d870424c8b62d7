/** Two-deep supervision: who counts as a supervising adult, and how many households of them are in the building. */
module Supervision {
  import opened Options
  import V = Visits

  const MIN_SUPERVISING_ADULTS := 2

  /** A background check: none on file, one that no board policy lets expire, or one valid up to and including a day. */
  datatype Clearance = NoCheck | NeverExpires | ValidUntil(day: int)

  datatype Person = Person(
    id: nat,
    isKeyholder: bool,
    isDeclaredAdult: bool,
    isYouthByBirth: bool,
    householdId: nat,
    isActiveMember: bool,
    clearance: Clearance,
    hasSeatInSession: bool,
    isLive: bool)

  /** One row of the visit table, as the scan service reads it, with the person joined in. */
  datatype Row = Row(
    person: Person,
    arrivedAt: int,
    departedAt: Option<int>,
    departedVia: Option<V.Source>,
    deleted: bool,
    forceCloseToken: Option<nat>,
    forceCloseWarnedAt: Option<int>,
    supervisionWarnedAt: Option<int>)

  type Roster = map<nat, Row>

  predicate Open(row: Row) {
    row.departedAt.None? && !row.deleted
  }

  predicate IsYouth(p: Person) {
    !p.isDeclaredAdult && p.isYouthByBirth
  }

  predicate ClearanceIsValid(c: Clearance, today: int) {
    match c
    case NoCheck => false
    case NeverExpires => true
    case ValidUntil(day) => day >= today
  }

  predicate Supervises(row: Row, today: int) {
    && Open(row) && row.person.isLive
    && !IsYouth(row.person)
    && row.person.isActiveMember
    && ClearanceIsValid(row.person.clearance, today)
    && !row.person.hasSeatInSession
  }

  /** The household of every supervising visit. */
  function Supervising(visits: Roster, today: int): map<nat, nat> {
    map v | v in visits && Supervises(visits[v], today) :: visits[v].person.householdId
  }

  function HouseholdsOf(supervising: map<nat, nat>, without: set<nat>): set<nat> {
    set v | v in supervising && v !in without :: supervising[v]
  }

  /** How many supervising adults the room has: distinct households. */
  function Count(visits: Roster, today: int): nat {
    |HouseholdsOf(Supervising(visits, today), {})|
  }

  function CountWithout(visits: Roster, today: int, v: nat): nat {
    |HouseholdsOf(Supervising(visits, today), {v})|
  }

  predicate YouthPresent(visits: Roster) {
    exists v :: v in visits && YouthRow(visits[v])
  }

  predicate YouthRow(row: Row) {
    Open(row) && row.person.isLive && IsYouth(row.person)
  }

  // ---------------------------------------------------------------------------
  // The code
  // ---------------------------------------------------------------------------

  method SupervisingAdultVisits(visits: Roster, today: int) returns (supervising: map<nat, nat>)
    ensures supervising == Supervising(visits, today)
    ensures forall v :: v in supervising <==>
              && v in visits && visits[v].departedAt.None? && !visits[v].deleted && visits[v].person.isLive
              && (visits[v].person.isDeclaredAdult || !visits[v].person.isYouthByBirth)
              && visits[v].person.isActiveMember && !visits[v].person.hasSeatInSession
              && (visits[v].person.clearance == NeverExpires
                  || (visits[v].person.clearance.ValidUntil? && visits[v].person.clearance.day >= today))
    ensures forall v | v in supervising :: supervising[v] == visits[v].person.householdId
  {
    supervising := map[];
    var openVisits := set v | v in visits && Open(visits[v]) && visits[v].person.isLive;
    var done: set<nat> := {};
    while openVisits != {}
      invariant openVisits !! done
      invariant openVisits + done == set v | v in visits && Open(visits[v]) && visits[v].person.isLive
      invariant supervising == map v | v in done && Supervises(visits[v], today) :: visits[v].person.householdId
      decreases openVisits
    {
      var v :| v in openVisits;
      openVisits, done := openVisits - {v}, done + {v};
      var p := visits[v].person;
      var isAdult := p.isDeclaredAdult || !p.isYouthByBirth;
      if !isAdult { continue; }
      if !p.isActiveMember { continue; }
      if !ClearanceIsValid(p.clearance, today) { continue; }
      if p.hasSeatInSession { continue; }
      supervising := supervising[v := p.householdId];
    }
  }

  method SupervisingAdultCount(supervising: map<nat, nat>, excludeVisitId: Option<nat>) returns (count: nat)
    ensures count == |HouseholdsOf(supervising, if excludeVisitId.Some? then {excludeVisitId.value} else {})|
  {
    var households: set<nat> := {};
    var todo, done: set<nat> := supervising.Keys, {};
    while todo != {}
      invariant todo !! done && todo + done == supervising.Keys
      invariant households == set v | v in done && excludeVisitId != Some(v) :: supervising[v]
      decreases todo
    {
      var visitId :| visitId in todo;
      todo, done := todo - {visitId}, done + {visitId};
      if excludeVisitId != Some(visitId) {
        households := households + {supervising[visitId]};
      }
    }
    assert done == supervising.Keys;
    assert households == HouseholdsOf(supervising, if excludeVisitId.Some? then {excludeVisitId.value} else {});
    count := |households|;
  }

  method YouthIsPresent(visits: Roster) returns (present: bool)
    ensures present == YouthPresent(visits)
    ensures present <==> exists v :: v in visits && visits[v].departedAt.None? && !visits[v].deleted && visits[v].person.isLive
                                     && !visits[v].person.isDeclaredAdult && visits[v].person.isYouthByBirth
  {
    var candidates := set v | v in visits && Open(visits[v])
                              && visits[v].person.isLive && !visits[v].person.isDeclaredAdult;
    present := exists v :: v in candidates && visits[v].person.isYouthByBirth;
    assert present ==> exists v :: v in candidates && YouthRow(visits[v]);
    assert YouthPresent(visits) ==> exists v :: v in candidates && YouthRow(visits[v]);
  }

  // ---------------------------------------------------------------------------
  // One departure
  // ---------------------------------------------------------------------------

  /** v is the only supervising visit of its household. */
  predicate OnlyOneOfItsHousehold(supervising: map<nat, nat>, v: nat) {
    v in supervising && forall w :: w in supervising && w != v ==> supervising[w] != supervising[v]
  }

  /** One visit fewer is one supervising adult fewer exactly when it is its household's only supervising visit. */
  lemma OneDepartureCountsOnce(supervising: map<nat, nat>, v: nat)
    ensures |HouseholdsOf(supervising, {v})|
            == |HouseholdsOf(supervising, {})| - (if OnlyOneOfItsHousehold(supervising, v) then 1 else 0)
  {
    var all, rest := HouseholdsOf(supervising, {}), HouseholdsOf(supervising, {v});
    if OnlyOneOfItsHousehold(supervising, v) {
      assert all == rest + {supervising[v]};
    } else {
      forall h | h in all ensures h in rest {
        var w :| w in supervising && supervising[w] == h;
        if w == v {
          var u :| u in supervising && u != v && supervising[u] == supervising[v];
          assert u !in {v};
        } else {
          assert w !in {v};
        }
      }
      assert all == rest;
    }
  }

  /** The count asked "as if the visit had ended" is the count once that row is no longer open, whatever the row
      then holds, all other rows standing. */
  lemma CountAfterDeparture(visits: Roster, v: nat, row: Row, today: int)
    requires v in visits && !Open(row)
    ensures Count(visits[v := row], today) == CountWithout(visits, today, v)
    ensures CountWithout(visits, today, v)
            == Count(visits, today) - (if OnlyOneOfItsHousehold(Supervising(visits, today), v) then 1 else 0)
  {
    var before, after := Supervising(visits, today), Supervising(visits[v := row], today);
    assert forall w :: w in after <==> w in before && w != v;
    assert HouseholdsOf(after, {}) == HouseholdsOf(before, {v});
    OneDepartureCountsOnce(before, v);
  }
}
