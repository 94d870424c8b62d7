/** Attendance rows, and the table the server keeps them in. Times are milliseconds. */
module Visits {
  import opened Options

  const MAX_VISIT_MS: int := 24 * 60 * 60 * 1000

  datatype Source = Scanner | Typed | AutoClose | FacilityClose

  datatype Visit = Visit(
    id: nat, personId: nat,
    arrivedAt: int, departedAt: Option<int>,
    arrivedVia: Source, departedVia: Option<Source>,
    eventId: Option<nat>, deleted: bool)

  datatype Event = Event(id: nat, programId: Option<nat>, startAt: int, endAt: int)

  class VisitTable {
    var rows: map<nat, Visit>
    var nextId: nat

    constructor ()
      ensures Valid() && rows == map[]
    {
      rows, nextId := map[], 0;
    }

    ghost predicate Valid()
      reads this
    {
      forall id | id in rows :: id < nextId && rows[id].id == id
    }

    /** `visit.create`: the id in `visit` is ignored; the database hands out the next one. */
    method Create(visit: Visit) returns (created: Visit)
      requires Valid()
      modifies this
      ensures Valid()
      ensures nextId == old(nextId) + 1
      ensures created == visit.(id := old(nextId))
      ensures rows == old(rows)[old(nextId) := created]
    {
      created := visit.(id := nextId);
      rows := rows[nextId := created];
      nextId := nextId + 1;
    }
  }
}
