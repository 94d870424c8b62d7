/** How one physical stay becomes attendance rows: `processVisitCheckout` cuts it at event boundaries. */
module AttendanceTransitions {
  import opened Options
  import opened Sorting
  import opened Visits

  // ---------------------------------------------------------------------------
  // What a recorded stay means, without reference to how it is computed
  // ---------------------------------------------------------------------------

  /** A half-open piece of a stay, and the event it is credited to. */
  datatype Segment = Segment(from: int, to: int, event: Option<nat>)

  /** The event a person is attending at `t`: the last one, in sort order, to have started. */
  function OwnerAt(events: seq<Event>, t: int): Option<nat> {
    if events == [] then None
    else
      var last := events[|events| - 1];
      if last.startAt <= t then Some(last.id) else OwnerAt(events[..|events| - 1], t)
  }

  /** The segments are positive, leave no hole, and run from `lo` to `hi`. */
  ghost predicate Tiles(segs: seq<Segment>, lo: int, hi: int) {
    && segs != []
    && segs[0].from == lo
    && segs[|segs| - 1].to == hi
    && (forall i | 0 <= i < |segs| :: segs[i].from < segs[i].to)
    && (forall i | 0 <= i < |segs| - 1 :: segs[i].to == segs[i + 1].from)
  }

  /** Every instant of every segment is credited to its owner. */
  ghost predicate Attributed(segs: seq<Segment>, events: seq<Event>) {
    forall i, t | 0 <= i < |segs| && segs[i].from <= t < segs[i].to :: OwnerAt(events, t) == segs[i].event
  }

  ghost predicate NeighboursDiffer(segs: seq<Segment>) {
    forall i | 0 <= i < |segs| - 1 :: segs[i].event != segs[i + 1].event
  }

  /** The one right way to record `[lo, hi)` (see TimelineIsUnique). */
  ghost predicate Timeline(segs: seq<Segment>, lo: int, hi: int, events: seq<Event>) {
    Tiles(segs, lo, hi) && Attributed(segs, events) && NeighboursDiffer(segs)
  }

  function TotalLength(segs: seq<Segment>): int {
    if segs == [] then 0 else segs[0].to - segs[0].from + TotalLength(segs[1..])
  }

  /** The query's answer: matching events in start order. */
  ghost predicate StayEvents(events: seq<Event>, arrival: int, departure: int) {
    && (forall i, j | 0 <= i < j < |events| :: events[i].startAt <= events[j].startAt)
    && (forall i, j | 0 <= i < j < |events| :: events[i].id != events[j].id)
    && (forall i | 0 <= i < |events| :: events[i].startAt < departure && arrival < events[i].endAt)
  }

  /** At most one event had started before the person arrived. */
  ghost predicate AtMostOneEarlyStart(events: seq<Event>, arrival: int) {
    forall i, j | 0 <= i < j < |events| :: arrival <= events[i].startAt || arrival <= events[j].startAt
  }

  /** Where the record really begins. The cursor is moved to the second event's start even when that lies
      before the arrival. */
  function RecordStart(events: seq<Event>, arrival: int): int {
    if |events| < 2 || arrival <= events[1].startAt then arrival else events[1].startAt
  }

  // ---------------------------------------------------------------------------
  // The event query
  // ---------------------------------------------------------------------------

  predicate DuringStay(e: Event, programs: set<nat>, arrival: int, departure: int) {
    && e.programId.Some? && e.programId.value in programs
    && e.startAt < departure
    && arrival < e.endAt
  }

  function Matching(table: seq<Event>, programs: set<nat>, arrival: int, departure: int): (r: seq<Event>)
    ensures forall e :: e in r <==> e in table && DuringStay(e, programs, arrival, departure)
  {
    if table == [] then []
    else
      var rest := Matching(table[1..], programs, arrival, departure);
      if DuringStay(table[0], programs, arrival, departure) then [table[0]] + rest else rest
  }

  function EventsDuringStay(table: seq<Event>, programs: set<nat>, arrival: int, departure: int): seq<Event> {
    SortBy(Matching(table, programs, arrival, departure), (e: Event) => e.startAt)
  }

  lemma {:induction false} NoProgramsNoEvents(table: seq<Event>, arrival: int, departure: int)
    ensures Matching(table, {}, arrival, departure) == [] == EventsDuringStay(table, {}, arrival, departure)
  {
    if table != [] {
      NoProgramsNoEvents(table[1..], arrival, departure);
    }
  }

  ghost predicate UniqueIds(table: seq<Event>) {
    forall i, j | 0 <= i < j < |table| :: table[i].id != table[j].id
  }

  lemma {:induction false} MatchingKeepsUniqueIds(table: seq<Event>, programs: set<nat>, arrival: int, departure: int)
    requires UniqueIds(table)
    ensures UniqueIds(Matching(table, programs, arrival, departure))
  {
    if table != [] {
      MatchingKeepsUniqueIds(table[1..], programs, arrival, departure);
      var rest := Matching(table[1..], programs, arrival, departure);
      forall j | 0 <= j < |rest| ensures rest[j].id != table[0].id {
        assert rest[j] in table[1..];
      }
    }
  }

  /** The query returns exactly the overlapping events of the person's programs, in start order. */
  lemma QueryAnswersStayEvents(table: seq<Event>, programs: set<nat>, arrival: int, departure: int)
    requires UniqueIds(table)
    ensures var stay := EventsDuringStay(table, programs, arrival, departure);
            && StayEvents(stay, arrival, departure)
            && (forall e :: e in stay <==> e in table && e.programId.Some? && e.programId.value in programs
                                           && e.startAt < departure && e.endAt > arrival)
  {
    var key := (e: Event) => e.startAt;
    var found := Matching(table, programs, arrival, departure);
    var stay := SortBy(found, key);
    MatchingKeepsUniqueIds(table, programs, arrival, departure);
    SortBySorts(found, key);
    PermutationKeepsElements(found, stay);
    forall i, j | 0 <= i < j < |stay|
      ensures stay[i].startAt <= stay[j].startAt && stay[i].id != stay[j].id
    {
      assert key(stay[i]) <= key(stay[j]);
      assert Distinct(stay);
      assert stay[i] in found && stay[j] in found;
    }
    forall i | 0 <= i < |stay| ensures DuringStay(stay[i], programs, arrival, departure) {
      assert stay[i] in found;
    }
  }

  // ---------------------------------------------------------------------------
  // Owners
  // ---------------------------------------------------------------------------

  /** Between the start of event k and the start of the next one, the owner is event k. */
  lemma {:induction false} OwnerInWindow(events: seq<Event>, k: nat, t: int)
    requires k < |events| && events[k].startAt <= t
    requires forall j | k < j < |events| :: t < events[j].startAt
    ensures OwnerAt(events, t) == Some(events[k].id)
  {
    if k < |events| - 1 {
      OwnerInWindow(events[..|events| - 1], k, t);
    }
  }

  /** Before event k has started, nobody attends event k or a later one. */
  lemma {:induction false} OwnerBeforeStart(events: seq<Event>, k: nat, t: int)
    requires k < |events|
    requires forall j | k <= j < |events| :: t < events[j].startAt
    requires forall i, j | 0 <= i < j < |events| :: events[i].id != events[j].id
    ensures OwnerAt(events, t) == OwnerAt(events[..k], t) != Some(events[k].id)
  {
    if k < |events| - 1 {
      OwnerBeforeStart(events[..|events| - 1], k, t);
      assert events[..|events| - 1][..k] == events[..k];
    } else {
      OwnerIsListed(events[..k], t);
    }
  }

  lemma {:induction false} OwnerIsListed(events: seq<Event>, t: int)
    ensures OwnerAt(events, t).Some? ==>
              exists j | 0 <= j < |events| :: events[j].id == OwnerAt(events, t).value && events[j].startAt <= t
  {
    if events != [] && events[|events| - 1].startAt > t {
      OwnerIsListed(events[..|events| - 1], t);
      if OwnerAt(events, t).Some? {
        var j :| 0 <= j < |events| - 1 && events[..|events| - 1][j].id == OwnerAt(events, t).value
                 && events[..|events| - 1][j].startAt <= t;
        assert events[j].id == OwnerAt(events, t).value;
      }
    }
  }

  // ---------------------------------------------------------------------------
  // The checkout
  // ---------------------------------------------------------------------------

  function SegmentOf(visit: Visit): Segment {
    Segment(visit.arrivedAt, (if visit.departedAt.Some? then visit.departedAt.value else visit.arrivedAt), visit.eventId)
  }

  function Segments(visits: seq<Visit>): (segs: seq<Segment>) {
    seq(|visits|, i requires 0 <= i < |visits| => SegmentOf(visits[i]))
  }

  /** The k-th recreated row is a fresh row of the same person, arriving as the original did and
      departing through `source`. */
  ghost predicate RecreatedFrom(chunks: seq<Visit>, original: Visit, source: Source, firstId: nat) {
    forall k | 0 <= k < |chunks| ::
      var c := chunks[k];
      && c.id == firstId + k
      && c.personId == original.personId
      && c.arrivedVia == original.arrivedVia
      && c.departedVia == Some(source)
      && c.departedAt.Some?
      && !c.deleted
  }

  function ById(chunks: seq<Visit>): (m: map<nat, Visit>) {
    if chunks == [] then map[] else ById(chunks[..|chunks| - 1])[chunks[|chunks| - 1].id := chunks[|chunks| - 1]]
  }

  lemma ExtendTimeline(segs: seq<Segment>, next: Segment, lo: int, events: seq<Event>)
    requires next.from < next.to
    requires if segs == [] then next.from == lo else Timeline(segs, lo, next.from, events)
    requires segs != [] ==> segs[|segs| - 1].event != next.event
    requires forall t | next.from <= t < next.to :: OwnerAt(events, t) == next.event
    ensures Timeline(segs + [next], lo, next.to, events)
  {
  }

  /** What stays recorded up to `cursor` when the loop is about to treat event i. */
  ghost predicate RecordedUpTo(segs: seq<Segment>, events: seq<Event>, arrival: int, cursor: int) {
    var lo := RecordStart(events, arrival);
    if segs == [] then cursor == lo else Timeline(segs, lo, cursor, events)
  }

  /** `created` is what has been recreated so far, and nothing else in the table has moved. */
  ghost predicate Recreated(db: VisitTable, created: seq<Visit>, original: Visit, source: Source,
                            rows: map<nat, Visit>, firstId: nat)
    reads db
  {
    && db.Valid()
    && db.nextId == firstId + |created|
    && RecreatedFrom(created, original, source, firstId)
    && db.rows == rows + ById(created)
  }

  lemma PushKeepsRecreated(created: seq<Visit>, visit: Visit, original: Visit, source: Source, firstId: nat)
    requires RecreatedFrom(created, original, source, firstId)
    requires RecreatedFrom([visit], original, source, firstId + |created|)
    ensures RecreatedFrom(created + [visit], original, source, firstId)
    ensures ById(created + [visit]) == ById(created)[visit.id := visit]
    ensures Segments(created + [visit]) == Segments(created) + [SegmentOf(visit)]
  {
    assert [visit][0] == visit;
    assert (created + [visit])[..|created|] == created;
  }

  /** `createdVisits.push(await tx.visit.create(...))`. */
  method Push(db: VisitTable, created: seq<Visit>, original: Visit, source: Source,
              from: int, to: int, event: Option<nat>, ghost rows: map<nat, Visit>, ghost firstId: nat)
    returns (all: seq<Visit>)
    requires Recreated(db, created, original, source, rows, firstId)
    modifies db
    ensures Recreated(db, all, original, source, rows, firstId)
    ensures Segments(all) == Segments(created) + [Segment(from, to, event)]
  {
    var visit := db.Create(Visit(0, original.personId, from, Some(to), original.arrivedVia, Some(source), event, false));
    PushKeepsRecreated(created, visit, original, source, firstId);
    all := created + [visit];
  }

  /** Instants before the first event belong to nobody. */
  lemma GapIsUnowned(events: seq<Event>, arrival: int, departure: int, from: int, to: int)
    requires events != [] && StayEvents(events, arrival, departure)
    requires from < to <= events[0].startAt
    ensures Timeline([Segment(from, to, None)], from, to, events)
  {
    forall t | from <= t < to ensures OwnerAt(events, t) == None {
      OwnerBeforeStart(events, 0, t);
    }
  }

  /** An event row may follow what is recorded so far. */
  lemma EventSegmentFollows(segs: seq<Segment>, events: seq<Event>, arrival: int, departure: int, i: nat, from: int, to: int)
    requires StayEvents(events, arrival, departure) && i < |events|
    requires events[i].startAt <= from < to
    requires i + 1 < |events| ==> to <= events[i + 1].startAt
    requires segs != [] ==> from == events[i].startAt
    requires var lo := RecordStart(events, arrival);
             if segs == [] then from == lo else Timeline(segs, lo, from, events)
    ensures Timeline(segs + [Segment(from, to, Some(events[i].id))], RecordStart(events, arrival), to, events)
  {
    forall t | from <= t < to ensures OwnerAt(events, t) == Some(events[i].id) {
      OwnerInWindow(events, i, t);
    }
    if segs != [] {
      OwnerBeforeStart(events, i, segs[|segs| - 1].from);
    }
    ExtendTimeline(segs, Segment(from, to, Some(events[i].id)), RecordStart(events, arrival), events);
  }

  /** The chunk loop: the gap and event rows of one stay, created one by one. */
  method CreateChunks(db: VisitTable, original: Visit, departure: int, events: seq<Event>, source: Source)
    returns (created: seq<Visit>)
    requires db.Valid() && events != []
    requires StayEvents(events, original.arrivedAt, departure)
    modifies db
    ensures Recreated(db, created, original, source, old(db.rows), old(db.nextId))
    ensures original.arrivedAt < departure ==>
              Timeline(Segments(created), RecordStart(events, original.arrivedAt), departure, events)
    ensures departure <= original.arrivedAt ==> created == []
  {
    created := [];
    var arrival := original.arrivedAt;
    var cursor := arrival;
    var i := 0;
    while i < |events|
      invariant 0 <= i <= |events|
      invariant Recreated(db, created, original, source, old(db.rows), old(db.nextId))
      invariant i == 0 ==> created == [] && cursor == arrival
      invariant departure <= arrival ==> i == 0
      invariant i > 0 ==> cursor == if i < |events| then events[i].startAt else departure
      invariant i > 0 ==> RecordedUpTo(Segments(created), events, arrival, cursor)
    {
      var event := events[i];
      if cursor < event.startAt {
        var gapEnd := if event.startAt < departure then event.startAt else departure;
        if cursor < gapEnd {
          created := Push(db, created, original, source, cursor, gapEnd, None, old(db.rows), old(db.nextId));
          GapIsUnowned(events, arrival, departure, cursor, gapEnd);
          assert Segments(created) == [Segment(cursor, gapEnd, None)];
        }
        cursor := gapEnd;
      }
      if cursor >= departure {
        break;
      }
      var from := if cursor > event.startAt then cursor else event.startAt;
      var to := departure;
      if i + 1 < |events| && events[i + 1].startAt < departure {
        to := events[i + 1].startAt;
      }
      if from < to {
        EventSegmentFollows(Segments(created), events, arrival, departure, i, from, to);
        created := Push(db, created, original, source, from, to, Some(event.id), old(db.rows), old(db.nextId));
      }
      cursor := to;
      i := i + 1;
    }
    if cursor < departure {
      // The trailing "remaining time" row: no event list reaches it.
      assert false;
    }
  }

  datatype CheckoutCase = NotOpen | Plain | Chunked

  function CappedDeparture(arrival: int, checkout: int): int {
    if checkout <= arrival + MAX_VISIT_MS then checkout else arrival + MAX_VISIT_MS
  }

  /** The events the query answers for this visit. */
  function StayOf(rows: map<nat, Visit>, visitId: nat, checkout: int, programs: set<nat>, table: seq<Event>): seq<Event> {
    if visitId !in rows then []
    else EventsDuringStay(table, programs, rows[visitId].arrivedAt, CappedDeparture(rows[visitId].arrivedAt, checkout))
  }

  /** Which of the three ways `processVisitCheckout` takes. */
  function CaseOf(rows: map<nat, Visit>, visitId: nat, stay: seq<Event>): CheckoutCase {
    if visitId !in rows || rows[visitId].departedAt.Some? || rows[visitId].deleted then NotOpen
    else if stay == [] then Plain
    else Chunked
  }

  /** An open visit that is checked out after it began is recorded, nothing else is, and the record ends at the check-out
      or 24 hours after the arrival, whichever is earlier; its rows follow one another from its first arrival to that end,
      so their lengths add up to the time between. */
  ghost predicate RecordedInTime(before: map<nat, Visit>, visitId: nat, checkout: int, result: seq<Visit>) {
    && (result != [] ==> visitId in before && before[visitId].departedAt.None? && !before[visitId].deleted)
    && ((visitId in before && before[visitId].departedAt.None? && !before[visitId].deleted
         && before[visitId].arrivedAt < checkout)
        ==> result != [])
    && (forall c | c in result :: c.departedAt.Some?)
    && (result != [] ==>
          var arrival, end := before[visitId].arrivedAt, result[|result| - 1].departedAt.value;
          && end <= checkout && end - arrival <= 86_400_000
          && (end == checkout || end - arrival == 86_400_000)
          && (arrival < end ==> result[0].arrivedAt <= arrival)
          && TotalLength(Segments(result)) == end - result[0].arrivedAt)
  }

  method ProcessVisitCheckout(db: VisitTable, visitId: nat, checkout: int, programs: set<nat>, table: seq<Event>, source: Source)
    returns (result: seq<Visit>)
    requires db.Valid() && UniqueIds(table)
    modifies db
    ensures db.Valid()
    ensures var stay := StayOf(old(db.rows), visitId, checkout, programs, table);
            match CaseOf(old(db.rows), visitId, stay)
            case NotOpen => result == [] && db.rows == old(db.rows)
            case Plain =>
              var v := old(db.rows[visitId]);
              var closed := v.(departedAt := Some(CappedDeparture(v.arrivedAt, checkout)), departedVia := Some(source));
              result == [closed] && db.rows == old(db.rows)[visitId := closed]
            case Chunked =>
              var v := old(db.rows[visitId]);
              var departure := CappedDeparture(v.arrivedAt, checkout);
              && StayEvents(stay, v.arrivedAt, departure)
              && db.rows == (old(db.rows) - {visitId}) + ById(result)
              && RecreatedFrom(result, v, source, old(db.nextId))
              && (v.arrivedAt < departure ==>
                    Timeline(Segments(result), RecordStart(stay, v.arrivedAt), departure, stay))
              && (departure <= v.arrivedAt ==> result == [])
    ensures RecordedInTime(old(db.rows), visitId, checkout, result)
  {
    if visitId !in db.rows || db.rows[visitId].departedAt.Some? || db.rows[visitId].deleted {
      return [];
    }
    var original := db.rows[visitId];
    var latest := original.arrivedAt + MAX_VISIT_MS;
    var departure := if checkout <= latest then checkout else latest;
    var events := EventsDuringStay(table, programs, original.arrivedAt, departure);
    QueryAnswersStayEvents(table, programs, original.arrivedAt, departure);
    if programs == {} || events == [] {
      NoProgramsNoEvents(table, original.arrivedAt, departure);
      var closed := original.(departedAt := Some(departure), departedVia := Some(source));
      db.rows := db.rows[visitId := closed];
      OneSegment(closed);
      return [closed];
    }
    db.rows := db.rows - {visitId};
    result := CreateChunks(db, original, departure, events, source);
    if original.arrivedAt < departure {
      ChunksEndInTime(result, original, departure, events, source, old(db.nextId));
    }
  }

  lemma OneSegment(closed: Visit)
    requires closed.departedAt.Some?
    ensures TotalLength(Segments([closed])) == closed.departedAt.value - closed.arrivedAt
  {
    assert Segments([closed]) == [SegmentOf(closed)] && [SegmentOf(closed)][1..] == [];
  }

  lemma ChunksEndInTime(chunks: seq<Visit>, original: Visit, departure: int, events: seq<Event>, source: Source, firstId: nat)
    requires events != [] && StayEvents(events, original.arrivedAt, departure) && original.arrivedAt < departure
    requires RecreatedFrom(chunks, original, source, firstId)
    requires Timeline(Segments(chunks), RecordStart(events, original.arrivedAt), departure, events)
    ensures chunks != [] && forall c | c in chunks :: c.departedAt.Some?
    ensures chunks[|chunks| - 1].departedAt.value == departure && chunks[0].arrivedAt <= original.arrivedAt
    ensures TotalLength(Segments(chunks)) == departure - chunks[0].arrivedAt
  {
    var segs := Segments(chunks);
    assert segs != [] && |segs| == |chunks|;
    assert segs[0] == SegmentOf(chunks[0]) && segs[|segs| - 1] == SegmentOf(chunks[|chunks| - 1]);
    LengthsAddUp(segs, RecordStart(events, original.arrivedAt), departure, events);
    RecordedFromArrivalIff(segs, original.arrivedAt, departure, events);
  }

  // ---------------------------------------------------------------------------
  // What the record of a stay is worth
  // ---------------------------------------------------------------------------

  lemma {:induction false} TilesAreOrdered(segs: seq<Segment>, lo: int, hi: int, i: nat, j: nat)
    requires Tiles(segs, lo, hi) && i < j < |segs|
    ensures segs[i].to <= segs[j].from
    decreases j
  {
    if i < j - 1 {
      TilesAreOrdered(segs, lo, hi, i, j - 1);
    }
  }

  /** Each instant lies in exactly one segment, which names its owner. */
  lemma InstantInExactlyOneChunk(segs: seq<Segment>, lo: int, hi: int, events: seq<Event>, t: int) returns (k: nat)
    requires Timeline(segs, lo, hi, events) && lo <= t < hi
    ensures k < |segs| && segs[k].from <= t < segs[k].to && segs[k].event == OwnerAt(events, t)
    ensures forall j | 0 <= j < |segs| && segs[j].from <= t < segs[j].to :: j == k
  {
    k := 0;
    while segs[k].to <= t
      invariant k < |segs| && segs[k].from <= t
      decreases |segs| - k
    {
      k := k + 1;
    }
    forall j | 0 <= j < |segs| && segs[j].from <= t < segs[j].to ensures j == k {
      if j < k { TilesAreOrdered(segs, lo, hi, j, k); }
      if k < j { TilesAreOrdered(segs, lo, hi, k, j); }
    }
  }

  /** Tiling, attribution and merging of neighbours leave no freedom. */
  lemma {:induction false} TimelineIsUnique(a: seq<Segment>, b: seq<Segment>, lo: int, hi: int, events: seq<Event>)
    requires Timeline(a, lo, hi, events) && Timeline(b, lo, hi, events)
    ensures a == b
    decreases |a|
  {
    FirstSegmentNotShorter(a, b, lo, hi, events);
    FirstSegmentNotShorter(b, a, lo, hi, events);
    assert OwnerAt(events, lo) == a[0].event == b[0].event;
    FirstEndsLastIff(a, lo, hi);
    FirstEndsLastIff(b, lo, hi);
    if |a| > 1 {
      TimelineTail(a, lo, hi, events);
      TimelineTail(b, lo, hi, events);
      TimelineIsUnique(a[1..], b[1..], a[0].to, hi, events);
      assert a == [a[0]] + a[1..] && b == [b[0]] + b[1..];
    }
  }

  lemma FirstEndsLastIff(segs: seq<Segment>, lo: int, hi: int)
    requires Tiles(segs, lo, hi)
    ensures |segs| == 1 <==> segs[0].to == hi
  {
    if |segs| > 1 {
      TilesAreOrdered(segs, lo, hi, 0, |segs| - 1);
    }
  }

  lemma TimelineTail(segs: seq<Segment>, lo: int, hi: int, events: seq<Event>)
    requires Timeline(segs, lo, hi, events) && |segs| > 1
    ensures Timeline(segs[1..], segs[0].to, hi, events)
  {
    var rest := segs[1..];
    forall i, t | 0 <= i < |rest| && rest[i].from <= t < rest[i].to ensures OwnerAt(events, t) == rest[i].event {
      assert rest[i] == segs[i + 1];
    }
  }

  lemma FirstSegmentNotShorter(a: seq<Segment>, b: seq<Segment>, lo: int, hi: int, events: seq<Event>)
    requires Timeline(a, lo, hi, events) && Timeline(b, lo, hi, events)
    ensures a[0].to >= b[0].to
  {
    // Past a's first segment a has changed owner, so b has too.
    if |b| > 1 { TilesAreOrdered(b, lo, hi, 0, |b| - 1); }
    assert a[0].event == OwnerAt(events, lo) == b[0].event;
    if |a| > 1 {
      assert a[0].event != a[1].event && a[1].from == a[0].to;
      assert OwnerAt(events, a[1].from) == a[1].event;
    }
  }

  lemma {:induction false} LengthsAddUp(segs: seq<Segment>, lo: int, hi: int, events: seq<Event>)
    requires Timeline(segs, lo, hi, events)
    ensures TotalLength(segs) == hi - lo
  {
    if |segs| > 1 {
      TimelineTail(segs, lo, hi, events);
      LengthsAddUp(segs[1..], segs[0].to, hi, events);
    } else {
      assert segs[1..] == [];
    }
  }

  /** A chunked stay is recorded from its arrival, and for its true length, exactly when at most one event
      had started before the arrival. */
  lemma RecordedFromArrivalIff(segs: seq<Segment>, arrival: int, departure: int, events: seq<Event>)
    requires events != [] && StayEvents(events, arrival, departure) && arrival < departure
    requires Timeline(segs, RecordStart(events, arrival), departure, events)
    ensures RecordStart(events, arrival) <= arrival
    ensures Tiles(segs, arrival, departure) <==> AtMostOneEarlyStart(events, arrival)
    ensures TotalLength(segs) == departure - arrival <==> AtMostOneEarlyStart(events, arrival)
  {
    LengthsAddUp(segs, RecordStart(events, arrival), departure, events);
    if |events| > 1 {
      assert events[0].startAt <= events[1].startAt;
      assert forall j | 1 <= j < |events| :: events[1].startAt <= events[j].startAt;
    }
  }

  /** Two events already under way: arriving at 10 and leaving at 14 is recorded as one visit from 9. */
  lemma EarlyStartsMoveTheRecord()
    ensures var events := [Event(1, Some(7), 8, 12), Event(2, Some(7), 9, 13)];
            && StayEvents(events, 10, 14)
            && (forall segs :: Timeline(segs, RecordStart(events, 10), 14, events) ==> segs == [Segment(9, 14, Some(2))])
  {
    var events := [Event(1, Some(7), 8, 12), Event(2, Some(7), 9, 13)];
    var only := [Segment(9, 14, Some(2))];
    assert Timeline(only, 9, 14, events);
    forall segs | Timeline(segs, RecordStart(events, 10), 14, events) ensures segs == only {
      TimelineIsUnique(segs, only, 9, 14, events);
    }
  }
}
