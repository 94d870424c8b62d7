/** The admin replay: raw events re-projected into the live tables, page by page, row by row. */
module Replay {
  import opened Options

  datatype ObjectType = Order | Payout | BalanceTxn | Refund

  /** One column of one live row. A payload without a value for an optional column leaves that column as it is. */
  datatype Field = Field(storeId: string, objectType: ObjectType, gid: string, column: string)

  datatype LineKey = LineKey(storeId: string, gid: string)

  datatype LineRow = LineRow(orderGid: string, data: string, removed: bool)

  type Fields = map<Field, string>

  type Lines = map<LineKey, LineRow>

  datatype Live = Live(fields: Fields, lines: Lines)

  datatype Line = Line(gid: string, data: string)

  /** The lines an order's payload lists. */
  datatype OrderLines = OrderLines(gid: string, lines: seq<Line>)

  /** `writes` are the columns its upserts set (an order's own, its refunds'); an order also lists its lines. */
  datatype Payload = Payload(writes: Fields, order: Option<OrderLines>)

  datatype RawEvent = RawEvent(id: nat, storeId: string, objectType: ObjectType, gid: string, occurredAt: int, payload: Payload)

  datatype Args = Args(storeId: string, objectType: Option<ObjectType>, gid: Option<string>, since: Option<int>)

  predicate Matches(row: RawEvent, args: Args) {
    && row.storeId == args.storeId
    && (args.objectType.Some? ==> row.objectType == args.objectType.value)
    && (args.gid.Some? ==> row.gid == args.gid.value)
    && (args.since.Some? ==> args.since.value <= row.occurredAt)
  }

  /** The raw log is append-only and its ids grow. */
  ghost predicate IsLog(log: seq<RawEvent>) {
    forall i, j | 0 <= i < j < |log| :: log[i].id < log[j].id
  }

  predicate Past(row: RawEvent, cursor: Option<nat>) {
    cursor.Some? ==> cursor.value < row.id
  }

  function MatchingPast(log: seq<RawEvent>, args: Args, cursor: Option<nat>): seq<RawEvent> {
    if log == [] then []
    else (if Matches(log[0], args) && Past(log[0], cursor) then [log[0]] else []) + MatchingPast(log[1..], args, cursor)
  }

  function Matching(log: seq<RawEvent>, args: Args): seq<RawEvent> {
    MatchingPast(log, args, None)
  }

  /** One `findMany`: at most `take` matching rows past the cursor, in id order. */
  function Page(log: seq<RawEvent>, args: Args, cursor: Option<nat>, take: nat): seq<RawEvent> {
    var rows := MatchingPast(log, args, cursor);
    if |rows| <= take then rows else rows[..take]
  }

  // ---------------------------------------------------------------------------
  // What projecting one row does to the live tables
  // ---------------------------------------------------------------------------

  /** What the payload says of a line; a line listed twice counts as listed last. */
  function Carried(lines: seq<Line>, gid: string): Option<string> {
    if lines == [] then None
    else if lines[|lines| - 1].gid == gid then Some(lines[|lines| - 1].data)
    else Carried(lines[..|lines| - 1], gid)
  }

  /** The last listing of a line counts. */
  lemma {:induction false} LastListingCounts(lines: seq<Line>, i: nat)
    requires i < |lines| && forall j | i < j < |lines| :: lines[j].gid != lines[i].gid
    ensures Carried(lines, lines[i].gid) == Some(lines[i].data)
    decreases |lines|
  {
    if i < |lines| - 1 {
      LastListingCounts(lines[..|lines| - 1], i);
    }
  }

  /** Lines present are upserted; lines of the order that the payload no longer lists are marked removed. */
  function Reconciled(lines: Lines, storeId: string, order: OrderLines): Lines {
    map key | key in lines.Keys + Listed(storeId, order.lines) ::
      if key.storeId == storeId && Carried(order.lines, key.gid).Some? then
        LineRow(order.gid, Carried(order.lines, key.gid).value, false)
      else if key in lines && key.storeId == storeId && lines[key].orderGid == order.gid then lines[key].(removed := true)
      else lines[key]
  }

  function Listed(storeId: string, lines: seq<Line>): set<LineKey> {
    set line | line in lines && Carried(lines, line.gid).Some? :: LineKey(storeId, line.gid)
  }

  lemma {:induction false} CarriedIsListed(lines: seq<Line>, gid: string)
    requires Carried(lines, gid).Some?
    ensures exists line | line in lines :: line.gid == gid
  {
    if lines[|lines| - 1].gid != gid {
      CarriedIsListed(lines[..|lines| - 1], gid);
    }
  }

  lemma {:induction false} CarriedIfListed(lines: seq<Line>, i: nat)
    requires i < |lines|
    ensures Carried(lines, lines[i].gid).Some?
    decreases |lines|
  {
    if i < |lines| - 1 {
      CarriedIfListed(lines[..|lines| - 1], i);
    }
  }

  lemma ListedIffCarried(storeId: string, lines: seq<Line>, gid: string)
    ensures LineKey(storeId, gid) in Listed(storeId, lines) <==> Carried(lines, gid).Some?
  {
    if Carried(lines, gid).Some? {
      CarriedIsListed(lines, gid);
    }
  }

  lemma IncomingIffCarried(lines: seq<Line>, gid: string)
    ensures gid in (set line | line in lines :: line.gid) <==> Carried(lines, gid).Some?
  {
    if Carried(lines, gid).Some? {
      CarriedIsListed(lines, gid);
    }
    forall i: nat | i < |lines| && lines[i].gid == gid ensures Carried(lines, gid).Some? {
      CarriedIfListed(lines, i);
    }
  }

  function ProjectRow(live: Live, row: RawEvent): Live {
    Live(live.fields + row.payload.writes,
         if row.payload.order.Some? then Reconciled(live.lines, row.storeId, row.payload.order.value) else live.lines)
  }

  function Project(live: Live, rows: seq<RawEvent>): Live {
    if rows == [] then live else ProjectRow(Project(live, rows[..|rows| - 1]), rows[|rows| - 1])
  }

  // ---------------------------------------------------------------------------
  // Columns: the newest payload wins
  // ---------------------------------------------------------------------------

  /** The newest value for a column, if any payload sets it. */
  function LastWrite(rows: seq<RawEvent>, field: Field): Option<string> {
    if rows == [] then None
    else
      var writes := rows[|rows| - 1].payload.writes;
      if field in writes then Some(writes[field]) else LastWrite(rows[..|rows| - 1], field)
  }

  /** Each column ends up with the newest value any payload sets it to, whatever was there before. */
  lemma {:induction false} ColumnsKeepNewest(live: Live, rows: seq<RawEvent>, field: Field)
    ensures var after := Project(live, rows).fields;
            && (field in after <==> LastWrite(rows, field).Some? || field in live.fields)
            && (LastWrite(rows, field).Some? ==> after[field] == LastWrite(rows, field).value)
            && (LastWrite(rows, field).None? && field in live.fields ==> after[field] == live.fields[field])
  {
    if rows != [] {
      ColumnsKeepNewest(live, rows[..|rows| - 1], field);
    }
  }

  lemma {:induction false} EarlierWriteIsCovered(rows: seq<RawEvent>, k: nat, field: Field)
    requires k <= |rows| && LastWrite(rows[..k], field).Some?
    ensures LastWrite(rows, field).Some?
    decreases |rows|
  {
    if k < |rows| {
      assert rows[..|rows| - 1][..k] == rows[..k];
      EarlierWriteIsCovered(rows[..|rows| - 1], k, field);
    } else {
      assert rows[..k] == rows;
    }
  }

  // ---------------------------------------------------------------------------
  // Order lines: the newest payload that lists the line, and the later ones that do not
  // ---------------------------------------------------------------------------

  /** The payload lists the line. */
  predicate Lists(row: RawEvent, key: LineKey) {
    && row.payload.order.Some? && row.storeId == key.storeId
    && Carried(row.payload.order.value.lines, key.gid).Some?
  }

  /** The payload is one of the order. */
  predicate IsOfOrder(row: RawEvent, storeId: string, orderGid: string) {
    row.payload.order.Some? && row.storeId == storeId && row.payload.order.value.gid == orderGid
  }

  function ListedRow(row: RawEvent, key: LineKey): LineRow
    requires Lists(row, key)
  {
    LineRow(row.payload.order.value.gid, Carried(row.payload.order.value.lines, key.gid).value, false)
  }

  lemma LineAfterRow(live: Live, row: RawEvent, key: LineKey)
    ensures var after := ProjectRow(live, row).lines;
            && (key in after <==> Lists(row, key) || key in live.lines)
            && (Lists(row, key) ==> after[key] == ListedRow(row, key))
            && (!Lists(row, key) && key in live.lines ==>
                  after[key] == live.lines[key].(removed := live.lines[key].removed
                                                            || IsOfOrder(row, key.storeId, live.lines[key].orderGid)))
  {
    if row.payload.order.Some? {
      ListedIffCarried(row.storeId, row.payload.order.value.lines, key.gid);
    }
  }

  predicate SomeOfOrder(rows: seq<RawEvent>, from: nat, storeId: string, orderGid: string) {
    exists m: nat | from <= m < |rows| :: IsOfOrder(rows[m], storeId, orderGid)
  }

  lemma OneRowMore(rows: seq<RawEvent>, from: nat, storeId: string, orderGid: string)
    requires from < |rows|
    ensures var init := rows[..|rows| - 1];
            SomeOfOrder(rows, from, storeId, orderGid)
            <==> SomeOfOrder(init, from, storeId, orderGid) || IsOfOrder(rows[|rows| - 1], storeId, orderGid)
  {
    var init := rows[..|rows| - 1];
    if m: nat :| from <= m < |rows| && IsOfOrder(rows[m], storeId, orderGid) {
      assert m < |init| ==> IsOfOrder(init[m], storeId, orderGid);
    }
    if m: nat :| from <= m < |init| && IsOfOrder(init[m], storeId, orderGid) {
      assert IsOfOrder(rows[m], storeId, orderGid);
    }
  }

  /** A line is what the newest payload that lists it says, and is removed exactly when a later payload is of its
      order. */
  lemma {:induction false} LinesKeepNewest(live: Live, rows: seq<RawEvent>, key: LineKey, w: nat)
    requires w < |rows| && Lists(rows[w], key) && forall m: nat | w < m < |rows| :: !Lists(rows[m], key)
    ensures var after := Project(live, rows).lines;
            var listed := ListedRow(rows[w], key);
            key in after && after[key] == listed.(removed := SomeOfOrder(rows, w + 1, key.storeId, listed.orderGid))
    decreases |rows|
  {
    var init, last := rows[..|rows| - 1], rows[|rows| - 1];
    LineAfterRow(Project(live, init), last, key);
    if w < |rows| - 1 {
      assert forall m: nat | w < m < |init| :: init[m] == rows[m];
      LinesKeepNewest(live, init, key, w);
      assert !Lists(rows[|rows| - 1], key);
      OneRowMore(rows, w + 1, key.storeId, ListedRow(rows[w], key).orderGid);
    }
  }

  /** A line that no payload lists stays, and is removed exactly when it was or some payload is of its order. */
  lemma {:induction false} UnlistedLinesStay(live: Live, rows: seq<RawEvent>, key: LineKey)
    requires forall m: nat | m < |rows| :: !Lists(rows[m], key)
    ensures var after := Project(live, rows).lines;
            && (key in after <==> key in live.lines)
            && (key in live.lines ==>
                  after[key] == live.lines[key].(removed := live.lines[key].removed
                                                            || SomeOfOrder(rows, 0, key.storeId, live.lines[key].orderGid)))
    decreases |rows|
  {
    if rows != [] {
      var init, last := rows[..|rows| - 1], rows[|rows| - 1];
      assert forall m: nat | m < |init| :: init[m] == rows[m];
      UnlistedLinesStay(live, init, key);
      LineAfterRow(Project(live, init), last, key);
      assert !Lists(rows[|rows| - 1], key);
      if key in live.lines {
        OneRowMore(rows, 0, key.storeId, live.lines[key].orderGid);
      }
    }
  }

  lemma {:induction false} LastToList(rows: seq<RawEvent>, key: LineKey) returns (w: nat)
    requires exists m: nat | m < |rows| :: Lists(rows[m], key)
    ensures w < |rows| && Lists(rows[w], key) && forall m: nat | w < m < |rows| :: !Lists(rows[m], key)
    decreases |rows|
  {
    if Lists(rows[|rows| - 1], key) {
      w := |rows| - 1;
    } else {
      var m: nat :| m < |rows| && Lists(rows[m], key);
      assert Lists(rows[..|rows| - 1][m], key);
      w := LastToList(rows[..|rows| - 1], key);
    }
  }

  /** An order listed with two lines and then with one keeps the other line, as removed. */
  lemma DroppedLineIsRemoved(live: Live, first: RawEvent, second: RawEvent, key: LineKey)
    requires Lists(first, key) && !Lists(second, key)
    requires IsOfOrder(second, key.storeId, first.payload.order.value.gid)
    ensures var after := Project(live, [first, second]).lines;
            key in after && after[key] == ListedRow(first, key).(removed := true)
  {
    LinesKeepNewest(live, [first, second], key, 0);
  }

  // ---------------------------------------------------------------------------
  // Convergence
  // ---------------------------------------------------------------------------

  lemma SameColumn(live: Live, rows: seq<RawEvent>, k: nat, field: Field)
    requires k <= |rows|
    ensures var partial := Project(live, rows[..k]);
            var again, clean := Project(partial, rows).fields, Project(live, rows).fields;
            (field in again <==> field in clean) && (field in clean ==> again[field] == clean[field])
  {
    var partial := Project(live, rows[..k]);
    ColumnsKeepNewest(partial, rows, field);
    ColumnsKeepNewest(live, rows, field);
    ColumnsKeepNewest(live, rows[..k], field);
    if LastWrite(rows[..k], field).Some? {
      EarlierWriteIsCovered(rows, k, field);
    }
  }

  lemma SameLine(live: Live, rows: seq<RawEvent>, k: nat, key: LineKey)
    requires k <= |rows|
    ensures var partial := Project(live, rows[..k]);
            var again, clean := Project(partial, rows).lines, Project(live, rows).lines;
            (key in again <==> key in clean) && (key in clean ==> again[key] == clean[key])
  {
    var partial := Project(live, rows[..k]);
    if exists m: nat | m < |rows| :: Lists(rows[m], key) {
      var w := LastToList(rows, key);
      LinesKeepNewest(live, rows, key, w);
      LinesKeepNewest(partial, rows, key, w);
    } else {
      assert forall m: nat | m < k :: rows[..k][m] == rows[m];
      UnlistedLinesStay(live, rows[..k], key);
      UnlistedLinesStay(live, rows, key);
      UnlistedLinesStay(partial, rows, key);
      if key in live.lines && SomeOfOrder(rows[..k], 0, key.storeId, live.lines[key].orderGid) {
        var m: nat :| m < k && IsOfOrder(rows[..k][m], key.storeId, live.lines[key].orderGid);
        assert IsOfOrder(rows[m], key.storeId, live.lines[key].orderGid);
      }
    }
  }

  /** A run cut short anywhere, then a full run: the same as the full run alone, order lines included. */
  lemma RerunAbsorbsPartialRun(live: Live, rows: seq<RawEvent>, k: nat)
    requires k <= |rows|
    ensures Project(Project(live, rows[..k]), rows) == Project(live, rows)
  {
    var again, clean := Project(Project(live, rows[..k]), rows), Project(live, rows);
    forall field ensures field in again.fields <==> field in clean.fields
                 ensures field in clean.fields ==> again.fields[field] == clean.fields[field] {
      SameColumn(live, rows, k, field);
    }
    forall key ensures key in again.lines <==> key in clean.lines
               ensures key in clean.lines ==> again.lines[key] == clean.lines[key] {
      SameLine(live, rows, k, key);
    }
    assert again.fields == clean.fields;
    assert again.lines == clean.lines;
  }

  function AfterAttempts(live: Live, rows: seq<RawEvent>, attempts: seq<nat>): Live
    requires forall i | 0 <= i < |attempts| :: attempts[i] <= |rows|
    decreases |attempts|
  {
    if attempts == [] then live
    else AfterAttempts(Project(live, rows[..attempts[0]]), rows, attempts[1..])
  }

  /** However many replays failed, and wherever, the next clean one leaves what a single clean one would have. */
  lemma {:induction false} ReplaysConverge(live: Live, rows: seq<RawEvent>, attempts: seq<nat>)
    requires forall i | 0 <= i < |attempts| :: attempts[i] <= |rows|
    ensures Project(AfterAttempts(live, rows, attempts), rows) == Project(live, rows)
    decreases |attempts|
  {
    if attempts != [] {
      ReplaysConverge(Project(live, rows[..attempts[0]]), rows, attempts[1..]);
      RerunAbsorbsPartialRun(live, rows, attempts[0]);
    }
  }

  // ---------------------------------------------------------------------------
  // Paging
  // ---------------------------------------------------------------------------

  lemma {:induction false} InMatchingPast(log: seq<RawEvent>, args: Args, cursor: Option<nat>, row: RawEvent)
    ensures row in MatchingPast(log, args, cursor) <==> row in log && Matches(row, args) && Past(row, cursor)
    decreases |log|
  {
    if log != [] {
      InMatchingPast(log[1..], args, cursor, row);
      assert log == [log[0]] + log[1..];
    }
  }

  lemma {:induction false} MatchingPastIsLog(log: seq<RawEvent>, args: Args, cursor: Option<nat>)
    requires IsLog(log)
    ensures IsLog(MatchingPast(log, args, cursor))
    decreases |log|
  {
    if log != [] {
      MatchingPastIsLog(log[1..], args, cursor);
      var rest := MatchingPast(log[1..], args, cursor);
      forall j | 0 <= j < |rest| ensures log[0].id < rest[j].id {
        InMatchingPast(log[1..], args, cursor, rest[j]);
      }
    }
  }

  /** Two logs with the same rows are equal. */
  lemma {:induction false} SameRowsSameLog(a: seq<RawEvent>, b: seq<RawEvent>)
    requires IsLog(a) && IsLog(b) && forall row :: row in a <==> row in b
    ensures a == b
  {
    assert a != [] ==> a[0] in a;
    assert b != [] ==> b[0] in b;
    if a != [] && b != [] {
      forall row ensures row in a[1..] <==> row in b[1..] {
        assert row in a[1..] <==> row in a && row != a[0];
        assert row in b[1..] <==> row in b && row != b[0];
      }
      SameRowsSameLog(a[1..], b[1..]);
    }
  }

  lemma SuffixIsPastCursor(all: seq<RawEvent>, n: nat, row: RawEvent)
    requires IsLog(all) && n <= |all|
    ensures row in all[n..] <==> row in all && Past(row, if n == 0 then None else Some(all[n - 1].id))
    ensures IsLog(all[n..])
  {
    if row in all && Past(row, if n == 0 then None else Some(all[n - 1].id)) {
      var j :| 0 <= j < |all| && all[j] == row;
      assert j >= n;
      assert all[n..][j - n] == row;
    }
  }

  /** The page after the first n matching rows starts with the next one. */
  lemma PageFollowsCursor(log: seq<RawEvent>, args: Args, n: nat, take: nat)
    requires IsLog(log) && n <= |Matching(log, args)|
    ensures var m := Matching(log, args);
            Page(log, args, if n == 0 then None else Some(m[n - 1].id), take)
            == m[n..if n + take < |m| then n + take else |m|]
  {
    var m := Matching(log, args);
    var cursor := if n == 0 then None else Some(m[n - 1].id);
    MatchingPastIsLog(log, args, None);
    MatchingPastIsLog(log, args, cursor);
    var found := MatchingPast(log, args, cursor);
    forall row ensures row in m[n..] <==> row in found {
      SuffixIsPastCursor(m, n, row);
      InMatchingPast(log, args, None, row);
      InMatchingPast(log, args, cursor, row);
    }
    SameRowsSameLog(found, m[n..]);
  }

  // ---------------------------------------------------------------------------
  // The replay
  // ---------------------------------------------------------------------------

  function Upserted(lines: Lines, storeId: string, orderGid: string, listed: seq<Line>): Lines {
    if listed == [] then lines
    else
      var last := listed[|listed| - 1];
      Upserted(lines, storeId, orderGid, listed[..|listed| - 1])[LineKey(storeId, last.gid) := LineRow(orderGid, last.data, false)]
  }

  lemma {:induction false} UpsertedAt(lines: Lines, storeId: string, orderGid: string, listed: seq<Line>, key: LineKey)
    ensures var after := Upserted(lines, storeId, orderGid, listed);
            if key.storeId == storeId && Carried(listed, key.gid).Some?
            then key in after && after[key] == LineRow(orderGid, Carried(listed, key.gid).value, false)
            else (key in after <==> key in lines) && (key in lines ==> after[key] == lines[key])
  {
    if listed != [] {
      UpsertedAt(lines, storeId, orderGid, listed[..|listed| - 1], key);
    }
  }

  /** `projected` are the raw events projected so far, in order. */
  class LiveTables {
    var fields: Fields
    var lines: Lines
    var projected: seq<nat>

    constructor (live: Live)
      ensures Contents() == live && projected == []
    {
      fields, lines, projected := live.fields, live.lines, [];
    }

    function Contents(): Live
      reads this
    {
      Live(fields, lines)
    }

    /** The line part of `projectOrder`: upsert those listed, then mark the order's others. */
    method ReconcileLines(storeId: string, order: OrderLines)
      modifies this`lines
      ensures lines == Reconciled(old(lines), storeId, order)
    {
      ghost var before := lines;
      for i := 0 to |order.lines|
        invariant lines == Upserted(before, storeId, order.gid, order.lines[..i])
      {
        var line := order.lines[i];
        assert order.lines[..i + 1][..i] == order.lines[..i];
        lines := lines[LineKey(storeId, line.gid) := LineRow(order.gid, line.data, false)];
      }
      assert order.lines[..|order.lines|] == order.lines;
      ghost var upserted := lines;
      var incoming := set line | line in order.lines :: line.gid;
      var existing := set key | key in lines && key.storeId == storeId && lines[key].orderGid == order.gid;
      var toRemove := set key | key in existing && key.gid !in incoming;
      lines := map key | key in lines :: if key in toRemove then lines[key].(removed := true) else lines[key];
      forall key ensures key in lines <==> key in Reconciled(before, storeId, order)
                 ensures key in lines ==> lines[key] == Reconciled(before, storeId, order)[key] {
        UpsertedAt(before, storeId, order.gid, order.lines, key);
        IncomingIffCarried(order.lines, key.gid);
        ListedIffCarried(storeId, order.lines, key.gid);
      }
    }

    /** One row's transaction. */
    method ProjectNode(row: RawEvent)
      modifies this
      ensures Contents() == ProjectRow(old(Contents()), row) && projected == old(projected) + [row.id]
    {
      fields := fields + row.payload.writes;
      if row.payload.order.Some? {
        ReconcileLines(row.storeId, row.payload.order.value);
      }
      projected := projected + [row.id];
    }
  }

  /** Where the database gives out: projecting the n-th row, or fetching once n rows are done. */
  datatype Fault = Never | AtRow(n: nat) | AtFetch(n: nat)

  datatype Outcome =
    | Done(processed: nat, distinctGids: nat)
    | Failed(processed: nat, distinctGids: nat, lastCommittedId: Option<nat>)

  lemma NextPrefix<T>(all: seq<T>, k: nat)
    requires k < |all|
    ensures all[..k + 1] == all[..k] + [all[k]]
    ensures all[..k + 1][..k] == all[..k]
  {
  }

  function Ids(rows: seq<RawEvent>): seq<nat> {
    seq(|rows|, i requires 0 <= i < |rows| => rows[i].id)
  }

  /** The state of the loop once `processed` rows are committed. */
  ghost predicate Committed(all: seq<RawEvent>, processed: nat, before: Live, earlier: seq<nat>, now: Live, trace: seq<nat>,
                            seen: set<string>, lastCommittedId: Option<nat>)
  {
    && processed <= |all|
    && now == Project(before, all[..processed])
    && trace == earlier + Ids(all[..processed])
    && seen == Gids(all[..processed])
    && lastCommittedId == if processed == 0 then None else Some(all[processed - 1].id)
  }

  lemma CommitRow(all: seq<RawEvent>, processed: nat, before: Live, earlier: seq<nat>, now: Live, trace: seq<nat>,
                  seen: set<string>, lastCommittedId: Option<nat>)
    requires Committed(all, processed, before, earlier, now, trace, seen, lastCommittedId) && processed < |all|
    ensures var row := all[processed];
            Committed(all, processed + 1, before, earlier, ProjectRow(now, row), trace + [row.id], seen + {row.gid}, Some(row.id))
  {
    NextPrefix(all, processed);
    var row := all[processed];
    assert Ids(all[..processed + 1]) == Ids(all[..processed]) + [row.id];
    forall gid ensures gid in Gids(all[..processed + 1]) <==> gid in seen + {row.gid} {
      if gid == row.gid {
        assert row in all[..processed + 1];
      }
    }
  }

  ghost function Gids(rows: seq<RawEvent>): set<string> {
    set row | row in rows :: row.gid
  }

  /** One page, row by row; stops short at the row whose projection throws. */
  method ProjectPage(live: LiveTables, page: seq<RawEvent>, fault: Fault, start: nat, seenSoFar: set<string>, lastId: Option<nat>,
                     ghost all: seq<RawEvent>, ghost before: Live, ghost earlier: seq<nat>)
    returns (processed: nat, seen: set<string>, lastCommittedId: Option<nat>, threw: bool)
    requires start + |page| <= |all| && page == all[start..start + |page|]
    requires Committed(all, start, before, earlier, live.Contents(), live.projected, seenSoFar, lastId)
    modifies live
    ensures Committed(all, processed, before, earlier, live.Contents(), live.projected, seen, lastCommittedId)
    ensures threw ==> fault == AtRow(processed) && start <= processed < start + |page|
    ensures !threw ==> processed == start + |page|
  {
    processed, seen, lastCommittedId, threw := start, seenSoFar, lastId, false;
    for i := 0 to |page|
      invariant processed == start + i
      invariant Committed(all, processed, before, earlier, live.Contents(), live.projected, seen, lastCommittedId)
    {
      var row := page[i];
      if fault == AtRow(processed) {
        threw := true;
        return;
      }
      CommitRow(all, processed, before, earlier, live.Contents(), live.projected, seen, lastCommittedId);
      live.ProjectNode(row);
      processed, seen, lastCommittedId := processed + 1, seen + {row.gid}, Some(row.id);
    }
  }

  /** One fetch: the next stretch of the matching rows. */
  method FetchPage(log: seq<RawEvent>, args: Args, cursor: Option<nat>, batchSize: nat, ghost all: seq<RawEvent>, ghost n: nat)
    returns (page: seq<RawEvent>)
    requires IsLog(log) && all == Matching(log, args) && n <= |all|
    requires cursor == if n == 0 then None else Some(all[n - 1].id)
    ensures |page| == (if n + batchSize < |all| then batchSize else |all| - n) && page == all[n..n + |page|]
  {
    page := Page(log, args, cursor, batchSize);
    PageFollowsCursor(log, args, n, batchSize);
  }

  /** The matching rows are projected once each, in id order, up to the end or to the fault. */
  method Replay(log: seq<RawEvent>, live: LiveTables, args: Args, batchSize: nat, fault: Fault) returns (outcome: Outcome)
    requires IsLog(log) && batchSize >= 1
    modifies live
    ensures outcome.processed <= |Matching(log, args)|
    ensures var done := Matching(log, args)[..outcome.processed];
            && live.projected == old(live.projected) + Ids(done)
            && live.Contents() == Project(old(live.Contents()), done)
            && outcome.distinctGids == |Gids(done)|
            && (outcome.Failed? ==> outcome.lastCommittedId == if done == [] then None else Some(done[|done| - 1].id))
    ensures outcome.Done? ==> outcome.processed == |Matching(log, args)|
    ensures fault == Never ==> outcome.Done?
  {
    ghost var all, before, earlier := Matching(log, args), live.Contents(), live.projected;
    var seen: set<string>, processed, cursor, threw := {}, 0, None, false;
    while true
      invariant Committed(all, processed, before, earlier, live.Contents(), live.projected, seen, cursor)
      decreases |all| - processed
    {
      if fault == AtFetch(processed) {
        return Failed(processed, |seen|, cursor);
      }
      var page := FetchPage(log, args, cursor, batchSize, all, processed);
      if |page| == 0 {
        break;
      }
      processed, seen, cursor, threw := ProjectPage(live, page, fault, processed, seen, cursor, all, before, earlier);
      if threw {
        return Failed(processed, |seen|, cursor);
      }
      if |page| < batchSize {
        break;
      }
    }
    return Done(processed, |seen|);
  }

  /** What a failed replay committed is exactly the matching rows up to the id it reports. */
  lemma CommittedPrefix(log: seq<RawEvent>, args: Args, k: nat, row: RawEvent)
    requires IsLog(log) && 0 < k <= |Matching(log, args)|
    ensures var m := Matching(log, args);
            row in m[..k] <==>
              && row in log && row.id <= m[k - 1].id && row.storeId == args.storeId
              && (args.objectType.None? || row.objectType == args.objectType.value)
              && (args.gid.None? || row.gid == args.gid.value)
              && (args.since.None? || row.occurredAt >= args.since.value)
  {
    MatchingPastIsLog(log, args, None);
    InMatchingPast(log, args, None, row);
    var m := Matching(log, args);
    if row in m && row.id <= m[k - 1].id {
      var j :| 0 <= j < |m| && m[j] == row;
      assert m[..k][j] == row;
    }
    if row in m[..k] {
      var j :| 0 <= j < k && m[..k][j] == row;
      assert m[j].id <= m[k - 1].id;
    }
  }
}
