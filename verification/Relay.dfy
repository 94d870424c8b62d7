/** The alert relay: drains pending outbox rows oldest first, retries failures, dead-letters the hopeless. */
module Relay {
  datatype Status = Pending | Sent | Dead

  datatype Alert = Alert(attempts: nat, status: Status)

  type Table = map<nat, Alert>

  /** How one alert fares in one drain: does SNS take it, does `markSent` go through, is the failure permanent,
      and, if it failed, does `markFailed`'s own write land. */
  datatype Fate = Fate(published: bool, marked: bool, permanent: bool, recorded: bool)

  type World = nat -> Fate

  // ---------------------------------------------------------------------------
  // One drain
  // ---------------------------------------------------------------------------

  predicate IsPending(rows: Table, id: nat) {
    id in rows && rows[id].status == Pending
  }

  /** Pending ids in `createdAt` order. */
  function PendingIds(order: seq<nat>, rows: Table): seq<nat> {
    if order == [] then []
    else (if IsPending(rows, order[0]) then [order[0]] else []) + PendingIds(order[1..], rows)
  }

  /** `claimPending`. */
  function Batch(order: seq<nat>, rows: Table, limit: nat): seq<nat> {
    var pending := PendingIds(order, rows);
    if |pending| <= limit then pending else pending[..limit]
  }

  function Failed(alert: Alert, permanent: bool, maxAttempts: int): Alert {
    Alert(alert.attempts + 1, if permanent || alert.attempts + 1 >= maxAttempts then Dead else alert.status)
  }

  function Settle(alert: Alert, fate: Fate, maxAttempts: int): Alert {
    if fate.published && fate.marked then alert.(status := Sent)
    else if fate.recorded then Failed(alert, fate.permanent, maxAttempts)
    else alert
  }

  /** Each of the ids settled once. */
  function SettleAll(rows: Table, ids: seq<nat>, world: World, maxAttempts: int): Table {
    if ids == [] then rows
    else
      var last := ids[|ids| - 1];
      var before := SettleAll(rows, ids[..|ids| - 1], world, maxAttempts);
      if last in before then before[last := Settle(before[last], world(last), maxAttempts)] else before
  }

  function Published(ids: seq<nat>, world: World): seq<nat> {
    if ids == [] then []
    else Published(ids[..|ids| - 1], world) + (if world(ids[|ids| - 1]).published then [ids[|ids| - 1]] else [])
  }

  function CountDelivered(ids: seq<nat>, world: World): nat {
    if ids == [] then 0
    else
      var fate := world(ids[|ids| - 1]);
      CountDelivered(ids[..|ids| - 1], world) + (if fate.published && fate.marked then 1 else 0)
  }

  class AlertOutbox {
    var order: seq<nat>
    var rows: Table
    var topic: seq<nat>

    constructor (order: seq<nat>, rows: Table)
      ensures this.order == order && this.rows == rows && topic == []
    {
      this.order, this.rows, this.topic := order, rows, [];
    }

    method MarkSent(id: nat)
      requires id in rows
      modifies this`rows
      ensures rows == old(rows)[id := old(rows)[id].(status := Sent)]
    {
      rows := rows[id := rows[id].(status := Sent)];
    }

    /** `seen` is the attempt count the batch was read with. */
    method MarkFailed(id: nat, seen: nat, maxAttempts: int, permanent: bool)
      requires id in rows && seen == rows[id].attempts
      modifies this`rows
      ensures rows == old(rows)[id := Failed(old(rows)[id], permanent, maxAttempts)]
    {
      var dead := permanent || seen + 1 >= maxAttempts;
      rows := rows[id := Alert(rows[id].attempts + 1, if dead then Dead else rows[id].status)];
    }

    /** `drain`, under the lock that keeps a second drain out. */
    method Drain(batchLimit: nat, maxAttempts: int, world: World) returns (delivered: nat, failed: nat)
      requires NoDuplicates(order)
      modifies this`rows, this`topic
      ensures var batch := Batch(order, old(rows), batchLimit);
              && rows == SettleAll(old(rows), batch, world, maxAttempts)
              && topic == old(topic) + Published(batch, world)
              && delivered == CountDelivered(batch, world)
              && delivered + failed == |batch|
    {
      var pending := Batch(order, rows, batchLimit);
      ghost var before := rows;
      BatchIsPending(order, before, batchLimit);
      delivered, failed := 0, 0;
      for i := 0 to |pending|
        invariant rows == SettleAll(before, pending[..i], world, maxAttempts)
        invariant topic == old(topic) + Published(pending[..i], world)
        invariant delivered == CountDelivered(pending[..i], world) && delivered + failed == i
      {
        var id := pending[i];
        SettleNext(before, pending, i, world, maxAttempts);
        var attempts := rows[id].attempts;
        var fate := world(id);
        if fate.published {
          topic := topic + [id];
        }
        if fate.published && fate.marked {
          MarkSent(id);
          delivered := delivered + 1;
        } else {
          failed := failed + 1;
          if fate.recorded {
            MarkFailed(id, attempts, maxAttempts, fate.permanent);
          }
        }
      }
      assert pending[..|pending|] == pending;
    }

    /** `runRelay`: only a run that did not find the lock busy asserts that the relay is alive, and a completed one
        raises the alarm exactly when it can count its dead letters and leaves one. */
    method RunRelay(attempt: Attempt, batchLimit: nat, maxAttempts: int, world: World, countable: bool)
      returns (result: RunResult, heartbeat: bool, serviceError: bool)
      requires NoDuplicates(order)
      modifies this`rows, this`topic
      ensures result.Skipped? <==> attempt == Busy
      ensures result.Failure? <==> attempt == Unreachable
      ensures heartbeat <==> !result.Skipped?
      ensures serviceError <==> result.Complete? && countable && DeadIds(rows) != {}
      ensures !result.Complete? ==> rows == old(rows) && topic == old(topic)
      ensures result.Complete? ==>
                var batch := Batch(order, old(rows), batchLimit);
                && rows == SettleAll(old(rows), batch, world, maxAttempts)
                && topic == old(topic) + Published(batch, world)
                && result.delivered == CountDelivered(batch, world)
                && result.delivered + result.failed == |batch|
                && result.deadLettered == if countable then |DeadIds(rows)| else 0
    {
      if attempt == Busy {
        return Skipped, false, false;
      }
      if attempt == Unreachable {
        return Failure, true, false;
      }
      var delivered, failed := Drain(batchLimit, maxAttempts, world);
      var dead := 0;
      if countable {
        dead := |DeadIds(rows)|;
      }
      return Complete(delivered, failed, dead), true, dead > 0;
    }
  }

  /** How far a run gets: to its claimed batch, to a lock held by another drain, or to a database that does not answer
      the lock query or the claim. */
  datatype Attempt = Claimed | Busy | Unreachable

  datatype RunResult = Skipped | Failure | Complete(delivered: nat, failed: nat, deadLettered: nat)

  function DeadIds(rows: Table): set<nat> {
    set id | id in rows && rows[id].status == Dead
  }

  ghost predicate NoDuplicates(ids: seq<nat>) {
    forall i, j | 0 <= i < j < |ids| :: ids[i] != ids[j]
  }

  lemma {:induction false} PendingIff(order: seq<nat>, rows: Table, id: nat)
    ensures id in PendingIds(order, rows) <==> id in order && IsPending(rows, id)
  {
    if order != [] {
      PendingIff(order[1..], rows, id);
      assert id in order <==> id == order[0] || id in order[1..];
    }
  }

  lemma {:induction false} PendingAreDistinct(order: seq<nat>, rows: Table)
    requires NoDuplicates(order)
    ensures NoDuplicates(PendingIds(order, rows))
  {
    if order != [] {
      PendingAreDistinct(order[1..], rows);
      PendingIff(order[1..], rows, order[0]);
    }
  }

  lemma BatchIsPending(order: seq<nat>, rows: Table, limit: nat)
    requires NoDuplicates(order)
    ensures NoDuplicates(Batch(order, rows, limit))
    ensures forall i | 0 <= i < |Batch(order, rows, limit)| :: IsPending(rows, Batch(order, rows, limit)[i])
  {
    PendingAreDistinct(order, rows);
    forall i | 0 <= i < |Batch(order, rows, limit)| ensures IsPending(rows, Batch(order, rows, limit)[i]) {
      PendingIff(order, rows, PendingIds(order, rows)[i]);
    }
  }

  lemma {:induction false} SettledElsewhere(rows: Table, ids: seq<nat>, world: World, maxAttempts: int, id: nat)
    requires id !in ids
    ensures var after := SettleAll(rows, ids, world, maxAttempts);
            (id in after <==> id in rows) && (id in rows ==> after[id] == rows[id])
  {
    if ids != [] {
      SettledElsewhere(rows, ids[..|ids| - 1], world, maxAttempts, id);
    }
  }

  lemma {:induction false} SettledOnce(rows: Table, ids: seq<nat>, world: World, maxAttempts: int, k: nat)
    requires NoDuplicates(ids) && k < |ids| && ids[k] in rows
    ensures var after := SettleAll(rows, ids, world, maxAttempts);
            ids[k] in after && after[ids[k]] == Settle(rows[ids[k]], world(ids[k]), maxAttempts)
  {
    var init := ids[..|ids| - 1];
    if k == |ids| - 1 {
      SettledElsewhere(rows, init, world, maxAttempts, ids[k]);
    } else {
      SettledOnce(rows, init, world, maxAttempts, k);
    }
  }

  /** One alert further: it is as the batch read it, and the table, topic and count move by its fate. */
  lemma SettleNext(rows: Table, ids: seq<nat>, i: nat, world: World, maxAttempts: int)
    requires NoDuplicates(ids) && i < |ids| && ids[i] in rows
    ensures var id, before := ids[i], SettleAll(rows, ids[..i], world, maxAttempts);
            && id in before && before[id] == rows[id]
            && SettleAll(rows, ids[..i + 1], world, maxAttempts) == before[id := Settle(rows[id], world(id), maxAttempts)]
    ensures Published(ids[..i + 1], world)
            == Published(ids[..i], world) + if world(ids[i]).published then [ids[i]] else []
    ensures CountDelivered(ids[..i + 1], world)
            == CountDelivered(ids[..i], world) + if world(ids[i]).published && world(ids[i]).marked then 1 else 0
  {
    assert ids[..i + 1][..i] == ids[..i];
    SettledElsewhere(rows, ids[..i], world, maxAttempts, ids[i]);
  }

  // ---------------------------------------------------------------------------
  // Runs of drains
  // ---------------------------------------------------------------------------

  /** A run of completed drains: between two drains younger alerts may arrive, nothing is requeued. */
  ghost predicate IsRun(orders: seq<seq<nat>>, tables: seq<Table>, worlds: seq<World>, limit: nat, maxAttempts: int) {
    && |tables| == |worlds| + 1 && |orders| == |tables|
    && (forall k | 0 <= k < |orders| :: NoDuplicates(orders[k]))
    && (forall k | 0 <= k < |worlds| ::
          Continues(SettleAll(tables[k], Batch(orders[k], tables[k], limit), worlds[k], maxAttempts), tables[k + 1]))
  }

  /** Every row is still there, as it was. */
  ghost predicate Continues(before: Table, after: Table) {
    forall id | id in before :: id in after && after[id] == before[id]
  }

  /** The alert and everything older keep their places; whatever else is in the outbox is younger. */
  ghost predicate QueuedBehind(orders: seq<seq<nat>>, ahead: seq<nat>, target: nat) {
    forall k | 0 <= k < |orders| :: |ahead| < |orders[k]| && orders[k][..|ahead|] == ahead && orders[k][|ahead|] == target
  }

  ghost predicate FailuresAreRecorded(worlds: seq<World>) {
    forall k, id: nat | 0 <= k < |worlds| :: worlds[k](id).recorded
  }

  predicate Claims(order: seq<nat>, rows: Table, limit: nat, target: nat) {
    target in Batch(order, rows, limit)
  }

  lemma {:induction false} PendingOfPrefix(order: seq<nat>, n: nat, rows: Table)
    requires n <= |order|
    ensures PendingIds(order, rows) == PendingIds(order[..n], rows) + PendingIds(order[n..], rows)
  {
    if n > 0 {
      PendingOfPrefix(order[1..], n - 1, rows);
      assert order[..n][1..] == order[1..][..n - 1];
    } else {
      assert order[..0] == [] && order[0..] == order;
    }
  }

  /** The target is claimed exactly when fewer than `limit` older alerts are pending. */
  lemma ClaimedIff(order: seq<nat>, rows: Table, limit: nat, ahead: seq<nat>, target: nat)
    requires NoDuplicates(order) && |ahead| < |order| && order[..|ahead|] == ahead && order[|ahead|] == target
    requires IsPending(rows, target)
    ensures Claims(order, rows, limit, target) <==> |PendingIds(ahead, rows)| < limit
  {
    var p := |PendingIds(ahead, rows)|;
    var pending := PendingIds(order, rows);
    PendingOfPrefix(order, |ahead|, rows);
    assert pending[p] == target;
    PendingAreDistinct(order, rows);
    var batch := Batch(order, rows, limit);
    if p < limit {
      assert batch[p] == target;
    } else {
      forall k | 0 <= k < |batch| ensures batch[k] != target {
        assert batch[k] == pending[k] && k < p;
      }
    }
  }

  /** Settling changes nobody but the claimed, and never brings a row back. */
  lemma PendingOnlyShrinks(order: seq<nat>, rows: Table, limit: nat, world: World, maxAttempts: int, id: nat)
    requires NoDuplicates(order) && id in rows
    ensures var after := SettleAll(rows, Batch(order, rows, limit), world, maxAttempts);
            && id in after
            && (IsPending(after, id) ==> IsPending(rows, id))
            && (!Claims(order, rows, limit, id) ==> after[id] == rows[id])
            && (Claims(order, rows, limit, id) && world(id).recorded && IsPending(after, id) ==>
                  after[id].attempts == rows[id].attempts + 1 < maxAttempts)
  {
    var batch := Batch(order, rows, limit);
    BatchIsPending(order, rows, limit);
    if Claims(order, rows, limit, id) {
      var k :| 0 <= k < |batch| && batch[k] == id;
      SettledOnce(rows, batch, world, maxAttempts, k);
    } else {
      SettledElsewhere(rows, batch, world, maxAttempts, id);
    }
  }

  lemma {:induction false} PendingListShrinks(ids: seq<nat>, before: Table, after: Table)
    requires forall id | id in ids :: IsPending(after, id) ==> IsPending(before, id)
    ensures |PendingIds(ids, after)| <= |PendingIds(ids, before)|
    ensures |PendingIds(ids, after)| <= |ids|
  {
    if ids != [] {
      PendingListShrinks(ids[1..], before, after);
    }
  }

  lemma {:induction false} NonePending(ids: seq<nat>, rows: Table)
    requires forall id | id in ids :: !IsPending(rows, id)
    ensures PendingIds(ids, rows) == []
  {
    if ids != [] {
      NonePending(ids[1..], rows);
    }
  }

  function AtLeastOne(n: int): nat {
    if n < 1 then 1 else n
  }

  /** An alert with fewer than `limit` pending ones ahead is attempted by every drain: after k of them it has left
      the queue or has k attempts behind it, which only so many drains allow. */
  lemma {:induction false} FrontIsAttempted(orders: seq<seq<nat>>, tables: seq<Table>, worlds: seq<World>, limit: nat, maxAttempts: int,
                                            ahead: seq<nat>, target: nat, j: nat, k: nat)
    requires IsRun(orders, tables, worlds, limit, maxAttempts) && QueuedBehind(orders, ahead, target)
    requires FailuresAreRecorded(worlds) && k <= |worlds|
    requires j < |ahead| && |PendingIds(ahead[..j], tables[0])| < limit && ahead[j] in tables[0]
    requires forall id | id in ahead :: id in tables[0]
    ensures ahead[j] in tables[k]
    ensures IsPending(tables[k], ahead[j]) ==>
              IsPending(tables[0], ahead[j]) && tables[k][ahead[j]].attempts >= k && (k > 0 ==> k < maxAttempts)
  {
    if k > 0 {
      var id := ahead[j];
      FrontIsAttempted(orders, tables, worlds, limit, maxAttempts, ahead, target, j, k - 1);
      var before := tables[k - 1];
      PendingOnlyShrinks(orders[k - 1], before, limit, worlds[k - 1], maxAttempts, id);
      AheadOnlyShrinks(orders, tables, worlds, limit, maxAttempts, ahead, target, ahead[..j], k - 1);
      if IsPending(before, id) {
        assert orders[k - 1][..j] == ahead[..j] by {
          assert orders[k - 1][..|ahead|][..j] == orders[k - 1][..j];
        }
        assert orders[k - 1][j] == orders[k - 1][..|ahead|][j] == id;
        ClaimedIff(orders[k - 1], before, limit, ahead[..j], id);
      }
    }
  }

  /** The pending rows of any list of old alerts only get fewer. */
  lemma {:induction false} AheadOnlyShrinks(orders: seq<seq<nat>>, tables: seq<Table>, worlds: seq<World>, limit: nat, maxAttempts: int,
                                            ahead: seq<nat>, target: nat, ids: seq<nat>, k: nat)
    requires IsRun(orders, tables, worlds, limit, maxAttempts) && k <= |worlds|
    requires forall id | id in ids :: id in tables[0]
    ensures forall id | id in ids :: id in tables[k] && (IsPending(tables[k], id) ==> IsPending(tables[0], id))
    ensures |PendingIds(ids, tables[k])| <= |PendingIds(ids, tables[0])|
  {
    if k > 0 {
      AheadOnlyShrinks(orders, tables, worlds, limit, maxAttempts, ahead, target, ids, k - 1);
      forall id | id in ids ensures id in tables[k] && (IsPending(tables[k], id) ==> IsPending(tables[0], id)) {
        PendingOnlyShrinks(orders[k - 1], tables[k - 1], limit, worlds[k - 1], maxAttempts, id);
      }
    }
    PendingListShrinks(ids, tables[0], tables[k]);
  }

  /** The list of old alerts cut where its `limit`-th pending one ends. */
  lemma {:induction false} CutAfter(ids: seq<nat>, rows: Table, limit: nat) returns (n: nat)
    requires 1 <= limit <= |PendingIds(ids, rows)|
    ensures 0 < n <= |ids| && |PendingIds(ids[..n], rows)| == limit
    ensures forall j | 0 <= j < n :: |PendingIds(ids[..j], rows)| < limit
  {
    n := 0;
    assert ids[..|ids|] == ids;
    while |PendingIds(ids[..n], rows)| < limit
      invariant n <= |ids| && |PendingIds(ids[..n], rows)| <= limit
      invariant forall j | 0 <= j < n :: |PendingIds(ids[..j], rows)| < limit
      decreases |ids| - n
    {
      PendingOfPrefix(ids[..n + 1], n, rows);
      assert ids[..n + 1][..n] == ids[..n] && ids[..n + 1][n..] == [ids[n]];
      n := n + 1;
    }
  }

  /** Every `maxAttempts` drains, a full batch of the alerts ahead is gone. */
  lemma BatchGoneAfterMaxAttempts(orders: seq<seq<nat>>, tables: seq<Table>, worlds: seq<World>, limit: nat, maxAttempts: int,
                                  ahead: seq<nat>, target: nat)
    requires IsRun(orders, tables, worlds, limit, maxAttempts) && QueuedBehind(orders, ahead, target)
    requires FailuresAreRecorded(worlds) && AtLeastOne(maxAttempts) <= |worlds|
    requires forall id | id in ahead :: id in tables[0]
    requires 1 <= limit <= |PendingIds(ahead, tables[0])|
    ensures |PendingIds(ahead, tables[AtLeastOne(maxAttempts)])| <= |PendingIds(ahead, tables[0])| - limit
  {
    var most := AtLeastOne(maxAttempts);
    var n := CutAfter(ahead, tables[0], limit);
    forall id | id in ahead[..n] ensures !IsPending(tables[most], id) {
      var j :| 0 <= j < n && ahead[..n][j] == id;
      FrontIsAttempted(orders, tables, worlds, limit, maxAttempts, ahead, target, j, most);
    }
    NonePending(ahead[..n], tables[most]);
    PendingOfPrefix(ahead, n, tables[most]);
    PendingOfPrefix(ahead, n, tables[0]);
    AheadOnlyShrinks(orders, tables, worlds, limit, maxAttempts, ahead, target, ahead[n..], most);
  }

  /** A drain that does not claim the target leaves it alone. */
  lemma {:induction false} UnclaimedStays(orders: seq<seq<nat>>, tables: seq<Table>, worlds: seq<World>, limit: nat, maxAttempts: int, target: nat, k: nat)
    requires IsRun(orders, tables, worlds, limit, maxAttempts) && k <= |worlds| && IsPending(tables[0], target)
    requires forall i | 0 <= i < k :: !Claims(orders[i], tables[i], limit, target)
    ensures IsPending(tables[k], target)
  {
    if k > 0 {
      UnclaimedStays(orders, tables, worlds, limit, maxAttempts, target, k - 1);
      PendingOnlyShrinks(orders[k - 1], tables[k - 1], limit, worlds[k - 1], maxAttempts, target);
    }
  }

  lemma RunFrom(orders: seq<seq<nat>>, tables: seq<Table>, worlds: seq<World>, limit: nat, maxAttempts: int, ahead: seq<nat>, target: nat, m: nat)
    requires IsRun(orders, tables, worlds, limit, maxAttempts) && QueuedBehind(orders, ahead, target) && FailuresAreRecorded(worlds)
    requires m <= |worlds|
    ensures IsRun(orders[m..], tables[m..], worlds[m..], limit, maxAttempts)
    ensures QueuedBehind(orders[m..], ahead, target) && FailuresAreRecorded(worlds[m..])
  {
    var o, t, w := orders[m..], tables[m..], worlds[m..];
    forall k | 0 <= k < |w| ensures Continues(SettleAll(t[k], Batch(o[k], t[k], limit), w[k], maxAttempts), t[k + 1]) {
      assert t[k] == tables[m + k] && t[k + 1] == tables[m + k + 1] && w[k] == worlds[m + k] && o[k] == orders[m + k];
    }
  }

  /** The last drain (from zero) that may go by before an alert with p older ones pending is attempted. */
  function Deadline(p: nat, limit: nat, most: nat): nat
    requires limit >= 1
  {
    if p < limit then 0 else most + Deadline(p - limit, limit, most)
  }

  /** With q full batches and a remainder ahead, the deadline is maxAttempts * q. */
  lemma {:induction false} DeadlineIs(q: nat, r: nat, limit: nat, most: nat)
    requires r < limit
    ensures q * limit + r >= 0 && Deadline(q * limit + r, limit, most) == most * q
    decreases q
  {
    if q > 0 {
      Distribute(q, limit);
      Distribute(q, most);
      DeadlineIs(q - 1, r, limit, most);
    }
  }

  lemma Distribute(q: nat, n: nat)
    requires q > 0
    ensures q * n == (q - 1) * n + n && n * q == n * (q - 1) + n
    ensures (q - 1) * n >= 0
  {
  }

  lemma {:induction false} DeadlineMonotone(q: nat, p: nat, limit: nat, most: nat)
    requires limit >= 1 && q <= p
    ensures Deadline(q, limit, most) <= Deadline(p, limit, most)
    decreases p
  {
    if q >= limit {
      DeadlineMonotone(q - limit, p - limit, limit, most);
    }
  }

  /** If the target goes unclaimed for maxAttempts drains, the rest of the run is one with a full batch less ahead. */
  lemma LaterDrains(orders: seq<seq<nat>>, tables: seq<Table>, worlds: seq<World>, limit: nat, maxAttempts: int,
                    ahead: seq<nat>, target: nat)
    requires IsRun(orders, tables, worlds, limit, maxAttempts) && QueuedBehind(orders, ahead, target)
    requires FailuresAreRecorded(worlds) && AtLeastOne(maxAttempts) <= |worlds|
    requires IsPending(tables[0], target) && forall id | id in ahead :: id in tables[0]
    requires 1 <= limit <= |PendingIds(ahead, tables[0])|
    requires forall i | 0 <= i < AtLeastOne(maxAttempts) :: !Claims(orders[i], tables[i], limit, target)
    ensures var m := AtLeastOne(maxAttempts);
            var p, q := |PendingIds(ahead, tables[0])|, |PendingIds(ahead, tables[m])|;
            && IsRun(orders[m..], tables[m..], worlds[m..], limit, maxAttempts)
            && QueuedBehind(orders[m..], ahead, target) && FailuresAreRecorded(worlds[m..])
            && IsPending(tables[m], target) && (forall id | id in ahead :: id in tables[m])
            && q < p && Deadline(q, limit, m) <= Deadline(p, limit, m) - m
  {
    var m := AtLeastOne(maxAttempts);
    UnclaimedStays(orders, tables, worlds, limit, maxAttempts, target, m);
    BatchGoneAfterMaxAttempts(orders, tables, worlds, limit, maxAttempts, ahead, target);
    AheadOnlyShrinks(orders, tables, worlds, limit, maxAttempts, ahead, target, ahead, m);
    RunFrom(orders, tables, worlds, limit, maxAttempts, ahead, target, m);
    DeadlineMonotone(|PendingIds(ahead, tables[m])|, |PendingIds(ahead, tables[0])| - limit, limit, m);
  }

  /** With p older alerts pending, a pending alert is attempted by drain number
      maxAttempts * floor(p / limit) + 1 at the latest (DeadlineIs), however badly the deliveries go. */
  lemma {:induction false} AttemptedInTime(orders: seq<seq<nat>>, tables: seq<Table>, worlds: seq<World>, limit: nat, maxAttempts: int,
                                           ahead: seq<nat>, target: nat) returns (k: nat)
    requires IsRun(orders, tables, worlds, limit, maxAttempts) && QueuedBehind(orders, ahead, target)
    requires FailuresAreRecorded(worlds) && limit >= 1
    requires IsPending(tables[0], target) && forall id | id in ahead :: id in tables[0]
    requires Deadline(|PendingIds(ahead, tables[0])|, limit, AtLeastOne(maxAttempts)) <= |worlds|
    ensures k <= Deadline(|PendingIds(ahead, tables[0])|, limit, AtLeastOne(maxAttempts)) <= |worlds|
    ensures Claims(orders[k], tables[k], limit, target)
    decreases |PendingIds(ahead, tables[0])|
  {
    var p, most := |PendingIds(ahead, tables[0])|, AtLeastOne(maxAttempts);
    if p < limit {
      ClaimedIff(orders[0], tables[0], limit, ahead, target);
      k := 0;
    } else {
      if exists i :: 0 <= i < most && Claims(orders[i], tables[i], limit, target) {
        k :| 0 <= k < most && Claims(orders[k], tables[k], limit, target);
      } else {
        LaterDrains(orders, tables, worlds, limit, maxAttempts, ahead, target);
        var later := AttemptedInTime(orders[most..], tables[most..], worlds[most..], limit, maxAttempts, ahead, target);
        k := most + later;
      }
    }
  }

  // ---------------------------------------------------------------------------
  // What the bound rests on, and what a status means
  // ---------------------------------------------------------------------------

  /** The delivery failed, and so did writing the failure down. */
  predicate LeftUntouched(fate: Fate) {
    !(fate.published && fate.marked) && !fate.recorded
  }

  /** The queue stands still over a drain exactly when every claimed alert failed and no failure could be written
      down. */
  lemma QueueStandsStillIff(order: seq<nat>, rows: Table, limit: nat, world: World, maxAttempts: int)
    requires NoDuplicates(order)
    ensures var batch := Batch(order, rows, limit);
            SettleAll(rows, batch, world, maxAttempts) == rows <==> forall id | id in batch :: LeftUntouched(world(id))
  {
    var batch := Batch(order, rows, limit);
    var after := SettleAll(rows, batch, world, maxAttempts);
    BatchIsPending(order, rows, limit);
    forall i: nat | i < |batch|
      ensures batch[i] in rows && batch[i] in after
      ensures after[batch[i]] == rows[batch[i]] <==> LeftUntouched(world(batch[i]))
    {
      SettledOnce(rows, batch, world, maxAttempts, i);
      assert rows[batch[i]].status == Pending;
    }
    if forall id | id in batch :: LeftUntouched(world(id)) {
      forall id ensures id in after <==> id in rows
                ensures id in rows ==> after[id] == rows[id] {
        if id in batch {
          var i :| 0 <= i < |batch| && batch[i] == id;
        } else {
          SettledElsewhere(rows, batch, world, maxAttempts, id);
        }
      }
      assert after == rows;
    }
  }

  /** Whatever one drain marks as sent it has published. */
  lemma {:induction false} SentWasPublished(rows: Table, ids: seq<nat>, world: World, maxAttempts: int, id: nat)
    requires id in rows && rows[id].status != Sent
    ensures var after := SettleAll(rows, ids, world, maxAttempts);
            id in after && (after[id].status == Sent ==> id in Published(ids, world))
    decreases |ids|
  {
    if ids != [] {
      SentWasPublished(rows, ids[..|ids| - 1], world, maxAttempts, id);
    }
  }

  lemma {:induction false} PublishedIff(ids: seq<nat>, world: World, id: nat)
    ensures id in Published(ids, world) <==> id in ids && world(id).published
    decreases |ids|
  {
    if ids != [] {
      PublishedIff(ids[..|ids| - 1], world, id);
      assert ids == ids[..|ids| - 1] + [ids[|ids| - 1]];
    }
  }

  /** What drains publish, one after the other, given the batches they claim. */
  function Topic(batches: seq<seq<nat>>, worlds: seq<World>): seq<nat>
    requires |batches| == |worlds|
    decreases |worlds|
  {
    if worlds == [] then []
    else
      var n := |worlds| - 1;
      Topic(batches[..n], worlds[..n]) + Published(batches[n], worlds[n])
  }

  /** Drain k claims the alert and gets it published. */
  predicate PublishesAt(batches: seq<seq<nat>>, worlds: seq<World>, k: nat, id: nat)
    requires k < |worlds| == |batches|
  {
    id in batches[k] && worlds[k](id).published
  }

  lemma {:induction false} TopicIff(batches: seq<seq<nat>>, worlds: seq<World>, id: nat)
    requires |batches| == |worlds|
    ensures id in Topic(batches, worlds) <==> exists k: nat | k < |worlds| :: PublishesAt(batches, worlds, k, id)
    decreases |worlds|
  {
    if worlds != [] {
      var n := |worlds| - 1;
      TopicIff(batches[..n], worlds[..n], id);
      PublishedIff(batches[n], worlds[n], id);
      assert forall k: nat | k < n :: PublishesAt(batches[..n], worlds[..n], k, id) == PublishesAt(batches, worlds, k, id);
      assert id in Published(batches[n], worlds[n]) <==> PublishesAt(batches, worlds, n, id);
    }
  }

  function Batches(orders: seq<seq<nat>>, tables: seq<Table>, worlds: seq<World>, limit: nat): (batches: seq<seq<nat>>)
    requires |worlds| <= |tables| && |worlds| <= |orders|
    ensures |batches| == |worlds|
  {
    seq(|worlds|, k requires 0 <= k < |worlds| => Batch(orders[k], tables[k], limit))
  }

  /** An alert that has left the queue is as it was when it left. */
  lemma {:induction false} SettledForGood(orders: seq<seq<nat>>, tables: seq<Table>, worlds: seq<World>, limit: nat, maxAttempts: int,
                                          id: nat, k: nat, n: nat)
    requires IsRun(orders, tables, worlds, limit, maxAttempts) && k <= n <= |worlds|
    requires id in tables[k] && tables[k][id].status != Pending
    ensures id in tables[n] && tables[n][id] == tables[k][id]
    decreases n
  {
    if k < n {
      SettledForGood(orders, tables, worlds, limit, maxAttempts, id, k, n - 1);
      var batch := Batch(orders[n - 1], tables[n - 1], limit);
      BatchIsPending(orders[n - 1], tables[n - 1], limit);
      SettledElsewhere(tables[n - 1], batch, worlds[n - 1], maxAttempts, id);
    }
  }

  /** A published alert that is also marked is sent, and stays so. */
  lemma MarkedIsSent(orders: seq<seq<nat>>, tables: seq<Table>, worlds: seq<World>, limit: nat, maxAttempts: int, id: nat, k: nat)
    requires IsRun(orders, tables, worlds, limit, maxAttempts) && k < |worlds|
    requires Claims(orders[k], tables[k], limit, id) && worlds[k](id).published && worlds[k](id).marked
    ensures id in tables[|worlds|] && tables[|worlds|][id].status == Sent
  {
    var batch := Batch(orders[k], tables[k], limit);
    BatchIsPending(orders[k], tables[k], limit);
    var i :| 0 <= i < |batch| && batch[i] == id;
    SettledOnce(tables[k], batch, worlds[k], maxAttempts, i);
    SettledForGood(orders, tables, worlds, limit, maxAttempts, id, k + 1, |worlds|);
  }

  /** Over any run of drains, an alert that ends up dead was published exactly when, in some drain, its publish went
      through and its `markSent` did not. */
  lemma DeadLetterWasPublishedIff(orders: seq<seq<nat>>, tables: seq<Table>, worlds: seq<World>, limit: nat, maxAttempts: int,
                                  id: nat)
    requires IsRun(orders, tables, worlds, limit, maxAttempts)
    requires id in tables[|worlds|] && tables[|worlds|][id].status == Dead
    ensures var batches := Batches(orders, tables, worlds, limit);
            id in Topic(batches, worlds)
            <==> exists k: nat | k < |worlds| :: PublishesAt(batches, worlds, k, id) && !worlds[k](id).marked
  {
    var batches := Batches(orders, tables, worlds, limit);
    TopicIff(batches, worlds, id);
    forall k: nat | k < |worlds| && PublishesAt(batches, worlds, k, id) ensures !worlds[k](id).marked {
      if worlds[k](id).marked {
        MarkedIsSent(orders, tables, worlds, limit, maxAttempts, id, k);
      }
    }
  }

  /** What one drain makes of each alert. Unclaimed, it is untouched. Claimed, it is sent if it was published and marked;
      left as it was if its failure could not be written down; and otherwise has one more attempt, and is dead if the
      failure is permanent or its attempts are used up, and pending still if not. */
  lemma DrainSettles(order: seq<nat>, rows: Table, limit: nat, world: World, maxAttempts: int, id: nat)
    requires NoDuplicates(order) && id in rows
    ensures var after, fate := SettleAll(rows, Batch(order, rows, limit), world, maxAttempts), world(id);
            && id in after
            && (!Claims(order, rows, limit, id) ==> after[id] == rows[id])
            && (Claims(order, rows, limit, id) ==>
                  && rows[id].status == Pending
                  && (after[id].status == Sent <==> fate.published && fate.marked)
                  && (fate.published && fate.marked ==> after[id].attempts == rows[id].attempts)
                  && (!(fate.published && fate.marked) && !fate.recorded ==> after[id] == rows[id])
                  && (!(fate.published && fate.marked) && fate.recorded ==>
                        && after[id].attempts == rows[id].attempts + 1
                        && (after[id].status == Pending <==> !fate.permanent && rows[id].attempts + 1 < maxAttempts)
                        && (after[id].status == Dead <==> fate.permanent || rows[id].attempts + 1 >= maxAttempts)))
  {
    var batch := Batch(order, rows, limit);
    BatchIsPending(order, rows, limit);
    if Claims(order, rows, limit, id) {
      var i :| 0 <= i < |batch| && batch[i] == id;
      SettledOnce(rows, batch, world, maxAttempts, i);
    } else {
      SettledElsewhere(rows, batch, world, maxAttempts, id);
    }
  }

  function SentBy(ids: seq<nat>, world: World): set<nat> {
    set id | id in ids && world(id).published && world(id).marked
  }

  /** The count of deliveries a drain reports is the number of alerts it marks as sent. */
  lemma {:induction false} DeliveredCountIsSentCount(ids: seq<nat>, world: World)
    requires NoDuplicates(ids)
    ensures CountDelivered(ids, world) == |SentBy(ids, world)|
    decreases |ids|
  {
    if ids != [] {
      var init, last := ids[..|ids| - 1], ids[|ids| - 1];
      DeliveredCountIsSentCount(init, world);
      assert ids == init + [last] && last !in init;
      if world(last).published && world(last).marked {
        assert SentBy(ids, world) == SentBy(init, world) + {last};
      } else {
        assert SentBy(ids, world) == SentBy(init, world);
      }
    }
  }

  /** Drain k tries the alert, fails, and writes that down. */
  predicate FailsAt(orders: seq<seq<nat>>, tables: seq<Table>, worlds: seq<World>, limit: nat, k: nat, id: nat)
    requires k < |worlds| <= |tables| && |worlds| <= |orders|
  {
    var fate := worlds[k](id);
    Claims(orders[k], tables[k], limit, id) && !(fate.published && fate.marked) && fate.recorded
  }

  /** One drain of an alert's life, without a permanent failure. */
  predicate LivesOn(before: Alert, fails: bool, after: Alert, maxAttempts: int) {
    if before.status != Pending then after == before && !fails
    else if fails then after == Alert(before.attempts + 1, if before.attempts + 1 < maxAttempts then Pending else Dead)
    else after.attempts == before.attempts && after.status != Dead
  }

  lemma DrainLivesOn(orders: seq<seq<nat>>, tables: seq<Table>, worlds: seq<World>, limit: nat, maxAttempts: int, k: nat, id: nat)
    requires IsRun(orders, tables, worlds, limit, maxAttempts) && k < |worlds| && id in tables[k]
    requires !worlds[k](id).permanent
    ensures id in tables[k + 1]
    ensures LivesOn(tables[k][id], FailsAt(orders, tables, worlds, limit, k, id), tables[k + 1][id], maxAttempts)
  {
    DrainSettles(orders[k], tables[k], limit, worlds[k], maxAttempts, id);
  }

  ghost predicate IsLife(life: seq<Alert>, fails: seq<bool>, maxAttempts: int) {
    && |life| == |fails| + 1
    && forall k | 0 <= k < |fails| :: LivesOn(life[k], fails[k], life[k + 1], maxAttempts)
  }

  function HowMany(fails: seq<bool>): nat {
    if fails == [] then 0 else HowMany(fails[..|fails| - 1]) + (if fails[|fails| - 1] then 1 else 0)
  }

  lemma {:induction false} LifeEndsWithItsBudget(life: seq<Alert>, fails: seq<bool>, maxAttempts: int)
    requires IsLife(life, fails, maxAttempts)
    requires life[0].status == Pending && life[0].attempts < maxAttempts
    ensures var end := life[|fails|];
            && end.attempts == life[0].attempts + HowMany(fails) <= maxAttempts
            && (end.status != Sent ==> (end.status == Dead <==> end.attempts == maxAttempts))
    decreases |fails|
  {
    if fails != [] {
      var n := |fails| - 1;
      assert LivesOn(life[n], fails[n], life[n + 1], maxAttempts);
      forall k | 0 <= k < n ensures LivesOn(life[..n + 1][k], fails[..n][k], life[..n + 1][k + 1], maxAttempts) {
        assert LivesOn(life[k], fails[k], life[k + 1], maxAttempts);
      }
      LifeEndsWithItsBudget(life[..n + 1], fails[..n], maxAttempts);
    }
  }

  lemma {:induction false} StaysInTheTable(orders: seq<seq<nat>>, tables: seq<Table>, worlds: seq<World>, limit: nat,
                                          maxAttempts: int, n: nat, id: nat)
    requires IsRun(orders, tables, worlds, limit, maxAttempts) && n < |tables| && id in tables[0]
    ensures id in tables[n]
    decreases n
  {
    if n > 0 {
      StaysInTheTable(orders, tables, worlds, limit, maxAttempts, n - 1, id);
      DrainSettles(orders[n - 1], tables[n - 1], limit, worlds[n - 1], maxAttempts, id);
    }
  }

  /** The drains of a run in which the alert fails. */
  function Fails(orders: seq<seq<nat>>, tables: seq<Table>, worlds: seq<World>, limit: nat, id: nat): (fails: seq<bool>)
    requires |worlds| <= |tables| && |worlds| <= |orders|
    ensures |fails| == |worlds|
  {
    seq(|worlds|, k requires 0 <= k < |worlds| => FailsAt(orders, tables, worlds, limit, k, id))
  }

  /** Over any run of drains without a permanent failure of its own, an alert that dies has had its whole budget of
      attempts, each of them a failed delivery in one of the drains, and none past it; until then it is sent or still in
      the queue. */
  lemma DiesOfItsBudget(orders: seq<seq<nat>>, tables: seq<Table>, worlds: seq<World>, limit: nat, maxAttempts: int, id: nat)
    requires IsRun(orders, tables, worlds, limit, maxAttempts)
    requires IsPending(tables[0], id) && tables[0][id].attempts < maxAttempts
    requires forall k | 0 <= k < |worlds| :: !worlds[k](id).permanent
    ensures id in tables[|worlds|]
    ensures var end := tables[|worlds|][id];
            && end.attempts == tables[0][id].attempts + HowMany(Fails(orders, tables, worlds, limit, id)) <= maxAttempts
            && (end.status != Sent ==> (end.status == Dead <==> end.attempts == maxAttempts))
  {
    var fails := Fails(orders, tables, worlds, limit, id);
    forall k: nat | k < |tables| ensures id in tables[k] {
      StaysInTheTable(orders, tables, worlds, limit, maxAttempts, k, id);
    }
    var life := seq(|tables|, k requires 0 <= k < |tables| => tables[k][id]);
    forall k: nat | k < |worlds| ensures LivesOn(life[k], fails[k], life[k + 1], maxAttempts) {
      DrainLivesOn(orders, tables, worlds, limit, maxAttempts, k, id);
    }
    LifeEndsWithItsBudget(life, fails, maxAttempts);
  }

  /** A dead letter may have been published: its last failure can be that of `markSent`. */
  lemma DeadLetterMayBePublished(rows: Table, world: World, maxAttempts: int, id: nat)
    requires IsPending(rows, id) && world(id) == Fate(true, false, true, true)
    ensures var after := SettleAll(rows, [id], world, maxAttempts);
            id in after && after[id].status == Dead && Published([id], world) == [id]
  {
    assert [id][..0] == [];
  }
}
