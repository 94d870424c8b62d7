/** The post-event sweep: pages over finished events by id while its own writes shrink the set it pages over. */
module PostEventEmails {
  import opened Options

  const ONE_HOUR_MS := 60 * 60 * 1000

  datatype EventRow = EventRow(endAt: int, emailSent: bool, confirmedAt: Option<int>, programId: Option<nat>)

  predicate Eligible(e: EventRow, cutoff: int) {
    e.endAt <= cutoff && !e.emailSent && e.confirmedAt.None? && e.programId.Some?
  }

  function Cutoff(now: int, forceImmediate: bool): int {
    if forceImmediate then now else now - ONE_HOUR_MS
  }

  /** Eligible ids past the cursor, in id order. Ids start at one, so a zero cursor means no cursor. */
  function EligibleAfter(ids: seq<nat>, rows: map<nat, EventRow>, cutoff: int, cursor: nat): seq<nat> {
    if ids == [] then []
    else (if ids[0] in rows && Eligible(rows[ids[0]], cutoff) && cursor < ids[0] then [ids[0]] else [])
         + EligibleAfter(ids[1..], rows, cutoff, cursor)
  }

  function Take(ids: seq<nat>, n: nat): seq<nat> {
    if |ids| <= n then ids else ids[..n]
  }

  ghost predicate Increasing(ids: seq<nat>) {
    forall i, j | 0 <= i < j < |ids| :: ids[i] < ids[j]
  }

  class EventTable {
    const ids: seq<nat>
    var rows: map<nat, EventRow>

    constructor (ids: seq<nat>, rows: map<nat, EventRow>)
      requires Lists(ids, rows)
      ensures Valid() && this.ids == ids && this.rows == rows
    {
      this.ids, this.rows := ids, rows;
    }

    ghost predicate Valid()
      reads this
    {
      Lists(ids, rows)
    }
  }

  /** The mail provider, and the events it was asked to mail about, in order. */
  class Mailer {
    var attempts: seq<nat>

    constructor ()
      ensures attempts == []
    {
      attempts := [];
    }

    /** `sendEmail`; `accepted` is what the provider makes of it. */
    method Send(id: nat, accepted: bool) returns (success: bool)
      modifies this
      ensures attempts == old(attempts) + [id] && success == accepted
    {
      attempts := attempts + [id];
      success := accepted;
    }
  }

  ghost predicate Lists(ids: seq<nat>, rows: map<nat, EventRow>) {
    Increasing(ids) && 0 !in rows && forall id | id in rows :: id in ids
  }

  lemma {:induction false} EligibleIff(ids: seq<nat>, rows: map<nat, EventRow>, cutoff: int, cursor: nat, id: nat)
    ensures id in EligibleAfter(ids, rows, cutoff, cursor)
            <==> id in ids && id in rows && Eligible(rows[id], cutoff) && cursor < id
  {
    if ids != [] {
      EligibleIff(ids[1..], rows, cutoff, cursor, id);
      assert id in ids <==> id == ids[0] || id in ids[1..];
    }
  }

  lemma {:induction false} EligibleIncreasing(ids: seq<nat>, rows: map<nat, EventRow>, cutoff: int, cursor: nat)
    requires Increasing(ids)
    ensures Increasing(EligibleAfter(ids, rows, cutoff, cursor))
  {
    if ids != [] {
      EligibleIncreasing(ids[1..], rows, cutoff, cursor);
      var rest := EligibleAfter(ids[1..], rows, cutoff, cursor);
      forall j | 0 <= j < |rest| ensures ids[0] < rest[j] {
        EligibleIff(ids[1..], rows, cutoff, cursor, rest[j]);
        assert rest[j] in ids[1..];
      }
    }
  }

  /** An eligible id past n events is the n-th or a later one. */
  lemma EligiblePosition(ids: seq<nat>, rows: map<nat, EventRow>, cutoff: int, id: nat) returns (j: nat)
    requires Lists(ids, rows) && id in rows && Eligible(rows[id], cutoff)
    ensures var all := EligibleAfter(ids, rows, cutoff, 0); j < |all| && all[j] == id && Increasing(all)
  {
    EligibleIff(ids, rows, cutoff, 0, id);
    EligibleIncreasing(ids, rows, cutoff, 0);
    j :| 0 <= j < |EligibleAfter(ids, rows, cutoff, 0)| && EligibleAfter(ids, rows, cutoff, 0)[j] == id;
  }

  /** Two increasing sequences with the same members are equal. */
  lemma {:induction false} SameMembersSameSeq(a: seq<nat>, b: seq<nat>)
    requires Increasing(a) && Increasing(b) && forall id :: id in a <==> id in b
    ensures a == b
  {
    assert a != [] ==> a[0] in a;
    assert b != [] ==> b[0] in b;
    if a != [] && b != [] {
      forall id ensures id in a[1..] <==> id in b[1..] {
        assert id in a[1..] <==> id in a && id != a[0];
        assert id in b[1..] <==> id in b && id != b[0];
      }
      SameMembersSameSeq(a[1..], b[1..]);
    }
  }

  lemma SuffixIsPastCursor(all: seq<nat>, n: nat, id: nat)
    requires Increasing(all) && n <= |all|
    ensures id in all[n..] <==> id in all && (n > 0 ==> all[n - 1] < id)
    ensures Increasing(all[n..])
  {
    if id in all && (n > 0 ==> all[n - 1] < id) {
      var j :| 0 <= j < |all| && all[j] == id;
      assert j >= n;
      assert all[n..][j - n] == id;
    }
  }

  /** What the query answered at entry, from the n-th event on. */
  lemma PageFollowsCursor(ids: seq<nat>, rows: map<nat, EventRow>, cutoff: int, n: nat)
    requires Lists(ids, rows) && n <= |EligibleAfter(ids, rows, cutoff, 0)|
    ensures var all := EligibleAfter(ids, rows, cutoff, 0);
            EligibleAfter(ids, rows, cutoff, if n == 0 then 0 else all[n - 1]) == all[n..]
  {
    var all := EligibleAfter(ids, rows, cutoff, 0);
    var cursor := if n == 0 then 0 else all[n - 1];
    var found := EligibleAfter(ids, rows, cutoff, cursor);
    EligibleIncreasing(ids, rows, cutoff, 0);
    EligibleIncreasing(ids, rows, cutoff, cursor);
    forall id ensures id in all[n..] <==> id in found {
      SuffixIsPastCursor(all, n, id);
      EligibleIff(ids, rows, cutoff, 0, id);
      EligibleIff(ids, rows, cutoff, cursor, id);
    }
    SuffixIsPastCursor(all, n, 0);
    SameMembersSameSeq(found, all[n..]);
  }

  /** There is somebody to write to. */
  predicate HasRecipient(id: nat, recipients: map<nat, string>) {
    id in recipients && recipients[id] != ""
  }

  /** ... and the mail went out. */
  predicate Delivered(id: nat, recipients: map<nat, string>, sends: set<nat>) {
    HasRecipient(id, recipients) && id in sends
  }

  /** The events of a list that have somebody to write to, in order. */
  function Reachable(ids: seq<nat>, recipients: map<nat, string>): seq<nat> {
    if ids == [] then []
    else Reachable(ids[..|ids| - 1], recipients)
         + (if HasRecipient(ids[|ids| - 1], recipients) then [ids[|ids| - 1]] else [])
  }

  /** The table with every delivered event that was eligible at entry flagged, up to an id. */
  function FlagUpTo(before: map<nat, EventRow>, cutoff: int, last: nat, recipients: map<nat, string>, sends: set<nat>): map<nat, EventRow> {
    map id | id in before ::
      if id <= last && Eligible(before[id], cutoff) && Delivered(id, recipients, sends) then before[id].(emailSent := true)
      else before[id]
  }

  /** ... and up to no id in particular: what a whole sweep must leave. */
  function FlagDelivered(before: map<nat, EventRow>, cutoff: int, recipients: map<nat, string>, sends: set<nat>): map<nat, EventRow> {
    map id | id in before ::
      if Eligible(before[id], cutoff) && Delivered(id, recipients, sends) then before[id].(emailSent := true) else before[id]
  }

  /** Past the cursor the sweep's own writes do not show: the page is what it would have been at entry. */
  lemma {:induction false} FlaggingKeepsLaterPages(ids: seq<nat>, before: map<nat, EventRow>, cutoff: int, cursor: nat,
                                                   recipients: map<nat, string>, sends: set<nat>)
    ensures EligibleAfter(ids, FlagUpTo(before, cutoff, cursor, recipients, sends), cutoff, cursor)
            == EligibleAfter(ids, before, cutoff, cursor)
  {
    if ids != [] {
      FlaggingKeepsLaterPages(ids[1..], before, cutoff, cursor, recipients, sends);
    }
  }

  /** Going from one eligible event to the next skips nothing that could be flagged. */
  lemma NothingBetween(ids: seq<nat>, before: map<nat, EventRow>, cutoff: int, n: nat, id: nat)
    requires Lists(ids, before) && n < |EligibleAfter(ids, before, cutoff, 0)|
    requires id in before && Eligible(before[id], cutoff)
    ensures var all := EligibleAfter(ids, before, cutoff, 0);
            (if n == 0 then 0 else all[n - 1]) < id <= all[n] ==> id == all[n]
  {
    var j := EligiblePosition(ids, before, cutoff, id);
  }

  lemma FlagNext(ids: seq<nat>, before: map<nat, EventRow>, cutoff: int, n: nat, recipients: map<nat, string>, sends: set<nat>)
    requires Lists(ids, before) && n < |EligibleAfter(ids, before, cutoff, 0)|
    ensures var all := EligibleAfter(ids, before, cutoff, 0);
            var rows := FlagUpTo(before, cutoff, if n == 0 then 0 else all[n - 1], recipients, sends);
            && all[n] in rows && rows[all[n]] == before[all[n]]
            && FlagUpTo(before, cutoff, all[n], recipients, sends)
               == if Delivered(all[n], recipients, sends) then rows[all[n] := before[all[n]].(emailSent := true)] else rows
  {
    var all := EligibleAfter(ids, before, cutoff, 0);
    var last, next := if n == 0 then 0 else all[n - 1], all[n];
    EligibleIff(ids, before, cutoff, 0, next);
    EligibleIncreasing(ids, before, cutoff, 0);
    assert next in all;
    FlagStep(before, cutoff, last, next, recipients, sends) by {
      forall id | id in before && last < id <= next && Eligible(before[id], cutoff) ensures id == next {
        NothingBetween(ids, before, cutoff, n, id);
      }
    }
  }

  lemma FlagStep(before: map<nat, EventRow>, cutoff: int, last: nat, next: nat, recipients: map<nat, string>, sends: set<nat>)
    requires last < next && next in before && Eligible(before[next], cutoff)
    requires forall id | id in before && last < id <= next && Eligible(before[id], cutoff) :: id == next
    ensures var rows := FlagUpTo(before, cutoff, last, recipients, sends);
            && next in rows && rows[next] == before[next]
            && FlagUpTo(before, cutoff, next, recipients, sends)
               == if Delivered(next, recipients, sends) then rows[next := before[next].(emailSent := true)] else rows
  {
  }

  lemma FlaggedPastTheEnd(ids: seq<nat>, before: map<nat, EventRow>, cutoff: int, recipients: map<nat, string>, sends: set<nat>)
    requires Lists(ids, before)
    ensures var all := EligibleAfter(ids, before, cutoff, 0);
            FlagUpTo(before, cutoff, if all == [] then 0 else all[|all| - 1], recipients, sends)
            == FlagDelivered(before, cutoff, recipients, sends)
  {
    var all := EligibleAfter(ids, before, cutoff, 0);
    forall id | id in before && Eligible(before[id], cutoff) ensures all != [] && id <= all[|all| - 1] {
      var j := EligiblePosition(ids, before, cutoff, id);
    }
  }

  function CountDelivered(ids: seq<nat>, recipients: map<nat, string>, sends: set<nat>): nat {
    if ids == [] then 0
    else CountDelivered(ids[..|ids| - 1], recipients, sends) + (if Delivered(ids[|ids| - 1], recipients, sends) then 1 else 0)
  }

  function LastOf(all: seq<nat>, n: nat): nat
    requires n <= |all|
  {
    if n == 0 then 0 else all[n - 1]
  }

  /** What a sweep starts from: the table, the events eligible in it and the mails so far, and what the outside will
      answer. */
  datatype Start = Start(ids: seq<nat>, rows: map<nat, EventRow>, cutoff: int, all: seq<nat>, mailed: seq<nat>,
                         recipients: map<nat, string>, sends: set<nat>)

  ghost predicate IsStart(w: Start) {
    Lists(w.ids, w.rows) && w.all == EligibleAfter(w.ids, w.rows, w.cutoff, 0)
  }

  datatype Progress = Progress(rows: map<nat, EventRow>, sent: nat, mailed: seq<nat>)

  /** One event taken up. */
  function Handled(w: Start, p: Progress, id: nat): Progress {
    if !HasRecipient(id, w.recipients) then p
    else if id in w.sends && id in p.rows then
      Progress(p.rows[id := p.rows[id].(emailSent := true)], p.sent + 1, p.mailed + [id])
    else p.(mailed := p.mailed + [id])
  }

  /** The first n events eligible at entry taken up, one after the other. */
  function After(w: Start, n: nat): Progress
    requires n <= |w.all|
  {
    if n == 0 then Progress(w.rows, 0, w.mailed) else Handled(w, After(w, n - 1), w.all[n - 1])
  }

  /** Taking up the next event flags it if it is delivered. */
  lemma HandledFlagsNext(w: Start, p: Progress, n: nat)
    requires IsStart(w) && n < |w.all|
    requires p.rows == FlagUpTo(w.rows, w.cutoff, LastOf(w.all, n), w.recipients, w.sends)
    ensures Handled(w, p, w.all[n]).rows == FlagUpTo(w.rows, w.cutoff, LastOf(w.all, n + 1), w.recipients, w.sends)
  {
    FlagNext(w.ids, w.rows, w.cutoff, n, w.recipients, w.sends);
  }

  /** Then exactly those delivered are flagged ... */
  lemma {:induction false} RowsAreFlagged(w: Start, n: nat)
    requires IsStart(w) && n <= |w.all|
    ensures After(w, n).rows == FlagUpTo(w.rows, w.cutoff, LastOf(w.all, n), w.recipients, w.sends)
    decreases n
  {
    if n > 0 {
      RowsAreFlagged(w, n - 1);
      HandledFlagsNext(w, After(w, n - 1), n - 1);
    } else {
      FlagNone(w.rows, w.cutoff, w.recipients, w.sends);
    }
  }

  lemma FlagNone(before: map<nat, EventRow>, cutoff: int, recipients: map<nat, string>, sends: set<nat>)
    requires 0 !in before
    ensures FlagUpTo(before, cutoff, 0, recipients, sends) == before
  {
  }

  /** ... and counted, and all with a recipient have been mailed about. */
  lemma {:induction false} MailsAreCounted(w: Start, n: nat)
    requires n <= |w.all| && forall id | id in w.all :: id in w.rows
    ensures After(w, n).rows.Keys == w.rows.Keys
    ensures After(w, n).sent == CountDelivered(w.all[..n], w.recipients, w.sends)
    ensures After(w, n).mailed == w.mailed + Reachable(w.all[..n], w.recipients)
    decreases n
  {
    if n > 0 {
      MailsAreCounted(w, n - 1);
      assert w.all[..n][..n - 1] == w.all[..n - 1];
    }
  }

  lemma NextIsListed(w: Start, n: nat)
    requires IsStart(w) && n < |w.all|
    ensures w.all[n] in After(w, n).rows
  {
    RowsAreFlagged(w, n);
    FlagNext(w.ids, w.rows, w.cutoff, n, w.recipients, w.sends);
  }

  /** Wherever the sweep stands, its next query answers the next stretch of the entry list. */
  lemma FetchedPage(w: Start, n: nat, batchSize: nat)
    requires IsStart(w) && n <= |w.all|
    ensures var all := w.all;
            Take(EligibleAfter(w.ids, After(w, n).rows, w.cutoff, LastOf(all, n)), batchSize)
            == all[n..if n + batchSize < |all| then n + batchSize else |all|]
  {
    RowsAreFlagged(w, n);
    FlaggingKeepsLaterPages(w.ids, w.rows, w.cutoff, LastOf(w.all, n), w.recipients, w.sends);
    PageFollowsCursor(w.ids, w.rows, w.cutoff, n);
  }

  /** The body of the inner loop: one page of events, mailed one by one. */
  method ProcessPage(db: EventTable, mail: Mailer, page: seq<nat>, sentSoFar: nat, recipients: map<nat, string>, sends: set<nat>,
                     ghost w: Start, ghost start: nat)
    returns (emailsSent: nat)
    requires IsStart(w) && recipients == w.recipients && sends == w.sends
    requires start + |page| <= |w.all| && page == w.all[start..start + |page|]
    requires Progress(db.rows, sentSoFar, mail.attempts) == After(w, start)
    modifies db, mail
    ensures Progress(db.rows, emailsSent, mail.attempts) == After(w, start + |page|)
  {
    emailsSent := sentSoFar;
    for i := 0 to |page|
      invariant Progress(db.rows, emailsSent, mail.attempts) == After(w, start + i)
    {
      var id := page[i];
      NextIsListed(w, start + i);
      var recipientEmail := if id in recipients then recipients[id] else "";
      if recipientEmail == "" {
        continue;
      }
      var success := mail.Send(id, id in sends);
      if success {
        db.rows := db.rows[id := db.rows[id].(emailSent := true)];
        emailsSent := emailsSent + 1;
      }
    }
  }

  /** One query for the next page. */
  method FetchPage(db: EventTable, cutoff: int, cursor: nat, batchSize: nat, ghost w: Start, ghost n: nat)
    returns (page: seq<nat>)
    requires IsStart(w) && n <= |w.all| && cursor == LastOf(w.all, n)
    requires db.ids == w.ids && db.rows == After(w, n).rows && cutoff == w.cutoff
    ensures |page| == (if n + batchSize < |w.all| then batchSize else |w.all| - n) && page == w.all[n..n + |page|]
  {
    FetchedPage(w, n, batchSize);
    page := Take(EligibleAfter(db.ids, db.rows, cutoff, cursor), batchSize);
  }

  /** `recipients` is who would be written to about each event (nobody, or an empty address, is skipped);
      `sends` is the events whose mail the provider accepts. `visited` is what the loops go through, in order: every event
      eligible at entry, once. Each of them that has a recipient is mailed about, once. */
  method ProcessPostEventEmails(db: EventTable, mail: Mailer, now: int, forceImmediate: bool, batchSize: nat,
                                recipients: map<nat, string>, sends: set<nat>)
    returns (processedEvents: nat, emailsSent: nat, visited: seq<nat>)
    requires db.Valid() && batchSize >= 1
    modifies db, mail
    ensures db.Valid()
    ensures var cutoff := Cutoff(now, forceImmediate);
            var all := EligibleAfter(db.ids, old(db.rows), cutoff, 0);
            && visited == all && Increasing(visited)
            && processedEvents == |visited|
            && mail.attempts == old(mail.attempts) + Reachable(all, recipients)
            && db.rows == FlagDelivered(old(db.rows), cutoff, recipients, sends)
            && emailsSent == CountDelivered(all, recipients, sends)
    ensures IsSweepOf(old(db.rows), db.rows, now, forceImmediate, visited, recipients, sends)
  {
    var cutoff := Cutoff(now, forceImmediate);
    SweepMeans(db.ids, db.rows, now, forceImmediate, recipients, sends);
    ghost var w := Start(db.ids, db.rows, cutoff, EligibleAfter(db.ids, db.rows, cutoff, 0), mail.attempts, recipients, sends);
    processedEvents, emailsSent, visited := SweepPages(db, mail, cutoff, batchSize, recipients, sends, w);
    EndOfSweep(w);
  }

  lemma NextStretch(all: seq<nat>, n: nat, page: seq<nat>)
    requires n + |page| <= |all| && page == all[n..n + |page|] && page != []
    ensures all[..n] + page == all[..n + |page|] && page[|page| - 1] == LastOf(all, n + |page|)
  {
  }

  /** The cursor after a page: the id of its last event. */
  method CursorAfter(page: seq<nat>, ghost all: seq<nat>, ghost n: nat, ghost next: nat) returns (cursor: nat)
    requires page != [] && next == n + |page| <= |all| && page == all[n..next]
    ensures cursor == LastOf(all, next)
  {
    NextStretch(all, n, page);
    cursor := page[|page| - 1];
  }

  /** What a sweep does, row by row. It takes up the events of a programme that ended an hour ago or more (by now, if
      forced), whose attendance nobody has confirmed and about which no mail went out; and of all rows it changes those,
      with somebody to write to, whose mail was taken, and those only to say so. */
  ghost predicate IsSweepOf(before: map<nat, EventRow>, after: map<nat, EventRow>, now: int, forceImmediate: bool,
                            visited: seq<nat>, recipients: map<nat, string>, sends: set<nat>)
  {
    && (forall id :: id in visited <==>
          && id in before && before[id].endAt <= (if forceImmediate then now else now - 3_600_000)
          && !before[id].emailSent && before[id].confirmedAt.None? && before[id].programId.Some?)
    && after.Keys == before.Keys
    && (forall id | id in before ::
          after[id] == if id in visited && id in recipients && recipients[id] != "" && id in sends
                       then before[id].(emailSent := true) else before[id])
  }

  lemma SweepMeans(ids: seq<nat>, rows: map<nat, EventRow>, now: int, forceImmediate: bool, recipients: map<nat, string>,
                   sends: set<nat>)
    requires Lists(ids, rows)
    ensures var cutoff := Cutoff(now, forceImmediate);
            IsSweepOf(rows, FlagDelivered(rows, cutoff, recipients, sends), now, forceImmediate,
                      EligibleAfter(ids, rows, cutoff, 0), recipients, sends)
  {
    var cutoff := Cutoff(now, forceImmediate);
    forall id: nat ensures id in EligibleAfter(ids, rows, cutoff, 0) <==> id in rows && Eligible(rows[id], cutoff) {
      EligibleIff(ids, rows, cutoff, 0, id);
    }
  }

  /** The events mailed about by a sweep: those visited that have somebody to write to. */
  lemma {:induction false} InReachable(ids: seq<nat>, recipients: map<nat, string>, id: nat)
    ensures id in Reachable(ids, recipients) <==> id in ids && id in recipients && recipients[id] != ""
    ensures Increasing(ids) ==> Increasing(Reachable(ids, recipients))
    decreases |ids|
  {
    if ids != [] {
      var init, last := ids[..|ids| - 1], ids[|ids| - 1];
      InReachable(init, recipients, id);
      assert ids == init + [last];
      if Increasing(ids) {
        ReachableBefore(init, recipients, last);
      }
    }
  }

  lemma {:induction false} ReachableBefore(ids: seq<nat>, recipients: map<nat, string>, bound: nat)
    requires forall i | 0 <= i < |ids| :: ids[i] < bound
    ensures forall i | 0 <= i < |Reachable(ids, recipients)| :: Reachable(ids, recipients)[i] < bound
    decreases |ids|
  {
    if ids != [] {
      ReachableBefore(ids[..|ids| - 1], recipients, bound);
    }
  }

  /** Sweeps one after the other, each starting from the table the last one left. */
  ghost predicate AreSweeps(tables: seq<map<nat, EventRow>>, visits: seq<seq<nat>>, times: seq<int>, forced: seq<bool>,
                            recipients: seq<map<nat, string>>, sends: seq<set<nat>>)
  {
    && |tables| == |visits| + 1 && |visits| == |times| == |forced| == |recipients| == |sends|
    && forall k | 0 <= k < |visits| ::
         IsSweepOf(tables[k], tables[k + 1], times[k], forced[k], visits[k], recipients[k], sends[k])
  }

  lemma {:induction false} MailedStaysMailed(tables: seq<map<nat, EventRow>>, visits: seq<seq<nat>>, times: seq<int>,
                                            forced: seq<bool>, recipients: seq<map<nat, string>>, sends: seq<set<nat>>,
                                            i: nat, j: nat, id: nat)
    requires AreSweeps(tables, visits, times, forced, recipients, sends) && i <= j <= |visits|
    requires id in tables[i] && tables[i][id].emailSent
    ensures id in tables[j] && tables[j][id].emailSent
    decreases j
  {
    if i < j {
      MailedStaysMailed(tables, visits, times, forced, recipients, sends, i, j - 1, id);
      assert IsSweepOf(tables[j - 1], tables[j], times[j - 1], forced[j - 1], visits[j - 1], recipients[j - 1], sends[j - 1]);
    }
  }

  /** Over any sweeps, at any times, forced or not: an event whose mail has gone out is not taken up again. */
  lemma NoEventIsMailedTwice(tables: seq<map<nat, EventRow>>, visits: seq<seq<nat>>, times: seq<int>, forced: seq<bool>,
                             recipients: seq<map<nat, string>>, sends: seq<set<nat>>, i: nat, j: nat, id: nat)
    requires AreSweeps(tables, visits, times, forced, recipients, sends) && i < j < |visits|
    requires id in visits[i] && id in recipients[i] && recipients[i][id] != "" && id in sends[i]
    ensures id !in visits[j]
  {
    assert IsSweepOf(tables[i], tables[i + 1], times[i], forced[i], visits[i], recipients[i], sends[i]);
    MailedStaysMailed(tables, visits, times, forced, recipients, sends, i + 1, j, id);
    assert IsSweepOf(tables[j], tables[j + 1], times[j], forced[j], visits[j], recipients[j], sends[j]);
  }

  /** The outer loop: page after page until one comes back empty. */
  method SweepPages(db: EventTable, mail: Mailer, cutoff: int, batchSize: nat, recipients: map<nat, string>, sends: set<nat>,
                    ghost w: Start)
    returns (processedEvents: nat, emailsSent: nat, visited: seq<nat>)
    requires IsStart(w) && w == Start(db.ids, db.rows, cutoff, w.all, mail.attempts, recipients, sends) && batchSize >= 1
    modifies db, mail
    ensures visited == w.all && processedEvents == |visited|
    ensures Progress(db.rows, emailsSent, mail.attempts) == After(w, |w.all|)
  {
    processedEvents, emailsSent, visited := 0, 0, [];
    var cursor := 0;
    while true
      invariant processedEvents <= |w.all| && cursor == LastOf(w.all, processedEvents)
      invariant visited == w.all[..processedEvents]
      invariant Progress(db.rows, emailsSent, mail.attempts) == After(w, processedEvents)
      decreases |w.all| - processedEvents
    {
      var finishedEvents := FetchPage(db, cutoff, cursor, batchSize, w, processedEvents);
      if |finishedEvents| == 0 {
        break;
      }
      emailsSent := ProcessPage(db, mail, finishedEvents, emailsSent, recipients, sends, w, processedEvents);
      NextStretch(w.all, processedEvents, finishedEvents);
      visited := visited + finishedEvents;
      ghost var n := processedEvents;
      processedEvents := processedEvents + |finishedEvents|;
      cursor := CursorAfter(finishedEvents, w.all, n, processedEvents);
    }
    assert w.all[..|w.all|] == w.all;
  }

  lemma EndOfSweep(w: Start)
    requires IsStart(w)
    ensures After(w, |w.all|) == Progress(FlagDelivered(w.rows, w.cutoff, w.recipients, w.sends),
                                           CountDelivered(w.all, w.recipients, w.sends),
                                           w.mailed + Reachable(w.all, w.recipients))
    ensures Lists(w.ids, FlagDelivered(w.rows, w.cutoff, w.recipients, w.sends)) && Increasing(w.all)
  {
    RowsAreFlagged(w, |w.all|);
    forall id | id in w.all ensures id in w.rows {
      EligibleIff(w.ids, w.rows, w.cutoff, 0, id);
    }
    MailsAreCounted(w, |w.all|);
    FlaggedPastTheEnd(w.ids, w.rows, w.cutoff, w.recipients, w.sends);
    EligibleIncreasing(w.ids, w.rows, w.cutoff, 0);
    assert w.all[..|w.all|] == w.all;
  }

  ghost function DeliveredSet(ids: seq<nat>, recipients: map<nat, string>, sends: set<nat>): set<nat> {
    set id | id in ids && Delivered(id, recipients, sends)
  }

  lemma LastIsNew(ids: seq<nat>)
    requires Increasing(ids) && ids != []
    ensures Increasing(ids[..|ids| - 1]) && ids[|ids| - 1] !in ids[..|ids| - 1]
  {
  }

  lemma InPrefixOrLast(ids: seq<nat>, id: nat)
    requires ids != []
    ensures id in ids <==> id in ids[..|ids| - 1] || id == ids[|ids| - 1]
  {
    assert ids == ids[..|ids| - 1] + [ids[|ids| - 1]];
  }

  /** The reported count is the number of rows the sweep turned from unsent to sent. */
  lemma {:induction false} SentCountIsFlagCount(ids: seq<nat>, recipients: map<nat, string>, sends: set<nat>)
    requires Increasing(ids)
    ensures CountDelivered(ids, recipients, sends) == |DeliveredSet(ids, recipients, sends)|
  {
    if ids != [] {
      var init, last := ids[..|ids| - 1], ids[|ids| - 1];
      LastIsNew(ids);
      SentCountIsFlagCount(init, recipients, sends);
      forall id ensures id in ids <==> id in init || id == last {
        InPrefixOrLast(ids, id);
      }
      var earlier := DeliveredSet(init, recipients, sends);
      if Delivered(last, recipients, sends) {
        assert DeliveredSet(ids, recipients, sends) == earlier + {last};
      } else {
        assert DeliveredSet(ids, recipients, sends) == earlier;
      }
    }
  }
}
