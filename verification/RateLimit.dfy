/** The in-memory fixed-window rate limiter. Times are epoch milliseconds. */
module RateLimit {
  import opened Options

  const SWEEP_INTERVAL_MS := 60_000

  datatype Window = Window(count: int, resetAt: int)
  datatype Answer = Answer(ok: bool, retryAfterSec: int)
  datatype Call = Call(key: string, limit: int, windowMs: int, now: int)

  type Buckets = map<string, Window>

  /** `Math.ceil(ms / 1000)`. */
  function CeilSeconds(ms: int): int {
    -((-ms) / 1000)
  }

  // ---------------------------------------------------------------------------
  // One bucket
  // ---------------------------------------------------------------------------

  /** The window a call at `now` meets: an expired one is as good as none. */
  function Live(w: Option<Window>, now: int): Option<Window> {
    if w.Some? && w.value.resetAt <= now then None else w
  }

  function Bucket(buckets: Buckets, key: string): Option<Window> {
    if key in buckets then Some(buckets[key]) else None
  }

  function Decide(w: Option<Window>, limit: int, windowMs: int, now: int): (r: (Answer, Window)) {
    match Live(w, now)
    case None => (Answer(true, 0), Window(1, now + windowMs))
    case Some(live) =>
      if live.count < limit then (Answer(true, 0), live.(count := live.count + 1))
      else (Answer(false, CeilSeconds(live.resetAt - now)), live)
  }

  function Swept(buckets: Buckets, now: int): Buckets {
    map key | key in buckets && buckets[key].resetAt > now :: buckets[key]
  }

  // ---------------------------------------------------------------------------
  // The limiter
  // ---------------------------------------------------------------------------

  class RateLimiter {
    var buckets: Buckets
    var lastSweep: int

    constructor ()
      ensures buckets == map[] && lastSweep == 0
    {
      buckets, lastSweep := map[], 0;
    }

    method Sweep(now: int)
      modifies this
      ensures if now - old(lastSweep) < 60_000
              then buckets == old(buckets) && lastSweep == old(lastSweep)
              else buckets == Swept(old(buckets), now) && lastSweep == now
    {
      if now - lastSweep < SWEEP_INTERVAL_MS {
        return;
      }
      lastSweep := now;
      var keys := buckets.Keys;
      while keys != {}
        invariant keys <= buckets.Keys <= old(buckets).Keys && lastSweep == now
        invariant forall key | key in buckets :: buckets[key] == old(buckets)[key]
        invariant forall key | key in buckets && key !in keys :: buckets[key].resetAt > now
        invariant forall key | key in old(buckets) && key !in buckets :: old(buckets)[key].resetAt <= now
        decreases keys
      {
        var key :| key in keys;
        if buckets[key].resetAt <= now {
          buckets := buckets - {key};
        }
        keys := keys - {key};
      }
    }

    method CheckRateLimit(key: string, limit: int, windowMs: int, now: int) returns (answer: Answer)
      modifies this
      ensures var (expected, window) := Decide(Bucket(old(buckets), key), limit, windowMs, now);
              && answer == expected
              && Bucket(buckets, key) == Some(window)
              && (forall other | other != key :: Bucket(buckets, other) == Bucket(old(buckets), other))
      ensures lastSweep == old(lastSweep)
    {
      if key !in buckets || buckets[key].resetAt <= now {
        buckets := buckets[key := Window(1, now + windowMs)];
        return Answer(true, 0);
      }
      var w := buckets[key];
      if w.count < limit {
        buckets := buckets[key := w.(count := w.count + 1)];
        return Answer(true, 0);
      }
      return Answer(false, CeilSeconds(w.resetAt - now));
    }

    /** `rateLimit` / `rateLimitEmail` once the bucket key is known. */
    method RateLimit(call: Call) returns (answer: Answer)
      modifies this
      ensures var (expected, after, swept) := Step(old(buckets), old(lastSweep), call);
              answer == expected && buckets == after && lastSweep == swept
    {
      Sweep(call.now);
      label afterSweep:
      answer := CheckRateLimit(call.key, call.limit, call.windowMs, call.now);
      assert forall other | other != call.key :: Bucket(buckets, other) == Bucket(old@afterSweep(buckets), other);
      assert buckets == old@afterSweep(buckets)[call.key := buckets[call.key]] by {
        forall key ensures Bucket(buckets, key) == Bucket(old@afterSweep(buckets)[call.key := buckets[call.key]], key) {}
        EqualBuckets(buckets, old@afterSweep(buckets)[call.key := buckets[call.key]]);
      }
    }
  }

  lemma EqualBuckets(a: Buckets, b: Buckets)
    requires forall key :: Bucket(a, key) == Bucket(b, key)
    ensures a == b
  {
    assert forall key :: key in a <==> Bucket(a, key).Some?;
    assert forall key :: key in b <==> Bucket(b, key).Some?;
    assert forall key | key in a :: Some(a[key]) == Bucket(a, key) == Bucket(b, key) == Some(b[key]);
  }

  /** One routed call: perhaps a sweep, then the check. */
  function Step(buckets: Buckets, lastSweep: int, call: Call): (Answer, Buckets, int) {
    var sweeps := call.now - lastSweep >= SWEEP_INTERVAL_MS;
    var kept := if sweeps then Swept(buckets, call.now) else buckets;
    var (answer, window) := Decide(Bucket(kept, call.key), call.limit, call.windowMs, call.now);
    (answer, kept[call.key := window], if sweeps then call.now else lastSweep)
  }

  // ---------------------------------------------------------------------------
  // Runs
  // ---------------------------------------------------------------------------

  /** The answers of the limiter to a run of calls on any keys. */
  function Answers(buckets: Buckets, lastSweep: int, calls: seq<Call>): (r: seq<Answer>)
    ensures |r| == |calls|
    decreases |calls|
  {
    if calls == [] then []
    else
      var (answer, after, swept) := Step(buckets, lastSweep, calls[0]);
      [answer] + Answers(after, swept, calls[1..])
  }

  /** The same limiter with the sweep taken out. */
  function AnswersUnswept(buckets: Buckets, calls: seq<Call>): (r: seq<Answer>)
    ensures |r| == |calls|
    decreases |calls|
  {
    if calls == [] then []
    else
      var (answer, window) := Decide(Bucket(buckets, calls[0].key), calls[0].limit, calls[0].windowMs, calls[0].now);
      [answer] + AnswersUnswept(buckets[calls[0].key := window], calls[1..])
  }

  ghost predicate InTimeOrder(calls: seq<Call>, from: int) {
    && (forall i | 0 <= i < |calls| :: from <= calls[i].now)
    && (forall i, j | 0 <= i < j < |calls| :: calls[i].now <= calls[j].now)
  }

  ghost predicate SameLive(a: Buckets, b: Buckets, now: int) {
    forall key :: Live(Bucket(a, key), now) == Live(Bucket(b, key), now)
  }

  /** Sweeping expired windows changes no answer, now or later. */
  lemma {:induction false} SweepIsInvisible(swept: Buckets, unswept: Buckets, lastSweep: int, calls: seq<Call>, from: int)
    requires InTimeOrder(calls, from) && SameLive(swept, unswept, from)
    ensures Answers(swept, lastSweep, calls) == AnswersUnswept(unswept, calls)
    decreases |calls|
  {
    if calls != [] {
      var call := calls[0];
      var (answer, after, last) := Step(swept, lastSweep, call);
      var (plain, window) := Decide(Bucket(unswept, call.key), call.limit, call.windowMs, call.now);
      var kept := if call.now - lastSweep >= SWEEP_INTERVAL_MS then Swept(swept, call.now) else swept;
      forall key ensures Live(Bucket(kept, key), call.now) == Live(Bucket(unswept, key), call.now) {
        assert Live(Bucket(swept, key), from) == Live(Bucket(unswept, key), from);
      }
      assert answer == plain && after == kept[call.key := window];
      forall key ensures Live(Bucket(after, key), call.now) == Live(Bucket(unswept[call.key := window], key), call.now) {
        assert Live(Bucket(kept, key), call.now) == Live(Bucket(unswept, key), call.now);
      }
      SweepIsInvisible(after, unswept[call.key := window], last, calls[1..], call.now);
    }
  }

  // ---------------------------------------------------------------------------
  // How many calls get through
  // ---------------------------------------------------------------------------

  predicate Within(t: int, start: int, length: int) {
    start <= t < start + length
  }

  /** Allowed calls on `key` at times in [start, start + length). */
  function AllowedIn(calls: seq<Call>, answers: seq<Answer>, key: string, start: int, length: int): nat
    requires |answers| == |calls|
  {
    if calls == [] then 0
    else
      (if calls[0].key == key && answers[0].ok && Within(calls[0].now, start, length) then 1 else 0)
      + AllowedIn(calls[1..], answers[1..], key, start, length)
  }

  function AtLeastOne(limit: int): int {
    if limit < 1 then 1 else limit
  }

  /** Calls still allowed in [start, start + length) once no window is open from time t on. */
  function FreshBudget(t: int, start: int, length: int, most: int): int {
    if t >= start + length then 0
    else if t >= start then most
    else 2 * most - 1
  }

  function Budget(w: Option<Window>, t: int, start: int, length: int, most: int): int {
    if t >= start + length then 0
    else
      match Live(w, t)
      case None => FreshBudget(t, start, length, most)
      case Some(live) =>
        (if live.resetAt <= start then 0 else most - live.count) + FreshBudget(live.resetAt, start, length, most)
  }

  ghost predicate CountOk(w: Option<Window>, most: int) {
    w.Some? ==> 1 <= w.value.count <= most
  }

  lemma BudgetFalls(w: Option<Window>, limit: int, t0: int, t: int, start: int, length: int)
    requires t0 <= t && CountOk(w, AtLeastOne(limit))
    ensures var most := AtLeastOne(limit);
            var (answer, window) := Decide(w, limit, length, t);
            && CountOk(Some(window), most)
            && (if answer.ok && Within(t, start, length) then 1 else 0) + Budget(Some(window), t, start, length, most)
               <= Budget(w, t0, start, length, most)
    ensures var most := AtLeastOne(limit);
            Budget(w, t, start, length, most) <= Budget(w, t0, start, length, most)
  {
  }

  lemma {:induction false} AllowedWithinBudget(buckets: Buckets, calls: seq<Call>, from: int, key: string, limit: int, start: int, length: int)
    requires InTimeOrder(calls, from)
    requires forall i | 0 <= i < |calls| && calls[i].key == key :: calls[i].limit == limit && calls[i].windowMs == length
    requires CountOk(Bucket(buckets, key), AtLeastOne(limit))
    ensures AllowedIn(calls, AnswersUnswept(buckets, calls), key, start, length)
            <= Budget(Bucket(buckets, key), from, start, length, AtLeastOne(limit))
    decreases |calls|
  {
    if calls != [] {
      var call := calls[0];
      var (answer, window) := Decide(Bucket(buckets, call.key), call.limit, call.windowMs, call.now);
      var answers := AnswersUnswept(buckets, calls);
      assert answers[1..] == AnswersUnswept(buckets[call.key := window], calls[1..]);
      BudgetFalls(Bucket(buckets, key), limit, from, call.now, start, length);
      AllowedWithinBudget(buckets[call.key := window], calls[1..], call.now, key, limit, start, length);
    }
  }

  /** Whatever the other keys do and whenever the sweeps fall, in any interval as long as the window one key
      gets at most 2 * limit - 1 calls through (a limit below one still admits the call that opens a window). */
  lemma AtMostTwiceTheLimit(calls: seq<Call>, from: int, lastSweep: int, key: string, limit: int, start: int, length: int)
    requires InTimeOrder(calls, from)
    requires forall i | 0 <= i < |calls| && calls[i].key == key :: calls[i].limit == limit && calls[i].windowMs == length
    ensures AllowedIn(calls, Answers(map[], lastSweep, calls), key, start, length) <= 2 * AtLeastOne(limit) - 1
  {
    SweepIsInvisible(map[], map[], lastSweep, calls, from);
    AllowedWithinBudget(map[], calls, from, key, limit, start, length);
  }

  /** From a time at which the key has no open window, whatever else the limiter holds: within the window that the
      next call opens, at most `limit` calls on the key are let through. */
  lemma AtMostTheLimitPerWindow(buckets: Buckets, lastSweep: int, calls: seq<Call>, key: string, limit: int, length: int)
    requires calls != [] && calls[0].key == key && InTimeOrder(calls, calls[0].now)
    requires Live(Bucket(buckets, key), calls[0].now).None?
    requires forall i | 0 <= i < |calls| && calls[i].key == key :: calls[i].limit == limit && calls[i].windowMs == length
    ensures AllowedIn(calls, Answers(buckets, lastSweep, calls), key, calls[0].now, length) <= AtLeastOne(limit)
  {
    var t, others := calls[0].now, buckets - {key};
    assert forall other :: other != key ==> Bucket(others, other) == Bucket(buckets, other);
    SweepIsInvisible(buckets, others, lastSweep, calls, t);
    AllowedWithinBudget(others, calls, t, key, limit, t, length);
  }

  // ---------------------------------------------------------------------------
  // The bound is reached
  // ---------------------------------------------------------------------------

  function Burst(call: Call, n: nat): (calls: seq<Call>)
    ensures |calls| == n && forall i | 0 <= i < n :: calls[i] == call
  {
    seq(n, _ => call)
  }

  /** A burst at one instant inside a live window, followed by more calls. */
  lemma {:induction false} BurstIsCounted(buckets: Buckets, call: Call, n: nat, rest: seq<Call>, start: int)
    requires call.key in buckets && buckets[call.key].resetAt > call.now && buckets[call.key].count + n <= call.limit
    requires Within(call.now, start, call.windowMs)
    ensures var w := buckets[call.key];
            var after := buckets[call.key := w.(count := w.count + n)];
            AllowedIn(Burst(call, n) + rest, AnswersUnswept(buckets, Burst(call, n) + rest), call.key, start, call.windowMs)
            == n + AllowedIn(rest, AnswersUnswept(after, rest), call.key, start, call.windowMs)
    decreases n
  {
    var w := buckets[call.key];
    var calls := Burst(call, n) + rest;
    if n == 0 {
      assert calls == rest && buckets[call.key := w] == buckets;
    } else {
      var next := buckets[call.key := w.(count := w.count + 1)];
      assert calls[1..] == Burst(call, n - 1) + rest;
      assert AnswersUnswept(buckets, calls)[1..] == AnswersUnswept(next, calls[1..]);
      BurstIsCounted(next, call, n - 1, rest, start);
      assert next[call.key := next[call.key].(count := next[call.key].count + (n - 1))] == buckets[call.key := w.(count := w.count + n)];
    }
  }

  /** The first call of a fresh window. */
  lemma OpeningIsCounted(buckets: Buckets, call: Call, rest: seq<Call>, start: int)
    requires call.key in buckets ==> buckets[call.key].resetAt <= call.now
    ensures var after := buckets[call.key := Window(1, call.now + call.windowMs)];
            AllowedIn([call] + rest, AnswersUnswept(buckets, [call] + rest), call.key, start, call.windowMs)
            == (if Within(call.now, start, call.windowMs) then 1 else 0)
               + AllowedIn(rest, AnswersUnswept(after, rest), call.key, start, call.windowMs)
  {
    var after := buckets[call.key := Window(1, call.now + call.windowMs)];
    assert ([call] + rest)[1..] == rest;
    assert AnswersUnswept(buckets, [call] + rest)[1..] == AnswersUnswept(after, rest);
  }

  /** One call, then a burst at the end of its window and one at the start of the next. */
  function WorstCase(key: string, limit: int, length: int): seq<Call>
    requires limit >= 1
  {
    [Call(key, limit, length, 0)]
    + (Burst(Call(key, limit, length, length - 1), limit - 1)
       + ([Call(key, limit, length, length)] + Burst(Call(key, limit, length, length), limit - 1)))
  }

  lemma WorstCaseCalls(key: string, limit: int, length: int)
    requires limit >= 1 && length >= 2
    ensures var calls := WorstCase(key, limit, length);
            && InTimeOrder(calls, 0)
            && (forall i | 0 <= i < |calls| :: calls[i].key == key && calls[i].limit == limit && calls[i].windowMs == length)
  {
    var calls := WorstCase(key, limit, length);
    assert |calls| == 2 * limit;
    forall i | 0 <= i < |calls|
      ensures calls[i] == Call(key, limit, length, if i == 0 then 0 else if i < limit then length - 1 else length)
    {
    }
  }

  /** For every limit and window there is a run in time order, from the empty limiter, that gets so many through. */
  lemma BoundIsReached(key: string, limit: int, length: int)
    requires limit >= 1 && length >= 2
    ensures var calls := WorstCase(key, limit, length);
            && InTimeOrder(calls, 0)
            && (forall i | 0 <= i < |calls| :: calls[i].key == key && calls[i].limit == limit && calls[i].windowMs == length)
            && AllowedIn(calls, Answers(map[], 0, calls), key, length - 1, length) == 2 * limit - 1
  {
    var calls := WorstCase(key, limit, length);
    WorstCaseCalls(key, limit, length);
    SweepIsInvisible(map[], map[], 0, calls, 0);
    WorstCaseIsCounted(key, limit, length);
  }

  lemma WorstCaseIsCounted(key: string, limit: int, length: int)
    requires limit >= 1 && length >= 2
    ensures var calls := WorstCase(key, limit, length);
            AllowedIn(calls, AnswersUnswept(map[], calls), key, length - 1, length) == 2 * limit - 1
  {
    var start := length - 1;
    var late, next := Call(key, limit, length, length - 1), Call(key, limit, length, length);
    var third := Burst(next, limit - 1);
    var second := [next] + third;
    var first := Burst(late, limit - 1) + second;
    var empty: Buckets := map[];
    OpeningIsCounted(empty, Call(key, limit, length, 0), first, start);
    var b0 := empty[key := Window(1, length)];
    BurstIsCounted(b0, late, limit - 1, second, start);
    SecondWindowIsCounted(b0[key := Window(limit, length)], key, limit, length);
  }

  lemma SecondWindowIsCounted(buckets: Buckets, key: string, limit: int, length: int)
    requires limit >= 1 && length >= 2
    requires key in buckets && buckets[key].resetAt == length
    ensures var next := Call(key, limit, length, length);
            var calls := [next] + Burst(next, limit - 1);
            AllowedIn(calls, AnswersUnswept(buckets, calls), key, length - 1, length) == limit
  {
    var next := Call(key, limit, length, length);
    var third := Burst(next, limit - 1);
    OpeningIsCounted(buckets, next, third, length - 1);
    BurstIsCounted(buckets[key := Window(1, 2 * length)], next, limit - 1, [], length - 1);
    assert third + [] == third;
  }

  // ---------------------------------------------------------------------------
  // Retry-After
  // ---------------------------------------------------------------------------

  function Unswept(buckets: Buckets, call: Call): Buckets {
    buckets[call.key := Decide(Bucket(buckets, call.key), call.limit, call.windowMs, call.now).1]
  }

  /** The limiter without sweeps after the first k calls. */
  function StateAt(buckets: Buckets, calls: seq<Call>, k: nat): Buckets
    requires k <= |calls|
    decreases k
  {
    if k == 0 then buckets else StateAt(Unswept(buckets, calls[0]), calls[1..], k - 1)
  }

  lemma {:induction false} AnswerAt(buckets: Buckets, calls: seq<Call>, k: nat)
    requires k < |calls|
    ensures var call, state := calls[k], StateAt(buckets, calls, k);
            && AnswersUnswept(buckets, calls)[k] == Decide(Bucket(state, call.key), call.limit, call.windowMs, call.now).0
            && StateAt(buckets, calls, k + 1) == Unswept(state, call)
    decreases k
  {
    if k > 0 {
      AnswerAt(Unswept(buckets, calls[0]), calls[1..], k - 1);
    }
  }

  /** No window on the key is open for longer than its length from t on. */
  predicate EndsWithin(w: Option<Window>, t: int, length: int) {
    w.Some? ==> w.value.resetAt <= t + length
  }

  lemma {:induction false} WindowsEndWithin(buckets: Buckets, calls: seq<Call>, from: int, key: string, length: int, k: nat)
    requires InTimeOrder(calls, from) && EndsWithin(Bucket(buckets, key), from, length) && k < |calls|
    requires forall i | 0 <= i < |calls| && calls[i].key == key :: calls[i].windowMs == length
    ensures EndsWithin(Bucket(StateAt(buckets, calls, k), key), calls[k].now, length)
    decreases k
  {
    if k > 0 {
      WindowsEndWithin(Unswept(buckets, calls[0]), calls[1..], calls[0].now, key, length, k - 1);
    }
  }

  /** Calls on other keys leave the window alone. */
  lemma {:induction false} UntouchedBetween(buckets: Buckets, calls: seq<Call>, key: string, i: nat, j: nat)
    requires i <= j <= |calls| && forall k | i <= k < j :: calls[k].key != key
    ensures Bucket(StateAt(buckets, calls, j), key) == Bucket(StateAt(buckets, calls, i), key)
    decreases j
  {
    if i < j {
      UntouchedBetween(buckets, calls, key, i, j - 1);
      AnswerAt(buckets, calls, j - 1);
    }
  }

  /** In any run, whatever the other keys do and whenever the sweeps fall: a caller denied at call i is told to wait
      between one second and the window rounded up. If its next call comes after that wait it is let through; a whole
      second earlier it would not have been. */
  lemma RetryAfterIsHonest(buckets: Buckets, lastSweep: int, calls: seq<Call>, from: int, limit: int, length: int, i: nat, j: nat)
    requires InTimeOrder(calls, from) && i < j < |calls| && calls[i].key == calls[j].key
    requires forall k | 0 <= k < |calls| && calls[k].key == calls[i].key :: calls[k].limit == limit && calls[k].windowMs == length
    requires EndsWithin(Bucket(buckets, calls[i].key), from, length)
    requires forall k | i < k < j :: calls[k].key != calls[i].key
    requires !Answers(buckets, lastSweep, calls)[i].ok
    ensures var answers := Answers(buckets, lastSweep, calls);
            var wait := 1000 * answers[i].retryAfterSec;
            && 1 <= answers[i].retryAfterSec <= CeilSeconds(length)
            && (calls[j].now >= calls[i].now + wait ==> answers[j].ok)
            && (calls[j].now <= calls[i].now + wait - 1000 ==> !answers[j].ok)
  {
    var key := calls[i].key;
    SweepIsInvisible(buckets, buckets, lastSweep, calls, from);
    AnswerAt(buckets, calls, i);
    AnswerAt(buckets, calls, j);
    WindowsEndWithin(buckets, calls, from, key, length, i);
    UntouchedBetween(buckets, calls, key, i + 1, j);
    DeniedThenRetried(Bucket(StateAt(buckets, calls, i), key), limit, length, calls[i].now, calls[j].now);
  }

  lemma DeniedThenRetried(w: Option<Window>, limit: int, windowMs: int, now: int, later: int)
    requires EndsWithin(w, now, windowMs) && now <= later && !Decide(w, limit, windowMs, now).0.ok
    ensures var (denied, kept) := Decide(w, limit, windowMs, now);
            && Some(kept) == w && 1 <= denied.retryAfterSec <= CeilSeconds(windowMs)
            && (later >= now + 1000 * denied.retryAfterSec ==> Decide(w, limit, windowMs, later).0.ok)
            && (later <= now + 1000 * (denied.retryAfterSec - 1) ==> !Decide(w, limit, windowMs, later).0.ok)
  {
  }

  // ---------------------------------------------------------------------------
  // Whom it denies
  // ---------------------------------------------------------------------------

  /** Allowed calls on `key` among the first k, at times in [start, start + length). */
  function AllowedUpTo(calls: seq<Call>, answers: seq<Answer>, k: nat, key: string, start: int, length: int): nat
    requires k <= |calls| == |answers|
  {
    if k == 0 then 0
    else
      AllowedUpTo(calls, answers, k - 1, key, start, length)
      + (if calls[k - 1].key == key && answers[k - 1].ok && Within(calls[k - 1].now, start, length) then 1 else 0)
  }

  lemma {:induction false} AllowedSnoc(calls: seq<Call>, answers: seq<Answer>, key: string, start: int, length: int)
    requires |calls| == |answers| && calls != []
    ensures var n := |calls| - 1;
            AllowedIn(calls, answers, key, start, length)
            == AllowedIn(calls[..n], answers[..n], key, start, length)
               + if calls[n].key == key && answers[n].ok && Within(calls[n].now, start, length) then 1 else 0
    decreases |calls|
  {
    var n := |calls| - 1;
    if n > 0 {
      AllowedSnoc(calls[1..], answers[1..], key, start, length);
      assert calls[1..][..n - 1] == calls[..n][1..] && answers[1..][..n - 1] == answers[..n][1..];
    }
  }

  lemma {:induction false} AllowedUpToIs(calls: seq<Call>, answers: seq<Answer>, k: nat, key: string, start: int, length: int)
    requires k <= |calls| == |answers|
    ensures AllowedUpTo(calls, answers, k, key, start, length) == AllowedIn(calls[..k], answers[..k], key, start, length)
    decreases k
  {
    if k > 0 {
      AllowedUpToIs(calls, answers, k - 1, key, start, length);
      AllowedSnoc(calls[..k], answers[..k], key, start, length);
      assert calls[..k][..k - 1] == calls[..k - 1] && answers[..k][..k - 1] == answers[..k - 1];
    }
  }

  lemma {:induction false} NoneAllowedFrom(calls: seq<Call>, answers: seq<Answer>, k: nat, key: string, start: int, length: int)
    requires k <= |calls| == |answers|
    requires forall m | 0 <= m < k && calls[m].key == key && answers[m].ok :: calls[m].now < start
    ensures AllowedUpTo(calls, answers, k, key, start, length) == 0
    decreases k
  {
    if k > 0 {
      NoneAllowedFrom(calls, answers, k - 1, key, start, length);
    }
  }

  /** The key's window counts the calls allowed since it was opened, and no allowed call lies past its end. */
  ghost predicate Counted(calls: seq<Call>, answers: seq<Answer>, k: nat, key: string, w: Option<Window>, length: int)
    requires k <= |calls| == |answers|
  {
    && (forall m | 0 <= m < k && calls[m].key == key && answers[m].ok :: w.Some? && calls[m].now < w.value.resetAt)
    && (w.Some? ==> w.value.count == AllowedUpTo(calls, answers, k, key, w.value.resetAt - length, length))
  }

  lemma CountedNext(calls: seq<Call>, answers: seq<Answer>, k: nat, key: string, w: Option<Window>, limit: int, length: int)
    requires k < |calls| == |answers| && Counted(calls, answers, k, key, w, length)
    requires calls[k].key == key && length >= 1 && EndsWithin(w, calls[k].now, length)
    requires answers[k] == Decide(w, limit, length, calls[k].now).0
    ensures Counted(calls, answers, k + 1, key, Some(Decide(w, limit, length, calls[k].now).1), length)
  {
    if Live(w, calls[k].now).None? {
      NoneAllowedFrom(calls, answers, k, key, calls[k].now, length);
    }
  }

  lemma {:induction false} WindowsAreCounted(calls: seq<Call>, from: int, key: string, limit: int, length: int, k: nat)
    requires InTimeOrder(calls, from) && length >= 1 && k <= |calls|
    requires forall i | 0 <= i < |calls| && calls[i].key == key :: calls[i].limit == limit && calls[i].windowMs == length
    ensures Counted(calls, AnswersUnswept(map[], calls), k, key, Bucket(StateAt(map[], calls, k), key), length)
    decreases k
  {
    if k > 0 {
      var answers := AnswersUnswept(map[], calls);
      var before := Bucket(StateAt(map[], calls, k - 1), key);
      WindowsAreCounted(calls, from, key, limit, length, k - 1);
      AnswerAt(map[], calls, k - 1);
      if calls[k - 1].key == key {
        WindowsEndWithin(map[], calls, from, key, length, k - 1);
        CountedNext(calls, answers, k - 1, key, before, limit, length);
      }
    }
  }

  lemma {:induction false} CountsStayWithin(calls: seq<Call>, key: string, limit: int, k: nat)
    requires k <= |calls| && forall i | 0 <= i < |calls| && calls[i].key == key :: calls[i].limit == limit
    ensures CountOk(Bucket(StateAt(map[], calls, k), key), AtLeastOne(limit))
    decreases k
  {
    if k > 0 {
      CountsStayWithin(calls, key, limit, k - 1);
      AnswerAt(map[], calls, k - 1);
    }
  }

  /** In any run from the empty limiter, with any calls on other keys and any sweeps: a call is denied only within a window
      in which as many calls on its key as the limit allows (one, if it allows none) have been let through, and is told
      the seconds, rounded up, to the end of that window. */
  lemma DeniedFindsAFullWindow(lastSweep: int, calls: seq<Call>, from: int, limit: int, length: int, i: nat) returns (start: int)
    requires InTimeOrder(calls, from) && length >= 1 && i < |calls|
    requires forall k | 0 <= k < |calls| && calls[k].key == calls[i].key :: calls[k].limit == limit && calls[k].windowMs == length
    requires !Answers(map[], lastSweep, calls)[i].ok
    ensures start <= calls[i].now < start + length
    ensures var answers := Answers(map[], lastSweep, calls);
            && AllowedIn(calls[..i], answers[..i], calls[i].key, start, length) == (if limit < 1 then 1 else limit)
            && 1000 * (answers[i].retryAfterSec - 1) < start + length - calls[i].now <= 1000 * answers[i].retryAfterSec
  {
    var key := calls[i].key;
    var w := Bucket(StateAt(map[], calls, i), key);
    SweepIsInvisible(map[], map[], lastSweep, calls, from);
    AnswerAt(map[], calls, i);
    WindowsAreCounted(calls, from, key, limit, length, i);
    WindowsEndWithin(map[], calls, from, key, length, i);
    CountsStayWithin(calls, key, limit, i);
    start := w.value.resetAt - length;
    AllowedUpToIs(calls, AnswersUnswept(map[], calls), i, key, start, length);
  }
}
