/** Finding pile-ups: the one-pass sweep that groups a person's overlapping visits. */
module AttendanceConflicts {
  import opened Options
  import opened Sorting
  import opened Visits
  import opened AttendanceTransitions

  /** A null end is +infinity. */
  predicate EndsAfter(end: Option<int>, t: int) {
    end.None? || t < end.value
  }

  predicate IntervalsOverlap(a: Visit, b: Visit) {
    EndsAfter(b.departedAt, a.arrivedAt) && EndsAfter(a.departedAt, b.arrivedAt)
  }

  /** The visit covers the instant: from its arrival up to its departure, if any. */
  predicate Covers(v: Visit, t: int) {
    v.arrivedAt <= t && (v.departedAt.None? || t < v.departedAt.value)
  }

  /** Visits of positive length, or still open, overlap exactly when there is an instant they both cover. */
  lemma OverlapIffSharedInstant(a: Visit, b: Visit)
    requires a.departedAt.Some? ==> a.arrivedAt < a.departedAt.value
    requires b.departedAt.Some? ==> b.arrivedAt < b.departedAt.value
    ensures IntervalsOverlap(a, b) <==> exists t :: Covers(a, t) && Covers(b, t)
  {
    var later := if a.arrivedAt < b.arrivedAt then b.arrivedAt else a.arrivedAt;
    if IntervalsOverlap(a, b) {
      assert Covers(a, later) && Covers(b, later);
    }
  }

  /** Half-open and non-empty, which the typed-time rules demand of every recorded departure. */
  predicate PositiveOrOpen(v: Visit) {
    EndsAfter(v.departedAt, v.arrivedAt)
  }

  // ---------------------------------------------------------------------------
  // Pile-ups: the connected components of the overlap graph
  // ---------------------------------------------------------------------------

  ghost predicate IsChain(visits: seq<Visit>, chain: seq<Visit>) {
    && (forall k | 0 <= k < |chain| :: chain[k] in visits)
    && (forall k | 0 <= k < |chain| - 1 :: IntervalsOverlap(chain[k], chain[k + 1]))
  }

  ghost predicate ChainFrom(visits: seq<Visit>, chain: seq<Visit>, a: Visit, b: Visit) {
    chain != [] && chain[0] == a && chain[|chain| - 1] == b && IsChain(visits, chain)
  }

  /** A chain of pairwise overlaps leads from a to b. */
  ghost predicate Linked(visits: seq<Visit>, a: Visit, b: Visit) {
    exists chain :: ChainFrom(visits, chain, a, b)
  }

  ghost predicate Together(clusters: seq<seq<Visit>>, a: Visit, b: Visit) {
    exists k | 0 <= k < |clusters| :: a in clusters[k] && b in clusters[k]
  }

  /** The clusters are the components of size two or more, each visit in at most one of them. */
  ghost predicate AreComponents(visits: seq<Visit>, clusters: seq<seq<Visit>>) {
    && (forall k | 0 <= k < |clusters| :: |clusters[k]| >= 2 && Distinct(clusters[k]))
    && (forall k, v | 0 <= k < |clusters| && v in clusters[k] :: v in visits)
    && (forall k, l, v | 0 <= k < l < |clusters| && v in clusters[k] :: v !in clusters[l])
    && (forall a, b | a in visits && b in visits && a != b :: Together(clusters, a, b) <==> Linked(visits, a, b))
  }

  lemma LinkedReflexive(visits: seq<Visit>, a: Visit)
    requires a in visits
    ensures Linked(visits, a, a)
  {
    assert ChainFrom(visits, [a], a, a);
  }

  lemma LinkedStep(visits: seq<Visit>, a: Visit, b: Visit, c: Visit)
    requires Linked(visits, a, b) && c in visits && IntervalsOverlap(b, c)
    ensures Linked(visits, a, c)
  {
    var chain :| ChainFrom(visits, chain, a, b);
    assert ChainFrom(visits, chain + [c], a, c);
  }

  lemma LinkedSymmetric(visits: seq<Visit>, a: Visit, b: Visit)
    requires Linked(visits, a, b)
    ensures Linked(visits, b, a)
  {
    var chain :| ChainFrom(visits, chain, a, b);
    var back := seq(|chain|, k requires 0 <= k < |chain| => chain[|chain| - 1 - k]);
    forall k | 0 <= k < |back| - 1 ensures IntervalsOverlap(back[k], back[k + 1]) {
      assert IntervalsOverlap(chain[|chain| - 2 - k], chain[|chain| - 2 - k + 1]);
    }
    assert ChainFrom(visits, back, b, a);
  }

  lemma LinkedTransitive(visits: seq<Visit>, a: Visit, b: Visit, c: Visit)
    requires Linked(visits, a, b) && Linked(visits, b, c)
    ensures Linked(visits, a, c)
  {
    var p :| ChainFrom(visits, p, a, b);
    var q :| ChainFrom(visits, q, b, c);
    var r := p + q[1..];
    forall k | 0 <= k < |r| - 1 ensures IntervalsOverlap(r[k], r[k + 1]) {
      if k >= |p| - 1 {
        assert r[k] == q[k - (|p| - 1)] && r[k + 1] == q[k - (|p| - 1) + 1];
      }
    }
    assert ChainFrom(visits, r, a, c);
  }

  // ---------------------------------------------------------------------------
  // The sweep, in terms of cuts
  // ---------------------------------------------------------------------------

  /** Nothing that arrived earlier is still there when visit j arrives. */
  predicate Cut(sorted: seq<Visit>, j: nat)
    requires j < |sorted|
  {
    forall i | 0 <= i < j :: !EndsAfter(sorted[i].departedAt, sorted[j].arrivedAt)
  }

  function NextCut(sorted: seq<Visit>, from: nat): (j: nat)
    requires from <= |sorted|
    ensures from <= j <= |sorted|
    decreases |sorted| - from
  {
    if from == |sorted| || Cut(sorted, from) then from else NextCut(sorted, from + 1)
  }

  function IfPileUp(block: seq<Visit>): seq<seq<Visit>> {
    if |block| >= 2 then [block] else []
  }

  /** The blocks of two or more visits between consecutive cuts, from position b on. */
  function BlocksFrom(sorted: seq<Visit>, b: nat): seq<seq<Visit>>
    requires b <= |sorted|
    decreases |sorted| - b
  {
    if b == |sorted| then []
    else
      var e := NextCut(sorted, b + 1);
      IfPileUp(sorted[b..e]) + BlocksFrom(sorted, e)
  }

  function ByArrival(visits: seq<Visit>): seq<Visit> {
    SortBy(visits, (v: Visit) => v.arrivedAt)
  }

  function Clusters(visits: seq<Visit>): seq<seq<Visit>> {
    BlocksFrom(ByArrival(visits), 0)
  }

  ghost predicate InArrivalOrder(sorted: seq<Visit>) {
    forall i, j | 0 <= i < j < |sorted| :: sorted[i].arrivedAt <= sorted[j].arrivedAt
  }

  lemma ByArrivalSorts(visits: seq<Visit>)
    ensures InArrivalOrder(ByArrival(visits))
    ensures forall v :: v in ByArrival(visits) <==> v in visits
    ensures Distinct(visits) ==> Distinct(ByArrival(visits))
  {
    var key := (v: Visit) => v.arrivedAt;
    SortBySorts(visits, key);
    PermutationKeepsElements(visits, SortBy(visits, key));
    var sorted := ByArrival(visits);
    forall i, j | 0 <= i < j < |sorted| ensures sorted[i].arrivedAt <= sorted[j].arrivedAt {
      assert key(sorted[i]) <= key(sorted[j]);
    }
  }

  /** `maxEnd` bounds the block's departures and is one of them, so the sweep's single comparison sees them all. */
  ghost predicate IsMaxEnd(block: seq<Visit>, maxEnd: Option<int>) {
    && (exists i | 0 <= i < |block| :: block[i].departedAt == maxEnd)
    && (forall i | 0 <= i < |block| :: maxEnd.Some? ==> block[i].departedAt.Some? && block[i].departedAt.value <= maxEnd.value)
  }

  /** A block opened at a cut can only be extended by its own members. */
  lemma CutSeenFromBlock(sorted: seq<Visit>, b: nat, j: nat, maxEnd: Option<int>)
    requires InArrivalOrder(sorted) && b < j < |sorted| && Cut(sorted, b)
    requires IsMaxEnd(sorted[b..j], maxEnd)
    ensures Cut(sorted, j) <==> !EndsAfter(maxEnd, sorted[j].arrivedAt)
  {
    var block := sorted[b..j];
    assert forall i | b <= i < j :: sorted[i] == block[i - b];
    var i :| 0 <= i < |block| && block[i].departedAt == maxEnd;
    assert sorted[b + i] == block[i];
  }

  /** `clusters` groups everything before position b; `current` is the block b..i being grown. */
  ghost predicate Sweeping(sorted: seq<Visit>, clusters: seq<seq<Visit>>, current: seq<Visit>, maxEnd: Option<int>, b: nat, i: nat) {
    && b < i <= |sorted|
    && Cut(sorted, b)
    && NextCut(sorted, b + 1) == NextCut(sorted, i)
    && current == sorted[b..i]
    && IsMaxEnd(current, maxEnd)
    && BlocksFrom(sorted, 0) == clusters + BlocksFrom(sorted, b)
  }

  lemma OpenFirst(sorted: seq<Visit>)
    requires sorted != []
    ensures Sweeping(sorted, [], [sorted[0]], sorted[0].departedAt, 0, 1)
  {
    assert [sorted[0]] == sorted[0..1];
    assert [sorted[0]][0] == sorted[0];
  }

  lemma ExtendBlock(sorted: seq<Visit>, clusters: seq<seq<Visit>>, current: seq<Visit>, bound: Option<int>, b: nat, i: nat, maxEnd: Option<int>)
    requires Sweeping(sorted, clusters, current, bound, b, i) && i < |sorted| && !Cut(sorted, i)
    requires maxEnd == LaterEnd(bound, sorted[i].departedAt)
    ensures Sweeping(sorted, clusters, current + [sorted[i]], maxEnd, b, i + 1)
  {
    assert sorted[b..i + 1] == sorted[b..i] + [sorted[i]];
    MaxEndGrows(current, bound, sorted[i], maxEnd);
  }

  lemma BlockEnds(sorted: seq<Visit>, b: nat, i: nat)
    requires b < i <= |sorted| && NextCut(sorted, b + 1) == i
    ensures BlocksFrom(sorted, b) == IfPileUp(sorted[b..i]) + BlocksFrom(sorted, i)
  {
  }

  lemma Regroup(all: seq<seq<Visit>>, clusters: seq<seq<Visit>>, block: seq<seq<Visit>>, rest: seq<seq<Visit>>)
    requires all == clusters + (block + rest)
    ensures all == clusters + block + rest
  {
  }

  lemma CloseBlock(sorted: seq<Visit>, clusters: seq<seq<Visit>>, current: seq<Visit>, maxEnd: Option<int>, b: nat, i: nat)
    requires Sweeping(sorted, clusters, current, maxEnd, b, i)
    requires i < |sorted| ==> Cut(sorted, i)
    ensures BlocksFrom(sorted, 0) == clusters + IfPileUp(current) + BlocksFrom(sorted, i)
  {
    assert NextCut(sorted, i) == i;
    BlockEnds(sorted, b, i);
    Regroup(BlocksFrom(sorted, 0), clusters, IfPileUp(current), BlocksFrom(sorted, i));
  }

  lemma OpenNext(sorted: seq<Visit>, clusters: seq<seq<Visit>>, i: nat)
    requires i < |sorted| && Cut(sorted, i) && BlocksFrom(sorted, 0) == clusters + BlocksFrom(sorted, i)
    ensures Sweeping(sorted, clusters, [sorted[i]], sorted[i].departedAt, i, i + 1)
  {
    var block := sorted[i..i + 1];
    assert block == [sorted[i]] && block[0] == sorted[i];
    assert IsMaxEnd(block, sorted[i].departedAt);
  }

  function LaterEnd(a: Option<int>, b: Option<int>): Option<int> {
    if a == None || b == None then None else if b.value > a.value then b else a
  }

  method PushIfPileUp(clusters: seq<seq<Visit>>, current: seq<Visit>) returns (all: seq<seq<Visit>>)
    ensures all == clusters + IfPileUp(current)
  {
    all := clusters;
    if |current| >= 2 {
      all := all + [current];
    }
  }

  /** `clusterOverlapping`. */
  method ClusterOverlapping(visits: seq<Visit>) returns (clusters: seq<seq<Visit>>)
    ensures clusters == Clusters(visits)
  {
    var sorted := ByArrival(visits);
    ByArrivalSorts(visits);
    clusters := SweepSorted(sorted);
  }

  /** The sweep over the sorted visits. */
  method SweepSorted(sorted: seq<Visit>) returns (clusters: seq<seq<Visit>>)
    requires InArrivalOrder(sorted)
    ensures clusters == BlocksFrom(sorted, 0)
  {
    clusters := [];
    var current: seq<Visit> := [];
    var maxEnd: Option<int> := None;
    ghost var b := 0;
    for i := 0 to |sorted|
      invariant i == 0 ==> clusters == [] && current == [] && b == 0
      invariant i > 0 ==> Sweeping(sorted, clusters, current, maxEnd, b, i)
    {
      var v := sorted[i];
      if |current| == 0 {
        OpenFirst(sorted);
        current, maxEnd := [v], v.departedAt;
        continue;
      }
      CutSeenFromBlock(sorted, b, i, maxEnd);
      var overlaps := maxEnd == None || v.arrivedAt < maxEnd.value;
      if overlaps {
        ghost var bound, block := maxEnd, current;
        current := current + [v];
        if maxEnd != None {
          if v.departedAt == None {
            maxEnd := None;
          } else if v.departedAt.value > maxEnd.value {
            maxEnd := v.departedAt;
          }
        }
        ExtendBlock(sorted, clusters, block, bound, b, i, maxEnd);
      } else {
        CloseBlock(sorted, clusters, current, maxEnd, b, i);
        clusters := PushIfPileUp(clusters, current);
        OpenNext(sorted, clusters, i);
        b, current, maxEnd := i, [v], v.departedAt;
      }
    }
    if |sorted| > 0 {
      CloseBlock(sorted, clusters, current, maxEnd, b, |sorted|);
    }
    clusters := PushIfPileUp(clusters, current);
  }

  lemma MaxEndGrows(block: seq<Visit>, bound: Option<int>, v: Visit, maxEnd: Option<int>)
    requires IsMaxEnd(block, bound)
    requires maxEnd == LaterEnd(bound, v.departedAt)
    ensures IsMaxEnd(block + [v], maxEnd)
  {
    var i :| 0 <= i < |block| && block[i].departedAt == bound;
    assert (block + [v])[i] == block[i] && (block + [v])[|block|] == v;
  }

  // ---------------------------------------------------------------------------
  // The sweep finds the components
  // ---------------------------------------------------------------------------

  /** Positions i and j are not separated by a cut. */
  ghost predicate SameBlock(sorted: seq<Visit>, i: nat, j: nat) {
    i <= j < |sorted| && forall k | i < k <= j :: !Cut(sorted, k)
  }

  lemma {:induction false} NextCutSpec(sorted: seq<Visit>, from: nat)
    requires from <= |sorted|
    ensures var e := NextCut(sorted, from);
            && (forall k | from <= k < e :: !Cut(sorted, k))
            && (e < |sorted| ==> Cut(sorted, e))
    decreases |sorted| - from
  {
    if from < |sorted| && !Cut(sorted, from) {
      NextCutSpec(sorted, from + 1);
    }
  }

  /** Clusters from b on are drawn from the positions from b on. */
  lemma {:induction false} BlocksAreLater(sorted: seq<Visit>, b: nat, k: nat, v: Visit)
    requires b <= |sorted| && k < |BlocksFrom(sorted, b)| && v in BlocksFrom(sorted, b)[k]
    ensures v in sorted[b..]
    decreases |sorted| - b
  {
    var e := NextCut(sorted, b + 1);
    var head := IfPileUp(sorted[b..e]);
    if k < |head| {
      assert v in sorted[b..e];
    } else {
      BlocksAreLater(sorted, e, k - |head|, v);
      assert forall x | x in sorted[e..] :: x in sorted[b..];
    }
  }

  lemma {:induction false} BlockHasTwo(sorted: seq<Visit>, b: nat, k: nat)
    requires b <= |sorted| && k < |BlocksFrom(sorted, b)|
    ensures |BlocksFrom(sorted, b)[k]| >= 2
    decreases |sorted| - b
  {
    var e := NextCut(sorted, b + 1);
    var head := IfPileUp(sorted[b..e]);
    if k >= |head| {
      BlockHasTwo(sorted, e, k - |head|);
    }
  }

  lemma {:induction false} BlockIsDistinct(sorted: seq<Visit>, b: nat, k: nat)
    requires b <= |sorted| && Distinct(sorted) && k < |BlocksFrom(sorted, b)|
    ensures Distinct(BlocksFrom(sorted, b)[k])
    decreases |sorted| - b
  {
    var e := NextCut(sorted, b + 1);
    var head := IfPileUp(sorted[b..e]);
    if k >= |head| {
      BlockIsDistinct(sorted, e, k - |head|);
    }
  }

  lemma SlicesShareNothing(sorted: seq<Visit>, b: nat, e: nat, v: Visit)
    requires b <= e <= |sorted| && Distinct(sorted) && v in sorted[b..e]
    ensures v !in sorted[e..]
  {
  }

  lemma {:induction false} BlocksAreDisjoint(sorted: seq<Visit>, b: nat, k: nat, l: nat, v: Visit)
    requires b <= |sorted| && Distinct(sorted) && k < l < |BlocksFrom(sorted, b)| && v in BlocksFrom(sorted, b)[k]
    ensures v !in BlocksFrom(sorted, b)[l]
    decreases |sorted| - b
  {
    var e := NextCut(sorted, b + 1);
    var head := IfPileUp(sorted[b..e]);
    if k < |head| {
      SlicesShareNothing(sorted, b, e, v);
      if v in BlocksFrom(sorted, b)[l] {
        BlocksAreLater(sorted, e, l - |head|, v);
      }
    } else {
      BlocksAreDisjoint(sorted, e, k - |head|, l - |head|, v);
    }
  }

  lemma TogetherConcat(head: seq<seq<Visit>>, tail: seq<seq<Visit>>, a: Visit, b: Visit)
    ensures Together(head + tail, a, b) <==> Together(head, a, b) || Together(tail, a, b)
  {
    var all := head + tail;
    if k :| 0 <= k < |head| && a in head[k] && b in head[k] {
      assert all[k] == head[k];
    }
    if k :| 0 <= k < |tail| && a in tail[k] && b in tail[k] {
      assert all[|head| + k] == tail[k];
    }
  }

  lemma NotTogetherLater(sorted: seq<Visit>, b: nat, e: nat, a: Visit, c: Visit)
    requires b <= e <= |sorted| && Distinct(sorted) && a in sorted[b..e]
    ensures !Together(BlocksFrom(sorted, e), a, c)
  {
    SlicesShareNothing(sorted, b, e, a);
    forall k | 0 <= k < |BlocksFrom(sorted, e)| ensures a !in BlocksFrom(sorted, e)[k] {
      if a in BlocksFrom(sorted, e)[k] {
        BlocksAreLater(sorted, e, k, a);
      }
    }
  }

  lemma {:induction false} TogetherIffSameBlock(sorted: seq<Visit>, b: nat, i: nat, j: nat)
    requires Distinct(sorted) && b <= i < j < |sorted|
    ensures Together(BlocksFrom(sorted, b), sorted[i], sorted[j]) <==> SameBlock(sorted, i, j)
    decreases |sorted| - b
  {
    var e := NextCut(sorted, b + 1);
    var block, tail := sorted[b..e], BlocksFrom(sorted, e);
    NextCutSpec(sorted, b + 1);
    TogetherConcat(IfPileUp(block), tail, sorted[i], sorted[j]);
    if j < e {
      assert block[i - b] == sorted[i] && block[j - b] == sorted[j];
      assert IfPileUp(block)[0] == block;
    } else {
      assert sorted[j] !in block;
      if i < e {
        assert block[i - b] == sorted[i];
        NotTogetherLater(sorted, b, e, sorted[i], sorted[j]);
      } else {
        TogetherIffSameBlock(sorted, e, i, j);
      }
    }
  }

  /** No overlap crosses a cut, so no chain does. */
  lemma {:induction false} ChainStaysBeforeCut(sorted: seq<Visit>, chain: seq<Visit>, cut: nat, m: nat) returns (p: nat)
    requires InArrivalOrder(sorted) && IsChain(sorted, chain) && m < |chain|
    requires cut < |sorted| && Cut(sorted, cut) && chain[0] in sorted[..cut]
    ensures p < cut && sorted[p] == chain[m]
  {
    if m == 0 {
      p :| 0 <= p < cut && sorted[..cut][p] == chain[0];
    } else {
      var q := ChainStaysBeforeCut(sorted, chain, cut, m - 1);
      assert IntervalsOverlap(chain[m - 1], chain[m - 1 + 1]);
      assert chain[m] in sorted;
      p :| 0 <= p < |sorted| && sorted[p] == chain[m];
    }
  }

  lemma CutSeparates(sorted: seq<Visit>, i: nat, cut: nat, j: nat)
    requires InArrivalOrder(sorted) && Distinct(sorted)
    requires i < cut <= j < |sorted| && Cut(sorted, cut)
    ensures !Linked(sorted, sorted[i], sorted[j])
  {
    if Linked(sorted, sorted[i], sorted[j]) {
      var chain :| ChainFrom(sorted, chain, sorted[i], sorted[j]);
      assert sorted[..cut][i] == sorted[i];
      var p := ChainStaysBeforeCut(sorted, chain, cut, |chain| - 1);
    }
  }

  /** Every visit of zero or negative length that arrives during an earlier-sorted one overlaps some visit. */
  ghost predicate Sweepable(sorted: seq<Visit>) {
    forall i, j | 0 <= i < j < |sorted| && !PositiveOrOpen(sorted[j]) && EndsAfter(sorted[i].departedAt, sorted[j].arrivedAt) ::
      exists c | c in sorted :: IntervalsOverlap(c, sorted[j])
  }

  lemma SweepLinkIsALink(sorted: seq<Visit>, i: nat, j: nat)
    requires InArrivalOrder(sorted) && Sweepable(sorted)
    requires i < j < |sorted| && EndsAfter(sorted[i].departedAt, sorted[j].arrivedAt)
    ensures Linked(sorted, sorted[i], sorted[j])
  {
    LinkedReflexive(sorted, sorted[i]);
    if !PositiveOrOpen(sorted[j]) {
      var c :| c in sorted && IntervalsOverlap(c, sorted[j]);
      LinkedStep(sorted, sorted[i], sorted[i], c);
      LinkedStep(sorted, sorted[i], c, sorted[j]);
    } else {
      LinkedStep(sorted, sorted[i], sorted[i], sorted[j]);
    }
  }

  /** Everyone in a block is linked to the visit that opened it. */
  lemma {:induction false} BlockIsLinked(sorted: seq<Visit>, b: nat, j: nat)
    requires InArrivalOrder(sorted) && Sweepable(sorted)
    requires SameBlock(sorted, b, j) && Cut(sorted, b)
    ensures Linked(sorted, sorted[b], sorted[j])
    decreases j
  {
    if j == b {
      LinkedReflexive(sorted, sorted[b]);
    } else {
      assert !Cut(sorted, j);
      var i :| 0 <= i < j && EndsAfter(sorted[i].departedAt, sorted[j].arrivedAt);
      assert i < b ==> EndsAfter(sorted[i].departedAt, sorted[b].arrivedAt);
      BlockIsLinked(sorted, b, i);
      SweepLinkIsALink(sorted, i, j);
      LinkedTransitive(sorted, sorted[b], sorted[i], sorted[j]);
    }
  }

  lemma {:induction false} BlockHasOpening(sorted: seq<Visit>, i: nat) returns (b: nat)
    requires i < |sorted|
    ensures b <= i && Cut(sorted, b) && SameBlock(sorted, b, i)
  {
    b := i;
    if !Cut(sorted, i) {
      b := BlockHasOpening(sorted, i - 1);
    }
  }

  lemma SameBlockIffLinked(sorted: seq<Visit>, i: nat, j: nat)
    requires InArrivalOrder(sorted) && Distinct(sorted) && Sweepable(sorted) && i < j < |sorted|
    ensures SameBlock(sorted, i, j) <==> Linked(sorted, sorted[i], sorted[j])
  {
    if SameBlock(sorted, i, j) {
      var b := BlockHasOpening(sorted, i);
      BlockIsLinked(sorted, b, i);
      BlockIsLinked(sorted, b, j);
      LinkedSymmetric(sorted, sorted[b], sorted[i]);
      LinkedTransitive(sorted, sorted[i], sorted[b], sorted[j]);
    } else {
      var cut :| i < cut <= j && Cut(sorted, cut);
      CutSeparates(sorted, i, cut, j);
    }
  }

  /** A visit that overlaps nothing is linked to nobody. */
  lemma LonerIsUnlinked(sorted: seq<Visit>, a: Visit, v: Visit)
    requires a != v && forall c | c in sorted :: !IntervalsOverlap(c, v)
    ensures !Linked(sorted, a, v)
  {
    forall chain | chain != [] && chain[0] == a && chain[|chain| - 1] == v ensures !IsChain(sorted, chain) {
      var k := |chain| - 2;
      assert chain[k] !in sorted || !IntervalsOverlap(chain[k], chain[k + 1]);
    }
  }

  lemma ClustersAreWellFormed(sorted: seq<Visit>)
    requires Distinct(sorted)
    ensures var clusters := BlocksFrom(sorted, 0);
            && (forall k | 0 <= k < |clusters| :: |clusters[k]| >= 2 && Distinct(clusters[k]))
            && (forall k, v | 0 <= k < |clusters| && v in clusters[k] :: v in sorted)
            && (forall k, l, v | 0 <= k < l < |clusters| && v in clusters[k] :: v !in clusters[l])
  {
    var clusters := BlocksFrom(sorted, 0);
    forall k | 0 <= k < |clusters| ensures |clusters[k]| >= 2 && Distinct(clusters[k]) {
      BlockHasTwo(sorted, 0, k);
      BlockIsDistinct(sorted, 0, k);
    }
    forall k, v | 0 <= k < |clusters| && v in clusters[k] ensures v in sorted {
      BlocksAreLater(sorted, 0, k, v);
      assert sorted[0..] == sorted;
    }
    forall k, l, v | 0 <= k < l < |clusters| && v in clusters[k] ensures v !in clusters[l] {
      BlocksAreDisjoint(sorted, 0, k, l, v);
    }
  }

  lemma TogetherIffLinked(sorted: seq<Visit>, a: Visit, b: Visit)
    requires InArrivalOrder(sorted) && Distinct(sorted) && Sweepable(sorted)
    requires a in sorted && b in sorted && a != b
    ensures Together(BlocksFrom(sorted, 0), a, b) <==> Linked(sorted, a, b)
  {
    var i :| 0 <= i < |sorted| && sorted[i] == a;
    var j :| 0 <= j < |sorted| && sorted[j] == b;
    if i < j {
      TogetherIffSameBlock(sorted, 0, i, j);
      SameBlockIffLinked(sorted, i, j);
    } else {
      TogetherIffSameBlock(sorted, 0, j, i);
      SameBlockIffLinked(sorted, j, i);
      if Linked(sorted, a, b) { LinkedSymmetric(sorted, a, b); }
      if Linked(sorted, b, a) { LinkedSymmetric(sorted, b, a); }
    }
  }

  lemma UnsweepableIsMisreported(sorted: seq<Visit>, i: nat, j: nat)
    requires InArrivalOrder(sorted) && Distinct(sorted) && i < j < |sorted|
    requires EndsAfter(sorted[i].departedAt, sorted[j].arrivedAt)
    requires forall c | c in sorted :: !IntervalsOverlap(c, sorted[j])
    ensures Together(BlocksFrom(sorted, 0), sorted[j - 1], sorted[j]) && !Linked(sorted, sorted[j - 1], sorted[j])
  {
    assert SameBlock(sorted, j - 1, j);
    TogetherIffSameBlock(sorted, 0, j - 1, j);
    LonerIsUnlinked(sorted, sorted[j - 1], sorted[j]);
  }

  lemma SweepFindsComponents(sorted: seq<Visit>)
    requires InArrivalOrder(sorted) && Distinct(sorted)
    ensures AreComponents(sorted, BlocksFrom(sorted, 0)) <==> Sweepable(sorted)
  {
    var clusters := BlocksFrom(sorted, 0);
    if Sweepable(sorted) {
      ClustersAreWellFormed(sorted);
      forall a, b | a in sorted && b in sorted && a != b ensures Together(clusters, a, b) <==> Linked(sorted, a, b) {
        TogetherIffLinked(sorted, a, b);
      }
    } else {
      var i, j :| 0 <= i < j < |sorted| && !PositiveOrOpen(sorted[j]) && EndsAfter(sorted[i].departedAt, sorted[j].arrivedAt)
                  && !exists c | c in sorted :: IntervalsOverlap(c, sorted[j]);
      UnsweepableIsMisreported(sorted, i, j);
    }
  }

  /** For any input order: the reported clusters are exactly the pile-ups if and only if the visits are sweepable. */
  lemma ClustersAreComponentsIff(visits: seq<Visit>)
    requires Distinct(visits)
    ensures AreComponents(visits, Clusters(visits)) <==> Sweepable(ByArrival(visits))
  {
    var sorted := ByArrival(visits);
    ByArrivalSorts(visits);
    SweepFindsComponents(sorted);
    forall a, b ensures Linked(visits, a, b) <==> Linked(sorted, a, b) {
      SameMembersSameLinks(visits, sorted, a, b);
      SameMembersSameLinks(sorted, visits, a, b);
    }
  }

  lemma SameMembersSameLinks(visits: seq<Visit>, others: seq<Visit>, a: Visit, b: Visit)
    requires forall v :: v in visits <==> v in others
    ensures Linked(visits, a, b) ==> Linked(others, a, b)
  {
    if Linked(visits, a, b) {
      var chain :| ChainFrom(visits, chain, a, b);
      assert ChainFrom(others, chain, a, b);
    }
  }

  /** Recorded visits of positive length, or still open, are always sweepable. */
  lemma PositiveVisitsAreClustered(visits: seq<Visit>)
    requires Distinct(visits) && forall v | v in visits :: PositiveOrOpen(v)
    ensures AreComponents(visits, Clusters(visits))
  {
    ByArrivalSorts(visits);
    ClustersAreComponentsIff(visits);
  }

  /** A zero-length visit at the arrival of a longer one is reported with it although the two do not overlap. */
  lemma ZeroLengthIsMisreported()
    ensures var long := Visit(1, 1, 10, Some(20), Typed, Some(Typed), None, false);
            var zero := Visit(2, 1, 10, Some(10), Typed, Some(Typed), None, false);
            && !IntervalsOverlap(long, zero)
            && Together(Clusters([long, zero]), long, zero)
            && !Linked([long, zero], long, zero)
  {
    var long := Visit(1, 1, 10, Some(20), Typed, Some(Typed), None, false);
    var zero := Visit(2, 1, 10, Some(10), Typed, Some(Typed), None, false);
    var key := (v: Visit) => v.arrivedAt;
    var both := [long, zero];
    assert both[1..] == [zero];
    assert SortBy([zero], key) == [zero] by { assert [zero][1..] == []; }
    assert ByArrival(both) == both;
    assert !Cut(both, 1);
    TogetherIffSameBlock(both, 0, 0, 1);
    LonerIsUnlinked(both, long, zero);
  }

  lemma TilesDoNotOverlap(rows: seq<Visit>, lo: int, hi: int, i: nat, j: nat)
    requires Tiles(Segments(rows), lo, hi) && i < j < |rows|
    requires rows[i].departedAt.Some? && rows[j].departedAt.Some?
    ensures !IntervalsOverlap(rows[i], rows[j]) && !IntervalsOverlap(rows[j], rows[i])
  {
    assert Segments(rows)[i] == SegmentOf(rows[i]) && Segments(rows)[j] == SegmentOf(rows[j]);
    TilesAreOrdered(Segments(rows), lo, hi, i, j);
  }

  lemma TileIsPositive(rows: seq<Visit>, lo: int, hi: int, i: nat)
    requires Tiles(Segments(rows), lo, hi) && i < |rows| && rows[i].departedAt.Some?
    ensures PositiveOrOpen(rows[i])
  {
    assert Segments(rows)[i] == SegmentOf(rows[i]);
  }

  lemma NoOverlapNotTogether(visits: seq<Visit>, clusters: seq<seq<Visit>>)
    requires AreComponents(visits, clusters) && clusters != [] && |clusters[0]| >= 2
    ensures exists a, b :: a in visits && b in visits && a != b && IntervalsOverlap(a, b)
  {
    var a, b := clusters[0][0], clusters[0][1];
    assert Distinct(clusters[0]);
    assert a in clusters[0] && b in clusters[0] && a != b;
    assert a in visits && b in visits && Together(clusters, a, b);
    var chain :| ChainFrom(visits, chain, a, b);
    if forall x, y | x in visits && y in visits && x != y :: !IntervalsOverlap(x, y) {
      NoOverlapNoChain(visits, chain, |chain| - 1);
    }
  }

  lemma NoOverlapNoCluster(visits: seq<Visit>)
    requires Distinct(visits) && forall v | v in visits :: PositiveOrOpen(v)
    requires forall a, b | a in visits && b in visits && a != b :: !IntervalsOverlap(a, b)
    ensures Clusters(visits) == []
  {
    PositiveVisitsAreClustered(visits);
    var clusters := Clusters(visits);
    if clusters != [] {
      BlockHasTwo(ByArrival(visits), 0, 0);
      NoOverlapNotTogether(visits, clusters);
    }
  }

  /** What one checkout records is never reported back as a conflict, in whatever order it is read. */
  lemma CheckoutLeavesNoConflict(rows: seq<Visit>, visits: seq<Visit>, lo: int, hi: int)
    requires Tiles(Segments(rows), lo, hi) && (forall v | v in rows :: v.departedAt.Some?)
    requires Distinct(rows) && multiset(visits) == multiset(rows)
    ensures Clusters(visits) == []
  {
    PermutationKeepsElements(rows, visits);
    forall a, b | a in rows && b in rows && a != b ensures !IntervalsOverlap(a, b) {
      var i :| 0 <= i < |rows| && rows[i] == a;
      var j :| 0 <= j < |rows| && rows[j] == b;
      if i < j { TilesDoNotOverlap(rows, lo, hi, i, j); } else { TilesDoNotOverlap(rows, lo, hi, j, i); }
    }
    forall v | v in visits ensures PositiveOrOpen(v) {
      var i :| 0 <= i < |rows| && rows[i] == v;
      TileIsPositive(rows, lo, hi, i);
    }
    NoOverlapNoCluster(visits);
  }

  lemma {:induction false} NoOverlapNoChain(visits: seq<Visit>, chain: seq<Visit>, k: nat)
    requires IsChain(visits, chain) && k < |chain|
    requires forall a, b | a in visits && b in visits && a != b :: !IntervalsOverlap(a, b)
    ensures chain[k] == chain[0]
  {
    if k > 0 {
      NoOverlapNoChain(visits, chain, k - 1);
      assert IntervalsOverlap(chain[k - 1], chain[k - 1 + 1]);
    }
  }

  /** The order the rows are read in does not change who is reported together. */
  lemma ReadOrderDoesNotMatter(visits: seq<Visit>, others: seq<Visit>, a: Visit, b: Visit)
    requires Distinct(visits) && multiset(visits) == multiset(others)
    requires forall v | v in visits :: PositiveOrOpen(v)
    requires a in visits && b in visits && a != b
    ensures Together(Clusters(visits), a, b) <==> Together(Clusters(others), a, b)
  {
    PermutationKeepsElements(visits, others);
    PositiveVisitsAreClustered(visits);
    PositiveVisitsAreClustered(others);
    SameMembersSameLinks(visits, others, a, b);
    SameMembersSameLinks(others, visits, a, b);
  }

  ghost predicate SameReports(visits: seq<Visit>, others: seq<Visit>) {
    forall a, b | a in visits && b in visits && a != b ::
      Together(Clusters(visits), a, b) <==> Together(Clusters(others), a, b)
  }

  lemma SameMembersLinkedAlike(visits: seq<Visit>, others: seq<Visit>, a: Visit, b: Visit)
    requires multiset(visits) == multiset(others)
    ensures Linked(visits, a, b) <==> Linked(others, a, b)
    ensures a in visits <==> a in others
  {
    PermutationKeepsElements(visits, others);
    SameMembersSameLinks(visits, others, a, b);
    SameMembersSameLinks(others, visits, a, b);
  }

  /** What a sweep gets wrong in one order, an order it gets right shows differently. */
  lemma MisreportedIsNotAlike(visits: seq<Visit>, others: seq<Visit>)
    requires Distinct(others) && multiset(visits) == multiset(others)
    requires AreComponents(visits, Clusters(visits)) && !Sweepable(ByArrival(others))
    ensures !SameReports(visits, others)
  {
    var sorted := ByArrival(others);
    ByArrivalSorts(others);
    var i, j :| 0 <= i < j < |sorted| && !PositiveOrOpen(sorted[j]) && EndsAfter(sorted[i].departedAt, sorted[j].arrivedAt)
                && !exists c | c in sorted :: IntervalsOverlap(c, sorted[j]);
    UnsweepableIsMisreported(sorted, i, j);
    var a, b := sorted[j - 1], sorted[j];
    SameMembersSameLinks(others, sorted, a, b);
    SameMembersLinkedAlike(visits, others, a, b);
    SameMembersLinkedAlike(visits, others, b, a);
    assert a in others && b in others && a != b;
    assert Together(Clusters(others), a, b) && !Linked(visits, a, b);
  }

  lemma RightReportsAreAlike(visits: seq<Visit>, others: seq<Visit>)
    requires multiset(visits) == multiset(others)
    requires AreComponents(visits, Clusters(visits)) && AreComponents(others, Clusters(others))
    ensures SameReports(visits, others)
  {
    forall a, b | a in visits && b in visits && a != b
      ensures Together(Clusters(visits), a, b) <==> Together(Clusters(others), a, b)
    {
      SameMembersLinkedAlike(visits, others, a, b);
      SameMembersLinkedAlike(visits, others, b, a);
    }
  }

  /** With visits of any length: those sweepable in the order read are reported in another order as they are in this one
      exactly when they are sweepable in that order too. */
  lemma ReadOrderDoesNotMatterIff(visits: seq<Visit>, others: seq<Visit>)
    requires Distinct(visits) && Distinct(others) && multiset(visits) == multiset(others) && Sweepable(ByArrival(visits))
    ensures SameReports(visits, others) <==> Sweepable(ByArrival(others))
  {
    ClustersAreComponentsIff(visits);
    ClustersAreComponentsIff(others);
    if Sweepable(ByArrival(others)) {
      RightReportsAreAlike(visits, others);
    } else {
      MisreportedIsNotAlike(visits, others);
    }
  }

  // ---------------------------------------------------------------------------
  // A lead's conflicts
  // ---------------------------------------------------------------------------

  datatype Conflict = Conflict(participantId: nat, eventId: nat, visits: seq<Visit>)

  predicate IsAnchor(v: Visit, led: set<nat>) {
    v.eventId.Some? && v.eventId.value in led
  }

  function VisitsOf(visits: seq<Visit>, person: nat): seq<Visit> {
    if visits == [] then []
    else VisitsOf(visits[..|visits| - 1], person) + (if visits[|visits| - 1].personId == person then [visits[|visits| - 1]] else [])
  }

  lemma {:induction false} VisitsOfAre(visits: seq<Visit>, person: nat)
    ensures forall v :: v in VisitsOf(visits, person) <==> v in visits && v.personId == person
  {
    if visits != [] {
      VisitsOfAre(visits[..|visits| - 1], person);
      assert visits == visits[..|visits| - 1] + [visits[|visits| - 1]];
    }
  }

  ghost predicate InScope(cluster: seq<Visit>, led: set<nat>) {
    exists v | v in cluster :: IsAnchor(v, led)
  }

  /** `cluster.find`: the event of the first visit that is anchored to one of the lead's events. */
  function FirstAnchor(cluster: seq<Visit>, led: set<nat>): Option<nat> {
    if cluster == [] then None
    else if IsAnchor(cluster[0], led) then cluster[0].eventId
    else FirstAnchor(cluster[1..], led)
  }

  /** One person's pile-ups that are anchored to an event of the lead. */
  function ConflictsIn(clusters: seq<seq<Visit>>, person: nat, led: set<nat>): seq<Conflict> {
    if clusters == [] then []
    else
      var last := clusters[|clusters| - 1];
      ConflictsIn(clusters[..|clusters| - 1], person, led)
      + (if FirstAnchor(last, led).Some? then [Conflict(person, FirstAnchor(last, led).value, last)] else [])
  }

  /** The people with an anchored visit, in the order in which they first appear. */
  function PeopleOf(visits: seq<Visit>, participants: set<nat>): seq<nat> {
    if visits == [] then []
    else
      var init := PeopleOf(visits[..|visits| - 1], participants);
      var p := visits[|visits| - 1].personId;
      if p in participants && p !in init then init + [p] else init
  }

  function Participants(visits: seq<Visit>, led: set<nat>): set<nat> {
    set v | v in visits && IsAnchor(v, led) :: v.personId
  }

  function ConflictsOfPeople(visits: seq<Visit>, led: set<nat>, people: seq<nat>): seq<Conflict> {
    if people == [] then []
    else
      var p := people[|people| - 1];
      ConflictsOfPeople(visits, led, people[..|people| - 1]) + ConflictsIn(Clusters(VisitsOf(visits, p)), p, led)
  }

  /** What a lead is shown: person by person, pile-up by pile-up, each once. */
  function LeadConflicts(visits: seq<Visit>, led: set<nat>): seq<Conflict> {
    ConflictsOfPeople(visits, led, PeopleOf(visits, Participants(visits, led)))
  }

  // ---------------------------------------------------------------------------
  // The code
  // ---------------------------------------------------------------------------

  method FindAnchor(cluster: seq<Visit>, led: set<nat>) returns (event: Option<nat>)
    ensures event == FirstAnchor(cluster, led)
  {
    event := None;
    for i := 0 to |cluster|
      invariant event == None && FirstAnchor(cluster, led) == FirstAnchor(cluster[i..], led)
    {
      if IsAnchor(cluster[i], led) {
        return cluster[i].eventId;
      }
    }
  }

  /** Everybody's visits, for the people with an anchored one. */
  function Grouping(visits: seq<Visit>, participants: set<nat>): map<nat, seq<Visit>> {
    map p | p in PeopleOf(visits, participants) :: VisitsOf(visits, p)
  }

  lemma SomeoneIn(visits: seq<Visit>)
    ensures visits != [] ==> exists v :: v in visits
  {
    if visits != [] {
      assert visits[0] in visits;
    }
  }

  lemma NotListedNoVisits(visits: seq<Visit>, participants: set<nat>, p: nat)
    requires p in participants && p !in PeopleOf(visits, participants)
    ensures VisitsOf(visits, p) == []
  {
    InPeopleOf(visits, participants, p);
    VisitsOfAre(visits, p);
    SomeoneIn(VisitsOf(visits, p));
  }

  /** What one more visit does to one person's list. */
  lemma GroupedNext(visits: seq<Visit>, participants: set<nat>, p: nat)
    requires visits != []
    ensures var before, v := Grouping(visits[..|visits| - 1], participants), visits[|visits| - 1];
            var after := Grouping(visits, participants);
            if p == v.personId && p in participants
            then p in after && after[p] == (if p in before then before[p] else []) + [v]
            else (p in after <==> p in before) && (p in before ==> after[p] == before[p])
  {
    var init, v := visits[..|visits| - 1], visits[|visits| - 1];
    if p in participants && p !in PeopleOf(init, participants) {
      NotListedNoVisits(init, participants, p);
    }
    InPeopleOf(init, participants, p);
  }

  lemma GroupingNext(visits: seq<Visit>, participants: set<nat>)
    requires visits != []
    ensures var before, v := Grouping(visits[..|visits| - 1], participants), visits[|visits| - 1];
            Grouping(visits, participants) ==
            if v.personId !in participants then before
            else before[v.personId := (if v.personId in before then before[v.personId] else []) + [v]]
  {
    var before, v := Grouping(visits[..|visits| - 1], participants), visits[|visits| - 1];
    var after := Grouping(visits, participants);
    var expected := if v.personId !in participants then before
                    else before[v.personId := (if v.personId in before then before[v.personId] else []) + [v]];
    forall p: nat ensures p in after <==> p in expected
                  ensures p in after ==> after[p] == expected[p] {
      GroupedNext(visits, participants, p);
    }
    assert after == expected;
  }

  /** `byParticipant`, and the order in which its keys were inserted. */
  method GroupByParticipant(visits: seq<Visit>, participants: set<nat>) returns (byParticipant: map<nat, seq<Visit>>, people: seq<nat>)
    ensures people == PeopleOf(visits, participants) && byParticipant == Grouping(visits, participants)
  {
    byParticipant, people := map[], [];
    for i := 0 to |visits|
      invariant people == PeopleOf(visits[..i], participants) && byParticipant == Grouping(visits[..i], participants)
    {
      var v := visits[i];
      assert visits[..i + 1][..i] == visits[..i];
      GroupingNext(visits[..i + 1], participants);
      if v.personId in participants {
        var list := if v.personId in byParticipant then byParticipant[v.personId] else [];
        if v.personId !in byParticipant {
          people := people + [v.personId];
        }
        byParticipant := byParticipant[v.personId := list + [v]];
      }
    }
    assert visits[..|visits|] == visits;
  }

  method ConflictsOf(person: nat, own: seq<Visit>, led: set<nat>) returns (found: seq<Conflict>)
    ensures found == ConflictsIn(Clusters(own), person, led)
  {
    found := [];
    var clusters := ClusterOverlapping(own);
    for i := 0 to |clusters|
      invariant found == ConflictsIn(clusters[..i], person, led)
    {
      assert clusters[..i + 1][..i] == clusters[..i];
      var anchor := FindAnchor(clusters[i], led);
      if anchor.Some? {
        found := found + [Conflict(person, anchor.value, clusters[i])];
      }
    }
    assert clusters[..|clusters|] == clusters;
  }

  lemma PeopleNext(visits: seq<Visit>, led: set<nat>, people: seq<nat>, i: nat)
    requires i < |people|
    ensures ConflictsOfPeople(visits, led, people[..i + 1])
            == ConflictsOfPeople(visits, led, people[..i]) + ConflictsIn(Clusters(VisitsOf(visits, people[i])), people[i], led)
  {
    assert people[..i + 1][..i] == people[..i];
  }

  /** One person's visits are grouped under their id. */
  lemma GroupedVisits(visits: seq<Visit>, participants: set<nat>, i: nat)
    requires i < |PeopleOf(visits, participants)|
    ensures var p := PeopleOf(visits, participants)[i];
            p in Grouping(visits, participants) && Grouping(visits, participants)[p] == VisitsOf(visits, p)
  {
  }

  /** `getLeadConflicts` on the live rows. */
  method GetLeadConflicts(visits: seq<Visit>, led: set<nat>) returns (conflicts: seq<Conflict>)
    ensures conflicts == LeadConflicts(visits, led)
  {
    conflicts := [];
    var participants := Participants(visits, led);
    var byParticipant, people := GroupByParticipant(visits, participants);
    for i := 0 to |people|
      invariant conflicts == ConflictsOfPeople(visits, led, people[..i])
    {
      GroupedVisits(visits, participants, i);
      PeopleNext(visits, led, people, i);
      var found := ConflictsOf(people[i], byParticipant[people[i]], led);
      conflicts := conflicts + found;
    }
    assert people[..|people|] == people;
  }

  // ---------------------------------------------------------------------------
  // Who is shown what
  // ---------------------------------------------------------------------------

  /** A conflict is one person's pile-up, under the first of the lead's events that one of its visits is anchored to. */
  ghost predicate Justified(visits: seq<Visit>, led: set<nat>, c: Conflict) {
    && c.visits in Clusters(VisitsOf(visits, c.participantId))
    && FirstAnchor(c.visits, led) == Some(c.eventId)
  }

  lemma {:induction false} AnchorIffInScope(cluster: seq<Visit>, led: set<nat>)
    ensures FirstAnchor(cluster, led).Some? <==> InScope(cluster, led)
    ensures FirstAnchor(cluster, led).Some? ==> FirstAnchor(cluster, led).value in led
    decreases |cluster|
  {
    if cluster != [] {
      AnchorIffInScope(cluster[1..], led);
      assert cluster == [cluster[0]] + cluster[1..];
    }
  }

  lemma {:induction false} InConflictsIn(clusters: seq<seq<Visit>>, person: nat, led: set<nat>, c: Conflict)
    ensures c in ConflictsIn(clusters, person, led)
            <==> c.participantId == person && c.visits in clusters && FirstAnchor(c.visits, led) == Some(c.eventId)
    decreases |clusters|
  {
    if clusters != [] {
      var init, last := clusters[..|clusters| - 1], clusters[|clusters| - 1];
      InConflictsIn(init, person, led, c);
      assert clusters == init + [last];
    }
  }

  lemma {:induction false} InConflictsOfPeople(visits: seq<Visit>, led: set<nat>, people: seq<nat>, c: Conflict)
    ensures c in ConflictsOfPeople(visits, led, people) <==> c.participantId in people && Justified(visits, led, c)
    decreases |people|
  {
    if people != [] {
      var init, p := people[..|people| - 1], people[|people| - 1];
      InConflictsOfPeople(visits, led, init, c);
      InConflictsIn(Clusters(VisitsOf(visits, p)), p, led, c);
      assert people == init + [p];
    }
  }

  lemma {:induction false} InPeopleOf(visits: seq<Visit>, participants: set<nat>, p: nat)
    ensures p in PeopleOf(visits, participants) <==> p in participants && exists v | v in visits :: v.personId == p
    decreases |visits|
  {
    if visits != [] {
      var init, last := visits[..|visits| - 1], visits[|visits| - 1];
      InPeopleOf(init, participants, p);
      assert visits == init + [last];
      assert last in visits;
    }
  }

  /** Somebody with a pile-up in scope has an anchored visit, so restricting the question to such people loses nothing. */
  lemma ScopedPeopleAreListed(visits: seq<Visit>, led: set<nat>, person: nat, cluster: seq<Visit>)
    requires cluster in Clusters(VisitsOf(visits, person)) && InScope(cluster, led)
    ensures person in PeopleOf(visits, Participants(visits, led))
  {
    var own := VisitsOf(visits, person);
    var v :| v in cluster && IsAnchor(v, led);
    var k :| 0 <= k < |Clusters(own)| && Clusters(own)[k] == cluster;
    BlocksAreLater(ByArrival(own), 0, k, v);
    ByArrivalSorts(own);
    VisitsOfAre(visits, person);
    InPeopleOf(visits, Participants(visits, led), person);
  }

  /** A lead is shown exactly the pile-ups with a visit anchored to an event of theirs, of everybody, whether or not the
      question was restricted to people with such a visit. */
  lemma ShownIffJustified(visits: seq<Visit>, led: set<nat>, c: Conflict)
    ensures c in LeadConflicts(visits, led) <==> Justified(visits, led, c)
  {
    InConflictsOfPeople(visits, led, PeopleOf(visits, Participants(visits, led)), c);
    if Justified(visits, led, c) {
      AnchorIffInScope(c.visits, led);
      ScopedPeopleAreListed(visits, led, c.participantId, c.visits);
    }
  }

  lemma {:induction false} PeopleAreListedOnce(visits: seq<Visit>, participants: set<nat>)
    ensures Distinct(PeopleOf(visits, participants))
    decreases |visits|
  {
    if visits != [] {
      PeopleAreListedOnce(visits[..|visits| - 1], participants);
    }
  }

  lemma {:induction false} ConflictsInDiffer(clusters: seq<seq<Visit>>, person: nat, led: set<nat>)
    requires Distinct(clusters)
    ensures Distinct(ConflictsIn(clusters, person, led))
    decreases |clusters|
  {
    if clusters != [] {
      var init, last := clusters[..|clusters| - 1], clusters[|clusters| - 1];
      ConflictsInDiffer(init, person, led);
      if FirstAnchor(last, led).Some? {
        InConflictsIn(init, person, led, Conflict(person, FirstAnchor(last, led).value, last));
      }
    }
  }

  lemma DistinctAppend<T>(a: seq<T>, b: seq<T>)
    requires Distinct(a) && Distinct(b) && forall x | x in a :: x !in b
    ensures Distinct(a + b)
  {
    forall i, j | 0 <= i < j < |a + b| ensures (a + b)[i] != (a + b)[j] {
      if i < |a| <= j {
        assert a[i] in a && b[j - |a|] in b;
      }
    }
  }

  lemma {:induction false} ConflictsOfPeopleDiffer(visits: seq<Visit>, led: set<nat>, people: seq<nat>)
    requires Distinct(people) && Distinct(visits)
    ensures Distinct(ConflictsOfPeople(visits, led, people))
    decreases |people|
  {
    if people != [] {
      var init, p := people[..|people| - 1], people[|people| - 1];
      var before, own := ConflictsOfPeople(visits, led, init), ConflictsIn(Clusters(VisitsOf(visits, p)), p, led);
      ConflictsOfPeopleDiffer(visits, led, init);
      VisitsOfDiffer(visits, p);
      ClustersDiffer(VisitsOf(visits, p));
      ConflictsInDiffer(Clusters(VisitsOf(visits, p)), p, led);
      forall c | c in before ensures c !in own {
        InConflictsOfPeople(visits, led, init, c);
        InConflictsIn(Clusters(VisitsOf(visits, p)), p, led, c);
      }
      DistinctAppend(before, own);
    }
  }

  lemma {:induction false} VisitsOfDiffer(visits: seq<Visit>, person: nat)
    requires Distinct(visits)
    ensures Distinct(VisitsOf(visits, person))
    decreases |visits|
  {
    if visits != [] {
      VisitsOfDiffer(visits[..|visits| - 1], person);
      VisitsOfAre(visits[..|visits| - 1], person);
    }
  }

  lemma BlocksDiffer(sorted: seq<Visit>)
    requires Distinct(sorted)
    ensures Distinct(BlocksFrom(sorted, 0))
  {
    var clusters := BlocksFrom(sorted, 0);
    forall i, j | 0 <= i < j < |clusters| ensures clusters[i] != clusters[j] {
      BlockHasTwo(sorted, 0, i);
      var v := clusters[i][0];
      BlocksAreDisjoint(sorted, 0, i, j, v);
    }
  }

  lemma ClustersDiffer(visits: seq<Visit>)
    requires Distinct(visits)
    ensures Distinct(Clusters(visits))
  {
    ByArrivalSorts(visits);
    BlocksDiffer(ByArrival(visits));
  }

  /** Nothing is shown twice. */
  lemma ShownOnce(visits: seq<Visit>, led: set<nat>)
    requires Distinct(visits)
    ensures Distinct(LeadConflicts(visits, led))
  {
    PeopleAreListedOnce(visits, Participants(visits, led));
    ConflictsOfPeopleDiffer(visits, led, PeopleOf(visits, Participants(visits, led)));
  }

  // ---------------------------------------------------------------------------
  // Under which event, and in which order
  // ---------------------------------------------------------------------------

  predicate AnchoredAt(cluster: seq<Visit>, led: set<nat>, k: nat)
    requires k < |cluster|
  {
    cluster[k].eventId.Some? && cluster[k].eventId.value in led
  }

  /** The event shown is that of the first visit anchored to an event of the lead. */
  lemma {:induction false} FirstAnchorIs(cluster: seq<Visit>, led: set<nat>, event: nat)
    ensures FirstAnchor(cluster, led) == Some(event) <==>
              exists k: nat | k < |cluster| ::
                AnchoredAt(cluster, led, k) && cluster[k].eventId.value == event && forall m: nat | m < k :: !AnchoredAt(cluster, led, m)
    decreases |cluster|
  {
    if cluster != [] && !AnchoredAt(cluster, led, 0) {
      var rest := cluster[1..];
      FirstAnchorIs(rest, led, event);
      assert forall m: nat | m < |rest| :: AnchoredAt(rest, led, m) == AnchoredAt(cluster, led, m + 1);
      if FirstAnchor(rest, led) == Some(event) {
        var k: nat :| k < |rest| && AnchoredAt(rest, led, k) && rest[k].eventId.value == event
                      && forall m: nat | m < k :: !AnchoredAt(rest, led, m);
        assert AnchoredAt(cluster, led, k + 1);
        forall m: nat | m < k + 1 ensures !AnchoredAt(cluster, led, m) {
          assert m > 0 ==> !AnchoredAt(rest, led, m - 1);
        }
      }
      forall k: nat | k < |cluster| && AnchoredAt(cluster, led, k) && cluster[k].eventId.value == event
                      && forall m: nat | m < k :: !AnchoredAt(cluster, led, m)
        ensures FirstAnchor(rest, led) == Some(event)
      {
        assert AnchoredAt(rest, led, k - 1);
        forall m: nat | m < k - 1 ensures !AnchoredAt(rest, led, m) {
          assert !AnchoredAt(cluster, led, m + 1);
        }
      }
    }
  }

  /** One person appears among the visits before the other does. */
  ghost predicate AppearsBefore(visits: seq<Visit>, p: nat, q: nat) {
    exists a | 0 <= a < |visits| :: visits[a].personId == p && forall b | 0 <= b <= a :: visits[b].personId != q
  }

  lemma AppearsBeforeLonger(visits: seq<Visit>, more: seq<Visit>, p: nat, q: nat)
    requires AppearsBefore(visits, p, q)
    ensures AppearsBefore(visits + more, p, q)
  {
    var a :| 0 <= a < |visits| && visits[a].personId == p && forall b | 0 <= b <= a :: visits[b].personId != q;
    assert (visits + more)[a].personId == p;
  }

  lemma {:induction false} PeopleAppearInOrder(visits: seq<Visit>, participants: set<nat>, x: nat, y: nat)
    requires x < y < |PeopleOf(visits, participants)|
    ensures AppearsBefore(visits, PeopleOf(visits, participants)[x], PeopleOf(visits, participants)[y])
    decreases |visits|
  {
    var init, last := visits[..|visits| - 1], visits[|visits| - 1];
    var before, people := PeopleOf(init, participants), PeopleOf(visits, participants);
    assert visits == init + [last];
    if y < |before| {
      PeopleAppearInOrder(init, participants, x, y);
      AppearsBeforeLonger(init, [last], people[x], people[y]);
    } else {
      InPeopleOf(init, participants, people[x]);
      InPeopleOf(init, participants, people[y]);
      assert people[x] in before && people[y] !in before;
      var v :| v in init && v.personId == people[x];
      var a :| 0 <= a < |init| && init[a] == v;
      assert forall b | 0 <= b <= a :: init[b] in init;
      assert AppearsBefore(init, people[x], people[y]);
      AppearsBeforeLonger(init, [last], people[x], people[y]);
    }
  }

  /** Whose conflict the i-th of the list is: that of the person before the last, or of the last. */
  lemma OwnerOf(visits: seq<Visit>, led: set<nat>, people: seq<nat>, i: nat)
    requires people != [] && i < |ConflictsOfPeople(visits, led, people)|
    ensures var init := people[..|people| - 1];
            var before, c := ConflictsOfPeople(visits, led, init), ConflictsOfPeople(visits, led, people)[i];
            && (i < |before| ==> c == before[i] && c.participantId in init)
            && (i >= |before| ==> c.participantId == people[|people| - 1])
  {
    var init, p := people[..|people| - 1], people[|people| - 1];
    var before, own := ConflictsOfPeople(visits, led, init), ConflictsIn(Clusters(VisitsOf(visits, p)), p, led);
    if i < |before| {
      InConflictsOfPeople(visits, led, init, before[i]);
    } else {
      InConflictsIn(Clusters(VisitsOf(visits, p)), p, led, own[i - |before|]);
    }
  }

  lemma {:induction false} ConflictsFollowPeople(visits: seq<Visit>, led: set<nat>, people: seq<nat>, i: nat, j: nat)
    returns (x: nat, y: nat)
    requires i < j < |ConflictsOfPeople(visits, led, people)|
    requires ConflictsOfPeople(visits, led, people)[i].participantId != ConflictsOfPeople(visits, led, people)[j].participantId
    ensures x < y < |people|
    ensures people[x] == ConflictsOfPeople(visits, led, people)[i].participantId
    ensures people[y] == ConflictsOfPeople(visits, led, people)[j].participantId
    decreases |people|
  {
    var init := people[..|people| - 1];
    OwnerOf(visits, led, people, i);
    OwnerOf(visits, led, people, j);
    if j < |ConflictsOfPeople(visits, led, init)| {
      x, y := ConflictsFollowPeople(visits, led, init, i, j);
    } else {
      y := |people| - 1;
      var p := ConflictsOfPeople(visits, led, people)[i].participantId;
      x :| x < |init| && init[x] == p;
    }
  }

  /** The list follows the order in which people first appear among the visits. */
  lemma ShownInOrder(visits: seq<Visit>, led: set<nat>, i: nat, j: nat)
    requires i < j < |LeadConflicts(visits, led)|
    requires LeadConflicts(visits, led)[i].participantId != LeadConflicts(visits, led)[j].participantId
    ensures AppearsBefore(visits, LeadConflicts(visits, led)[i].participantId, LeadConflicts(visits, led)[j].participantId)
  {
    var participants := Participants(visits, led);
    var x, y := ConflictsFollowPeople(visits, led, PeopleOf(visits, participants), i, j);
    PeopleAppearInOrder(visits, participants, x, y);
  }

  lemma {:induction false} BlocksFollowArrival(sorted: seq<Visit>, b: nat, k: nat, l: nat, v: Visit, w: Visit)
    requires InArrivalOrder(sorted) && b <= |sorted| && k < l < |BlocksFrom(sorted, b)|
    requires v in BlocksFrom(sorted, b)[k] && w in BlocksFrom(sorted, b)[l]
    ensures v.arrivedAt <= w.arrivedAt
    decreases |sorted| - b
  {
    var e := NextCut(sorted, b + 1);
    var head := IfPileUp(sorted[b..e]);
    if k < |head| {
      BlocksAreLater(sorted, e, l - |head|, w);
      var i :| b <= i < e && sorted[i] == v;
      var j :| e <= j < |sorted| && sorted[j] == w;
    } else {
      BlocksFollowArrival(sorted, e, k - |head|, l - |head|, v, w);
    }
  }

  /** One person's pile-ups are reported in the order of their arrivals. */
  lemma ClustersFollowArrival(visits: seq<Visit>, k: nat, l: nat, v: Visit, w: Visit)
    requires k < l < |Clusters(visits)| && v in Clusters(visits)[k] && w in Clusters(visits)[l]
    ensures v.arrivedAt <= w.arrivedAt
  {
    ByArrivalSorts(visits);
    BlocksFollowArrival(ByArrival(visits), 0, k, l, v, w);
  }
}
