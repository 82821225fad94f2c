/** A bounded list that keeps the most recently reported ids. */
module Recency {
  import opened Words

  datatype Report<K, V> = Report(id: K, endpoint: V)

  datatype Effect<K> = Added | Refreshed | EvictedOldest(id: K) | Ignored

  predicate HasId<K(==), V>(ns: seq<Report<K, V>>, id: K) {
    exists i | 0 <= i < |ns| :: ns[i].id == id
  }

  /** `ns` without the nodes called `id`. */
  function Without<K(==), V>(ns: seq<Report<K, V>>, id: K): seq<Report<K, V>> {
    if ns == [] then []
    else
      var front, last := Without(ns[..|ns| - 1], id), ns[|ns| - 1];
      if last.id == id then front else front + [last]
  }

  predicate DistinctIds<K(==), V>(ns: seq<Report<K, V>>) {
    forall i, j | 0 <= i < j < |ns| :: ns[i].id != ns[j].id
  }

  // -- one bucket -----------------------------------------------------------

  function Remove<K, V>(ns: seq<Report<K, V>>, pos: nat): seq<Report<K, V>>
    requires pos < |ns|
  {
    ns[..pos] + ns[pos + 1..]
  }

  /** The last `k` elements. */
  function LastK<K, V>(ns: seq<Report<K, V>>, k: nat): seq<Report<K, V>> {
    if |ns| <= k then ns else ns[|ns| - k..]
  }

  /**
   * Every node seen, once each with its latest endpoint, ordered by when it was last seen.
   */
  function Survivors<K(==), V>(seen: seq<Report<K, V>>): seq<Report<K, V>> {
    if seen == [] then []
    else
      var last := seen[|seen| - 1];
      Without(Survivors(seen[..|seen| - 1]), last.id) + [last]
  }

  lemma {:induction false} WithoutAbsent<K, V>(ns: seq<Report<K, V>>, id: K)
    requires !HasId(ns, id)
    ensures Without(ns, id) == ns
  {
    if ns != [] {
      WithoutAbsent(ns[..|ns| - 1], id);
      assert ns == ns[..|ns| - 1] + [ns[|ns| - 1]];
    }
  }

  lemma {:induction false} WithoutConcat<K, V>(xs: seq<Report<K, V>>, ys: seq<Report<K, V>>, id: K)
    ensures Without(xs + ys, id) == Without(xs, id) + Without(ys, id)
  {
    if ys == [] {
      assert xs + ys == xs;
    } else {
      var zs := xs + ys;
      assert zs[..|zs| - 1] == xs + ys[..|ys| - 1];
      WithoutConcat(xs, ys[..|ys| - 1], id);
    }
  }

  /** Dropping by position and dropping by id are the same where ids are distinct. */
  lemma {:induction false} WithoutOne<K, V>(ns: seq<Report<K, V>>, pos: nat)
    requires pos < |ns| && DistinctIds(ns)
    ensures Without(ns, ns[pos].id) == Remove(ns, pos)
  {
    var front, last := ns[..|ns| - 1], ns[|ns| - 1];
    if pos == |ns| - 1 {
      WithoutAbsent(front, last.id);
      assert Remove(ns, pos) == front;
    } else {
      WithoutOne(front, pos);
      assert Remove(ns, pos) == Remove(front, pos) + [last];
    }
  }

  lemma {:induction false} WithoutMembers<K, V>(ns: seq<Report<K, V>>, id: K, n: Report<K, V>)
    ensures n in Without(ns, id) <==> n in ns && n.id != id
  {
    if ns != [] {
      WithoutMembers(ns[..|ns| - 1], id, n);
      assert ns == ns[..|ns| - 1] + [ns[|ns| - 1]];
    }
  }

  lemma DistinctSnoc<K, V>(ns: seq<Report<K, V>>, last: Report<K, V>)
    requires DistinctIds(ns) && !HasId(ns, last.id)
    ensures DistinctIds(ns + [last])
  {
  }

  lemma {:induction false} WithoutKeepsDistinct<K, V>(ns: seq<Report<K, V>>, id: K)
    requires DistinctIds(ns)
    ensures DistinctIds(Without(ns, id)) && !HasId(Without(ns, id), id)
  {
    if ns != [] {
      var front, last := ns[..|ns| - 1], ns[|ns| - 1];
      WithoutKeepsDistinct(front, id);
      if last.id != id {
        var kept := Without(front, id);
        forall p | 0 <= p < |kept|
          ensures kept[p].id != last.id
        {
          WithoutMembers(front, id, kept[p]);
        }
        DistinctSnoc(kept, last);
        HasIdSnoc(kept, last, id);
      }
    }
  }

  lemma {:induction false} SurvivorsDistinct<K, V>(seen: seq<Report<K, V>>)
    ensures DistinctIds(Survivors(seen))
  {
    if seen != [] {
      var older, last := Survivors(seen[..|seen| - 1]), seen[|seen| - 1];
      SurvivorsDistinct(seen[..|seen| - 1]);
      WithoutKeepsDistinct(older, last.id);
      DistinctSnoc(Without(older, last.id), last);
    }
  }

  lemma {:induction false} SurvivorsWereSeen<K, V>(seen: seq<Report<K, V>>, n: Report<K, V>)
    requires n in Survivors(seen)
    ensures n in seen
  {
    var older, last := Survivors(seen[..|seen| - 1]), seen[|seen| - 1];
    WithoutMembers(older, last.id, n);
    if n in older {
      SurvivorsWereSeen(seen[..|seen| - 1], n);
    }
  }

  /** The node at `pos` was the last one seen with its id. */
  ghost predicate LastSeenAt<K, V>(seen: seq<Report<K, V>>, n: Report<K, V>, pos: nat) {
    pos < |seen| && seen[pos] == n && !HasId(seen[pos + 1..], n.id)
  }

  lemma LastSeenStep<K, V>(front: seq<Report<K, V>>, last: Report<K, V>, n: Report<K, V>, pos: nat)
    ensures LastSeenAt(front + [last], n, pos) <==>
            if pos == |front| then n == last else LastSeenAt(front, n, pos) && n.id != last.id
  {
    if pos < |front| {
      assert (front + [last])[pos + 1..] == front[pos + 1..] + [last];
      HasIdSnoc(front[pos + 1..], last, n.id);
    }
  }

  ghost predicate NeverReplaced<K, V>(seen: seq<Report<K, V>>, n: Report<K, V>) {
    exists pos :: LastSeenAt(seen, n, pos)
  }

  lemma NeverReplacedStep<K, V>(front: seq<Report<K, V>>, last: Report<K, V>, n: Report<K, V>)
    ensures NeverReplaced(front + [last], n) <==> n == last || (NeverReplaced(front, n) && n.id != last.id)
  {
    LastSeenStep(front, last, n, |front|);
    if NeverReplaced(front + [last], n) {
      var pos :| LastSeenAt(front + [last], n, pos);
      LastSeenStep(front, last, n, pos);
    }
    if NeverReplaced(front, n) {
      var pos :| LastSeenAt(front, n, pos);
      LastSeenStep(front, last, n, pos);
    }
  }

  /** The survivors are exactly the nodes no later report of the same id replaced. */
  lemma {:induction false} SurvivorsAreLastSeen<K, V>(seen: seq<Report<K, V>>, n: Report<K, V>)
    ensures n in Survivors(seen) <==> NeverReplaced(seen, n)
  {
    if seen != [] {
      var front, last := seen[..|seen| - 1], seen[|seen| - 1];
      SurvivorsAreLastSeen(front, n);
      WithoutMembers(Survivors(front), last.id, n);
      NeverReplacedStep(front, last, n);
      assert seen == front + [last];
    }
  }

  /** Dropping an id keeps the order of the rest. */
  lemma {:induction false} WithoutKeepsOrder<K, V>(ns: seq<Report<K, V>>, id: K, p: nat, q: nat)
    returns (p': nat, q': nat)
    requires p < q < |Without(ns, id)|
    ensures p' < q' < |ns| && ns[p'] == Without(ns, id)[p] && ns[q'] == Without(ns, id)[q]
  {
    var n := |ns| - 1;
    var front := Without(ns[..n], id);
    if q < |front| {
      p', q' := WithoutKeepsOrder(ns[..n], id, p, q);
    } else {
      assert front[p] in front;
      WithoutMembers(ns[..n], id, front[p]);
      p' :| 0 <= p' < n && ns[p'] == front[p];
      q' := n;
    }
  }

  /** Survivors are listed in the order in which they were last seen. */
  lemma {:induction false} SurvivorsInOrder<K, V>(seen: seq<Report<K, V>>, p: nat, q: nat, i: nat, j: nat)
    requires p < q < |Survivors(seen)|
    requires LastSeenAt(seen, Survivors(seen)[p], i) && LastSeenAt(seen, Survivors(seen)[q], j)
    ensures i < j
  {
    var front, last := seen[..|seen| - 1], seen[|seen| - 1];
    var older := Survivors(front);
    var kept := Without(older, last.id);
    var x, y := Survivors(seen)[p], Survivors(seen)[q];
    assert seen == front + [last] && x == kept[p];
    assert kept[p] in kept;
    WithoutMembers(older, last.id, x);
    LastSeenStep(front, last, x, i);
    LastSeenStep(front, last, y, j);
    if q < |kept| {
      assert kept[q] in kept;
      WithoutMembers(older, last.id, y);
      var p', q' := WithoutKeepsOrder(older, last.id, p, q);
      SurvivorsInOrder(front, p', q', i, j);
    }
  }

  /** Listed in the order of the last sighting. */
  ghost predicate InOrder<K, V>(ns: seq<Report<K, V>>, seen: seq<Report<K, V>>) {
    forall p: nat, q: nat, i: nat, j: nat | p < q < |ns| && LastSeenAt(seen, ns[p], i) && LastSeenAt(seen, ns[q], j) ::
      i < j
  }

  /** Everything in `ns` was last seen after position `i`. */
  ghost predicate AllLater<K, V>(ns: seq<Report<K, V>>, seen: seq<Report<K, V>>, i: nat) {
    forall q: nat, j: nat | q < |ns| && LastSeenAt(seen, ns[q], j) :: i < j
  }

  /** No entry was replaced by a later report of its id. */
  ghost predicate AllCurrent<K, V>(ns: seq<Report<K, V>>, seen: seq<Report<K, V>>) {
    forall q | 0 <= q < |ns| :: NeverReplaced(seen, ns[q])
  }

  /** A current report is left out only by a full list of later ones. */
  ghost predicate NoneMissed<K, V>(ns: seq<Report<K, V>>, seen: seq<Report<K, V>>, k: nat) {
    forall i: nat | i < |seen| && LastSeenAt(seen, seen[i], i) && seen[i] !in ns :: |ns| == k && AllLater(ns, seen, i)
  }

  /** What a list is when it holds the `k` most recently reported of the ids in `seen`. */
  ghost predicate MostRecent<K, V>(ns: seq<Report<K, V>>, seen: seq<Report<K, V>>, k: nat) {
    |ns| <= k && DistinctIds(ns) && InOrder(ns, seen) && AllCurrent(ns, seen) && NoneMissed(ns, seen, k)
  }

  /** `ns` is what is left of `all` after `d` elements. */
  ghost predicate SuffixFrom<K, V>(ns: seq<Report<K, V>>, all: seq<Report<K, V>>, d: nat) {
    d <= |all| && |ns| == |all| - d && forall p | 0 <= p < |ns| :: ns[p] == all[d + p]
  }

  lemma SuffixInOrder<K, V>(ns: seq<Report<K, V>>, seen: seq<Report<K, V>>, d: nat)
    requires SuffixFrom(ns, Survivors(seen), d)
    ensures InOrder(ns, seen)
  {
    forall p: nat, q: nat, i: nat, j: nat | p < q < |ns| && LastSeenAt(seen, ns[p], i) && LastSeenAt(seen, ns[q], j)
      ensures i < j
    {
      SurvivorsInOrder(seen, d + p, d + q, i, j);
    }
  }

  lemma LeftOutIsOlder<K, V>(ns: seq<Report<K, V>>, seen: seq<Report<K, V>>, d: nat, n: Report<K, V>, i: nat)
    requires SuffixFrom(ns, Survivors(seen), d) && LastSeenAt(seen, n, i) && n !in ns
    ensures d > 0 && AllLater(ns, seen, i)
  {
    var all := Survivors(seen);
    assert NeverReplaced(seen, n);
    SurvivorsAreLastSeen(seen, n);
    var p :| 0 <= p < |all| && all[p] == n;
    forall z | d <= z < |all|
      ensures all[z] in ns
    {
      assert ns[z - d] == all[z];
    }
    forall q: nat, j: nat | q < |ns| && LastSeenAt(seen, ns[q], j)
      ensures i < j
    {
      SurvivorsInOrder(seen, p, d + q, i, j);
    }
  }

  lemma SuffixDistinct<K, V>(ns: seq<Report<K, V>>, all: seq<Report<K, V>>, d: nat)
    requires SuffixFrom(ns, all, d) && DistinctIds(all)
    ensures DistinctIds(ns)
  {
  }

  lemma SuffixCurrent<K, V>(ns: seq<Report<K, V>>, seen: seq<Report<K, V>>, d: nat)
    requires SuffixFrom(ns, Survivors(seen), d)
    ensures AllCurrent(ns, seen)
  {
    var all := Survivors(seen);
    forall q | 0 <= q < |ns|
      ensures NeverReplaced(seen, ns[q])
    {
      assert all[d + q] in all;
      SurvivorsAreLastSeen(seen, ns[q]);
    }
  }

  lemma SuffixMissesNone<K, V>(ns: seq<Report<K, V>>, seen: seq<Report<K, V>>, d: nat, k: nat)
    requires SuffixFrom(ns, Survivors(seen), d) && (d > 0 ==> |ns| == k)
    ensures NoneMissed(ns, seen, k)
  {
    forall i: nat | i < |seen| && LastSeenAt(seen, seen[i], i) && seen[i] !in ns
      ensures |ns| == k && AllLater(ns, seen, i)
    {
      LeftOutIsOlder(ns, seen, d, seen[i], i);
    }
  }

  lemma LastKIsSuffix<K, V>(all: seq<Report<K, V>>, k: nat)
    ensures |LastK(all, k)| <= k && (|LastK(all, k)| < |all| ==> |LastK(all, k)| == k)
    ensures SuffixFrom(LastK(all, k), all, |all| - |LastK(all, k)|)
  {
  }

  lemma SuffixMostRecent<K, V>(ns: seq<Report<K, V>>, seen: seq<Report<K, V>>, d: nat, k: nat)
    requires SuffixFrom(ns, Survivors(seen), d) && (d > 0 ==> |ns| == k) && |ns| <= k
    ensures MostRecent(ns, seen, k)
  {
    SurvivorsDistinct(seen);
    SuffixDistinct(ns, Survivors(seen), d);
    SuffixInOrder(ns, seen, d);
    SuffixCurrent(ns, seen, d);
    SuffixMissesNone(ns, seen, d, k);
  }

  lemma LastKMostRecent<K, V>(seen: seq<Report<K, V>>, k: nat)
    ensures MostRecent(LastK(Survivors(seen), k), seen, k)
  {
    var all := Survivors(seen);
    LastKIsSuffix(all, k);
    SuffixMostRecent(LastK(all, k), seen, |all| - |LastK(all, k)|, k);
  }

  lemma HasIdSnoc<K, V>(ns: seq<Report<K, V>>, last: Report<K, V>, id: K)
    ensures HasId(ns + [last], id) <==> HasId(ns, id) || last.id == id
  {
    var all := ns + [last];
    if HasId(ns, id) {
      var i :| 0 <= i < |ns| && ns[i].id == id;
      assert all[i].id == id;
    }
    assert all[|ns|] == last;
  }

  // -- inserting ------------------------------------------------------------

  /** The bucket after a node called `node.id` is reported, and what happened. */
  function InsertInto<K(==), V>(bucket: seq<Report<K, V>>, node: Report<K, V>, k: nat): (seq<Report<K, V>>, Effect<K>)
    requires k >= 1
  {
    if HasId(bucket, node.id) then (Without(bucket, node.id) + [node], Refreshed)
    else if |bucket| < k then (bucket + [node], Added)
    else (bucket[1..] + [node], EvictedOldest(bucket[0].id))
  }

  /** The first node called `id`. */
  method Position<K(==), V>(ns: seq<Report<K, V>>, id: K) returns (r: Option<nat>)
    ensures r.None? <==> !HasId(ns, id)
    ensures r.Some? ==> r.value < |ns| && ns[r.value].id == id && !HasId(ns[..r.value], id)
  {
    for i := 0 to |ns|
      invariant forall j | 0 <= j < i :: ns[j].id != id
    {
      if ns[i].id == id {
        return Some(i);
      }
    }
    return None;
  }

  lemma LastKSnoc<K, V>(ns: seq<Report<K, V>>, node: Report<K, V>, k: nat)
    requires k >= 1
    ensures LastK(ns + [node], k) == LastK(ns, k - 1) + [node]
  {
  }

  lemma LastKSuffix<K, V>(older: seq<Report<K, V>>, ns: seq<Report<K, V>>, k: nat)
    requires k <= |ns|
    ensures LastK(older + ns, k) == LastK(ns, k)
  {
  }

  /** A bucket that holds the last `k` survivors still does after one more report. */
  lemma InsertKeepsLastSeen<K, V>(stack: seq<Report<K, V>>, node: Report<K, V>, k: nat)
    requires k >= 1 && DistinctIds(stack)
    ensures InsertInto(LastK(stack, k), node, k).0 == LastK(Without(stack, node.id) + [node], k)
  {
    var bucket := LastK(stack, k);
    var older := stack[..|stack| - |bucket|];
    assert stack == older + bucket;
    WithoutConcat(older, bucket, node.id);
    LastKSnoc(Without(stack, node.id), node, k);
    if HasId(bucket, node.id) {
      RefreshKeepsLastSeen(older, bucket, node, k);
    } else {
      WithoutAbsent(bucket, node.id);
      if |bucket| == k {
        LastKSuffix(Without(older, node.id), bucket, k - 1);
      } else {
        assert older == [];
      }
    }
  }

  lemma DistinctParts<K, V>(older: seq<Report<K, V>>, bucket: seq<Report<K, V>>, i: nat)
    requires DistinctIds(older + bucket) && i < |bucket|
    ensures DistinctIds(bucket) && !HasId(older, bucket[i].id)
  {
    var all := older + bucket;
    assert all[|older| + i] == bucket[i];
    forall j | 0 <= j < |older|
      ensures older[j].id != bucket[i].id
    {
      assert all[j] == older[j];
    }
    forall p, q | 0 <= p < q < |bucket|
      ensures bucket[p].id != bucket[q].id
    {
      assert all[|older| + p] == bucket[p] && all[|older| + q] == bucket[q];
    }
  }

  lemma RefreshKeepsLastSeen<K, V>(older: seq<Report<K, V>>, bucket: seq<Report<K, V>>, node: Report<K, V>, k: nat)
    requires k >= 1 && |bucket| <= k && (|bucket| < k ==> older == [])
    requires DistinctIds(older + bucket) && HasId(bucket, node.id)
    ensures LastK(Without(older, node.id) + Without(bucket, node.id), k - 1) == Without(bucket, node.id)
  {
    var i :| 0 <= i < |bucket| && bucket[i].id == node.id;
    DistinctParts(older, bucket, i);
    WithoutAbsent(older, node.id);
    WithoutOne(bucket, i);
    if |bucket| == k {
      LastKSuffix(older, Remove(bucket, i), k - 1);
    }
  }
}
