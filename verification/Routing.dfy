/** The k-bucket routing table. */
module Routing {
  import opened Words
  import opened Sorting
  import opened Closeness
  import opened Recency

  /** An address and a UDP and a TCP port. */
  datatype Endpoint = Endpoint(ip: nat, udp: nat, tcp: nat)

  type Node = Report<NodeId, Endpoint>
  type Outcome = Effect<NodeId>

  /** The position of the highest bit that differs from `local`; none for `local` itself. */
  function BucketIndex(local: NodeId, id: NodeId): (r: Option<nat>)
    ensures r.Some? ==> r.value < ID_BITS
  {
    var shared := SharedBits(local, id);
    if shared >= ID_BITS then None else Some(ID_BITS - 1 - shared)
  }

  // -- the table ------------------------------------------------------------

  datatype Table = Table(local: NodeId, buckets: seq<seq<Node>>, k: nat)

  predicate WellShaped(t: Table) {
    |t.buckets| == ID_BITS && t.k >= 1
  }

  function InsertNode(t: Table, node: Node): (r: (Table, Outcome))
    requires WellShaped(t)
    ensures WellShaped(r.0)
  {
    var index := BucketIndex(t.local, node.id);
    if index.None? then (t, Ignored)
    else
      var (bucket, outcome) := InsertInto(t.buckets[index.value], node, t.k);
      (t.(buckets := t.buckets[index.value := bucket]), outcome)
  }

  function Empty(local: NodeId, k: nat): Table {
    Table(local, seq(ID_BITS, _ => []), k)
  }

  function InsertAll(local: NodeId, k: nat, seen: seq<Node>): (t: Table)
    requires k >= 1
    ensures WellShaped(t) && t.local == local && t.k == k
  {
    if seen == [] then Empty(local, k)
    else InsertNode(InsertAll(local, k, seen[..|seen| - 1]), seen[|seen| - 1]).0
  }

  /** The reports that concern bucket `i`. */
  function ReportsFor(local: NodeId, seen: seq<Node>, i: nat): seq<Node> {
    if seen == [] then []
    else
      var front, last := ReportsFor(local, seen[..|seen| - 1], i), seen[|seen| - 1];
      if BucketIndex(local, last.id) == Some(i) then front + [last] else front
  }

  /**
   * After any run of inserts, bucket `i` holds the `k` most recently seen nodes of its distance
   * class, oldest first, each with its latest endpoint.
   */
  lemma {:induction false} BucketHoldsLastSeen(local: NodeId, k: nat, seen: seq<Node>, i: nat)
    requires k >= 1 && i < ID_BITS
    ensures InsertAll(local, k, seen).buckets[i] == LastK(Survivors(ReportsFor(local, seen, i)), k)
  {
    if seen != [] {
      var front, last := seen[..|seen| - 1], seen[|seen| - 1];
      BucketHoldsLastSeen(local, k, front, i);
      if BucketIndex(local, last.id) == Some(i) {
        var reports := ReportsFor(local, front, i);
        SurvivorsDistinct(reports);
        InsertKeepsLastSeen(Survivors(reports), last, k);
        assert (reports + [last])[..|reports|] == reports;
      }
    }
  }

  /**
   * Said without `Survivors`: the bucket's nodes are reports no later report replaced, in the order
   * of their last sighting, and a report left out means a full bucket of later ones.
   */
  lemma BucketIsMostRecent(local: NodeId, k: nat, seen: seq<Node>, i: nat)
    requires k >= 1 && i < ID_BITS
    ensures MostRecent(InsertAll(local, k, seen).buckets[i], ReportsFor(local, seen, i), k)
  {
    BucketHoldsLastSeen(local, k, seen, i);
    LastKMostRecent(ReportsFor(local, seen, i), k);
  }

  lemma {:induction false} ReportsAreFor(local: NodeId, seen: seq<Node>, i: nat)
    ensures forall n | n in ReportsFor(local, seen, i) :: BucketIndex(local, n.id) == Some(i)
  {
    if seen != [] {
      ReportsAreFor(local, seen[..|seen| - 1], i);
    }
  }

  /** So no bucket overflows, no id is stored twice, and no bucket holds the local id. */
  lemma TableInvariants(local: NodeId, k: nat, seen: seq<Node>, i: nat, p: nat)
    requires k >= 1 && i < ID_BITS
    requires p < |InsertAll(local, k, seen).buckets[i]|
    ensures |InsertAll(local, k, seen).buckets[i]| <= k
    ensures DistinctIds(InsertAll(local, k, seen).buckets[i])
    ensures BucketIndex(local, InsertAll(local, k, seen).buckets[i][p].id) == Some(i)
    ensures InsertAll(local, k, seen).buckets[i][p].id != local
  {
    var bucket := InsertAll(local, k, seen).buckets[i];
    var stack := Survivors(ReportsFor(local, seen, i));
    BucketHoldsLastSeen(local, k, seen, i);
    SurvivorsDistinct(ReportsFor(local, seen, i));
    ReportsAreFor(local, seen, i);
    assert bucket[p] in stack;
    SurvivorsWereSeen(ReportsFor(local, seen, i), bucket[p]);
    AllBitsShared(local, bucket[p].id);
  }

  // -- lookup ---------------------------------------------------------------

  function Flatten(bs: seq<seq<Node>>): seq<Node> {
    if bs == [] then [] else Flatten(bs[..|bs| - 1]) + bs[|bs| - 1]
  }

  function CloserTo(target: NodeId): (Node, Node) -> bool {
    (a: Node, b: Node) => IsCloser(target, a.id, b.id)
  }

  function Closest(t: Table, target: NodeId, count: nat): seq<Node> {
    var all := Sort(Flatten(t.buckets), CloserTo(target));
    if |all| <= count then all else all[..count]
  }

  lemma CloserToIsOrdering(target: NodeId)
    ensures Ordering(CloserTo(target))
  {
  }

  /**
   * A lookup returns `count` nodes (all of them if there are fewer), closest first; the rest of
   * the table is made up of nodes none of which is closer than any node returned.
   */
  lemma ClosestAreClosest(t: Table, target: NodeId, count: nat, rest: seq<Node>)
    requires rest == Sort(Flatten(t.buckets), CloserTo(target))[|Closest(t, target, count)|..]
    ensures multiset(Flatten(t.buckets)) == multiset(Closest(t, target, count)) + multiset(rest)
    ensures |Closest(t, target, count)| == if count <= |Flatten(t.buckets)| then count else |Flatten(t.buckets)|
    ensures forall i, j | 0 <= i < j < |Closest(t, target, count)| ::
              !IsCloser(target, Closest(t, target, count)[j].id, Closest(t, target, count)[i].id)
    ensures forall i, j | 0 <= i < |Closest(t, target, count)| && 0 <= j < |rest| ::
              !IsCloser(target, rest[j].id, Closest(t, target, count)[i].id)
  {
    var all := Sort(Flatten(t.buckets), CloserTo(target));
    var kept := Closest(t, target, count);
    CloserToIsOrdering(target);
    SortSorts(Flatten(t.buckets), CloserTo(target));
    assert all == kept + rest;
    NoneCloser(target, all, |kept|);
  }

  lemma NoneCloser(target: NodeId, all: seq<Node>, n: nat)
    requires Sorted(all, CloserTo(target)) && n <= |all|
    ensures forall i, j | 0 <= i < j < n :: !IsCloser(target, all[..n][j].id, all[..n][i].id)
    ensures forall i, j | 0 <= i < n && 0 <= j < |all| - n :: !IsCloser(target, all[n..][j].id, all[..n][i].id)
  {
    forall i, j | 0 <= i < j < |all|
      ensures !IsCloser(target, all[j].id, all[i].id)
    {
      assert !CloserTo(target)(all[j], all[i]);
    }
  }

  // -- the class ------------------------------------------------------------

  predicate BucketOk(local: NodeId, bucket: seq<Node>, i: nat) {
    DistinctIds(bucket) && forall p | 0 <= p < |bucket| :: BucketIndex(local, bucket[p].id) == Some(i)
  }

  predicate Valid(t: Table) {
    WellShaped(t) && forall i | 0 <= i < ID_BITS :: BucketOk(t.local, t.buckets[i], i)
  }

  lemma InsertIntoKeepsOk(local: NodeId, bucket: seq<Node>, node: Node, k: nat, i: nat)
    requires k >= 1 && BucketOk(local, bucket, i) && BucketIndex(local, node.id) == Some(i)
    ensures BucketOk(local, InsertInto(bucket, node, k).0, i)
  {
    if HasId(bucket, node.id) {
      WithoutKeepsDistinct(bucket, node.id);
      var kept := Without(bucket, node.id);
      forall p | 0 <= p < |kept|
        ensures BucketIndex(local, kept[p].id) == Some(i) && kept[p].id != node.id
      {
        WithoutMembers(bucket, node.id, kept[p]);
      }
    }
  }

  lemma InsertKeepsValid(t: Table, node: Node)
    requires Valid(t)
    ensures Valid(InsertNode(t, node).0)
  {
    var index := BucketIndex(t.local, node.id);
    if index.Some? {
      InsertIntoKeepsOk(t.local, t.buckets[index.value], node, t.k, index.value);
    }
  }

  class RoutingTable {
    const local: NodeId
    var buckets: seq<seq<Node>>
    const k: nat

    ghost function View(): Table
      reads this
    {
      Table(local, buckets, k)
    }

    constructor (local: NodeId, k: nat)
      ensures View() == Empty(local, k)
      ensures k >= 1 ==> Valid(View())
    {
      this.local, this.k := local, k;
      buckets := seq(ID_BITS, _ => []);
    }

    method Index(id: NodeId) returns (r: Option<nat>)
      ensures r == BucketIndex(local, id)
    {
      var shared := CommonPrefixBits(local, id);
      r := if shared >= ID_BITS then None else Some(ID_BITS - 1 - shared);
    }

    /** `insert`: refresh, append, or push out the least recently seen node. */
    method Insert(node: Node) returns (outcome: Outcome)
      requires Valid(View())
      modifies this
      ensures Valid(View())
      ensures (View(), outcome) == InsertNode(old(View()), node)
    {
      InsertKeepsValid(View(), node);
      var index := Index(node.id);
      if index.None? {
        return Ignored;
      }
      var bucket := buckets[index.value];
      var pos := Position(bucket, node.id);
      if pos.Some? {
        WithoutOne(bucket, pos.value);
        var existing := bucket[pos.value].(endpoint := node.endpoint);
        assert existing == node;
        bucket := Remove(bucket, pos.value) + [existing];
        outcome := Refreshed;
      } else if |bucket| < k {
        bucket := bucket + [node];
        outcome := Added;
      } else {
        outcome := EvictedOldest(bucket[0].id);
        assert Remove(bucket, 0) == bucket[1..];
        bucket := Remove(bucket, 0) + [node];
      }
      buckets := buckets[index.value := bucket];
    }

    /** `contains`: true exactly when some bucket holds the id. */
    method Contains(id: NodeId) returns (found: bool)
      requires Valid(View())
      ensures found <==> exists i | 0 <= i < ID_BITS :: HasId(buckets[i], id)
    {
      var index := Index(id);
      if index.None? {
        return false;
      }
      var pos := Position(buckets[index.value], id);
      found := pos.Some?;
    }

    /** `closest`: every node, sorted by shared prefix and cut at `count`. */
    method Nearest(target: NodeId, count: nat) returns (r: seq<Node>)
      ensures r == Closest(View(), target, count)
    {
      var all := [];
      for i := 0 to |buckets|
        invariant all == Flatten(buckets[..i])
      {
        assert buckets[..i + 1][..i] == buckets[..i];
        all := all + buckets[i];
      }
      assert buckets[..|buckets|] == buckets;
      all := Sort(all, CloserTo(target));
      r := if |all| <= count then all else all[..count];
    }
  }
}
