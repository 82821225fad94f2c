/** PBFT finality bookkeeping: which commits are counted and when a block becomes irreversible. */
module Finality {
  import opened Words

  type Address = seq<byte>

  const MAX_PBFT_FUTURE_BLOCKS: int := 1024

  /** Strictly more than two thirds of `total`. */
  function Threshold(total: nat): nat {
    2 * total / 3 + 1
  }

  predicate IsFinalized(confirmations: nat, total: nat) {
    confirmations >= Threshold(total)
  }

  datatype Node = Node(
    allowPbft: bool,
    active: seq<Address>,
    head: int,
    solidified: int,
    confirmations: map<int, set<Address>>)

  /** A commit whose bytes do not decode or whose signature does not recover has no signer. */
  datatype Event =
    | Commit(block: int, signer: Option<Address>)
    | StoreBlock(number: int)
    | Elect(active: seq<Address>)
    | SetAllowPbft(on: bool)

  /** The intake window: above the solidified block and not too far above the head. */
  predicate InWindow(allow: bool, block: int, head: int, solidified: int) {
    allow && block > solidified && block <= head + MAX_PBFT_FUTURE_BLOCKS
  }

  predicate Accepts(s: Node, block: int, signer: Option<Address>) {
    && s.allowPbft
    && signer.Some? && signer.value in s.active
    && InWindow(s.allowPbft, block, s.head, s.solidified)
    && !(block in s.confirmations && signer.value in s.confirmations[block])
  }

  /** The confirmations counted once `signer` has been added. */
  function Counted(s: Node, block: int, signer: Address): map<int, set<Address>> {
    s.confirmations[block := (if block in s.confirmations then s.confirmations[block] else {}) + {signer}]
  }

  predicate Quorate(conf: map<int, set<Address>>, n: int, total: nat) {
    n in conf && IsFinalized(|conf[n]|, total)
  }

  /** Highest block reached by counting quorate blocks up from `n`; `n - 1` when there is none. */
  function Scan(conf: map<int, set<Address>>, n: int, head: int, total: nat): (r: int)
    requires n <= head + 1
    ensures n - 1 <= r <= head
    ensures forall k | n <= k <= r :: Quorate(conf, k, total)
    ensures r < head ==> !Quorate(conf, r + 1, total)
    decreases head - n
  {
    if n <= head && Quorate(conf, n, total) then Scan(conf, n + 1, head, total) else n - 1
  }

  /** `solidified_block`: finality counts from block 1 and stops at a gap. */
  function SolidTip(conf: map<int, set<Address>>, head: int, total: nat): (r: Option<int>)
    ensures r.Some? ==> 1 <= r.value <= head && forall k | 1 <= k <= r.value :: Quorate(conf, k, total)
    ensures r.Some? && r.value < head ==> !Quorate(conf, r.value + 1, total)
    ensures r.None? ==> head < 1 || !Quorate(conf, 1, total)
  {
    if head < 1 || Scan(conf, 1, head, total) == 0 then None else Some(Scan(conf, 1, head, total))
  }

  function Prune(conf: map<int, set<Address>>, tip: int): map<int, set<Address>> {
    map n | n in conf && n >= tip :: conf[n]
  }

  /** `on_pbft_commit` as one step. */
  function OnCommit(s: Node, block: int, signer: Option<Address>): Node {
    if !Accepts(s, block, signer) then s
    else
      var conf := Counted(s, block, signer.value);
      var tip := if IsFinalized(|conf[block]|, |s.active|) then SolidTip(conf, s.head, |s.active|) else None;
      if tip.Some? && tip.value > s.solidified
      then s.(solidified := tip.value, confirmations := Prune(conf, tip.value))
      else s.(confirmations := conf)
  }

  function Step(s: Node, e: Event): Node {
    match e
    case Commit(block, signer) => OnCommit(s, block, signer)
    case StoreBlock(number) => if number >= s.head then s.(head := number) else s
    case Elect(active) => s.(active := active)
    case SetAllowPbft(on) => s.(allowPbft := on)
  }

  function RunAll(s: Node, es: seq<Event>): Node {
    if es == [] then s else Step(RunAll(s, es[..|es| - 1]), es[|es| - 1])
  }

  // -- the node, updated in place -----------------------------------------

  class FinalityNode {
    var allowPbft: bool
    var active: seq<Address>
    var head: int
    var solidified: int
    var confirmations: map<int, set<Address>>

    ghost function View(): Node
      reads this
    {
      Node(allowPbft, active, head, solidified, confirmations)
    }

    constructor (s: Node)
      ensures View() == s
    {
      allowPbft, active, head, solidified := s.allowPbft, s.active, s.head, s.solidified;
      confirmations := s.confirmations;
    }

    method OnPbftCommit(block: int, signer: Option<Address>) returns (accepted: bool)
      modifies this`solidified, this`confirmations
      ensures View() == OnCommit(old(View()), block, signer)
      ensures accepted <==> Accepts(old(View()), block, signer)
    {
      if !allowPbft || signer.None? || signer.value !in active { return false; }
      if !InWindow(allowPbft, block, head, solidified) { return false; }
      var signers := {};
      if block in confirmations { signers := confirmations[block]; }
      if signer.value in signers { return false; }
      confirmations := confirmations[block := signers + {signer.value}];
      ghost var conf := confirmations;
      assert conf == Counted(old(View()), block, signer.value);
      if IsFinalized(|confirmations[block]|, |active|) {
        var counts := map n | n in confirmations :: |confirmations[n]|;
        var tip := SolidifiedBlock(counts, head, |active|, confirmations);
        match tip
        case None =>
        case Some(solid) =>
          if solid > solidified {
            solidified := solid;
            confirmations := map n | n in confirmations && n >= solid :: confirmations[n];
            assert confirmations == Prune(conf, solid);
          }
      }
      accepted := true;
    }
  }

  /** `solidified_block`: scan upwards from 1 until a block lacks quorum. */
  method SolidifiedBlock(counts: map<int, nat>, head: int, total: nat, ghost conf: map<int, set<Address>>)
    returns (solid: Option<int>)
    requires counts == map n | n in conf :: |conf[n]|
    ensures solid == SolidTip(conf, head, total)
  {
    solid := None;
    var n := 1;
    while n <= head
      invariant n == 1 || 1 <= n <= head + 1
      invariant head >= 1 ==> Scan(conf, n, head, total) == Scan(conf, 1, head, total)
      invariant solid == if n > 1 then Some(n - 1) else None
      decreases head - n
    {
      assert Quorate(conf, n, total) <==> n in counts && IsFinalized(counts[n], total);
      if n in counts && IsFinalized(counts[n], total) {
        solid := Some(n);
      } else {
        assert Scan(conf, n, head, total) == n - 1;
        break;
      }
      n := n + 1;
    }
  }

  // -- what every run keeps ------------------------------------------------

  /** The tip is between 0 and the head, and confirmations stay inside the window. */
  predicate Good(s: Node) {
    && 0 <= s.solidified <= s.head
    && forall n | n in s.confirmations :: s.solidified <= n <= s.head + MAX_PBFT_FUTURE_BLOCKS
  }

  lemma StepKeepsGood(s: Node, e: Event)
    requires Good(s)
    ensures Good(Step(s, e)) && s.solidified <= Step(s, e).solidified && s.head <= Step(s, e).head
  {
  }

  /** Over every run the solidified number never decreases and never passes the head. */
  lemma {:induction false} RunKeepsGood(s: Node, es: seq<Event>)
    requires Good(s)
    ensures Good(RunAll(s, es)) && s.solidified <= RunAll(s, es).solidified && s.head <= RunAll(s, es).head
  {
    if es != [] {
      RunKeepsGood(s, es[..|es| - 1]);
      StepKeepsGood(RunAll(s, es[..|es| - 1]), es[|es| - 1]);
    }
  }

  /** Event `i` of the run is an accepted commit of `a` for block `n`, `a` active at the time. */
  ghost predicate AcceptedAt(s: Node, es: seq<Event>, i: nat, n: int, a: Address) {
    && i < |es| && es[i] == Commit(n, Some(a))
    && Accepts(RunAll(s, es[..i]), n, Some(a)) && a in RunAll(s, es[..i]).active
  }

  lemma {:induction false} AcceptedEarlier(s: Node, es: seq<Event>, m: nat, i: nat, n: int, a: Address)
    requires m <= |es| && AcceptedAt(s, es[..m], i, n, a)
    ensures AcceptedAt(s, es, i, n, a)
  {
    assert es[..m][..i] == es[..i];
  }

  /** Every counted confirmation was an accepted commit of an SR that was active then. */
  lemma {:induction false} ConfirmationsWereAccepted(s: Node, es: seq<Event>, n: int, a: Address)
    requires s.confirmations == map[]
    requires n in RunAll(s, es).confirmations && a in RunAll(s, es).confirmations[n]
    ensures exists i: nat :: AcceptedAt(s, es, i, n, a)
  {
    var m := |es| - 1;
    if es == [] {
      assert false;
    }
    var before := RunAll(s, es[..m]);
    if n in before.confirmations && a in before.confirmations[n] {
      ConfirmationsWereAccepted(s, es[..m], n, a);
      var i: nat :| AcceptedAt(s, es[..m], i, n, a);
      AcceptedEarlier(s, es, m, i, n, a);
    } else {
      assert AcceptedAt(s, es, m, n, a);
    }
  }

  /** Event `i` moves the tip to cover block `n`. */
  ghost predicate SolidifiesAt(s: Node, es: seq<Event>, i: nat, n: int) {
    && i < |es|
    && RunAll(s, es[..i]).solidified < n <= RunAll(s, es[..i + 1]).solidified
  }

  /** The signers counted for block `n` when event `i` is processed. */
  ghost function SignersAt(s: Node, es: seq<Event>, i: nat, n: int): set<Address>
    requires i < |es|
  {
    var before := RunAll(s, es[..i]);
    if es[i].Commit? && es[i].signer.Some? then
      var conf := Counted(before, es[i].block, es[i].signer.value);
      if n in conf then conf[n] else {}
    else {}
  }

  /**
   * Whenever the tip moves to `t`, every block from 1 to `t` has a quorum of distinct
   * signers, each of which was an active SR when its commit was accepted.
   */
  lemma AdvanceNeedsQuorums(s: Node, es: seq<Event>, i: nat, n: int)
    requires Good(s) && s.confirmations == map[] && i < |es|
    requires RunAll(s, es[..i]).solidified < RunAll(s, es[..i + 1]).solidified
    requires 1 <= n <= RunAll(s, es[..i + 1]).solidified
    ensures |SignersAt(s, es, i, n)| >= Threshold(|RunAll(s, es[..i]).active|)
    ensures forall a | a in SignersAt(s, es, i, n) :: exists j: nat :: AcceptedAt(s, es, j, n, a)
  {
    assert es[..i + 1][..i] == es[..i];
    var before := RunAll(s, es[..i]);
    var e := es[i];
    assert e.Commit? && Accepts(before, e.block, e.signer);
    var conf := Counted(before, e.block, e.signer.value);
    assert Quorate(conf, n, |before.active|);
    forall a | a in conf[n]
      ensures exists j: nat :: AcceptedAt(s, es, j, n, a)
    {
      if n in before.confirmations && a in before.confirmations[n] {
        ConfirmationsWereAccepted(s, es[..i], n, a);
        var j: nat :| AcceptedAt(s, es[..i], j, n, a);
        AcceptedEarlier(s, es, i, j, n, a);
      } else {
        assert AcceptedAt(s, es, i, n, a);
      }
    }
  }

  // -- quorum intersection -------------------------------------------------

  lemma SubsetSize<T>(a: set<T>, b: set<T>)
    requires a <= b
    ensures |a| <= |b|
  {
    assert b == a + (b - a);
  }

  lemma {:induction false} MembersSize(xs: seq<Address>)
    ensures |set x | x in xs| <= |xs|
  {
    if xs == [] {
      assert (set x | x in xs) == {};
    } else {
      var front := xs[..|xs| - 1];
      MembersSize(front);
      assert (set x | x in xs) == (set x | x in front) + {xs[|xs| - 1]};
    }
  }

  /** Two quorums of the same active list share more than a third of it. */
  lemma QuorumsIntersect(active: seq<Address>, p: set<Address>, q: set<Address>)
    requires forall a | a in p + q :: a in active
    requires |p| >= Threshold(|active|) && |q| >= Threshold(|active|)
    ensures |p * q| >= |active| / 3 + 1
  {
    var all := set x | x in active;
    MembersSize(active);
    SubsetSize(p + q, all);
    assert |p + q| + |p * q| == |p| + |q|;
  }

  /** The run never changes the active list. */
  ghost predicate ActiveFixed(s: Node, es: seq<Event>, active: seq<Address>) {
    s.active == active && forall i | 0 <= i < |es| :: es[i].Elect? ==> es[i].active == active
  }

  lemma {:induction false} ActiveStays(s: Node, es: seq<Event>, active: seq<Address>, i: nat)
    requires ActiveFixed(s, es, active) && i <= |es|
    ensures RunAll(s, es[..i]).active == active
  {
    if i > 0 {
      ActiveStays(s, es, active, i - 1);
      assert es[..i][..i - 1] == es[..i - 1];
    }
  }

  /**
   * Two nodes that run with the same fixed active list and both solidify block `n` counted
   * signer sets for `n` that share more than a third of the list, whatever their histories.
   */
  lemma SolidifiedNodesShareSigners(s: Node, es: seq<Event>, i: nat, s': Node, es': seq<Event>, i': nat,
                                    active: seq<Address>, n: int)
    requires Good(s) && s.confirmations == map[] && ActiveFixed(s, es, active)
    requires Good(s') && s'.confirmations == map[] && ActiveFixed(s', es', active)
    requires SolidifiesAt(s, es, i, n) && SolidifiesAt(s', es', i', n)
    ensures |SignersAt(s, es, i, n) * SignersAt(s', es', i', n)| >= |active| / 3 + 1
  {
    SignersAreMembers(s, es, i, active, n);
    SignersAreMembers(s', es', i', active, n);
    QuorumsIntersect(active, SignersAt(s, es, i, n), SignersAt(s', es', i', n));
  }

  lemma SignersAreMembers(s: Node, es: seq<Event>, i: nat, active: seq<Address>, n: int)
    requires Good(s) && s.confirmations == map[] && ActiveFixed(s, es, active) && SolidifiesAt(s, es, i, n)
    ensures |SignersAt(s, es, i, n)| >= Threshold(|active|)
    ensures forall a | a in SignersAt(s, es, i, n) :: a in active
  {
    ActiveStays(s, es, active, i);
    RunKeepsGood(s, es[..i]);
    AdvanceNeedsQuorums(s, es, i, n);
    forall a | a in SignersAt(s, es, i, n)
      ensures a in active
    {
      var j: nat :| AcceptedAt(s, es, j, n, a);
      ActiveStays(s, es, active, j);
    }
  }

  // -- progress ------------------------------------------------------------

  /**
   * Finality counts from block 1 every time, but a tip of 2 or more prunes block 1's
   * confirmations and the window refuses new ones. The tip can still move only from 0, or
   * from 1 while block 1's own confirmations are held.
   */
  predicate CanMove(s: Node) {
    s.solidified == 0 || (s.solidified == 1 && 1 in s.confirmations && s.confirmations[1] != {})
  }

  /** Where it cannot move, no run moves the tip again. */
  lemma {:induction false} TipStuck(s: Node, es: seq<Event>)
    requires Good(s) && !CanMove(s)
    ensures RunAll(s, es).solidified == s.solidified && !CanMove(RunAll(s, es))
  {
    if es != [] {
      var front, e := es[..|es| - 1], es[|es| - 1];
      TipStuck(s, front);
      RunKeepsGood(s, front);
      var t := RunAll(s, front);
      if e.Commit? && Accepts(t, e.block, e.signer) {
        var conf := Counted(t, e.block, e.signer.value);
        assert !Quorate(conf, 1, |t.active|);
      }
    }
  }

  lemma RunSnoc(s: Node, es: seq<Event>, e: Event)
    ensures RunAll(s, es + [e]) == Step(RunAll(s, es), e)
  {
    assert (es + [e])[..|es|] == es;
  }

  lemma ThreeEvents(s: Node, a: Address)
    ensures var es := [SetAllowPbft(true)] + [Elect([a])] + [StoreBlock(s.head + 1)];
            RunAll(s, es) == s.(allowPbft := true, active := [a], head := s.head + 1)
  {
    var e0, e1, e2 := SetAllowPbft(true), Elect([a]), StoreBlock(s.head + 1);
    assert [] + [e0] == [e0];
    RunSnoc(s, [], e0);
    RunSnoc(s, [e0], e1);
    RunSnoc(s, [e0] + [e1], e2);
  }

  /** Where it can move, some run moves it. */
  lemma TipMoves(s: Node) returns (es: seq<Event>)
    requires Good(s) && CanMove(s)
    ensures RunAll(s, es).solidified > s.solidified
  {
    var a: Address := [];
    var next := s.solidified + 1;
    var held := next in s.confirmations && s.confirmations[next] != {};
    var block := if held then s.head + 1 + MAX_PBFT_FUTURE_BLOCKS else next;
    var front := [SetAllowPbft(true)] + [Elect([a])] + [StoreBlock(s.head + 1)];
    var t := s.(allowPbft := true, active := [a], head := s.head + 1);
    es := front + [Commit(block, Some(a))];
    ThreeEvents(s, a);
    RunSnoc(s, front, Commit(block, Some(a)));
    assert Accepts(t, block, Some(a));
    var conf := Counted(t, block, a);
    assert forall n | 1 <= n <= next :: n in conf && conf[n] != {};
    MoveCounts(conf, t.head, next);
  }

  lemma MoveCounts(conf: map<int, set<Address>>, head: int, next: int)
    requires 1 <= next <= head && forall n | 1 <= n <= next :: n in conf && conf[n] != {}
    ensures var tip := SolidTip(conf, head, 1); tip.Some? && tip.value >= next
  {
    assert forall n | 1 <= n <= next :: Quorate(conf, n, 1);
  }

  /** The tip can be moved by some run exactly from these states. */
  lemma TipMovesIff(s: Node)
    requires Good(s)
    ensures (exists es :: RunAll(s, es).solidified > s.solidified) <==> CanMove(s)
  {
    if CanMove(s) {
      var es := TipMoves(s);
    } else {
      forall es
        ensures RunAll(s, es).solidified == s.solidified
      {
        TipStuck(s, es);
      }
    }
  }

  /**
   * A stuck tip on a real history: one active witness, head 3, commits for 1, 2 and 3. The tip is
   * 2 although block 3 has its quorum, and no run moves it again.
   */
  lemma TipSticksBelowQuorum(a: Address, more: seq<Event>)
    ensures var es := [Commit(1, Some(a))] + [Commit(2, Some(a))] + [Commit(3, Some(a))];
            var s := RunAll(Node(true, [a], 3, 0, map[]), es);
            && Good(s) && s.solidified == 2 && s.head == 3 && Quorate(s.confirmations, 3, |s.active|)
            && RunAll(s, more).solidified == 2
  {
    var s0 := Node(true, [a], 3, 0, map[]);
    var s1 := Node(true, [a], 3, 1, map[1 := {a}]);
    var s2 := Node(true, [a], 3, 2, map[2 := {a}]);
    var s3 := Node(true, [a], 3, 2, map[2 := {a}, 3 := {a}]);
    FirstCommit(a);
    SecondCommit(a);
    ThirdCommit(a);
    var es := [Commit(1, Some(a))];
    RunSnoc(s0, [], Commit(1, Some(a)));
    assert [] + [Commit(1, Some(a))] == es;
    RunSnoc(s0, es, Commit(2, Some(a)));
    RunSnoc(s0, es + [Commit(2, Some(a))], Commit(3, Some(a)));
    TipStuck(s3, more);
  }

  lemma FirstCommit(a: Address)
    ensures Step(Node(true, [a], 3, 0, map[]), Commit(1, Some(a))) == Node(true, [a], 3, 1, map[1 := {a}])
  {
    var conf: map<int, set<Address>> := map[1 := {a}];
    assert Counted(Node(true, [a], 3, 0, map[]), 1, a) == conf;
    assert Quorate(conf, 1, 1) && !Quorate(conf, 2, 1);
    assert SolidTip(conf, 3, 1) == Some(1);
    assert Prune(conf, 1) == conf;
  }

  lemma SecondCommit(a: Address)
    ensures Step(Node(true, [a], 3, 1, map[1 := {a}]), Commit(2, Some(a))) == Node(true, [a], 3, 2, map[2 := {a}])
  {
    var conf: map<int, set<Address>> := map[1 := {a}, 2 := {a}];
    assert Counted(Node(true, [a], 3, 1, map[1 := {a}]), 2, a) == conf;
    assert Quorate(conf, 1, 1) && Quorate(conf, 2, 1) && !Quorate(conf, 3, 1);
    assert SolidTip(conf, 3, 1) == Some(2);
    assert Prune(conf, 2) == map[2 := {a}];
  }

  lemma ThirdCommit(a: Address)
    ensures Step(Node(true, [a], 3, 2, map[2 := {a}]), Commit(3, Some(a))) ==
            Node(true, [a], 3, 2, map[2 := {a}, 3 := {a}])
    ensures Good(Node(true, [a], 3, 2, map[2 := {a}, 3 := {a}]))
  {
    var conf: map<int, set<Address>> := map[2 := {a}, 3 := {a}];
    assert Counted(Node(true, [a], 3, 2, map[2 := {a}]), 3, a) == conf;
    assert !Quorate(conf, 1, 1);
  }
}
