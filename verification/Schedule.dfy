/** DPoS slots: who produces when, and what a node's own production can never do. */
module Schedule {
  import opened Words
  import opened Arithmetic

  type Address = seq<byte>

  const BLOCK_INTERVAL_MS: nat := 3_000
  const SINGLE_REPEAT: nat := 1

  function SlotOf(time: nat, genesis: nat): nat {
    if time <= genesis then 0 else (time - genesis) / BLOCK_INTERVAL_MS
  }

  /** The producer of the slot `offset` after the head's slot. */
  function ScheduledWitness(active: seq<Address>, headSlot: nat, offset: nat): Option<Address> {
    if active == [] then None
    else
      var n := |active|;
      var i := (headSlot + offset) % (n * SINGLE_REPEAT) / SINGLE_REPEAT;
      Some(active[i])
  }

  datatype Block = Block(number: int, timestamp: nat)

  datatype Chain = Chain(blocks: map<int, Block>, head: int, active: seq<Address>)

  /** `put_block`: store by number, advance the head if it is not older. */
  function PutBlock(c: Chain, b: Block): Chain {
    c.(blocks := c.blocks[b.number := b], head := if b.number >= c.head then b.number else c.head)
  }

  /** `try_produce`: the block this node would sign at time `now`, if the slot is its own. */
  function TryProduce(c: Chain, self: Address, now: nat): Option<Block> {
    if c.head !in c.blocks || 0 !in c.blocks then None
    else
      var head, genesis := c.blocks[c.head], c.blocks[0].timestamp;
      if now <= genesis then None
      else
        var nowSlot, headSlot := SlotOf(now, genesis), SlotOf(head.timestamp, genesis);
        if nowSlot <= headSlot then None
        else if ScheduledWitness(c.active, headSlot, nowSlot - headSlot) != Some(self) then None
        else Some(Block(head.number + 1, genesis + nowSlot * BLOCK_INTERVAL_MS))
  }

  // -- the store, updated in place ----------------------------------------

  class BlockStore {
    var blocks: map<int, Block>
    var head: int
    var active: seq<Address>

    ghost function View(): Chain
      reads this
    {
      Chain(blocks, head, active)
    }

    constructor (c: Chain)
      ensures View() == c
    {
      blocks, head, active := c.blocks, c.head, c.active;
    }

    method Put(b: Block)
      modifies this`blocks, this`head
      ensures View() == PutBlock(old(View()), b)
    {
      blocks := blocks[b.number := b];
      if b.number >= head { head := b.number; }
    }

    /** One tick of the production loop: decide, and apply what was produced. */
    method Produce(self: Address, now: nat) returns (produced: Option<Block>)
      modifies this`blocks, this`head
      ensures produced == TryProduce(old(View()), self, now)
      ensures View() == if produced.Some? then PutBlock(old(View()), produced.value) else old(View())
    {
      produced := TryProduce(Chain(blocks, head, active), self, now);
      if produced.Some? {
        Put(produced.value);
      }
    }
  }

  // -- the schedule ---------------------------------------------------------

  /** The witness of a slot depends on the slot alone, not on how far the head lags behind it. */
  lemma ScheduleIgnoresHead(active: seq<Address>, headSlot: nat, headSlot': nat, slot: nat)
    requires headSlot <= slot && headSlot' <= slot
    ensures ScheduledWitness(active, headSlot, slot - headSlot) == ScheduledWitness(active, headSlot', slot - headSlot')
    ensures active != [] ==>
              ScheduledWitness(active, headSlot, slot - headSlot) == Some(active[slot % |active|])
  {
  }

  /** The list position that a slot belongs to. */
  function Position(n: nat, slot: nat): nat
    requires n > 0
  {
    slot % n
  }

  /** Any `n` consecutive slots visit every position of the active list exactly once. */
  lemma RoundVisitsEachPositionOnce(n: nat, start: nat, position: nat) returns (slot: nat)
    requires position < n
    ensures start <= slot < start + n && Position(n, slot) == position
    ensures forall other: nat | start <= other < start + n && Position(n, other) == position :: other == slot
  {
    var r, k := start % n, start / n;
    QuotientBounds(start, n);
    var round := if r <= position then k else k + 1;
    ProductPositive(n, round);
    slot := n * round + position;
    RemainderOf(n, round, position);
    assert n * (k + 1) == n * k + n;
    forall other: nat | start <= other < start + n && Position(n, other) == position
      ensures other == slot
    {
      if other <= slot {
        SameRemainder(other, slot, n);
      } else {
        SameRemainder(slot, other, n);
      }
    }
  }

  // -- production -----------------------------------------------------------

  /** The genesis block is stored and the head is a stored block filed under its own number. */
  predicate Rooted(c: Chain) {
    0 in c.blocks && c.head in c.blocks && c.blocks[c.head].number == c.head && c.head >= 0
  }

  function Genesis(c: Chain): nat
    requires Rooted(c)
  {
    c.blocks[0].timestamp
  }

  function HeadSlot(c: Chain): nat
    requires Rooted(c)
  {
    SlotOf(c.blocks[c.head].timestamp, Genesis(c))
  }

  lemma MultipleQuotient(k: nat)
    ensures k * BLOCK_INTERVAL_MS / BLOCK_INTERVAL_MS == k
  {
  }

  /** A produced block sits on its slot boundary, above the head's slot, and becomes the head. */
  lemma ProducedBlockTakesItsSlot(c: Chain, self: Address, now: nat)
    requires Rooted(c) && TryProduce(c, self, now).Some?
    ensures var b := TryProduce(c, self, now).value;
            var slot := SlotOf(now, Genesis(c));
            && SlotOf(b.timestamp, Genesis(c)) == slot > HeadSlot(c)
            && c.active != [] && c.active[slot % |c.active|] == self
            && Rooted(PutBlock(c, b)) && Genesis(PutBlock(c, b)) == Genesis(c)
            && PutBlock(c, b).head == c.head + 1 && HeadSlot(PutBlock(c, b)) == slot
  {
    var slot := SlotOf(now, Genesis(c));
    MultipleQuotient(slot);
    ScheduleIgnoresHead(c.active, HeadSlot(c), HeadSlot(c), slot);
  }

  /** Two nodes that agree on genesis time and active list never both own a slot. */
  lemma OneProducerPerSlot(c: Chain, self: Address, now: nat, c': Chain, self': Address, now': nat)
    requires Rooted(c) && Rooted(c') && Genesis(c) == Genesis(c') && c.active == c'.active
    requires TryProduce(c, self, now).Some? && TryProduce(c', self', now').Some?
    requires SlotOf(now, Genesis(c)) == SlotOf(now', Genesis(c))
    ensures self == self'
  {
    ProducedBlockTakesItsSlot(c, self, now);
    ProducedBlockTakesItsSlot(c', self', now');
  }

  /**
   * A node's life: production ticks, well-formed blocks from peers, and elections. Intake stores a
   * peer block only right above the head, whatever its timestamp.
   */
  datatype Event = Tick(now: nat) | Synced(block: Block) | Elect(active: seq<Address>)

  function Step(c: Chain, self: Address, e: Event): Chain {
    match e
    case Tick(now) =>
      var b := TryProduce(c, self, now);
      if b.Some? then PutBlock(c, b.value) else c
    case Synced(b) => if b.number == c.head + 1 then PutBlock(c, b) else c
    case Elect(active) => c.(active := active)
  }

  function RunAll(c: Chain, self: Address, es: seq<Event>): Chain {
    if es == [] then c else Step(RunAll(c, self, es[..|es| - 1]), self, es[|es| - 1])
  }

  /** The slots of the blocks this node produced along the run. */
  function ProducedSlots(c: Chain, self: Address, es: seq<Event>): seq<nat>
    requires Rooted(c)
  {
    if es == [] then []
    else
      var front, e := es[..|es| - 1], es[|es| - 1];
      var before := RunAll(c, self, front);
      var rest := ProducedSlots(c, self, front);
      if e.Tick? && TryProduce(before, self, e.now).Some?
      then rest + [SlotOf(TryProduce(before, self, e.now).value.timestamp, Genesis(c))]
      else rest
  }

  lemma StepStaysRooted(c: Chain, self: Address, e: Event)
    requires Rooted(c)
    ensures Rooted(Step(c, self, e)) && Genesis(Step(c, self, e)) == Genesis(c)
  {
    if e.Tick? && TryProduce(c, self, e.now).Some? {
      ProducedBlockTakesItsSlot(c, self, e.now);
    }
  }

  lemma {:induction false} RunStaysRooted(c: Chain, self: Address, es: seq<Event>)
    requires Rooted(c)
    ensures Rooted(RunAll(c, self, es)) && Genesis(RunAll(c, self, es)) == Genesis(c)
  {
    if es != [] {
      RunStaysRooted(c, self, es[..|es| - 1]);
      StepStaysRooted(RunAll(c, self, es[..|es| - 1]), self, es[|es| - 1]);
    }
  }

  /** A peer block that is stored does not lie in an earlier slot than the head. */
  predicate InOrder(c: Chain, e: Event)
    requires Rooted(c)
  {
    e.Synced? && e.block.number == c.head + 1 ==> SlotOf(e.block.timestamp, Genesis(c)) >= HeadSlot(c)
  }

  predicate AllInOrder(c: Chain, self: Address, es: seq<Event>)
    requires Rooted(c)
  {
    es == [] ||
    (RunStaysRooted(c, self, es[..|es| - 1]);
     AllInOrder(c, self, es[..|es| - 1]) && InOrder(RunAll(c, self, es[..|es| - 1]), es[|es| - 1]))
  }

  lemma StepKeepsSlots(c: Chain, self: Address, e: Event)
    requires Rooted(c) && InOrder(c, e)
    ensures Rooted(Step(c, self, e)) && Genesis(Step(c, self, e)) == Genesis(c)
    ensures HeadSlot(Step(c, self, e)) >= HeadSlot(c)
  {
    if e.Tick? && TryProduce(c, self, e.now).Some? {
      ProducedBlockTakesItsSlot(c, self, e.now);
    }
  }

  ghost predicate Increasing(xs: seq<nat>) {
    forall i, j | 0 <= i < j < |xs| :: xs[i] < xs[j]
  }

  ghost predicate UpTo(xs: seq<nat>, bound: nat) {
    forall i | 0 <= i < |xs| :: xs[i] <= bound
  }

  /** Over every run in which peers send no earlier slot, the slots a node produces strictly increase. */
  lemma {:induction false} ProducedSlotsIncrease(c: Chain, self: Address, es: seq<Event>)
    requires Rooted(c) && AllInOrder(c, self, es)
    ensures Rooted(RunAll(c, self, es))
    ensures Increasing(ProducedSlots(c, self, es)) && UpTo(ProducedSlots(c, self, es), HeadSlot(RunAll(c, self, es)))
  {
    if es != [] {
      var front, e := es[..|es| - 1], es[|es| - 1];
      ProducedSlotsIncrease(c, self, front);
      RunStaysRooted(c, self, front);
      var before := RunAll(c, self, front);
      StepKeepsSlots(before, self, e);
      if e.Tick? && TryProduce(before, self, e.now).Some? {
        ProducedBlockTakesItsSlot(before, self, e.now);
      }
    }
  }

  // -- a slot produced twice ------------------------------------------------

  lemma RunSnoc(c: Chain, self: Address, es: seq<Event>, e: Event)
    requires Rooted(c)
    ensures RunAll(c, self, es + [e]) == Step(RunAll(c, self, es), self, e)
    ensures var before := RunAll(c, self, es);
            ProducedSlots(c, self, es + [e]) == ProducedSlots(c, self, es) +
            if e.Tick? && TryProduce(before, self, e.now).Some?
            then [SlotOf(TryProduce(before, self, e.now).value.timestamp, Genesis(c))] else []
  {
    assert (es + [e])[..|es|] == es;
  }

  /** After producing at `now` and storing a peer block on top, the same slot is produced again
      exactly when the peer block lies in an earlier slot. */
  lemma ProducesAgainIff(c: Chain, self: Address, now: nat, b: Block)
    requires Rooted(c) && TryProduce(c, self, now).Some? && b.number == c.head + 2
    ensures var d := PutBlock(c, TryProduce(c, self, now).value);
            && d.head + 1 == b.number && Rooted(d)
            && (TryProduce(PutBlock(d, b), self, now).Some? <==>
                  SlotOf(b.timestamp, Genesis(c)) < SlotOf(now, Genesis(c)))
            && (TryProduce(PutBlock(d, b), self, now).Some? ==>
                  SlotOf(TryProduce(PutBlock(d, b), self, now).value.timestamp, Genesis(c)) == SlotOf(now, Genesis(c)))
  {
    ProducedBlockTakesItsSlot(c, self, now);
    var d := PutBlock(c, TryProduce(c, self, now).value);
    var e := PutBlock(d, b);
    var slot := SlotOf(now, Genesis(c));
    assert Rooted(e) && Genesis(e) == Genesis(c) && e.active == c.active;
    if HeadSlot(e) < slot {
      ScheduleIgnoresHead(c.active, HeadSlot(c), HeadSlot(e), slot);
      MultipleQuotient(slot);
    }
  }

  /** So the slots of this run increase exactly when the peer block was in order. */
  lemma IncreaseNeedsOrder(c: Chain, self: Address, now: nat, b: Block)
    requires Rooted(c) && TryProduce(c, self, now).Some? && b.number == c.head + 2
    ensures var es := [Tick(now)] + [Synced(b)] + [Tick(now)];
            Increasing(ProducedSlots(c, self, es)) <==> SlotOf(b.timestamp, Genesis(c)) >= SlotOf(now, Genesis(c))
  {
    var slot := SlotOf(now, Genesis(c));
    ProducedBlockTakesItsSlot(c, self, now);
    ProducesAgainIff(c, self, now, b);
    var es1, es2 := [Tick(now)], [Tick(now)] + [Synced(b)];
    assert [] + es1 == es1;
    RunSnoc(c, self, [], Tick(now));
    RunSnoc(c, self, es1, Synced(b));
    RunSnoc(c, self, es2, Tick(now));
    var xs := ProducedSlots(c, self, es2 + [Tick(now)]);
    assert ProducedSlots(c, self, es2) == [slot];
    assert xs == [slot] || xs == [slot] + [slot];
    assert |xs| == 2 ==> xs[0] == xs[1];
  }

  /** A real one: slot 2 produced by its witness, the other's block of slot 1 on top, slot 2 again. */
  lemma SlotProducedTwice(a: Address, b: Address)
    requires a != b
    ensures var c := Chain(map[0 := Block(0, 0)], 0, [a, b]);
            var es := [Tick(6_000)] + [Synced(Block(2, 3_000))] + [Tick(6_000)];
            && Rooted(c) && !Increasing(ProducedSlots(c, a, es))
            && SlotOf(3_000, Genesis(c)) == 1 && ScheduledWitness(c.active, 0, 1) == Some(b)
  {
    var c := Chain(map[0 := Block(0, 0)], 0, [a, b]);
    assert TryProduce(c, a, 6_000) == Some(Block(1, 6_000));
    IncreaseNeedsOrder(c, a, 6_000, Block(2, 3_000));
  }

  // -- exactly when a slot can come back --------------------------------------

  /** Every slot in the list lies above `bound`. */
  ghost predicate Above(xs: seq<nat>, bound: nat) {
    forall i | 0 <= i < |xs| :: xs[i] > bound
  }

  /** An in-order run produces only slots above the head it starts from. */
  lemma {:induction false} InOrderProducesAbove(c: Chain, self: Address, es: seq<Event>)
    requires Rooted(c) && AllInOrder(c, self, es)
    ensures Rooted(RunAll(c, self, es)) && HeadSlot(RunAll(c, self, es)) >= HeadSlot(c)
    ensures Above(ProducedSlots(c, self, es), HeadSlot(c))
  {
    if es != [] {
      var front, e := es[..|es| - 1], es[|es| - 1];
      InOrderProducesAbove(c, self, front);
      RunStaysRooted(c, self, front);
      var before := RunAll(c, self, front);
      StepKeepsSlots(before, self, e);
      if e.Tick? && TryProduce(before, self, e.now).Some? {
        ProducedBlockTakesItsSlot(before, self, e.now);
      }
    }
  }

  /** Some in-order continuation from `c` produces a slot at or below `last`. */
  ghost predicate CanRepeat(c: Chain, self: Address, last: nat)
    requires Rooted(c)
  {
    exists es :: AllInOrder(c, self, es) && !Above(ProducedSlots(c, self, es), last)
  }

  /** From a head below `last`, being elected alone and ticking in that slot produces it. */
  lemma ProducesAt(c: Chain, self: Address, last: nat) returns (es: seq<Event>)
    requires Rooted(c) && HeadSlot(c) < last
    ensures AllInOrder(c, self, es) && ProducedSlots(c, self, es) == [last]
  {
    var now := Genesis(c) + last * BLOCK_INTERVAL_MS;
    var d := c.(active := [self]);
    MultipleQuotient(last);
    assert SlotOf(now, Genesis(c)) == last;
    ScheduleIgnoresHead([self], HeadSlot(d), HeadSlot(d), last);
    var e1, e2 := Elect([self]), Tick(now);
    assert [] + [e1] == [e1];
    RunSnoc(c, self, [], e1);
    RunSnoc(c, self, [e1], e2);
    assert TryProduce(d, self, now).Some?;
    es := [e1] + [e2];
    InOrderSnoc(c, self, [], e1);
    InOrderSnoc(c, self, [e1], e2);
  }

  lemma InOrderSnoc(c: Chain, self: Address, es: seq<Event>, e: Event)
    requires Rooted(c) && AllInOrder(c, self, es) && !e.Synced?
    ensures AllInOrder(c, self, es + [e])
  {
    assert (es + [e])[..|es|] == es;
    RunStaysRooted(c, self, es);
  }

  /**
   * Whatever led to `c`, and whatever slot `last` the node produced on the way: a further in-order
   * run can produce a slot at or below it exactly when the head now lies below it.
   */
  lemma RepeatsIffHeadFellBack(c: Chain, self: Address, last: nat)
    requires Rooted(c)
    ensures CanRepeat(c, self, last) <==> HeadSlot(c) < last
  {
    if HeadSlot(c) < last {
      var es := ProducesAt(c, self, last);
      assert ProducedSlots(c, self, es)[0] == last;
    } else {
      forall es | AllInOrder(c, self, es)
        ensures Above(ProducedSlots(c, self, es), last)
      {
        InOrderProducesAbove(c, self, es);
      }
    }
  }
}
