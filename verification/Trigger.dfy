/**
 * TriggerSmartContract from end to end: move the call value, run the target's code over a view of
 * chain state, flush on success, charge the energy.
 */
module Trigger {
  import opened Words
  import opened Arithmetic
  import opened WorldModel
  import opened Journal
  import opened Engine
  import opened EngineLoop
  import opened EngineProofs
  import opened EngineRuns
  import opened RunBalances
  import opened Flush

  const DEFAULT_ENERGY_FEE_SUN: int := 100

  datatype Request = Request(owner: Address, target: Body, data: seq<byte>, value: I64, limit: nat)

  datatype Outcome = Done | Rejected | Failed

  // -- the step on values ---------------------------------------------------

  /** The world the contract starts in. */
  function Opened(c: Chain, q: Request): WorldState {
    Transfer(WorldState(map[], map[], map[], {}, [], 0, [], StateBacked(c)), q.owner, FromBody(q.target), q.value)
  }

  function Entry(c: Chain, q: Request, precompile: (nat, seq<byte>) -> seq<byte>): Env {
    Env(q.target, GetCode(Opened(c, q), q.target), q.data, q.limit, 0, precompile)
  }

  function Executed(c: Chain, q: Request, precompile: (nat, seq<byte>) -> seq<byte>): RunResult
    requires q.limit <= U64_MAX
  {
    RunFrame(Opened(c, q), Entry(c, q, precompile))
  }

  /** `energy_price`, `energy_to_sun`. */
  function Fee(energy: nat, price: I64): int {
    var sun := energy * if price > 0 then price else DEFAULT_ENERGY_FEE_SUN;
    if sun > I64_MAX then I64_MAX else sun
  }

  /** `charge_energy_fee`: free for a missing account, refused when the balance does not cover it. */
  function Charged(c: Chain, owner: Address, fee: int): Option<Chain> {
    if fee <= 0 || owner !in c.accounts then Some(c)
    else
      var left := c.accounts[owner].balance - fee;
      if !FitsI64(left) || left < 0 then None
      else Some(c.(accounts := c.accounts[owner := c.accounts[owner].(balance := left)]))
  }

  /** What is persisted before the fee is charged; `ws` lists the dirty writes of the run. */
  function Persisted(c: Chain, r: RunResult, ws: WorldWrites): Chain {
    if IsSuccess(r.exec.halt) then Flushed(c, ws) else c
  }

  /** Validate and execute. A fee that cannot be paid fails the transaction after the flush. */
  function Apply(c: Chain, q: Request, price: I64, precompile: (nat, seq<byte>) -> seq<byte>, ws: WorldWrites)
    : (Chain, Outcome)
    requires q.limit <= U64_MAX
  {
    if ChainCode(c, q.target) == [] then (c, Rejected)
    else
      var r := Executed(c, q, precompile);
      var c1 := Persisted(c, r, ws);
      match Charged(c1, q.owner, Fee(r.exec.energyUsed, price))
      case None => (c1, Failed)
      case Some(c2) => (c2, Done)
  }

  // -- the step in place ----------------------------------------------------

  method DirtyEntries<K(==), V>(m: map<K, V>) returns (xs: seq<(K, V)>)
    ensures forall x :: x in xs <==> x.0 in m && m[x.0] == x.1
  {
    xs := [];
    var left := m.Keys;
    while left != {}
      invariant left <= m.Keys
      invariant forall x :: x in xs <==> x.0 in m && x.0 !in left && m[x.0] == x.1
      decreases |left|
    {
      var k :| k in left;
      xs := xs + [(k, m[k])];
      left := left - {k};
    }
  }

  method DirtyStorage(m: map<Slot, Word>) returns (xs: seq<(Body, Word, Word)>)
    ensures forall x :: x in xs <==> (x.0, x.1) in m && m[(x.0, x.1)] == x.2
  {
    xs := [];
    var left := m.Keys;
    while left != {}
      invariant left <= m.Keys
      invariant forall x :: x in xs <==> (x.0, x.1) in m && (x.0, x.1) !in left && m[(x.0, x.1)] == x.2
      decreases |left|
    {
      var k :| k in left;
      xs := xs + [(k.0, k.1, m[k])];
      left := left - {k};
    }
  }

  /** `WorldWrites::from_world`: the dirty maps, in whatever order they are iterated. */
  method FromWorld(world: World) returns (ws: WorldWrites)
    ensures Lists(ws, world.View())
  {
    var storage := DirtyStorage(world.storage);
    var balances := DirtyEntries(world.balances);
    var code := DirtyEntries(world.code);
    ws := WorldWrites(storage, balances, code, world.suicides);
  }

  method ExecuteTrigger(store: ChainStore, q: Request, price: I64, precompile: (nat, seq<byte>) -> seq<byte>)
    returns (outcome: Outcome, ghost ws: WorldWrites)
    requires q.limit <= U64_MAX
    modifies store
    ensures (store.View(), outcome) == Apply(old(store.View()), q, price, precompile, ws)
    ensures outcome != Rejected ==> Lists(ws, Executed(old(store.View()), q, precompile).world)
  {
    ghost var c := store.View();
    ws := WorldWrites([], [], [], []);
    if !(|q.target| == 20 && FromBody(q.target) in store.contractCode && store.contractCode[FromBody(q.target)] != []) {
      return Rejected, ws;
    }
    var world := new World(StateBacked(Chain(store.contractStorage, store.accounts, store.contractCode)));
    if q.value != 0 {
      world.Move(q.owner, FromBody(q.target), q.value);
    }
    assert world.View() == Opened(c, q);
    var code := world.Code(q.target);
    var e := ExecuteFrame(world, Env(q.target, code, q.data, q.limit, 0, precompile));
    var writes := FromWorld(world);
    ws := writes;
    if IsSuccess(e.halt) {
      store.FlushWorld(writes);
    }
    outcome := ChargeEnergyFee(store, q.owner, Fee(e.energyUsed, price));
  }

  method ChargeEnergyFee(store: ChainStore, owner: Address, fee: int) returns (outcome: Outcome)
    modifies store
    ensures match Charged(old(store.View()), owner, fee)
            case None => store.View() == old(store.View()) && outcome == Failed
            case Some(c) => store.View() == c && outcome == Done
  {
    if fee <= 0 || owner !in store.accounts {
      return Done;
    }
    var left := store.accounts[owner].balance - fee;
    if !FitsI64(left) || left < 0 {
      return Failed;
    }
    store.accounts := store.accounts[owner := store.accounts[owner].(balance := left)];
    return Done;
  }

  // -- the call value -------------------------------------------------------

  /** What the two parties have together. */
  function Joint(w: WorldState, q: Request): int {
    if q.owner == FromBody(q.target) then Balance(w, q.owner)
    else Balance(w, q.owner) + Balance(w, FromBody(q.target))
  }

  function Untouched(c: Chain): WorldState {
    WorldState(map[], map[], map[], {}, [], 0, [], StateBacked(c))
  }

  /**
   * The call value moves from the owner to the target and nobody else is affected. It is conserved
   * exactly unless a non-zero value is sent to oneself, which creates it.
   */
  lemma CallValueMoves(c: Chain, q: Request, other: Address)
    requires other != q.owner && other != FromBody(q.target)
    ensures Balance(Opened(c, q), other) == ChainBalance(c, other)
    ensures q.owner != FromBody(q.target) ==>
              && Balance(Opened(c, q), q.owner) == ChainBalance(c, q.owner) - q.value
              && Balance(Opened(c, q), FromBody(q.target)) == ChainBalance(c, FromBody(q.target)) + q.value
    ensures Joint(Opened(c, q), q) == Joint(Untouched(c), q) <==> !(q.owner == FromBody(q.target) && q.value != 0)
  {
    TransferMovesValue(Untouched(c), q.owner, FromBody(q.target), q.value, other);
  }

  // -- what a trigger leaves in chain state ---------------------------------

  lemma ExecutedGround(c: Chain, q: Request, precompile: (nat, seq<byte>) -> seq<byte>)
    requires q.limit <= U64_MAX
    ensures Executed(c, q, precompile).world.backend == StateBacked(c)
    ensures Executed(c, q, precompile).world.code == map[]
  {
    OpenedGround(c, q);
    FrameKeepsGround(Opened(c, q), Entry(c, q, precompile));
  }

  lemma OpenedGround(c: Chain, q: Request)
    ensures Opened(c, q).backend == StateBacked(c) && Opened(c, q).code == map[]
  {
  }

  lemma ChargedKeeps(c: Chain, owner: Address, fee: int, a: Address)
    requires Charged(c, owner, fee).Some?
    ensures var d := Charged(c, owner, fee).value;
            && d.contractStorage == c.contractStorage && d.contractCode == c.contractCode
            && (a in d.accounts <==> a in c.accounts)
            && (a in c.accounts ==> d.accounts[a].rest == c.accounts[a].rest)
            && ChainBalance(d, a) ==
               ChainBalance(c, a) - if a == owner && owner in c.accounts && fee > 0 then fee else 0
  {
  }

  /** What `Charged` takes from account `a`. */
  function Taken(c: Chain, owner: Address, fee: int, a: Address): int {
    if a == owner && owner in c.accounts && fee > 0 then fee else 0
  }

  /** A failed run persists nothing but the fee, taken from an owner that has an account. */
  lemma FailedRunOnlyPays(c: Chain, q: Request, price: I64, precompile: (nat, seq<byte>) -> seq<byte>,
                          ws: WorldWrites, a: Address)
    requires q.limit <= U64_MAX && ChainCode(c, q.target) != []
    requires !IsSuccess(Executed(c, q, precompile).exec.halt)
    ensures var (d, outcome) := Apply(c, q, price, precompile, ws);
            var fee := Fee(Executed(c, q, precompile).exec.energyUsed, price);
            && outcome != Rejected
            && d.contractStorage == c.contractStorage && d.contractCode == c.contractCode
            && (a in d.accounts <==> a in c.accounts)
            && ChainBalance(d, a) == ChainBalance(c, a) - if outcome == Done then Taken(c, q.owner, fee, a) else 0
  {
    var fee := Fee(Executed(c, q, precompile).exec.energyUsed, price);
    if Charged(c, q.owner, fee).Some? {
      ChargedKeeps(c, q.owner, fee, a);
    }
  }

  /** Whether account `a` is stored after the run, before the fee. */
  predicate Stored(c: Chain, w: WorldState, a: Address) {
    a !in w.suicides && (a in c.accounts || a in w.balances)
  }

  /**
   * A successful run is persisted as it stands: every slot and every contract's code is what the
   * run's world showed. A self-destructed account is gone; every other has the balance the world
   * showed, the owner's less the fee exactly when it could be paid and the owner is still stored.
   */
  lemma SuccessfulRunPersists(c: Chain, q: Request, price: I64, precompile: (nat, seq<byte>) -> seq<byte>,
                              ws: WorldWrites, body: Body, slot: Word, a: Address)
    requires q.limit <= U64_MAX && ChainCode(c, q.target) != []
    requires IsSuccess(Executed(c, q, precompile).exec.halt) && Lists(ws, Executed(c, q, precompile).world)
    requires |body| == 20
    ensures var r := Executed(c, q, precompile);
            var (d, outcome) := Apply(c, q, price, precompile, ws);
            var fee := Fee(r.exec.energyUsed, price);
            && outcome != Rejected
            && ChainSload(d, body, slot) == Sload(r.world, body, slot)
            && ChainCode(d, body) == (if FromBody(body) in r.world.suicides then [] else ChainCode(c, body))
            && (a in d.accounts <==> Stored(c, r.world, a))
            && ChainBalance(d, a) ==
               (if a in r.world.suicides then 0 else Balance(r.world, a)) -
               if outcome == Done && a == q.owner && Stored(c, r.world, a) then fee else 0
  {
    var r := Executed(c, q, precompile);
    var c1, fee := Flushed(c, ws), Fee(r.exec.energyUsed, price);
    FlushedRun(c, q, precompile, ws, body, slot, a);
    FlushedRun(c, q, precompile, ws, body, slot, q.owner);
    FeeNonNegative(r.exec.energyUsed, price);
    if Charged(c1, q.owner, fee).Some? {
      ChargedKeeps(c1, q.owner, fee, a);
      SameSlotsAndCode(c1, Charged(c1, q.owner, fee).value, body, slot);
    }
  }

  /** The same before the fee. */
  lemma FlushedRun(c: Chain, q: Request, precompile: (nat, seq<byte>) -> seq<byte>, ws: WorldWrites,
                   body: Body, slot: Word, a: Address)
    requires q.limit <= U64_MAX && |body| == 20 && Lists(ws, Executed(c, q, precompile).world)
    ensures var w := Executed(c, q, precompile).world;
            var c1 := Flushed(c, ws);
            && ChainSload(c1, body, slot) == Sload(w, body, slot)
            && ChainCode(c1, body) == (if FromBody(body) in w.suicides then [] else ChainCode(c, body))
            && (a in c1.accounts <==> Stored(c, w, a))
            && ChainBalance(c1, a) == if a in w.suicides then 0 else Balance(w, a)
  {
    var w := Executed(c, q, precompile).world;
    ExecutedGround(c, q, precompile);
    FlushAgreesOnStorage(w, ws, body, slot);
    FlushAgreesOnCode(w, ws, body);
    FlushAgreesOnAccounts(w, ws, a);
  }

  lemma FeeNonNegative(energy: nat, price: I64)
    ensures Fee(energy, price) >= 0
  {
  }

  lemma SameSlotsAndCode(c: Chain, d: Chain, body: Body, slot: Word)
    requires d.contractStorage == c.contractStorage && d.contractCode == c.contractCode
    ensures ChainSload(d, body, slot) == ChainSload(c, body, slot) && ChainCode(d, body) == ChainCode(c, body)
  {
  }

  // -- the self-call that creates value -------------------------------------

  lemma StopRuns(w: WorldState, env: Env)
    requires env.code == [0x00] && env.depth == 0 && env.limit <= U64_MAX
    ensures RunFrame(w, env).exec == Exec(Stopped, 0, [], None) && RunFrame(w, env).world == w
  {
    RunUnfolds(w, env, Fresh);
  }

  /**
   * An owner whose own address holds the one-byte program STOP and who triggers it with a non-zero
   * call value ends up with that much more, at no charge.
   */
  lemma SelfTriggerCreatesValue(c: Chain, q: Request, price: I64, precompile: (nat, seq<byte>) -> seq<byte>,
                                ws: WorldWrites)
    requires q.limit <= U64_MAX && |q.target| == 20 && q.owner == FromBody(q.target) && q.value != 0
    requires ChainCode(c, q.target) == [0x00]
    requires Lists(ws, Executed(c, q, precompile).world)
    ensures var (d, outcome) := Apply(c, q, price, precompile, ws);
            outcome == Done && ChainBalance(d, q.owner) == ChainBalance(c, q.owner) + q.value
  {
    var other := [];
    CallValueMoves(c, q, other);
    OpenedGround(c, q);
    StopRuns(Opened(c, q), Entry(c, q, precompile));
    assert Opened(c, q).suicides == [];
    assert Balance(Opened(c, q), q.owner) == ChainBalance(c, q.owner) + q.value by {
      TransferMovesValue(Untouched(c), q.owner, q.owner, q.value, other);
    }
    FlushAgreesOnAccounts(Opened(c, q), ws, q.owner);
  }

  // -- the fee that cannot be paid ------------------------------------------

  /**
   * A validated trigger fails exactly when, after what its run persisted, the owner has an account,
   * a fee is due, and the balance does not cover it or the difference leaves `i64`.
   */
  lemma FailsIffFeeUncovered(c: Chain, q: Request, price: I64, precompile: (nat, seq<byte>) -> seq<byte>,
                             ws: WorldWrites)
    requires q.limit <= U64_MAX && ChainCode(c, q.target) != []
    ensures var r := Executed(c, q, precompile);
            var c1, fee := Persisted(c, r, ws), Fee(r.exec.energyUsed, price);
            Apply(c, q, price, precompile, ws).1 == Failed <==>
            && q.owner in c1.accounts && fee > 0
            && (c1.accounts[q.owner].balance < fee || !FitsI64(c1.accounts[q.owner].balance - fee))
  {
  }

  /**
   * Such a trigger: the program that sets slot 0 to 1, called without value by an owner who holds
   * less than its fee. It is reported as failed, and the slot is written.
   */
  lemma UnpaidRunStaysPersisted(c: Chain, q: Request, price: I64, precompile: (nat, seq<byte>) -> seq<byte>,
                                ws: WorldWrites)
    requires 20_006 <= q.limit <= U64_MAX && |q.target| == 20 && q.value == 0
    requires ChainCode(c, q.target) == INNER && ChainSload(c, q.target, 0) == 0
    requires q.owner in c.accounts && 0 <= c.accounts[q.owner].balance < Fee(20_006, price)
    requires Lists(ws, Executed(c, q, precompile).world)
    ensures var (d, outcome) := Apply(c, q, price, precompile, ws);
            outcome == Failed && ChainSload(d, q.target, 0) == 1
  {
    var w := Opened(c, q);
    assert w == Untouched(c);
    assert INNER != [];
    InnerRuns(w, Entry(c, q, precompile));
    var v := Sstore(w, q.target, 0, 1);
    assert Balance(v, q.owner) == c.accounts[q.owner].balance && v.suicides == [];
    FlushedRun(c, q, precompile, ws, q.target, 0, q.owner);
    FailsIffFeeUncovered(c, q, price, precompile, ws);
    SuccessfulRunPersists(c, q, price, precompile, ws, q.target, 0, q.owner);
  }

  /** The owner holds 0 and the price is the default: the conditions above can be met. */
  lemma UnpaidRunExists(q: Request) returns (c: Chain)
    requires |q.target| == 20
    ensures ChainCode(c, q.target) == INNER && ChainSload(c, q.target, 0) == 0
    ensures q.owner in c.accounts && 0 <= c.accounts[q.owner].balance < Fee(20_006, DEFAULT_ENERGY_FEE_SUN)
  {
    c := Chain(map[], map[q.owner := Account(0, [])], map[FromBody(q.target) := INNER]);
  }

  // -- balances in range ----------------------------------------------------

  ghost predicate ChainSound(c: Chain) {
    forall a :: 0 <= ChainBalance(c, a) <= I64_MAX
  }

  /** The transfer leaves both parties a balance in range. */
  predicate Covered(c: Chain, q: Request) {
    var owner, target := ChainBalance(c, q.owner), ChainBalance(c, FromBody(q.target));
    if q.owner == FromBody(q.target) then 0 <= owner + q.value <= I64_MAX
    else 0 <= owner - q.value <= I64_MAX && 0 <= target + q.value <= I64_MAX
  }

  lemma OpenedBalance(c: Chain, q: Request, a: Address)
    ensures Balance(Opened(c, q), a) ==
            if a == FromBody(q.target) then ChainBalance(c, a) + q.value
            else if a == q.owner then ChainBalance(c, a) - q.value
            else ChainBalance(c, a)
  {
  }

  /** No one checks the call value against a balance: all stay in range exactly when it is covered. */
  lemma OpenedSoundIff(c: Chain, q: Request)
    requires ChainSound(c)
    ensures Sound(Opened(c, q)) <==> Covered(c, q)
  {
    forall a
      ensures Balance(Opened(c, q), a) ==
              if a == FromBody(q.target) then ChainBalance(c, a) + q.value
              else if a == q.owner then ChainBalance(c, a) - q.value
              else ChainBalance(c, a)
      ensures 0 <= ChainBalance(c, a) <= I64_MAX
    {
      OpenedBalance(c, q, a);
    }
    if Sound(Opened(c, q)) {
      assert 0 <= Balance(Opened(c, q), q.owner) <= I64_MAX;
      assert 0 <= Balance(Opened(c, q), FromBody(q.target)) <= I64_MAX;
    }
  }

  lemma FeeGrows(used: nat, limit: nat, price: I64)
    requires used <= limit
    ensures Fee(used, price) <= Fee(limit, price)
  {
    var p := if price > 0 then price else DEFAULT_ENERGY_FEE_SUN;
    MinusTimes(limit, used, p);
    ProductPositive(limit - used, p);
  }

  /** After the run and the flush, an owner that is still stored has at least what it started with. */
  lemma OwnerKeepsBalance(c: Chain, q: Request, precompile: (nat, seq<byte>) -> seq<byte>, ws: WorldWrites)
    requires q.limit <= U64_MAX && ChainSound(c) && Covered(c, q)
    requires Lists(ws, Executed(c, q, precompile).world)
    ensures var r := Executed(c, q, precompile);
            var c1 := Persisted(c, r, ws);
            q.owner in c1.accounts ==>
              ChainBalance(c1, q.owner) >=
              if IsSuccess(r.exec.halt) then Balance(Opened(c, q), q.owner) else ChainBalance(c, q.owner)
    ensures ChainSound(Persisted(c, Executed(c, q, precompile), ws))
  {
    var r := Executed(c, q, precompile);
    OpenedSoundIff(c, q);
    OpenedGround(c, q);
    FrameGrows(Opened(c, q), Entry(c, q, precompile));
    var body := seq(20, _ => 0);
    FlushedRun(c, q, precompile, ws, body, 0, q.owner);
    forall a
      ensures 0 <= ChainBalance(Persisted(c, r, ws), a) <= I64_MAX
    {
      FlushedRun(c, q, precompile, ws, body, 0, a);
      assert 0 <= Balance(r.world, a) <= I64_MAX;
      assert 0 <= ChainBalance(c, a) <= I64_MAX;
    }
  }

  /**
   * Checkable before the call: on a chain with balances in range, an owner that covers the call
   * value and still holds the fee of the whole energy limit, before and after the value moved,
   * cannot see its trigger fail, whatever the contract does.
   */
  lemma FundedOwnerPays(c: Chain, q: Request, price: I64, precompile: (nat, seq<byte>) -> seq<byte>,
                        ws: WorldWrites)
    requires q.limit <= U64_MAX && ChainCode(c, q.target) != [] && Lists(ws, Executed(c, q, precompile).world)
    requires ChainSound(c) && Covered(c, q)
    requires Fee(q.limit, price) <= ChainBalance(c, q.owner)
    requires Fee(q.limit, price) <= Balance(Opened(c, q), q.owner)
    ensures Apply(c, q, price, precompile, ws).1 == Done
  {
    var r := Executed(c, q, precompile);
    OwnerKeepsBalance(c, q, precompile, ws);
    FeeGrows(r.exec.energyUsed, q.limit, price);
    FailsIffFeeUncovered(c, q, price, precompile, ws);
    assert 0 <= ChainBalance(Persisted(c, r, ws), q.owner) <= I64_MAX;
  }

  /** A covered call value keeps every stored balance in range through the whole transaction. */
  lemma TriggerKeepsSound(c: Chain, q: Request, price: I64, precompile: (nat, seq<byte>) -> seq<byte>,
                          ws: WorldWrites)
    requires q.limit <= U64_MAX && ChainSound(c) && Covered(c, q) && Lists(ws, Executed(c, q, precompile).world)
    ensures ChainSound(Apply(c, q, price, precompile, ws).0)
  {
    var r := Executed(c, q, precompile);
    OwnerKeepsBalance(c, q, precompile, ws);
    ChargedSound(Persisted(c, r, ws), q.owner, Fee(r.exec.energyUsed, price));
  }

  lemma ChargedSound(c: Chain, owner: Address, fee: int)
    requires ChainSound(c)
    ensures Charged(c, owner, fee).Some? ==> ChainSound(Charged(c, owner, fee).value)
  {
    if Charged(c, owner, fee).Some? {
      forall a
        ensures 0 <= ChainBalance(Charged(c, owner, fee).value, a) <= I64_MAX
      {
        assert 0 <= ChainBalance(c, a) <= I64_MAX;
      }
    }
  }

  /** An uncovered one does not: the owner of this trigger ends, done, with a negative balance. */
  lemma OverdrawnTriggerGoesNegative(c: Chain, q: Request, price: I64, precompile: (nat, seq<byte>) -> seq<byte>,
                                     ws: WorldWrites)
    requires q.limit <= U64_MAX && |q.target| == 20 && q.owner != FromBody(q.target)
    requires ChainCode(c, q.target) == [0x00] && ChainBalance(c, q.owner) < q.value
    requires q.value != 0 && Lists(ws, Executed(c, q, precompile).world)
    ensures var (d, outcome) := Apply(c, q, price, precompile, ws);
            outcome == Done && ChainBalance(d, q.owner) == ChainBalance(c, q.owner) - q.value < 0
  {
    OpenedGround(c, q);
    StopRuns(Opened(c, q), Entry(c, q, precompile));
    OpenedBalance(c, q, q.owner);
    assert Opened(c, q).suicides == [];
    SuccessfulRunPersists(c, q, price, precompile, ws, q.target, 0, q.owner);
  }
}
