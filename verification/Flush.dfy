/** Writing a finished world's dirty maps back to chain state. */
module Flush {
  import opened Words
  import opened WorldModel

  /** The dirty writes of a world, each list in whatever order its map was iterated. */
  datatype WorldWrites = WorldWrites(
    storage: seq<(Body, Word, Word)>,
    balances: seq<(Address, int)>,
    code: seq<(Body, seq<byte>)>,
    suicided: seq<Address>)

  /** `ws` lists exactly the dirty entries of `w`. */
  ghost predicate Lists(ws: WorldWrites, w: WorldState) {
    && (forall x :: x in ws.storage <==> (x.0, x.1) in w.storage && w.storage[(x.0, x.1)] == x.2)
    && (forall x :: x in ws.balances <==> x.0 in w.balances && w.balances[x.0] == x.1)
    && (forall x :: x in ws.code <==> x.0 in w.code && w.code[x.0] == x.1)
    && (forall a :: a in ws.suicided <==> a in w.suicides)
  }

  // -- the writes as functions on chain state ------------------------------

  function PutSlot(c: Chain, x: (Body, Word, Word)): Chain {
    if |x.0| != 20 then c
    else
      var key := StorageKey(FromBody(x.0), x.1);
      c.(contractStorage :=
           if x.2 == 0 then c.contractStorage - {key}
           else c.contractStorage[key := ToBigEndian(x.2, 32)])
  }

  function PutBalance(c: Chain, x: (Address, int)): Chain {
    var acc := if x.0 in c.accounts then c.accounts[x.0] else Account(0, []);
    c.(accounts := c.accounts[x.0 := acc.(balance := x.1)])
  }

  function PutCode(c: Chain, x: (Body, seq<byte>)): Chain {
    if |x.0| != 20 then c else c.(contractCode := c.contractCode[FromBody(x.0) := x.1])
  }

  function Delete(c: Chain, a: Address): Chain {
    c.(accounts := c.accounts - {a}, contractCode := c.contractCode - {a})
  }

  function PutSlots(c: Chain, xs: seq<(Body, Word, Word)>): Chain {
    if xs == [] then c else PutSlot(PutSlots(c, xs[..|xs| - 1]), xs[|xs| - 1])
  }

  function PutBalances(c: Chain, xs: seq<(Address, int)>): Chain {
    if xs == [] then c else PutBalance(PutBalances(c, xs[..|xs| - 1]), xs[|xs| - 1])
  }

  function PutCodes(c: Chain, xs: seq<(Body, seq<byte>)>): Chain {
    if xs == [] then c else PutCode(PutCodes(c, xs[..|xs| - 1]), xs[|xs| - 1])
  }

  function Deletes(c: Chain, xs: seq<Address>): Chain {
    if xs == [] then c else Delete(Deletes(c, xs[..|xs| - 1]), xs[|xs| - 1])
  }

  function Flushed(c: Chain, ws: WorldWrites): Chain {
    Deletes(PutCodes(PutBalances(PutSlots(c, ws.storage), ws.balances), ws.code), ws.suicided)
  }

  // -- the store, updated in place ----------------------------------------

  class ChainStore {
    var contractStorage: map<seq<byte>, seq<byte>>
    var accounts: map<Address, Account>
    var contractCode: map<Address, seq<byte>>

    ghost function View(): Chain
      reads this
    {
      Chain(contractStorage, accounts, contractCode)
    }

    constructor (c: Chain)
      ensures View() == c
    {
      contractStorage, accounts, contractCode := c.contractStorage, c.accounts, c.contractCode;
    }

    /** `flush_world`. */
    method FlushWorld(ws: WorldWrites)
      modifies this
      ensures View() == Flushed(old(View()), ws)
    {
      FlushStorage(ws.storage);
      FlushBalances(ws.balances);
      FlushCode(ws.code);
      FlushSuicides(ws.suicided);
    }

    method FlushStorage(xs: seq<(Body, Word, Word)>)
      modifies this
      ensures View() == PutSlots(old(View()), xs)
    {
      for i := 0 to |xs|
        invariant View() == PutSlots(old(View()), xs[..i])
      {
        assert xs[..i + 1][..i] == xs[..i];
        var (body, slot, value) := xs[i];
        if |body| == 20 {
          var key := StorageKey(FromBody(body), slot);
          if value == 0 {
            contractStorage := contractStorage - {key};
          } else {
            contractStorage := contractStorage[key := ToBigEndian(value, 32)];
          }
        }
      }
      assert xs[..|xs|] == xs;
    }

    method FlushBalances(xs: seq<(Address, int)>)
      modifies this
      ensures View() == PutBalances(old(View()), xs)
    {
      for i := 0 to |xs|
        invariant View() == PutBalances(old(View()), xs[..i])
      {
        assert xs[..i + 1][..i] == xs[..i];
        var (addr, bal) := xs[i];
        var acc := Account(0, []);
        if addr in accounts { acc := accounts[addr]; }
        accounts := accounts[addr := acc.(balance := bal)];
      }
      assert xs[..|xs|] == xs;
    }

    method FlushCode(xs: seq<(Body, seq<byte>)>)
      modifies this
      ensures View() == PutCodes(old(View()), xs)
    {
      for i := 0 to |xs|
        invariant View() == PutCodes(old(View()), xs[..i])
      {
        assert xs[..i + 1][..i] == xs[..i];
        var (body, code) := xs[i];
        if |body| == 20 {
          contractCode := contractCode[FromBody(body) := code];
        }
      }
      assert xs[..|xs|] == xs;
    }

    method FlushSuicides(xs: seq<Address>)
      modifies this
      ensures View() == Deletes(old(View()), xs)
    {
      for i := 0 to |xs|
        invariant View() == Deletes(old(View()), xs[..i])
      {
        assert xs[..i + 1][..i] == xs[..i];
        accounts := accounts - {xs[i]};
        contractCode := contractCode - {xs[i]};
      }
      assert xs[..|xs|] == xs;
    }
  }

  // -- reading back -------------------------------------------------------

  /** Distinct slots of 20-byte addresses have distinct storage keys. */
  lemma StorageKeyInjective(b: Body, s: Word, b': Body, s': Word)
    requires |b| == |b'| == 20
    requires StorageKey(FromBody(b), s) == StorageKey(FromBody(b'), s')
    ensures b == b' && s == s'
  {
    var key := StorageKey(FromBody(b), s);
    assert key[1..21] == b && key[1..21] == b';
    assert key[21..] == ToBigEndian(s, 32) && key[21..] == ToBigEndian(s', 32);
    WordRoundTrip(s);
    WordRoundTrip(s');
  }

  lemma SlotAfterPut(c: Chain, x: (Body, Word, Word), body: Body, slot: Word)
    requires |body| == 20
    ensures ChainSload(PutSlot(c, x), body, slot) ==
            if x.0 == body && x.1 == slot then x.2 else ChainSload(c, body, slot)
  {
    if |x.0| == 20 {
      WordRoundTrip(x.2);
      if StorageKey(FromBody(x.0), x.1) == StorageKey(FromBody(body), slot) {
        StorageKeyInjective(x.0, x.1, body, slot);
      }
    }
  }

  /** Whatever the order of the writes, a listed slot reads as listed, any other as before. */
  lemma {:induction false} SlotAfterPuts(c: Chain, xs: seq<(Body, Word, Word)>, m: map<Slot, Word>, body: Body,
                                         slot: Word)
    requires |body| == 20
    requires forall x | x in xs :: (x.0, x.1) in m && m[(x.0, x.1)] == x.2
    ensures ChainSload(PutSlots(c, xs), body, slot) ==
            if exists v :: (body, slot, v) in xs then m[(body, slot)] else ChainSload(c, body, slot)
    ensures PutSlots(c, xs).accounts == c.accounts && PutSlots(c, xs).contractCode == c.contractCode
  {
    if xs != [] {
      var rest, last := xs[..|xs| - 1], xs[|xs| - 1];
      assert xs == rest + [last];
      SlotAfterPuts(c, rest, m, body, slot);
      SlotAfterPut(PutSlots(c, rest), last, body, slot);
    }
  }

  lemma {:induction false} BalanceAfterPuts(c: Chain, xs: seq<(Address, int)>, m: map<Address, int>, a: Address)
    requires forall x | x in xs :: x.0 in m && m[x.0] == x.1
    ensures var r := PutBalances(c, xs);
            && ChainBalance(r, a) == (if exists v :: (a, v) in xs then m[a] else ChainBalance(c, a))
            && (a in r.accounts <==> a in c.accounts || exists v :: (a, v) in xs)
            && (a in c.accounts ==> r.accounts[a].rest == c.accounts[a].rest)
            && r.contractCode == c.contractCode && r.contractStorage == c.contractStorage
  {
    if xs != [] {
      var rest, last := xs[..|xs| - 1], xs[|xs| - 1];
      assert xs == rest + [last];
      BalanceAfterPuts(c, rest, m, a);
    }
  }

  lemma {:induction false} CodeAfterPuts(c: Chain, xs: seq<(Body, seq<byte>)>, m: map<Body, seq<byte>>, body: Body)
    requires |body| == 20
    requires forall x | x in xs :: x.0 in m && m[x.0] == x.1
    ensures var r := PutCodes(c, xs);
            && ChainCode(r, body) == (if exists v :: (body, v) in xs then m[body] else ChainCode(c, body))
            && r.accounts == c.accounts && r.contractStorage == c.contractStorage
  {
    if xs != [] {
      var rest, last := xs[..|xs| - 1], xs[|xs| - 1];
      assert xs == rest + [last];
      CodeAfterPuts(c, rest, m, body);
      assert FromBody(last.0)[1..] == last.0 && FromBody(body)[1..] == body;
    }
  }

  lemma {:induction false} AfterDeletes(c: Chain, xs: seq<Address>, a: Address)
    ensures var r := Deletes(c, xs);
            && r.contractStorage == c.contractStorage
            && (a in r.accounts <==> a in c.accounts && a !in xs)
            && (a in r.accounts ==> r.accounts[a] == c.accounts[a])
            && (a in r.contractCode <==> a in c.contractCode && a !in xs)
            && (a in r.contractCode ==> r.contractCode[a] == c.contractCode[a])
  {
    if xs != [] {
      var rest, last := xs[..|xs| - 1], xs[|xs| - 1];
      assert xs == rest + [last];
      AfterDeletes(c, rest, a);
    }
  }

  /** After a flush, chain state holds every storage slot the overlay showed. */
  lemma FlushAgreesOnStorage(w: WorldState, ws: WorldWrites, body: Body, slot: Word)
    requires w.backend.StateBacked? && Lists(ws, w) && |body| == 20
    ensures ChainSload(Flushed(w.backend.chain, ws), body, slot) == Sload(w, body, slot)
  {
    var c := w.backend.chain;
    var c1 := PutSlots(c, ws.storage);
    var c2 := PutBalances(c1, ws.balances);
    SlotAfterPuts(c, ws.storage, w.storage, body, slot);
    BalanceAfterPuts(c1, ws.balances, w.balances, []);
    CodeAfterPuts(c2, ws.code, w.code, body);
    AfterDeletes(PutCodes(c2, ws.code), ws.suicided, []);
    if (body, slot) in w.storage {
      assert (body, slot, w.storage[(body, slot)]) in ws.storage;
    }
  }

  /**
   * After a flush, every account that did not self-destruct has the balance the overlay
   * showed and the other fields it had before; a self-destructed account is gone. Accounts
   * exist exactly where they did or where a balance was written.
   */
  lemma FlushAgreesOnAccounts(w: WorldState, ws: WorldWrites, a: Address)
    requires w.backend.StateBacked? && Lists(ws, w)
    ensures var c := w.backend.chain;
            var r := Flushed(c, ws);
            && (a !in w.suicides ==> ChainBalance(r, a) == Balance(w, a))
            && (a in r.accounts <==> a !in w.suicides && (a in c.accounts || a in w.balances))
            && (a in r.accounts && a in c.accounts ==> r.accounts[a].rest == c.accounts[a].rest)
  {
    var c := w.backend.chain;
    var c1 := PutSlots(c, ws.storage);
    var c2 := PutBalances(c1, ws.balances);
    var zero := ToBigEndian(0, 20);
    SlotAfterPuts(c, ws.storage, w.storage, zero, 0);
    BalanceAfterPuts(c1, ws.balances, w.balances, a);
    CodeAfterPuts(c2, ws.code, w.code, zero);
    AfterDeletes(PutCodes(c2, ws.code), ws.suicided, a);
    if a in w.balances {
      assert (a, w.balances[a]) in ws.balances;
    }
  }

  /** After a flush, every contract that did not self-destruct has the overlay's code. */
  lemma FlushAgreesOnCode(w: WorldState, ws: WorldWrites, body: Body)
    requires w.backend.StateBacked? && Lists(ws, w) && |body| == 20
    ensures ChainCode(Flushed(w.backend.chain, ws), body) ==
            if FromBody(body) in w.suicides then [] else GetCode(w, body)
  {
    var c := w.backend.chain;
    var c1 := PutSlots(c, ws.storage);
    var c2 := PutBalances(c1, ws.balances);
    SlotAfterPuts(c, ws.storage, w.storage, body, 0);
    BalanceAfterPuts(c1, ws.balances, w.balances, []);
    CodeAfterPuts(c2, ws.code, w.code, body);
    AfterDeletes(PutCodes(c2, ws.code), ws.suicided, FromBody(body));
    if body in w.code {
      assert (body, w.code[body]) in ws.code;
    }
  }
}
