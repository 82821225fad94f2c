/**
 * The journaled multi-account world of the virtual machine: an overlay of writes over a
 * backend, with an undo journal. `WorldState` is its value; `World` is the object the
 * engine updates in place, each method proved against a function on values.
 */
module WorldModel {
  import opened Words

  /** A 20-byte engine address (`Body`) and a 21-byte chain address (`Address`). */
  type Body = seq<byte>
  type Address = seq<byte>
  type Slot = (Body, Word)

  const ADDRESS_PREFIX: byte := 0x41

  /** `Address::from_body`. */
  function FromBody(body: Body): Address {
    [ADDRESS_PREFIX] + body
  }

  // -- chain state (the store behind the overlay) --------------------------

  /** A stored account: its balance and everything else the record carries. */
  datatype Account = Account(balance: int, rest: seq<byte>)

  datatype Chain = Chain(
    contractStorage: map<seq<byte>, seq<byte>>,
    accounts: map<Address, Account>,
    contractCode: map<Address, seq<byte>>)

  /** Contract-storage key: 21-byte address followed by the 32-byte big-endian slot. */
  function StorageKey(addr: Address, slot: Word): seq<byte> {
    addr + ToBigEndian(slot, 32)
  }

  function ChainSload(c: Chain, body: Body, slot: Word): Word {
    if |body| != 20 then 0
    else
      var key := StorageKey(FromBody(body), slot);
      if key in c.contractStorage && |c.contractStorage[key]| == 32
      then WordOfBytes(c.contractStorage[key])
      else 0
  }

  function ChainCode(c: Chain, body: Body): seq<byte> {
    if |body| == 20 && FromBody(body) in c.contractCode then c.contractCode[FromBody(body)] else []
  }

  function ChainBalance(c: Chain, addr: Address): int {
    if addr in c.accounts then c.accounts[addr].balance else 0
  }

  // -- the world as a value ------------------------------------------------

  datatype Backend = InWorld | HostBacked(slots: map<Word, Word>) | StateBacked(chain: Chain)

  datatype Entry =
    | Storage(key: Slot, prev: Option<Word>)
    | BalanceOf(addr: Address, prevBalance: int)
    | AccountCreate(created: Address)
    | SuicideOf(victim: Address)
    | Burn(amount: int)

  datatype WorldState = WorldState(
    storage: map<Slot, Word>,
    code: map<Body, seq<byte>>,
    balances: map<Address, int>,
    accounts: set<Address>,
    suicides: seq<Address>,
    burned: int,
    journal: seq<Entry>,
    backend: Backend)

  function GetCode(w: WorldState, a: Body): seq<byte> {
    if a in w.code then w.code[a]
    else if w.backend.StateBacked? then ChainCode(w.backend.chain, a)
    else []
  }

  function HostSload(slots: map<Word, Word>, slot: Word): Word {
    if slot in slots then slots[slot] else 0
  }

  /** `MemoryHost::sstore`: a written zero removes the slot. */
  function HostSstore(slots: map<Word, Word>, slot: Word, v: Word): map<Word, Word> {
    if v == 0 then slots - {slot} else slots[slot := v]
  }

  function Sload(w: WorldState, a: Body, slot: Word): Word {
    match w.backend
    case HostBacked(slots) => HostSload(slots, slot)
    case InWorld => if (a, slot) in w.storage then w.storage[(a, slot)] else 0
    case StateBacked(chain) =>
      if (a, slot) in w.storage then w.storage[(a, slot)] else ChainSload(chain, a, slot)
  }

  function Lookup<K, V>(m: map<K, V>, k: K): Option<V> {
    if k in m then Some(m[k]) else None
  }

  function Sstore(w: WorldState, a: Body, slot: Word, v: Word): WorldState {
    if w.backend.HostBacked? then w.(backend := HostBacked(HostSstore(w.backend.slots, slot, v)))
    else
      w.(storage := w.storage[(a, slot) := v],
         journal := w.journal + [Storage((a, slot), Lookup(w.storage, (a, slot)))])
  }

  function Balance(w: WorldState, a: Address): int {
    if a in w.balances then w.balances[a]
    else if w.backend.StateBacked? then ChainBalance(w.backend.chain, a)
    else 0
  }

  predicate AccountExists(w: WorldState, a: Address) {
    a in w.accounts || (w.backend.StateBacked? && a in w.backend.chain.accounts)
  }

  function WriteBalance(w: WorldState, a: Address, new_: int): WorldState {
    w.(balances := w.balances[a := new_],
       journal := w.journal + [BalanceOf(a, Balance(w, a))])
  }

  function EnsureAccount(w: WorldState, a: Address): WorldState {
    if a in w.accounts then w
    else w.(accounts := w.accounts + {a}, journal := w.journal + [AccountCreate(a)])
  }

  function Transfer(w: WorldState, src: Address, dst: Address, amount: int): WorldState {
    if amount == 0 then w
    else
      var w1 := EnsureAccount(EnsureAccount(w, src), dst);
      WriteBalance(WriteBalance(w1, src, Balance(w, src) - amount), dst, Balance(w, dst) + amount)
  }

  function AddBurn(w: WorldState, amount: int): WorldState {
    if amount == 0 then w
    else w.(burned := SaturatingAdd64(w.burned, amount), journal := w.journal + [Burn(amount)])
  }

  function MarkSuicide(w: WorldState, a: Address): WorldState {
    if a in w.suicides then w
    else w.(suicides := w.suicides + [a], journal := w.journal + [SuicideOf(a)])
  }

  function Suicide(w: WorldState, contract: Address, beneficiary: Address): WorldState {
    var bal := Balance(w, contract);
    if beneficiary == contract then
      MarkSuicide(AddBurn(WriteBalance(w, contract, 0), bal), contract)
    else
      var w1 := EnsureAccount(w, beneficiary);
      var w2 := WriteBalance(w1, contract, 0);
      MarkSuicide(WriteBalance(w2, beneficiary, SaturatingAdd64(Balance(w1, beneficiary), bal)), contract)
  }

  /** Whether the burn a SELFDESTRUCT performs stays within `i64`. */
  predicate SuicideStaysExact(w: WorldState, contract: Address, beneficiary: Address) {
    beneficiary == contract ==> FitsI64(w.burned + Balance(w, contract))
  }

  // -- checkpoint, commit, revert -----------------------------------------

  function Without(s: seq<Address>, a: Address): seq<Address> {
    if s == [] then []
    else if s[|s| - 1] == a then Without(s[..|s| - 1], a)
    else Without(s[..|s| - 1], a) + [s[|s| - 1]]
  }

  /** Pop one journal entry and undo it. */
  function UndoTop(w: WorldState): (r: WorldState)
    requires w.journal != []
    ensures r.journal == w.journal[..|w.journal| - 1]
  {
    var rest := w.journal[..|w.journal| - 1];
    match w.journal[|w.journal| - 1]
    case Storage(key, prev) =>
      w.(storage := if prev.Some? then w.storage[key := prev.value] else w.storage - {key}, journal := rest)
    case BalanceOf(addr, prev) => w.(balances := w.balances[addr := prev], journal := rest)
    case AccountCreate(addr) => w.(accounts := w.accounts - {addr}, journal := rest)
    case SuicideOf(addr) => w.(suicides := Without(w.suicides, addr), journal := rest)
    case Burn(amount) => w.(burned := w.burned - amount, journal := rest)
  }

  function RevertTo(w: WorldState, cp: nat): (r: WorldState)
    ensures |w.journal| >= cp ==> r.journal == w.journal[..cp]
    decreases |w.journal|
  {
    if |w.journal| <= cp then w else RevertTo(UndoTop(w), cp)
  }

  function Commit(w: WorldState, cp: nat): WorldState {
    if |w.journal| <= cp then w else w.(journal := w.journal[..cp])
  }

  // -- the world as an object ---------------------------------------------

  class World {
    var storage: map<Slot, Word>
    var code: map<Body, seq<byte>>
    var balances: map<Address, int>
    var accounts: set<Address>
    var suicides: seq<Address>
    var burned: int
    var journal: seq<Entry>
    var backend: Backend

    ghost function View(): WorldState
      reads this
    {
      WorldState(storage, code, balances, accounts, suicides, burned, journal, backend)
    }

    constructor (backend: Backend)
      ensures View() == WorldState(map[], map[], map[], {}, [], 0, [], backend)
    {
      storage, code, balances := map[], map[], map[];
      accounts, suicides, burned, journal := {}, [], 0, [];
      this.backend := backend;
    }

    method Code(a: Body) returns (c: seq<byte>)
      ensures c == GetCode(View(), a)
    {
      if a in code { return code[a]; }
      match backend
      case StateBacked(chain) => c := ChainCode(chain, a);
      case _ => c := [];
    }

    method Load(a: Body, slot: Word) returns (v: Word)
      ensures v == Sload(View(), a, slot)
    {
      match backend {
        case HostBacked(slots) => v := HostSload(slots, slot);
        case InWorld => v := if (a, slot) in storage then storage[(a, slot)] else 0;
        case StateBacked(chain) =>
          v := if (a, slot) in storage then storage[(a, slot)] else ChainSload(chain, a, slot);
      }
    }

    method Store(a: Body, slot: Word, v: Word)
      modifies this
      ensures View() == Sstore(old(View()), a, slot, v)
    {
      match backend {
        case HostBacked(slots) =>
          backend := HostBacked(if v == 0 then slots - {slot} else slots[slot := v]);
        case _ =>
          journal := journal + [Storage((a, slot), Lookup(storage, (a, slot)))];
          storage := storage[(a, slot) := v];
      }
    }

    method ReadBalance(a: Address) returns (b: int)
      ensures b == Balance(View(), a)
    {
      if a in balances { return balances[a]; }
      match backend
      case StateBacked(chain) => b := ChainBalance(chain, a);
      case _ => b := 0;
    }

    method Exists(a: Address) returns (e: bool)
      ensures e == AccountExists(View(), a)
    {
      if a in accounts { return true; }
      match backend
      case StateBacked(chain) => e := a in chain.accounts;
      case _ => e := false;
    }

    method PutBalance(a: Address, new_: int)
      modifies this
      ensures View() == WriteBalance(old(View()), a, new_)
    {
      var prev := ReadBalance(a);
      journal := journal + [BalanceOf(a, prev)];
      balances := balances[a := new_];
    }

    method Ensure(a: Address)
      modifies this
      ensures View() == EnsureAccount(old(View()), a)
    {
      if a !in accounts {
        accounts := accounts + {a};
        journal := journal + [AccountCreate(a)];
      }
    }

    method Move(src: Address, dst: Address, amount: int)
      modifies this
      ensures View() == Transfer(old(View()), src, dst, amount)
    {
      if amount == 0 { return; }
      var fb := ReadBalance(src);
      var tb := ReadBalance(dst);
      Ensure(src);
      Ensure(dst);
      PutBalance(src, fb - amount);
      PutBalance(dst, tb + amount);
    }

    method SelfDestruct(contract: Address, beneficiary: Address)
      modifies this
      ensures View() == Suicide(old(View()), contract, beneficiary)
    {
      var bal := ReadBalance(contract);
      if beneficiary == contract {
        PutBalance(contract, 0);
        if bal != 0 {
          journal := journal + [Burn(bal)];
          burned := SaturatingAdd64(burned, bal);
        }
      } else {
        Ensure(beneficiary);
        var benefBal := ReadBalance(beneficiary);
        PutBalance(contract, 0);
        PutBalance(beneficiary, SaturatingAdd64(benefBal, bal));
      }
      if contract !in suicides {
        journal := journal + [SuicideOf(contract)];
        suicides := suicides + [contract];
      }
    }

    method Checkpoint() returns (cp: nat)
      ensures cp == |View().journal|
    {
      cp := |journal|;
    }

    method Revert(cp: nat)
      modifies this
      ensures View() == RevertTo(old(View()), cp)
    {
      while |journal| > cp
        invariant RevertTo(View(), cp) == RevertTo(old(View()), cp)
        decreases |journal|
      {
        PopAndUndo();
      }
    }

    /** Take the newest record off the journal and put back what it says. */
    method PopAndUndo()
      requires journal != []
      modifies this
      ensures View() == UndoTop(old(View()))
    {
      var e := journal[|journal| - 1];
      journal := journal[..|journal| - 1];
      match e
      case Storage(key, prev) =>
        if prev.Some? { storage := storage[key := prev.value]; } else { storage := storage - {key}; }
      case BalanceOf(addr, prev) => balances := balances[addr := prev];
      case AccountCreate(addr) => accounts := accounts - {addr};
      case SuicideOf(addr) => suicides := Without(suicides, addr);
      case Burn(amount) => burned := burned - amount;
    }

    method Keep(cp: nat)
      modifies this
      ensures View() == Commit(old(View()), cp)
    {
      if |journal| > cp { journal := journal[..cp]; }
    }
  }
}
