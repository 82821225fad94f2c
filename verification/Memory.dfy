/** The memory buffer and the energy meter as a frame updates them. */
module MemoryBuffer {
  import opened Words
  import opened Energy
  import opened Engine

  class Memory {
    var data: seq<byte>

    constructor ()
      ensures data == []
    {
      data := [];
    }

    /** `expand_to`: grow to whole words and report the price of the growth. */
    method ExpandTo(end: nat) returns (cost: nat)
      modifies this
      ensures data == Expanded(old(data), end)
      ensures cost == ExpansionCost(old(data), end)
    {
      if end <= |data| {
        return 0;
      }
      var words := WordsFor(end);
      cost := MemoryExpansionCost(WordsFor(|data|), words);
      data := data + seq(words * 32 - |data|, _ => 0);
    }

    /** `load`: 32 bytes, zero past the end, as a big-endian word. */
    method Load(off: nat) returns (v: Word)
      ensures v == LoadWord(data, off)
    {
      var buf := [];
      for i := 0 to 32
        invariant buf == ReadPadded(data, off, i)
      {
        buf := buf + [if off + i < |data| then data[off + i] else 0];
      }
      v := WordOfBytes(buf);
    }

    /** `store`: overwrite 32 bytes that exist. */
    method Store(off: nat, v: Word)
      requires off + 32 <= |data|
      modifies this
      ensures data == StoreWord(old(data), off, v)
    {
      data := Overwrite(data, off, ToBigEndian(v, 32));
    }
  }

  class EnergyMeter {
    const limit: nat
    var used: nat

    constructor (limit: nat)
      ensures this.limit == limit && used == 0
    {
      this.limit, used := limit, 0;
    }

    /** `charge`: all or nothing; a sum past 64 bits is refused like one past the limit. */
    method TryCharge(amount: nat) returns (ok: bool)
      requires used <= limit <= U64_MAX
      modifies this
      ensures ok <==> old(used) + amount <= limit
      ensures used == if ok then old(used) + amount else old(used)
      ensures used <= limit
    {
      ok := used + amount <= U64_MAX && used + amount <= limit;
      if ok {
        used := used + amount;
      }
    }
  }

  /** `Grow` with the code's 64-bit memory arithmetic. */
  function Grow64(m: Machine, limit: nat, end: nat): Option<Machine> {
    var cost := Cost64(m.mem, end);
    if m.used + cost <= limit then Some(m.(mem := Expanded64(m.mem, end), used := m.used + cost)) else None
  }

  /**
   * Under every limit below 3 * 2^32, which the transactions' 10,000,000 and 3,000,000 are, the
   * code's growth is the model's for every extent but the last 31 of the 64-bit range.
   */
  lemma Grow64IsGrow(m: Machine, limit: nat, end: nat)
    requires Valid(m, limit) && limit < 3 * 0x1_0000_0000 && end + 31 <= U64_MAX
    ensures Grow64(m, limit, end) == Grow(m, limit, end)
  {
    Charges64Agree(m.mem, end, m.used, limit);
  }

  /**
   * What every memory instruction does first: expand to the saturated extent and charge for it.
   * It succeeds exactly when the machine can grow, and then leaves the memory and the energy the
   * grown machine has, with the access in range.
   */
  method Touch(mem: Memory, meter: EnergyMeter, off: nat, len: nat, ghost m: Machine) returns (ok: bool)
    requires Valid(m, meter.limit) && mem.data == m.mem && meter.used == m.used
    modifies mem, meter
    ensures ok <==> GrowFor(m, meter.limit, off, len).Some?
    ensures ok ==>
              var g := GrowFor(m, meter.limit, off, len).value;
              mem.data == g.mem && meter.used == g.used && off + len <= |mem.data|
  {
    var cost := mem.ExpandTo(SaturatingAdd(off, len));
    ok := meter.TryCharge(cost);
  }
}
