/** The maintenance cycle: tally votes, update witness counts, elect the active set. */
module Election {
  import opened Words
  import opened MapSum
  import opened Sorting

  type Address = seq<byte>

  const MAX_ACTIVE_WITNESSES: nat := 27

  datatype Vote = Vote(candidate: Address, count: int)

  datatype Scored = Scored(address: Address, votes: int)

  datatype State = State(
    accounts: map<Address, seq<Vote>>,
    witnesses: map<Address, int>,
    active: seq<Address>)

  // -- the witness order ----------------------------------------------------

  /** Byte-string order: lexicographic, a proper prefix first. */
  predicate BytesLess(a: seq<byte>, b: seq<byte>) {
    if b == [] then false
    else if a == [] then true
    else a[0] < b[0] || (a[0] == b[0] && BytesLess(a[1..], b[1..]))
  }

  /** `cmp_witness` is Less: more votes first, then the larger address. */
  predicate RanksBefore(a: Scored, b: Scored) {
    a.votes > b.votes || (a.votes == b.votes && BytesLess(b.address, a.address))
  }

  lemma {:induction false} BytesLessAsymmetric(a: seq<byte>, b: seq<byte>)
    ensures BytesLess(a, b) ==> !BytesLess(b, a)
  {
    if a != [] && b != [] {
      BytesLessAsymmetric(a[1..], b[1..]);
    }
  }

  lemma {:induction false} BytesLessTransitive(a: seq<byte>, b: seq<byte>, c: seq<byte>)
    ensures BytesLess(a, b) && BytesLess(b, c) ==> BytesLess(a, c)
  {
    if a != [] && b != [] && c != [] {
      BytesLessTransitive(a[1..], b[1..], c[1..]);
    }
  }

  lemma {:induction false} BytesLessTotal(a: seq<byte>, b: seq<byte>)
    ensures a == b || BytesLess(a, b) || BytesLess(b, a)
  {
    if a != [] && b != [] {
      BytesLessTotal(a[1..], b[1..]);
      assert a == [a[0]] + a[1..] && b == [b[0]] + b[1..];
    }
  }

  /** The comparator is a total order on (address, votes) pairs. */
  lemma RanksBeforeIsOrdering()
    ensures Ordering(RanksBefore)
    ensures forall xs: seq<Scored> :: TotalOn(RanksBefore, xs)
  {
    forall a: Scored, b: Scored
      ensures RanksBefore(a, b) ==> !RanksBefore(b, a)
      ensures a != b ==> RanksBefore(a, b) || RanksBefore(b, a)
    {
      BytesLessAsymmetric(a.address, b.address);
      BytesLessTotal(a.address, b.address);
    }
    forall a: Scored, b: Scored, c: Scored
      ensures RanksBefore(a, b) && RanksBefore(b, c) ==> RanksBefore(a, c)
    {
      BytesLessTransitive(c.address, b.address, a.address);
    }
    forall a: Scored, b: Scored, c: Scored
      ensures RanksBefore(a, c) ==> RanksBefore(a, b) || RanksBefore(b, c)
    {
      BytesLessTransitive(c.address, a.address, b.address);
      BytesLessTotal(a.address, b.address);
      BytesLessAsymmetric(a.address, b.address);
    }
  }

  // -- tallies --------------------------------------------------------------

  function VotesIn(votes: seq<Vote>, w: Address): int {
    if votes == [] then 0
    else VotesIn(votes[..|votes| - 1], w) + if votes[|votes| - 1].candidate == w then votes[|votes| - 1].count else 0
  }

  /** Votes for `w` by the listed accounts that exist. */
  function VotesFor(accounts: map<Address, seq<Vote>>, voters: seq<Address>, w: Address): int {
    if voters == [] then 0
    else
      var last := voters[|voters| - 1];
      VotesFor(accounts, voters[..|voters| - 1], w) + if last in accounts then VotesIn(accounts[last], w) else 0
  }

  /** `count_votes`, over the voter accounts that exist: every witness's votes are summed. */
  method CountVotes(accounts: map<Address, seq<Vote>>, voters: seq<Address>) returns (tally: map<Address, int>)
    ensures forall w :: At(tally, w) == VotesFor(accounts, voters, w)
  {
    tally := map[];
    for i := 0 to |voters|
      invariant forall w :: At(tally, w) == VotesFor(accounts, voters[..i], w)
    {
      assert voters[..i + 1][..i] == voters[..i];
      if voters[i] in accounts {
        var votes := accounts[voters[i]];
        ghost var before := tally;
        for j := 0 to |votes|
          invariant forall w :: At(tally, w) == At(before, w) + VotesIn(votes[..j], w)
        {
          assert votes[..j + 1][..j] == votes[..j];
          var v := votes[j];
          tally := tally[v.candidate := At(tally, v.candidate) + v.count];
        }
        assert votes[..|votes|] == votes;
      }
    }
    assert voters[..|voters|] == voters;
  }

  // -- maintenance ----------------------------------------------------------

  /** The stored counts once the listed candidates have gained their votes, once per listing. */
  function NewCounts(s: State, voters: seq<Address>, ws: seq<Address>): (c: map<Address, int>)
    ensures c.Keys == s.witnesses.Keys
  {
    if ws == [] then s.witnesses
    else
      var c, w := NewCounts(s, voters, ws[..|ws| - 1]), ws[|ws| - 1];
      if w in c then c[w := c[w] + VotesFor(s.accounts, voters, w)] else c
  }

  /** A candidate that is not in the witness store is not scored. */
  function Entry(s: State, voters: seq<Address>, ws: seq<Address>): seq<Scored>
    requires ws != []
  {
    var w := ws[|ws| - 1];
    if w in s.witnesses then [Scored(w, NewCounts(s, voters, ws)[w])] else []
  }

  function Entries(s: State, voters: seq<Address>, ws: seq<Address>): seq<Scored> {
    if ws == [] then [] else Entries(s, voters, ws[..|ws| - 1]) + Entry(s, voters, ws)
  }

  function Addresses(xs: seq<Scored>): seq<Address> {
    seq(|xs|, i requires 0 <= i < |xs| => xs[i].address)
  }

  function Take<T>(xs: seq<T>, n: nat): seq<T> {
    if |xs| <= n then xs else xs[..n]
  }

  function Ranking(s: State, voters: seq<Address>, ws: seq<Address>): seq<Scored> {
    Sort(Entries(s, voters, ws), RanksBefore)
  }

  function Elected(s: State, voters: seq<Address>, ws: seq<Address>): seq<Address> {
    Take(Addresses(Ranking(s, voters, ws)), MAX_ACTIVE_WITNESSES)
  }

  predicate Distinct(ws: seq<Address>) {
    forall i, j | 0 <= i < j < |ws| :: ws[i] != ws[j]
  }

  class WitnessStore {
    var accounts: map<Address, seq<Vote>>
    var witnesses: map<Address, int>
    var active: seq<Address>

    ghost function View(): State
      reads this
    {
      State(accounts, witnesses, active)
    }

    constructor (s: State)
      ensures View() == s
    {
      accounts, witnesses, active := s.accounts, s.witnesses, s.active;
    }

    /** The update loop: each candidate in the store gains its votes and is scored. */
    method ApplyTallies(ws: seq<Address>, ghost voters: seq<Address>, tally: map<Address, int>)
      returns (scored: seq<Scored>)
      requires forall w :: At(tally, w) == VotesFor(accounts, voters, w)
      modifies this`witnesses
      ensures scored == Entries(old(View()), voters, ws)
      ensures witnesses == NewCounts(old(View()), voters, ws)
    {
      ghost var s := View();
      scored := [];
      for i := 0 to |ws|
        invariant witnesses == NewCounts(s, voters, ws[..i])
        invariant scored == Entries(s, voters, ws[..i])
      {
        var w := ws[i];
        assert ws[..i + 1][..i] == ws[..i];
        if w in witnesses {
          var count := witnesses[w] + At(tally, w);
          witnesses := witnesses[w := count];
          scored := scored + [Scored(w, count)];
        }
      }
      assert ws[..|ws|] == ws;
    }

    /** `run_maintenance`: tally, update, rank, and cut the ranking at 27. */
    method RunMaintenance(ws: seq<Address>, voters: seq<Address>) returns (elected: seq<Address>)
      modifies this`witnesses, this`active
      ensures elected == Elected(old(View()), voters, ws)
      ensures View() == State(old(accounts), NewCounts(old(View()), voters, ws), elected)
    {
      var tally := CountVotes(accounts, voters);
      var scored := ApplyTallies(ws, voters, tally);
      elected := Take(Addresses(Sort(scored, RanksBefore)), MAX_ACTIVE_WITNESSES);
      active := elected;
    }
  }

  // -- the order of the lists does not matter --------------------------------

  lemma RemoveAt<T>(xs: seq<T>, i: nat)
    requires i < |xs|
    ensures multiset(xs[..i] + xs[i + 1..]) == multiset(xs) - multiset{xs[i]}
  {
    assert xs == xs[..i] + [xs[i]] + xs[i + 1..];
  }

  lemma {:induction false} VotesForRemove(accounts: map<Address, seq<Vote>>, voters: seq<Address>, i: nat, w: Address)
    requires i < |voters|
    ensures VotesFor(accounts, voters, w) ==
            VotesFor(accounts, voters[..i] + voters[i + 1..], w) + VotesFor(accounts, [voters[i]], w)
  {
    var n := |voters| - 1;
    var rest := voters[..i] + voters[i + 1..];
    var one := [voters[i]];
    assert one[..0] == [];
    if i == n {
      assert rest == voters[..n];
    } else {
      VotesForRemove(accounts, voters[..n], i, w);
      assert rest[..|rest| - 1] == voters[..n][..i] + voters[..n][i + 1..];
      assert rest[|rest| - 1] == voters[n];
    }
  }

  lemma {:induction false} VotesIgnoreOrder(accounts: map<Address, seq<Vote>>, voters: seq<Address>,
                                            voters': seq<Address>, w: Address)
    requires multiset(voters) == multiset(voters')
    ensures VotesFor(accounts, voters, w) == VotesFor(accounts, voters', w)
    decreases |voters|
  {
    assert |multiset(voters)| == |multiset(voters')|;
    if voters != [] {
      var n := |voters| - 1;
      var x := voters[n];
      assert x in multiset(voters');
      var i :| 0 <= i < |voters'| && voters'[i] == x;
      RemoveAt(voters, n);
      RemoveAt(voters', i);
      assert voters[..n] + voters[n + 1..] == voters[..n];
      VotesIgnoreOrder(accounts, voters[..n], voters'[..i] + voters'[i + 1..], w);
      VotesForRemove(accounts, voters, n, w);
      VotesForRemove(accounts, voters', i, w);
    }
  }

  /** A count after `n` additions of `v`. */
  function Credited(base: int, v: int, n: nat): int {
    if n == 0 then base else Credited(base, v, n - 1) + v
  }

  /** How many of the first `n` such counts equal `x`. */
  function Hits(base: int, v: int, n: nat, x: int): nat {
    if n == 0 then 0 else Hits(base, v, n - 1, x) + if Credited(base, v, n) == x then 1 else 0
  }

  lemma {:induction false} HitsBound(base: int, v: int, n: nat, x: int)
    ensures Hits(base, v, n, x) <= n
  {
    if n > 0 {
      HitsBound(base, v, n - 1, x);
    }
  }

  lemma SnocCount<T>(xs: seq<T>, x: T)
    requires xs != []
    ensures multiset(xs)[x] == multiset(xs[..|xs| - 1])[x] + if xs[|xs| - 1] == x then 1 else 0
  {
    assert xs == xs[..|xs| - 1] + [xs[|xs| - 1]];
  }

  lemma ConcatCount<T>(xs: seq<T>, ys: seq<T>, z: T)
    ensures multiset(xs + ys)[z] == multiset(xs)[z] + multiset(ys)[z]
  {
  }

  /** A stored count depends only on how often its witness is listed. */
  lemma {:induction false} CountIs(s: State, voters: seq<Address>, ws: seq<Address>, a: Address)
    requires a in s.witnesses
    ensures NewCounts(s, voters, ws)[a] ==
            Credited(s.witnesses[a], VotesFor(s.accounts, voters, a), multiset(ws)[a])
  {
    if ws != [] {
      CountIs(s, voters, ws[..|ws| - 1], a);
      SnocCount(ws, a);
    }
  }

  /** So does the number of times a score occurs. */
  lemma {:induction false} EntriesCount(s: State, voters: seq<Address>, ws: seq<Address>, e: Scored)
    ensures multiset(Entries(s, voters, ws))[e] ==
            if e.address in s.witnesses
            then Hits(s.witnesses[e.address], VotesFor(s.accounts, voters, e.address), multiset(ws)[e.address], e.votes)
            else 0
  {
    if ws != [] {
      var front := ws[..|ws| - 1];
      EntriesCount(s, voters, front, e);
      SnocCount(ws, e.address);
      EntryCount(s, voters, ws, e);
      ConcatCount(Entries(s, voters, front), Entry(s, voters, ws), e);
    }
  }

  lemma EntryCount(s: State, voters: seq<Address>, ws: seq<Address>, e: Scored)
    requires ws != []
    ensures multiset(Entry(s, voters, ws))[e] ==
            if e.address in s.witnesses && e.address == ws[|ws| - 1] && e.votes ==
               Credited(s.witnesses[e.address], VotesFor(s.accounts, voters, e.address), multiset(ws)[e.address])
            then 1 else 0
  {
    if e.address in s.witnesses {
      CountIs(s, voters, ws, e.address);
    }
  }

  lemma EntriesIgnoreOrder(s: State, voters: seq<Address>, voters': seq<Address>, ws: seq<Address>, ws': seq<Address>)
    requires multiset(ws) == multiset(ws') && multiset(voters) == multiset(voters')
    ensures multiset(Entries(s, voters, ws)) == multiset(Entries(s, voters', ws'))
  {
    forall e
      ensures multiset(Entries(s, voters, ws))[e] == multiset(Entries(s, voters', ws'))[e]
    {
      EntriesCount(s, voters, ws, e);
      EntriesCount(s, voters', ws', e);
      VotesIgnoreOrder(s.accounts, voters, voters', e.address);
    }
  }

  lemma CountIgnoresOrder(s: State, voters: seq<Address>, voters': seq<Address>, ws: seq<Address>, ws': seq<Address>,
                          a: Address)
    requires multiset(ws) == multiset(ws') && multiset(voters) == multiset(voters')
    requires a in s.witnesses
    ensures NewCounts(s, voters, ws)[a] == NewCounts(s, voters', ws')[a]
  {
    CountIs(s, voters, ws, a);
    CountIs(s, voters', ws', a);
    VotesIgnoreOrder(s.accounts, voters, voters', a);
  }

  lemma SameMap<K, V>(m: map<K, V>, n: map<K, V>)
    requires m.Keys == n.Keys
    requires forall k | k in m.Keys :: m[k] == n[k]
    ensures m == n
  {
  }

  /**
   * A maintenance cycle is the same under any permutation of the candidate list and of the
   * voter list: the same counts are stored and the same ordered set is elected.
   */
  lemma MaintenanceIgnoresOrder(s: State, voters: seq<Address>, voters': seq<Address>, ws: seq<Address>,
                                ws': seq<Address>)
    requires multiset(ws) == multiset(ws') && multiset(voters) == multiset(voters')
    ensures NewCounts(s, voters, ws) == NewCounts(s, voters', ws')
    ensures Elected(s, voters, ws) == Elected(s, voters', ws')
  {
    var c, d := NewCounts(s, voters, ws), NewCounts(s, voters', ws');
    forall a | a in c.Keys
      ensures c[a] == d[a]
    {
      CountIgnoresOrder(s, voters, voters', ws, ws', a);
    }
    SameMap(c, d);
    EntriesIgnoreOrder(s, voters, voters', ws, ws');
    RanksBeforeIsOrdering();
    SortIgnoresOrder(Entries(s, voters, ws), Entries(s, voters', ws'), RanksBefore);
  }

  /**
   * No candidate left out ranks before an elected one; with distinct candidates every elected one
   * ranks before every one left out.
   */
  lemma ElectedRankFirst(s: State, voters: seq<Address>, ws: seq<Address>, i: nat, j: nat)
    requires i < MAX_ACTIVE_WITNESSES <= j < |Ranking(s, voters, ws)|
    ensures Elected(s, voters, ws)[i] == Ranking(s, voters, ws)[i].address
    ensures !RanksBefore(Ranking(s, voters, ws)[j], Ranking(s, voters, ws)[i])
    ensures Distinct(ws) ==> RanksBefore(Ranking(s, voters, ws)[i], Ranking(s, voters, ws)[j])
  {
    var r := Ranking(s, voters, ws);
    RanksBeforeIsOrdering();
    KeptPrecedesCut(Entries(s, voters, ws), RanksBefore, MAX_ACTIVE_WITNESSES, i, j);
    if Distinct(ws) {
      EntriesDistinct(s, voters, ws);
      NoDuplicates(Entries(s, voters, ws), r, i, j);
      assert TotalOn(RanksBefore, r);
    }
  }

  lemma EntriesDistinct(s: State, voters: seq<Address>, ws: seq<Address>)
    requires Distinct(ws)
    ensures forall e :: multiset(Entries(s, voters, ws))[e] <= 1
  {
    forall e
      ensures multiset(Entries(s, voters, ws))[e] <= 1
    {
      EntriesCount(s, voters, ws, e);
      DistinctCount(ws, e.address);
      if e.address in s.witnesses {
        HitsBound(s.witnesses[e.address], VotesFor(s.accounts, voters, e.address), multiset(ws)[e.address], e.votes);
      }
    }
  }

  lemma {:induction false} DistinctCount(ws: seq<Address>, a: Address)
    requires Distinct(ws)
    ensures multiset(ws)[a] <= 1
  {
    if ws != [] {
      DistinctCount(ws[..|ws| - 1], a);
      SnocCount(ws, a);
      assert ws[|ws| - 1] !in ws[..|ws| - 1];
    }
  }

  lemma NoDuplicates<T>(xs: seq<T>, r: seq<T>, i: nat, j: nat)
    requires multiset(r) == multiset(xs) && i < j < |r|
    requires forall e :: multiset(xs)[e] <= 1
    ensures r[i] != r[j]
  {
    assert r == r[..i] + [r[i]] + r[i + 1..j] + [r[j]] + r[j + 1..];
    assert multiset(r) >= multiset{r[i]} + multiset{r[j]};
    assert multiset(r)[r[i]] <= 1;
  }
}
