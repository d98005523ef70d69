// Conservation: what a signal's links do to the total of all balances.
module Supplies {
  import opened Wrappers
  import opened Bytes
  import opened Integers
  import opened Records
  import opened Graph
  import opened Transition
  import Effects

  ghost function Supply(balances: map<Key, u64>): nat
  {
    if balances == map[] then 0
    else
      var k :| k in balances;
      balances[k] + Supply(balances - {k})
  }

  lemma {:induction false} SupplyAt(balances: map<Key, u64>, k: Key)
    requires k in balances
    ensures Supply(balances) == balances[k] + Supply(balances - {k})
    decreases |balances|
  {
    var j :| j in balances && Supply(balances) == balances[j] + Supply(balances - {j});
    if j != k {
      SupplyAt(balances - {j}, k);
      SupplyAt(balances - {k}, j);
      assert balances - {j} - {k} == balances - {k} - {j};
    }
  }

  lemma SupplyPut(balances: map<Key, u64>, k: Key, v: u64)
    ensures Supply(balances[k := v]) == Supply(balances) - (if k in balances then balances[k] else 0) + v
    ensures Supply(balances - {k}) == Supply(balances) - (if k in balances then balances[k] else 0)
  {
    hide Supply;
    SupplyAt(balances[k := v], k);
    if k in balances {
      SupplyAt(balances, k);
      assert balances[k := v] - {k} == balances - {k};
    } else {
      assert balances[k := v] - {k} == balances == balances - {k};
    }
  }

  // What the source balance lacks once the target is credited.
  function Shortfall(h: Hashes, s: State, l: Link): nat
  {
    var has := BalanceOr0(Credited(h, s, l), h.balanceKey(l.from, l.token));
    if has >= l.amount then 0 else l.amount - has
  }

  lemma TransferSupply(h: Hashes, s: State, l: Link)
    requires CreditFits(h, s, l)
    ensures Supply(Debited(h, Credited(h, s, l), l).balances) == Supply(s.balances) + Shortfall(h, s, l)
  {
    var t := Credited(h, s, l);
    SupplyPut(s.balances, h.balanceKey(l.to, l.token), SatAdd(BalanceOr0(s, h.balanceKey(l.to, l.token)), l.amount));
    var from := h.balanceKey(l.from, l.token);
    SupplyPut(t.balances, from, SatSub(BalanceOr0(t, from), l.amount));
  }

  // One link conserves the supply exactly when its source covers it; otherwise the supply grows by
  // the shortfall.
  lemma LinkSupply(h: Hashes, s: State, neuron: Key, l: Link)
    requires CreditFits(h, s, l)
    ensures Supply(Linked(h, s, neuron, l).balances) == Supply(s.balances) + Shortfall(h, s, l)
  {
    hide Wired, Weighed, Energised, Focused, Credited, Debited, Supply;
    Effects.SameBalanceRows(h, s, neuron, l);
    if l.amount > 0 {
      var t := Focused(Energised(Weighed(h, Wired(h, s, l), l), l), neuron, l);
      SameCredit(h, s, t, l);
      TransferSupply(h, t, l);
    }
  }

  lemma SameCredit(h: Hashes, s: State, t: State, l: Link)
    requires s.balances == t.balances
    ensures Shortfall(h, t, l) == Shortfall(h, s, l) && CreditFits(h, t, l) == CreditFits(h, s, l)
  {
  }

  function Shortfalls(h: Hashes, s: State, neuron: Key, links: seq<Link>): nat
  {
    if links == [] then 0
    else
      var before := links[..|links| - 1];
      Shortfalls(h, s, neuron, before) + Shortfall(h, AllLinked(h, s, neuron, before), links[|links| - 1])
  }

  // An accepted signal changes the supply by exactly its shortfalls: none when every source covers
  // its links.
  lemma {:induction false} SupplyAfter(h: Hashes, s: State, neuron: Key, links: seq<Link>)
    requires NoneSaturates(h, s, neuron, links)
    ensures Supply(AllLinked(h, s, neuron, links).balances) == Supply(s.balances) + Shortfalls(h, s, neuron, links)
  {
    hide Linked, Supply, NoneSaturates, Shortfall;
    if links != [] {
      PrefixSaturates(h, s, neuron, links);
      SupplyAfter(h, s, neuron, links[..|links| - 1]);
      LinkSupply(h, AllLinked(h, s, neuron, links[..|links| - 1]), neuron, links[|links| - 1]);
    }
  }
}
