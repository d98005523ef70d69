// Isolated native transitions: prepare a batch, then publish it or drop it.
module Transition {
  import opened Wrappers
  import opened Bytes
  import opened Integers
  import opened Records
  import opened Axons
  import opened Graph
  import opened Effects
  import opened Pruning
  import opened Blocks
  import opened Addresses
  import opened Adjacency
  import opened Undos

  const MAX_EVENTS := 64

  datatype Event =
    | SignalEvent(sig: Signal, header: SignalRecord)
    | IntentEvent(intent: IntentRecord)
    | LocalCredit(neuron: Key, token: Key, amount: u64, focus: u64)

  // ---------------------------------------------------------------- validation

  // One link on the working balances, credit before debit; None when the credit overflows.
  function WorkLink(h: Hashes, s: State, b: map<Key, u64>, l: Link): Option<map<Key, u64>>
  {
    var to, from := h.balanceKey(l.to, l.token), h.balanceKey(l.from, l.token);
    var credit := (if to in b then b[to] else BalanceOr0(s, to)) + l.amount;
    if credit >= U64_BOUND then None
    else
      var credited := b[to := credit];
      Some(credited[from := SatSub(if from in credited then credited[from] else BalanceOr0(s, from), l.amount)])
  }

  function Worked(h: Hashes, s: State, links: seq<Link>): Option<map<Key, u64>>
  {
    if links == [] then Some(map[])
    else
      match Worked(h, s, links[..|links| - 1])
      case None => None
      case Some(b) => WorkLink(h, s, b, links[|links| - 1])
  }

  // No two moves spend one nullifier, and none is spent already.
  predicate FreshNullifiers(s: State, moves: seq<BoxMove>)
  {
    !Spent(s, moves) && forall i, j :: 0 <= i < j < |moves| ==> moves[i].nullifier != moves[j].nullifier
  }

  // The first check a signal fails, if any.
  function Invalid(h: Hashes, s: State, sig: Signal, header: SignalRecord): Option<Error>
  {
    if s.height + 1 >= U64_BOUND then Some(Overflow("height"))
    else if |sig.links| >= U32_BOUND then Some(Overflow("link count"))
    else if header.neuron != sig.neuron || header.linkCount != |sig.links| || header.blockHeight != sig.height then Some(Arguments)
    else if h.signalKey(header.neuron, header.step) in s.signals then Some(SignalExists)
    else if |sig.links| + |sig.moves| > MAX_KEYS then Some(Limit("signal items"))
    else if !FreshNullifiers(s, sig.moves) then Some(DoubleSpend)
    else if Worked(h, s, sig.links).None? then Some(Overflow("balance"))
    else None
  }

  // Link i takes the balance it credits past the largest u64.
  ghost predicate Saturates(h: Hashes, s: State, links: seq<Link>, i: nat)
    requires i < |links|
  {
    var k := h.balanceKey(links[i].to, links[i].token);
    BalanceAfter(h, BalanceOr0(s, k), links[..i], k) + links[i].amount > 0xffff_ffff_ffff_ffff
  }

  lemma RespentExactly(s: State, moves: seq<BoxMove>)
    ensures FreshNullifiers(s, moves) <==>
            !exists i :: 0 <= i < |moves| && (moves[i].nullifier in s.nullifiers || moves[i].nullifier in Nullifiers(moves[..i]))
  {
    if i :| 0 <= i < |moves| && moves[i].nullifier in Nullifiers(moves[..i]) {
      var j :| 0 <= j < |moves[..i]| && moves[..i][j].nullifier == moves[i].nullifier;
      assert moves[j].nullifier == moves[i].nullifier;
    }
    if i, j :| 0 <= i < j < |moves| && moves[i].nullifier == moves[j].nullifier {
      assert moves[..j][i].nullifier == moves[j].nullifier;
    }
  }

  lemma SaturatesExactly(h: Hashes, s: State, neuron: Key, links: seq<Link>)
    ensures Worked(h, s, links).Some? <==> !exists i :: 0 <= i < |links| && Saturates(h, s, links, i)
  {
    hide AllLinked, BalanceAfter, BalanceOr0, Worked;
    WorkedIsBalances(h, s, neuron, links);
    forall i | 0 <= i < |links|
      ensures CreditFits(h, AllLinked(h, s, neuron, links[..i]), links[i]) <==> !Saturates(h, s, links, i)
    {
      LinksBalance(h, s, neuron, links[..i], h.balanceKey(links[i].to, links[i].token));
    }
  }

  method Validate(bbg: Bbg, sig: Signal, header: SignalRecord) returns (e: Option<Error>)
    ensures e == Invalid(bbg.h, bbg.state, sig, header)
    // The first of these that holds, in this order; None exactly if none does.
    ensures var s, moves := bbg.state, sig.moves;
            var mismatch := header.neuron != sig.neuron || header.linkCount != |sig.links| || header.blockHeight != sig.height;
            var respent := exists i :: 0 <= i < |moves| && (moves[i].nullifier in s.nullifiers || moves[i].nullifier in Nullifiers(moves[..i]));
            var saturates := exists i :: 0 <= i < |sig.links| && Saturates(bbg.h, s, sig.links, i);
            e == if s.height + 1 == 0x1_0000_0000_0000_0000 then Some(Overflow("height"))
                 else if |sig.links| >= 0x1_0000_0000 then Some(Overflow("link count"))
                 else if mismatch then Some(Arguments)
                 else if bbg.h.signalKey(header.neuron, header.step) in s.signals then Some(SignalExists)
                 else if |sig.links| + |sig.moves| > 65536 then Some(Limit("signal items"))
                 else if respent then Some(DoubleSpend)
                 else if saturates then Some(Overflow("balance"))
                 else None
  {
    hide Worked, NoneSaturates;
    RespentExactly(bbg.state, sig.moves);
    SaturatesExactly(bbg.h, bbg.state, sig.neuron, sig.links);
    var s := bbg.state;
    if s.height + 1 >= U64_BOUND {
      return Some(Overflow("height"));
    }
    if |sig.links| >= U32_BOUND {
      return Some(Overflow("link count"));
    }
    if header.neuron != sig.neuron || header.linkCount != |sig.links| || header.blockHeight != sig.height {
      return Some(Arguments);
    }
    if bbg.h.signalKey(header.neuron, header.step) in s.signals {
      return Some(SignalExists);
    }
    if |sig.links| + |sig.moves| > MAX_KEYS {
      return Some(Limit("signal items"));
    }
    var unspent := CheckNullifiers(s, sig.moves);
    if !unspent {
      return Some(DoubleSpend);
    }
    var fits := CheckBalances(bbg.h, s, sig.links);
    e := if fits then None else Some(Overflow("balance"));
  }

  method CheckNullifiers(s: State, moves: seq<BoxMove>) returns (ok: bool)
    ensures ok == FreshNullifiers(s, moves)
  {
    var seen: set<Key> := {};
    var i := 0;
    while i < |moves|
      invariant 0 <= i <= |moves|
      invariant forall k :: k in seen <==> exists j :: 0 <= j < i && moves[j].nullifier == k
      invariant forall j :: 0 <= j < i ==> moves[j].nullifier !in s.nullifiers
      invariant forall j, k :: 0 <= j < k < i ==> moves[j].nullifier != moves[k].nullifier
    {
      if moves[i].nullifier in s.nullifiers || moves[i].nullifier in seen {
        return false;
      }
      seen := seen + {moves[i].nullifier};
      i := i + 1;
    }
    ok := true;
  }

  method CheckBalances(h: Hashes, s: State, links: seq<Link>) returns (ok: bool)
    ensures ok == Worked(h, s, links).Some?
  {
    hide WorkLink, BalanceOr0;
    var balances: map<Key, u64> := map[];
    var i := 0;
    while i < |links|
      invariant 0 <= i <= |links| && Worked(h, s, links[..i]) == Some(balances)
    {
      assert links[..i + 1][..i] == links[..i];
      var next := CheckLink(h, s, balances, links[i]);
      if next.None? {
        WorkedFails(h, s, links, i + 1);
        return false;
      }
      balances := next.value;
      i := i + 1;
    }
    assert links[..i] == links;
    ok := true;
  }

  // The entries are made on first use, then credited and debited in place.
  method CheckLink(h: Hashes, s: State, b: map<Key, u64>, l: Link) returns (r: Option<map<Key, u64>>)
    ensures r == WorkLink(h, s, b, l)
  {
    var balances := b;
    var to, from := h.balanceKey(l.to, l.token), h.balanceKey(l.from, l.token);
    if to !in balances {
      balances := balances[to := BalanceOr0(s, to)];
    }
    if balances[to] + l.amount >= U64_BOUND {
      return None;
    }
    balances := balances[to := balances[to] + l.amount];
    ghost var credited := balances;
    assert credited == b[to := (if to in b then b[to] else BalanceOr0(s, to)) + l.amount];
    if from !in balances {
      balances := balances[from := BalanceOr0(s, from)];
    }
    balances := balances[from := SatSub(balances[from], l.amount)];
    assert balances == credited[from := SatSub(if from in credited then credited[from] else BalanceOr0(s, from), l.amount)];
    r := Some(balances);
  }

  // A prefix that overflows makes the whole overflow.
  lemma {:induction false} WorkedFails(h: Hashes, s: State, links: seq<Link>, n: nat)
    requires n <= |links| && Worked(h, s, links[..n]).None?
    ensures Worked(h, s, links).None?
    decreases |links| - n
  {
    if n == |links| {
      assert links[..n] == links;
    } else {
      assert links[..n + 1][..n] == links[..n];
      WorkedFails(h, s, links, n + 1);
    }
  }

  // No credit of the links saturates.
  ghost predicate NoneSaturates(h: Hashes, s: State, neuron: Key, links: seq<Link>)
  {
    forall i :: 0 <= i < |links| ==> CreditFits(h, AllLinked(h, s, neuron, links[..i]), links[i])
  }

  ghost predicate CreditFits(h: Hashes, s: State, l: Link)
  {
    BalanceOr0(s, h.balanceKey(l.to, l.token)) + l.amount < U64_BOUND
  }

  lemma LinkBalances(h: Hashes, s: State, neuron: Key, l: Link, k: Key)
    requires CreditFits(h, s, l)
    ensures var to, from := h.balanceKey(l.to, l.token), h.balanceKey(l.from, l.token);
            var credited := BalanceOr0(s, k) + (if k == to then l.amount else 0);
            BalanceOr0(Linked(h, s, neuron, l), k) == if k == from then SatSub(credited, l.amount) else credited
  {
    hide Linked;
    LinkBalance(h, s, neuron, l, k);
  }

  // The working balances are exactly the balances the links leave, from and to keys aliased or not.
  lemma {:induction false} WorkedIsBalances(h: Hashes, s: State, neuron: Key, links: seq<Link>)
    ensures Worked(h, s, links).Some? <==> NoneSaturates(h, s, neuron, links)
    ensures Worked(h, s, links).Some? ==>
              var b := Worked(h, s, links).value;
              forall k :: BalanceOr0(AllLinked(h, s, neuron, links), k) == if k in b then b[k] else BalanceOr0(s, k)
  {
    hide NoneSaturates, Linked;
    if links == [] {
      NothingSaturates(h, s, neuron);
    } else {
      var n := |links| - 1;
      var before, l := links[..n], links[n];
      WorkedIsBalances(h, s, neuron, before);
      PrefixSaturates(h, s, neuron, links);
      var t := AllLinked(h, s, neuron, before);
      if Worked(h, s, before).Some? && CreditFits(h, t, l) {
        forall k
          ensures var b := Worked(h, s, links).value;
                  BalanceOr0(AllLinked(h, s, neuron, links), k) == if k in b then b[k] else BalanceOr0(s, k)
        {
          LinkBalances(h, t, neuron, l, k);
        }
      }
    }
  }

  lemma NothingSaturates(h: Hashes, s: State, neuron: Key)
    ensures NoneSaturates(h, s, neuron, [])
  {
  }

  lemma PrefixSaturates(h: Hashes, s: State, neuron: Key, links: seq<Link>)
    requires links != []
    ensures var n := |links| - 1;
            NoneSaturates(h, s, neuron, links) <==>
              NoneSaturates(h, s, neuron, links[..n]) && CreditFits(h, AllLinked(h, s, neuron, links[..n]), links[n])
  {
    hide AllLinked, CreditFits;
    var n := |links| - 1;
    forall i | 0 <= i < n
      ensures links[..n][..i] == links[..i] && links[..n][i] == links[i]
    {
    }
    if NoneSaturates(h, s, neuron, links) {
      forall i | 0 <= i < n
        ensures CreditFits(h, AllLinked(h, s, neuron, links[..n][..i]), links[..n][i])
      {
        assert CreditFits(h, AllLinked(h, s, neuron, links[..i]), links[i]);
      }
    }
    if NoneSaturates(h, s, neuron, links[..n]) {
      forall i | 0 <= i < n
        ensures CreditFits(h, AllLinked(h, s, neuron, links[..i]), links[i])
      {
        assert CreditFits(h, AllLinked(h, s, neuron, links[..n][..i]), links[..n][i]);
      }
    }
  }

  // Once validation accepts a signal, inserting it cannot fail and no balance credit saturates.
  lemma AcceptedInserts(h: Hashes, s: State, sig: Signal, header: SignalRecord)
    requires Invalid(h, s, sig, header).None?
    ensures !Spent(s, sig.moves) && NoneSaturates(h, AllMoved(s, sig.moves), sig.neuron, sig.links)
    ensures s.height + 1 < U64_BOUND
  {
    hide Worked, NoneSaturates, AllMoved, Spent;
    MovesKeepBalances(h, s, sig.moves, sig.links);
    WorkedIsBalances(h, AllMoved(s, sig.moves), sig.neuron, sig.links);
  }

  lemma MovesKeepBalances(h: Hashes, s: State, moves: seq<BoxMove>, links: seq<Link>)
    ensures Worked(h, AllMoved(s, moves), links) == Worked(h, s, links)
  {
    SameBalances(s, moves);
    SameWork(h, s, AllMoved(s, moves), links);
  }

  lemma SameBalances(s: State, moves: seq<BoxMove>)
    ensures AllMoved(s, moves).balances == s.balances
  {
  }

  lemma {:induction false} SameWork(h: Hashes, s: State, t: State, links: seq<Link>)
    requires s.balances == t.balances
    ensures Worked(h, s, links) == Worked(h, t, links)
  {
    if links != [] {
      SameWork(h, s, t, links[..|links| - 1]);
    }
  }
}
