// The read-only chain inspector: the same chain, checked with a set of receipts in memory.
module Archives {
  import opened Wrappers
  import opened Bytes
  import opened Integers
  import opened Sorting
  import opened Stores
  import opened Scans
  import opened Databases
  import opened Applications
  import opened Histories
  import opened Links
  import opened Validation

  type Position = (Key, u64)

  // The positions the first n requests name.
  ghost function Named(s: Store, keys: seq<seq<byte>>, n: nat): set<Position>
    requires n <= |keys| && forall j :: 0 <= j < n ==> IsRequest(s, keys[j])
  {
    set j | 0 <= j < n :: PositionAt(s, keys[j])
  }

  function PositionAt(s: Store, k: seq<byte>): Position
    requires IsRequest(s, k)
  {
    (k[..32], RequestAt(s, k).value.1.index)
  }

  // Naming one more position: it is new just when no earlier request shares it.
  lemma NameNext(s: Store, keys: seq<seq<byte>>, n: nat)
    requires n < |keys| && (forall j :: 0 <= j <= n ==> IsRequest(s, keys[j])) && Distinct(s, keys, n)
    ensures Named(s, keys, n + 1) == Named(s, keys, n) + {PositionAt(s, keys[n])}
    ensures PositionAt(s, keys[n]) !in Named(s, keys, n) <==> Distinct(s, keys, n + 1)
  {
    hide RequestAt;
    if PositionAt(s, keys[n]) in Named(s, keys, n) {
      var j :| 0 <= j < n && PositionAt(s, keys[j]) == PositionAt(s, keys[n]);
      assert SamePosition(s, keys[j], keys[n]);
    } else {
      forall j | 0 <= j < n
        ensures !SamePosition(s, keys[j], keys[n])
      {
        assert PositionAt(s, keys[j]) in Named(s, keys, n);
      }
    }
  }

  // Every request named: exactly the receipted positions.
  lemma NamedIsReceipted(s: Store, ns: Key, i: u64)
    requires forall k :: At(s, Requests, k).Some? ==> IsRequest(s, k)
    ensures (forall j :: 0 <= j < |Keys(s, Requests)| ==> IsRequest(s, Keys(s, Requests)[j]))
    ensures (ns, i) in Named(s, Keys(s, Requests), |Keys(s, Requests)|) <==> Receipted(s, ns, i)
  {
    hide Keys, DecodeReceipt, RequestKey;
    var keys := Keys(s, Requests);
    KeysFacts(s, Requests);
    assert forall j :: 0 <= j < |keys| ==> keys[j] in keys;
    if (ns, i) in Named(s, keys, |keys|) {
      var j :| 0 <= j < |keys| && PositionAt(s, keys[j]) == (ns, i);
      PartsOfRequest(keys[j]);
      assert IsReceipt(s, ns, keys[j][32..], i);
    }
    if Receipted(s, ns, i) {
      var r: Key :| IsReceipt(s, ns, r, i);
      RequestKeyParts(ns, r);
      var k := RequestKey(ns, r);
      assert k in keys;
      var j :| 0 <= j < |keys| && keys[j] == k;
      assert PositionAt(s, keys[j]) == (ns, i);
    }
  }

  // ---------------------------------------------------------------- requests

  method InspectRequests(db: Database, limits: Limits) returns (r: Result<set<Position>, Error>)
    requires db.Valid()
    ensures r.Ok? ==>
      && RequestsOk(db.store)
      && forall ns: Key, i: u64 :: (ns, i) in r.value <==> Receipted(db.store, ns, i)
    ensures db.failure.None? && PageShape(limits) && Fitting(db.store, limits) && RequestsOk(db.store) ==> r.Ok?
  {
    hide KeysAfter, RowsIn, LinkOk, DecodeReceipt, Keys, CursorAt, PageShape, RowFits, Distinct, OneReceiptEach, Fitting, Named, SameChain;
    ghost var s := db.store;
    ghost var keys := Keys(s, Requests);
    StartOf(s, Requests);
    KeysFacts(s, Requests);
    NothingNamed(s, keys);
    var receipts: set<Position> := {};
    ghost var p := 0;
    var after: Option<seq<byte>> := None;
    while true
      invariant CursorAt(s, Requests, after, p) && p <= |keys|
      invariant forall i :: 0 <= i < p ==> RequestOk(s, keys[i])
      invariant Distinct(s, keys, p) && receipts == Named(s, keys, p)
      decreases |keys| - p
    {
      var page := NextPage(db, Requests, limits, after, s, p);
      if page.Err? {
        return Err(page.error);
      }
      if page.value == [] {
        AllDistinct(s, keys);
        forall ns: Key, i: u64
          ensures (ns, i) in receipts <==> Receipted(s, ns, i)
        {
          NamedIsReceipted(s, ns, i);
        }
        return Ok(receipts);
      }
      var i := 0;
      while i < |page.value|
        invariant 0 <= i <= |page.value|
        invariant forall j :: 0 <= j < p + i ==> RequestOk(s, keys[j])
        invariant Distinct(s, keys, p + i) && receipts == Named(s, keys, p + i)
      {
        assert page.value[i].0 == keys[p + i] && keys[p + i] in keys;
        var checked;
        checked, receipts := InspectRequest(db, page.value[i].0, page.value[i].1, limits, receipts, keys, p + i);
        if checked.Err? {
          return Err(checked.error);
        }
        i := i + 1;
      }
      after := Some(page.value[|page.value| - 1].0);
      p := p + |page.value|;
    }
  }

  lemma NothingNamed(s: Store, keys: seq<seq<byte>>)
    ensures Named(s, keys, 0) == {} && Distinct(s, keys, 0)
  {
  }

  lemma PrefixDistinct(s: Store, keys: seq<seq<byte>>, n: nat)
    requires OneReceiptEach(s, keys) && n <= |keys|
    ensures Distinct(s, keys, n)
  {
  }

  method InspectRequest(db: Database, k: seq<byte>, v: seq<byte>, limits: Limits, receipts: set<Position>, ghost keys: seq<seq<byte>>, ghost n: nat)
    returns (r: Result<(), Error>, now: set<Position>)
    requires db.Valid() && n < |keys| && k == keys[n] && At(db.store, Requests, k) == Some(v)
    requires (forall j :: 0 <= j < n ==> IsRequest(db.store, keys[j])) && Distinct(db.store, keys, n)
    requires receipts == Named(db.store, keys, n)
    ensures r.Ok? ==> RequestOk(db.store, k) && Distinct(db.store, keys, n + 1) && now == Named(db.store, keys, n + 1)
    ensures db.failure.None? && Fitting(db.store, limits) && RequestOk(db.store, k) && OneReceiptEach(db.store, keys) ==> r.Ok?
  {
    hide LinkOk, DecodeReceipt, Distinct, OneReceiptEach, Fitting, Named;
    ghost var s := db.store;
    now := receipts;
    if |k| != 64 || DecodeReceipt(v).None? {
      return Err(Corrupted), now;
    }
    NameNext(s, keys, n);
    if OneReceiptEach(s, keys) {
      PrefixDistinct(s, keys, n + 1);
    }
    var head := DecodeReceipt(v).value.1;
    if (k[..32], head.index) in receipts {
      return Err(Corrupted), now;
    }
    now := receipts + {(k[..32], head.index)};
    r := CheckLink(db, k[..32], head, limits);
  }

  // ---------------------------------------------------------------- history and heads

  // The positions of the first n history rows.
  ghost function Visited(keys: seq<seq<byte>>, n: nat): set<Position>
    requires n <= |keys| && forall j :: 0 <= j < n ==> |keys[j]| == 40
  {
    set j | 0 <= j < n :: (keys[j][..32], IndexOf(keys[j]))
  }

  lemma VisitNext(keys: seq<seq<byte>>, n: nat)
    requires n < |keys| && (forall j :: 0 <= j <= n ==> |keys[j]| == 40) && Ascends(ByteOrder(), keys)
    ensures Visited(keys, n + 1) == Visited(keys, n) + {(keys[n][..32], IndexOf(keys[n]))}
    ensures (keys[n][..32], IndexOf(keys[n])) !in Visited(keys, n)
  {
    hide DecodeBE, Lt;
    var at := (keys[n][..32], IndexOf(keys[n]));
    if at in Visited(keys, n) {
      var j :| 0 <= j < n && (keys[j][..32], IndexOf(keys[j])) == at;
      HistoryKeyParts(keys[j]);
      HistoryKeyParts(keys[n]);
      assert ByteOrder()(keys[j], keys[n]);
      LtTotal(keys[j], keys[n]);
    }
  }

  // Receipts not yet matched by one of the first n history rows.
  ghost predicate Remaining(s: Store, keys: seq<seq<byte>>, n: nat, receipts: set<Position>)
    requires n <= |keys| && forall j :: 0 <= j < n ==> |keys[j]| == 40
  {
    forall ns: Key, i: u64 :: (ns, i) in receipts <==> Receipted(s, ns, i) && (ns, i) !in Visited(keys, n)
  }

  method InspectEntry(db: Database, k: seq<byte>, v: seq<byte>, limits: Limits, previous: Option<Position>, receipts: set<Position>,
                      ghost j: nat)
    returns (r: Result<(), Error>, now: Option<Position>, left: set<Position>)
    requires db.Valid() && j < |Keys(db.store, History)| && k == Keys(db.store, History)[j] && At(db.store, History, k) == Some(v)
    requires Previous(db.store, j, previous) && forall i :: 0 <= i < j ==> |Keys(db.store, History)[i]| == 40
    requires Remaining(db.store, Keys(db.store, History), j, receipts)
    ensures r.Ok? ==>
      && HistoryOk(db.store, k) && InPlace(Keys(db.store, History), j) && Previous(db.store, j + 1, now)
      && Remaining(db.store, Keys(db.store, History), j + 1, left)
    ensures db.failure.None? && Fitting(db.store, limits) && HistoryOk(db.store, k) && InPlace(Keys(db.store, History), j) ==> r.Ok?
  {
    hide LinkOk, Keys, RowFits, Fitting, DecodeBE, Receipted, Visited, Lt;
    now, left := previous, receipts;
    if |k| != 40 || |v| != 32 {
      return Err(Corrupted), now, left;
    }
    KeysFacts(db.store, History);
    VisitNext(Keys(db.store, History), j);
    var ns, index := k[..32], IndexOf(k);
    var expected: int := if previous.Some? && previous.value.0 == ns then previous.value.1 + 1 else 0;
    if index != expected || (ns, index) !in receipts {
      return Err(Corrupted), now, left;
    }
    left := receipts - {(ns, index)};
    now := Some((ns, index));
    r := CheckLink(db, ns, Head(index, v), limits);
  }

  method InspectHistory(db: Database, limits: Limits, receipts: set<Position>) returns (r: Result<set<Position>, Error>)
    requires db.Valid() && forall ns: Key, i: u64 :: (ns, i) in receipts <==> Receipted(db.store, ns, i)
    ensures r.Ok? ==> HistoriesOk(db.store) && forall ns: Key, i: u64 :: (ns, i) in r.value <==>
                        Receipted(db.store, ns, i) && HistoryOf(db.store, ns, i).None?
    ensures db.failure.None? && PageShape(limits) && Fitting(db.store, limits) && HistoriesOk(db.store) ==> r.Ok?
  {
    hide KeysAfter, RowsIn, Keys, CursorAt, PageShape, RowFits, Fitting, HistoryOk, InPlace, Receipted, HistoryOf, Remaining, Previous;
    ghost var s := db.store;
    ghost var keys := Keys(s, History);
    StartOf(s, History);
    KeysFacts(s, History);
    NoneVisited(s, keys, receipts);
    ghost var p := 0;
    var after: Option<seq<byte>> := None;
    var previous: Option<Position> := None;
    var left := receipts;
    while true
      invariant CursorAt(s, History, after, p) && p <= |keys| && Previous(s, p, previous)
      invariant forall i :: 0 <= i < p ==> HistoryOk(s, keys[i]) && InPlace(keys, i) && |keys[i]| == 40
      invariant Remaining(s, keys, p, left)
      decreases |keys| - p
    {
      var page := NextPage(db, History, limits, after, s, p);
      if page.Err? {
        return Err(page.error);
      }
      if page.value == [] {
        AllVisited(s, left);
        return Ok(left);
      }
      var i := 0;
      while i < |page.value|
        invariant 0 <= i <= |page.value| && Previous(s, p + i, previous)
        invariant forall j :: 0 <= j < p + i ==> HistoryOk(s, keys[j]) && InPlace(keys, j) && |keys[j]| == 40
        invariant Remaining(s, keys, p + i, left)
      {
        assert page.value[i].0 == keys[p + i] && keys[p + i] in keys;
        var checked;
        checked, previous, left := InspectEntry(db, page.value[i].0, page.value[i].1, limits, previous, left, p + i);
        if checked.Err? {
          return Err(checked.error);
        }
        ShapeOf(s, keys[p + i]);
        i := i + 1;
      }
      after := Some(page.value[|page.value| - 1].0);
      p := p + |page.value|;
    }
  }

  lemma NoneVisited(s: Store, keys: seq<seq<byte>>, receipts: set<Position>)
    requires forall ns: Key, i: u64 :: (ns, i) in receipts <==> Receipted(s, ns, i)
    ensures Remaining(s, keys, 0, receipts) && Previous(s, 0, None)
  {
  }

  lemma AllVisited(s: Store, left: set<Position>)
    requires forall j :: 0 <= j < |Keys(s, History)| ==> |Keys(s, History)[j]| == 40
    requires Remaining(s, Keys(s, History), |Keys(s, History)|, left)
    ensures forall ns: Key, i: u64 :: (ns, i) in left <==> Receipted(s, ns, i) && HistoryOf(s, ns, i).None?
  {
    hide Receipted, HistoryOf, Visited, Keys;
    forall ns: Key, i: u64
      ensures (ns, i) in left <==> Receipted(s, ns, i) && HistoryOf(s, ns, i).None?
    {
      VisitedAll(s, ns, i);
    }
  }

  lemma ShapeOf(s: Store, k: seq<byte>)
    requires HistoryOk(s, k)
    ensures |k| == 40
  {
  }

  lemma VisitedAll(s: Store, ns: Key, i: u64)
    requires forall j :: 0 <= j < |Keys(s, History)| ==> |Keys(s, History)[j]| == 40
    ensures (ns, i) in Visited(Keys(s, History), |Keys(s, History)|) <==> HistoryOf(s, ns, i).Some?
  {
    hide Keys, DecodeBE, HistoryKey;
    var keys := Keys(s, History);
    KeysFacts(s, History);
    HistoryKeyIndex(ns, i);
    if (ns, i) in Visited(keys, |keys|) {
      var j :| 0 <= j < |keys| && (keys[j][..32], IndexOf(keys[j])) == (ns, i);
      HistoryKeyParts(keys[j]);
      assert keys[j] in keys;
    }
    if HistoryOf(s, ns, i).Some? {
      assert HistoryKey(ns, i) in keys;
      var j :| 0 <= j < |keys| && keys[j] == HistoryKey(ns, i);
      assert (keys[j][..32], IndexOf(keys[j])) == (ns, i);
    }
  }

  // inspect's Requests, History and Heads passes accept exactly the coherent chains: the same
  // stores as the disk-backed validator.
  method InspectLinks(db: Database, limits: Limits) returns (r: Result<(), Error>)
    requires db.Valid()
    ensures r.Ok? ==> Coherent(db.store) && Chained(db.store)
    ensures db.failure.None? && PageShape(limits) && Fitting(db.store, limits) ==> (r.Ok? <==> Coherent(db.store)) && (r.Ok? <==> Chained(db.store))
  {
    hide Chained, Coherent, RequestsOk, HistoriesOk, Fitting, PageShape, SameChain, HeadOk, Receipted, HistoryOf;
    ghost var s := db.store;
    ChainItself(s);
    AcceptedParts(s);
    ChainedExactly(s);
    var receipts := InspectRequests(db, limits);
    if receipts.Err? {
      return Err(receipts.error);
    }
    var left := InspectHistory(db, limits, receipts.value);
    if left.Err? {
      return Err(left.error);
    }
    r := ValidateHeads(db, limits, s, n => Clean);
    if r.Err? {
      return;
    }
    if Coherent(s) {
      NoneLeft(s, left.value);
    }
    if left.value != {} {
      return Err(Corrupted);
    }
  }

  lemma NoneLeft(s: Store, left: set<Position>)
    requires Coherent(s)
    requires forall ns: Key, i: u64 :: (ns, i) in left <==> Receipted(s, ns, i) && HistoryOf(s, ns, i).None?
    ensures left == {}
  {
    hide HistoryOf, ReceiptOf, HeadOf, HeadRows, HistoryRows, RequestRows, Contiguous, EndsAtHead;
    forall at: Position
      ensures at !in left
    {
      var (ns, i) := at;
      assert (ns, i) in left <==> Receipted(s, ns, i) && HistoryOf(s, ns, i).None?;
    }
  }
}
