// Bounded scans: key ranges, pages, and the enumeration of a whole table page by page.
module Scans {
  import opened Wrappers
  import opened Bytes
  import opened Sorting
  import opened Stores

  datatype StorageError = Limit | Corrupt | PendingWrites | CommitUnknown(id: Key) | Io

  datatype Limits = Limits(maxEntries: nat, maxBytes: nat)

  type RawEntry = (seq<byte>, seq<byte>)
  type Rows = map<seq<byte>, seq<byte>>

  function RowsIn(s: Store, t: Table): Rows
  {
    map x | x in s && x.table == t :: x.key := s[x]
  }

  lemma RowsInAt(s: Store, t: Table, k: seq<byte>)
    ensures k in RowsIn(s, t) <==> Slot(t, k) in s
    ensures k in RowsIn(s, t) ==> RowsIn(s, t)[k] == s[Slot(t, k)]
  {
    assert Slot(t, k).table == t;
  }

  // ---------------------------------------------------------------- bounds

  datatype Bound = Included(key: seq<byte>) | Excluded(key: seq<byte>) | Unbounded

  // The least byte string above every string with this prefix; none when the prefix is all 0xFF.
  function Upper(prefix: seq<byte>): Option<seq<byte>>
  {
    if prefix == [] then None
    else
      var n := |prefix| - 1;
      if prefix[n] == 255 then Upper(prefix[..n]) else Some(prefix[..n] + [prefix[n] + 1])
  }

  function ScanBounds(after: Option<seq<byte>>, prefix: seq<byte>): Option<(Bound, Bound)>
  {
    var upper := Upper(prefix);
    if upper.Some? && after.Some? && !Lt(after.value, upper.value) then None
    else
      var start :=
        if after.Some? && (prefix == [] || !Lt(after.value, prefix)) then Excluded(after.value)
        else if prefix != [] then Included(prefix)
        else Unbounded;
      Some((start, if upper.Some? then Excluded(upper.value) else Unbounded))
  }

  predicate InBounds(k: seq<byte>, bounds: (Bound, Bound))
  {
    && (match bounds.0 case Included(b) => !Lt(k, b) case Excluded(b) => Lt(b, k) case Unbounded => true)
    && (match bounds.1 case Included(b) => !Lt(b, k) case Excluded(b) => Lt(k, b) case Unbounded => true)
  }

  // What a scan is asked for.
  predicate Wanted(k: seq<byte>, after: Option<seq<byte>>, prefix: seq<byte>)
  {
    prefix <= k && (after.Some? ==> Lt(after.value, k))
  }

  // Upper, read from the front.
  lemma {:induction false} UpperFront(prefix: seq<byte>)
    requires prefix != []
    ensures Upper(prefix) ==
      match Upper(prefix[1..])
      case Some(u) => Some([prefix[0]] + u)
      case None => if prefix[0] == 255 then None else Some([prefix[0] + 1])
  {
    var n, rest := |prefix| - 1, prefix[1..];
    if n == 0 {
      assert prefix[0] < 255 ==> prefix[..0] + [prefix[0] + 1] == [prefix[0] + 1];
    } else {
      assert rest[n - 1] == prefix[n] && prefix[..n][1..] == rest[..n - 1];
      if prefix[n] == 255 {
        UpperFront(prefix[..n]);
      } else {
        assert prefix[..n] + [prefix[n] + 1] == [prefix[0]] + (rest[..n - 1] + [prefix[n] + 1]);
      }
    }
  }

  // At or above the prefix and below its upper bound: exactly the strings with the prefix.
  lemma {:induction false} UpperExact(prefix: seq<byte>, k: seq<byte>)
    ensures prefix <= k <==> !Lt(k, prefix) && (Upper(prefix).Some? ==> Lt(k, Upper(prefix).value))
  {
    if prefix != [] {
      UpperFront(prefix);
      if k != [] {
        UpperExact(prefix[1..], k[1..]);
        assert prefix <= k <==> prefix[0] == k[0] && prefix[1..] <= k[1..];
      }
    }
  }

  // The range of a scan holds exactly the keys with the prefix that follow the cursor.
  lemma BoundsExact(after: Option<seq<byte>>, prefix: seq<byte>, k: seq<byte>)
    ensures Wanted(k, after, prefix) <==> ScanBounds(after, prefix).Some? && InBounds(k, ScanBounds(after, prefix).value)
  {
    hide Upper, Lt;
    UpperExact(prefix, k);
    NothingBelow(k);
    if after.Some? {
      Between(after.value, k, prefix);
      if Upper(prefix).Some? {
        Between(after.value, k, Upper(prefix).value);
      }
    }
  }

  lemma Between(a: seq<byte>, k: seq<byte>, u: seq<byte>)
    ensures Lt(a, k) && Lt(k, u) ==> Lt(a, u)
    ensures Lt(a, u) && !Lt(k, u) ==> Lt(a, k)
  {
    if Lt(a, k) && Lt(k, u) {
      LtTrans(a, k, u);
    }
    LtTotal(k, u);
    if Lt(a, u) && Lt(u, k) {
      LtTrans(a, u, k);
    }
  }

  lemma NothingBelow(k: seq<byte>)
    ensures !Lt(k, [])
  {
  }

  // ---------------------------------------------------------------- pages

  function ByteOrder(): (seq<byte>, seq<byte>) -> bool
  {
    (a: seq<byte>, b: seq<byte>) => Lt(a, b)
  }

  lemma ByteOrderTotal()
    ensures StrictTotal(ByteOrder())
  {
    hide Lt;
    forall a: seq<byte>, b: seq<byte>
      ensures ByteOrder()(a, b) ==> !ByteOrder()(b, a)
      ensures a == b || ByteOrder()(a, b) || ByteOrder()(b, a)
    {
      LtTotal(a, b);
    }
    forall a: seq<byte>, b: seq<byte>, c: seq<byte> | ByteOrder()(a, b) && ByteOrder()(b, c)
      ensures ByteOrder()(a, c)
    {
      LtTrans(a, b, c);
    }
  }

  ghost function WantedKeys(rows: Rows, after: Option<seq<byte>>, prefix: seq<byte>): set<seq<byte>>
  {
    set k | k in rows && Wanted(k, after, prefix)
  }

  // The keys a scan is asked for, in order.
  ghost function KeysAfter(rows: Rows, after: Option<seq<byte>>, prefix: seq<byte>): seq<seq<byte>>
  {
    ByteOrderTotal();
    Sorted(ByteOrder(), WantedKeys(rows, after, prefix))
  }

  lemma KeysAfterFacts(rows: Rows, after: Option<seq<byte>>, prefix: seq<byte>)
    ensures Ascends(ByteOrder(), KeysAfter(rows, after, prefix))
    ensures forall k :: k in KeysAfter(rows, after, prefix) <==> k in rows && Wanted(k, after, prefix)
  {
    hide Wanted, Lt;
    ByteOrderTotal();
    SortedFacts(ByteOrder(), WantedKeys(rows, after, prefix));
  }

  function RowSize(k: seq<byte>, v: seq<byte>): nat { |k| + |v| }

  // A row that a page may hold at all.
  predicate RowFits(k: seq<byte>, v: seq<byte>, limits: Limits)
  {
    |k| <= MAX_KEY_BYTES && |v| <= MAX_BYTES_VALUE && RowSize(k, v) <= limits.maxBytes
  }

  ghost function Used(page: seq<RawEntry>): nat
  {
    if page == [] then 0 else Used(page[..|page| - 1]) + RowSize(page[|page| - 1].0, page[|page| - 1].1)
  }

  predicate IsRow(rows: Rows, k: seq<byte>, limits: Limits, row: RawEntry)
  {
    k in rows && row == (k, rows[k]) && RowFits(k, rows[k], limits)
  }

  // page holds the first of these keys with their rows, as many as the limits allow.
  ghost predicate IsPage(rows: Rows, keys: seq<seq<byte>>, limits: Limits, page: seq<RawEntry>)
  {
    && |page| <= |keys| && |page| <= limits.maxEntries && Used(page) <= limits.maxBytes
    && (forall i :: 0 <= i < |page| ==> IsRow(rows, keys[i], limits, page[i]))
    && (|page| < |keys| && |page| < limits.maxEntries ==>
          keys[|page|] in rows && RowFits(keys[|page|], rows[keys[|page|]], limits)
          && Used(page) + RowSize(keys[|page|], rows[keys[|page|]]) > limits.maxBytes)
  }

  // Check a row before copying it: an error for a row no page may hold, false when it has to wait.
  method PushRow(page: seq<RawEntry>, used: nat, k: seq<byte>, v: seq<byte>, limits: Limits)
    returns (r: Result<bool, StorageError>, page': seq<RawEntry>, used': nat)
    requires used == Used(page) && used <= limits.maxBytes
    ensures r.Err? <==> !RowFits(k, v, limits)
    ensures used' == Used(page') && used' <= limits.maxBytes
    ensures r.Ok? ==> r.value == (used + RowSize(k, v) <= limits.maxBytes)
    ensures page' == if r == Ok(true) then page + [(k, v)] else page
  {
    page', used' := page, used;
    if |k| > MAX_KEY_BYTES {
      return Err(Corrupt), page', used';
    }
    if |v| > MAX_BYTES_VALUE {
      return Err(Limit), page', used';
    }
    var bytes := |k| + |v|;
    if bytes > limits.maxBytes {
      return Err(Limit), page', used';
    }
    if bytes > limits.maxBytes - used {
      return Ok(false), page', used';
    }
    page', used' := page + [(k, v)], used + bytes;
    r := Ok(true);
  }

  // The engine's range, in key order.
  method Range(rows: Rows, after: Option<seq<byte>>, prefix: seq<byte>) returns (keys: seq<seq<byte>>)
    ensures keys == KeysAfter(rows, after, prefix)
  {
    hide Wanted, ScanBounds, InBounds, Lt, StrictTotal;
    var bounds := ScanBounds(after, prefix);
    ByteOrderTotal();
    forall k
      ensures Wanted(k, after, prefix) <==> bounds.Some? && InBounds(k, bounds.value)
    {
      BoundsExact(after, prefix, k);
    }
    if bounds.None? {
      assert WantedKeys(rows, after, prefix) == {};
      return [];
    }
    var range := set k | k in rows && InBounds(k, bounds.value);
    assert range == WantedKeys(rows, after, prefix);
    keys := Sort(ByteOrder(), range);
  }

  // The next row would take the page past its byte limit.
  ghost predicate Stops(rows: Rows, after: Option<seq<byte>>, prefix: seq<byte>, limits: Limits, page: seq<RawEntry>)
  {
    exists next :: next in rows && prefix <= next && (after.Some? ==> Lt(after.value, next))
      && (forall i :: 0 <= i < |page| ==> Lt(page[i].0, next)) && Used(page) + |next| + |rows[next]| > limits.maxBytes
  }

  // The rows with the prefix behind the cursor, from the first on, as many as fit.
  ghost predicate FirstThatFit(rows: Rows, after: Option<seq<byte>>, prefix: seq<byte>, limits: Limits, page: seq<RawEntry>)
  {
    && |page| <= limits.maxEntries && Used(page) <= limits.maxBytes
    && (forall i, j :: 0 <= i < j < |page| ==> Lt(page[i].0, page[j].0))
    && (forall i :: 0 <= i < |page| ==>
          page[i].0 in rows && page[i].1 == rows[page[i].0] && prefix <= page[i].0 && (after.Some? ==> Lt(after.value, page[i].0)))
    && (forall k :: k in rows && prefix <= k && (after.Some? ==> Lt(after.value, k)) ==>
          || (k, rows[k]) in page
          || ((forall i :: 0 <= i < |page| ==> Lt(page[i].0, k)) && (|page| == limits.maxEntries || Stops(rows, after, prefix, limits, page))))
  }

  lemma PagesMean(rows: Rows, after: Option<seq<byte>>, prefix: seq<byte>, limits: Limits)
    ensures forall page :: IsPage(rows, KeysAfter(rows, after, prefix), limits, page) ==> FirstThatFit(rows, after, prefix, limits, page)
  {
    hide IsPage, FirstThatFit, KeysAfter;
    forall page | IsPage(rows, KeysAfter(rows, after, prefix), limits, page)
      ensures FirstThatFit(rows, after, prefix, limits, page)
    {
      PageMeans(rows, after, prefix, limits, page);
    }
  }

  lemma PageMeans(rows: Rows, after: Option<seq<byte>>, prefix: seq<byte>, limits: Limits, page: seq<RawEntry>)
    requires IsPage(rows, KeysAfter(rows, after, prefix), limits, page)
    ensures FirstThatFit(rows, after, prefix, limits, page)
  {
    hide KeysAfter, Lt, Used, Stops;
    var keys := KeysAfter(rows, after, prefix);
    KeysAfterFacts(rows, after, prefix);
    forall i | 0 <= i < |page|
      ensures page[i].0 == keys[i] && keys[i] in keys && page[i].1 == rows[keys[i]]
    {
      assert IsRow(rows, keys[i], limits, page[i]);
    }
    forall i, j | 0 <= i < j < |page|
      ensures Lt(page[i].0, page[j].0)
    {
      assert ByteOrder()(keys[i], keys[j]);
    }
    forall k | k in rows && Wanted(k, after, prefix) && (k, rows[k]) !in page
      ensures (forall i :: 0 <= i < |page| ==> Lt(page[i].0, k)) && (|page| == limits.maxEntries || Stops(rows, after, prefix, limits, page))
    {
      var j :| 0 <= j < |keys| && keys[j] == k;
      OnPage(rows, keys, limits, page, j);
      Behind(keys, page, j);
      if |page| < limits.maxEntries {
        assert keys[|page|] in keys;
        Behind(keys, page, |page|);
        StopsAt(rows, after, prefix, limits, page, keys[|page|]);
      }
    }
  }

  lemma OnPage(rows: Rows, keys: seq<seq<byte>>, limits: Limits, page: seq<RawEntry>, j: nat)
    requires IsPage(rows, keys, limits, page) && j < |keys| && keys[j] in rows
    ensures j < |page| ==> (keys[j], rows[keys[j]]) in page
  {
    hide Used, RowFits;
    if j < |page| {
      assert IsRow(rows, keys[j], limits, page[j]);
    }
  }

  lemma Behind(keys: seq<seq<byte>>, page: seq<RawEntry>, j: nat)
    requires Ascends(ByteOrder(), keys) && |page| <= j < |keys| && forall i :: 0 <= i < |page| ==> page[i].0 == keys[i]
    ensures forall i :: 0 <= i < |page| ==> Lt(page[i].0, keys[j])
  {
    hide Lt;
    forall i | 0 <= i < |page|
      ensures Lt(page[i].0, keys[j])
    {
      assert ByteOrder()(keys[i], keys[j]);
    }
  }

  lemma StopsAt(rows: Rows, after: Option<seq<byte>>, prefix: seq<byte>, limits: Limits, page: seq<RawEntry>, next: seq<byte>)
    requires next in rows && Wanted(next, after, prefix) && (forall i :: 0 <= i < |page| ==> Lt(page[i].0, next))
    requires Used(page) + RowSize(next, rows[next]) > limits.maxBytes
    ensures Stops(rows, after, prefix, limits, page)
  {
    hide Lt, Used;
  }

  // The engine's scan: walk the range in order until the page is full.
  method Scan(rows: Rows, after: Option<seq<byte>>, prefix: seq<byte>, limits: Limits) returns (r: Result<seq<RawEntry>, StorageError>)
    ensures r.Ok? ==> IsPage(rows, KeysAfter(rows, after, prefix), limits, r.value)
    ensures r.Err? ==> exists k :: k in rows && Wanted(k, after, prefix) && !RowFits(k, rows[k], limits)
    ensures r.Ok? ==> FirstThatFit(rows, after, prefix, limits, r.value)
  {
    hide Wanted, KeysAfter, Lt, RowFits, RowSize, FirstThatFit;
    PagesMean(rows, after, prefix, limits);
    var keys := Range(rows, after, prefix);
    KeysAfterFacts(rows, after, prefix);
    var page, used := [], 0;
    while |page| < |keys| && |page| < limits.maxEntries
      invariant |page| <= |keys| && |page| <= limits.maxEntries && used == Used(page) && used <= limits.maxBytes
      invariant forall i :: 0 <= i < |page| ==> IsRow(rows, keys[i], limits, page[i])
      decreases |keys| - |page|
    {
      var k := keys[|page|];
      assert k in keys;
      var more;
      more, page, used := PushRow(page, used, k, rows[k], limits);
      if more.Err? {
        return Err(more.error);
      }
      if !more.value {
        return Ok(page);
      }
    }
    r := Ok(page);
  }

  // ---------------------------------------------------------------- page after page

  // Continuing after the key of row n - 1 leaves exactly the rows from n on.
  lemma NextKeys(rows: Rows, after: Option<seq<byte>>, prefix: seq<byte>, n: nat)
    requires 0 < n <= |KeysAfter(rows, after, prefix)|
    ensures KeysAfter(rows, Some(KeysAfter(rows, after, prefix)[n - 1]), prefix) == KeysAfter(rows, after, prefix)[n..]
  {
    hide Lt, StrictTotal, KeysAfter, Sorted;
    var keys := KeysAfter(rows, after, prefix);
    var last, rest := keys[n - 1], keys[n..];
    KeysAfterFacts(rows, after, prefix);
    assert last in keys;
    forall k
      ensures k in rest <==> k in WantedKeys(rows, Some(last), prefix)
    {
      if k in rest {
        var i :| 0 <= i < |rest| && rest[i] == k;
        assert keys[n + i] == k && k in keys && ByteOrder()(last, k);
      }
      if k in WantedKeys(rows, Some(last), prefix) {
        Follows(keys, n, k, after, prefix, rows);
      }
    }
    ByteOrderTotal();
    SortedIs(rows, Some(last), prefix, rest);
  }

  lemma Follows(keys: seq<seq<byte>>, n: nat, k: seq<byte>, after: Option<seq<byte>>, prefix: seq<byte>, rows: Rows)
    requires 0 < n <= |keys| && Ascends(ByteOrder(), keys) && keys[n - 1] in keys
    requires forall x :: x in keys <==> x in rows && Wanted(x, after, prefix)
    requires k in rows && Wanted(k, Some(keys[n - 1]), prefix)
    ensures k in keys[n..]
  {
    hide Lt;
    var last := keys[n - 1];
    if after.Some? {
      LtTrans(after.value, last, k);
    }
    var i :| 0 <= i < |keys| && keys[i] == k;
    LtTotal(k, last);
    assert i < n - 1 ==> ByteOrder()(k, last);
    assert keys[n..][i - n] == k;
  }

  lemma SortedIs(rows: Rows, after: Option<seq<byte>>, prefix: seq<byte>, keys: seq<seq<byte>>)
    requires Ascends(ByteOrder(), keys) && forall k :: k in keys <==> k in WantedKeys(rows, after, prefix)
    ensures KeysAfter(rows, after, prefix) == keys
  {
    ByteOrderTotal();
    SortedUnique(ByteOrder(), WantedKeys(rows, after, prefix), keys);
  }

  ghost function EntriesOf(rows: Rows, keys: seq<seq<byte>>): seq<RawEntry>
    requires forall k :: k in keys ==> k in rows
  {
    seq(|keys|, i requires 0 <= i < |keys| => (assert keys[i] in keys; (keys[i], rows[keys[i]])))
  }

  // Every row with the prefix, in key order.
  ghost function AllRows(rows: Rows, prefix: seq<byte>): seq<RawEntry>
  {
    KeysAfterFacts(rows, None, prefix);
    EntriesOf(rows, KeysAfter(rows, None, prefix))
  }

  // A page of something holds something, so the cursor moves.
  lemma PageMoves(rows: Rows, keys: seq<seq<byte>>, limits: Limits, page: seq<RawEntry>)
    requires IsPage(rows, keys, limits, page) && limits.maxEntries > 0
    ensures page == [] <==> keys == []
  {
  }

  // A page appended to the rows before it.
  lemma PageExtends(rows: Rows, keys: seq<seq<byte>>, n: nat, limits: Limits, page: seq<RawEntry>)
    requires n <= |keys| && IsPage(rows, keys[n..], limits, page) && forall k :: k in keys ==> k in rows
    ensures n + |page| <= |keys|
    ensures EntriesOf(rows, keys)[..n] + page == EntriesOf(rows, keys)[..n + |page|]
    ensures forall i :: n <= i < n + |page| ==> RowFits(keys[i], rows[keys[i]], limits)
  {
    hide RowFits;
    forall i | n <= i < n + |page|
      ensures page[i - n] == EntriesOf(rows, keys)[i] && RowFits(keys[i], rows[keys[i]], limits)
    {
      assert IsRow(rows, keys[n..][i - n], limits, page[i - n]);
    }
  }

  // The scanning loop of the validators: scan from the last key until a page comes back empty.
  // It visits every row with the prefix once, in order, and fails just when some row fits no page.
  method Enumerate(rows: Rows, prefix: seq<byte>, limits: Limits) returns (r: Result<seq<RawEntry>, StorageError>)
    requires limits.maxEntries > 0
    ensures r.Ok? <==> forall k :: k in rows && prefix <= k ==> RowFits(k, rows[k], limits)
    ensures r.Ok? ==> r.value == AllRows(rows, prefix)
  {
    hide Lt, RowFits, KeysAfter, IsPage, StrictTotal;
    ghost var keys := KeysAfter(rows, None, prefix);
    KeysAfterFacts(rows, None, prefix);
    ghost var n := 0;
    var after: Option<seq<byte>> := None;
    var all: seq<RawEntry> := [];
    while true
      invariant 0 <= n <= |keys| && KeysAfter(rows, after, prefix) == keys[n..]
      invariant all == EntriesOf(rows, keys)[..n]
      invariant forall i :: 0 <= i < n ==> RowFits(keys[i], rows[keys[i]], limits)
      decreases |keys| - n
    {
      var page := Scan(rows, after, prefix, limits);
      if page.Err? {
        return Err(page.error);
      }
      PageMoves(rows, keys[n..], limits, page.value);
      if page.value == [] {
        forall k | k in rows && prefix <= k
          ensures RowFits(k, rows[k], limits)
        {
          assert k in keys;
        }
        return Ok(all);
      }
      PageExtends(rows, keys, n, limits, page.value);
      NextKeys(rows, after, prefix, |page.value|);
      LastOf(rows, keys[n..], limits, page.value);
      all := all + page.value;
      after := Some(page.value[|page.value| - 1].0);
      n := n + |page.value|;
    }
  }

  lemma LastOf(rows: Rows, keys: seq<seq<byte>>, limits: Limits, page: seq<RawEntry>)
    requires IsPage(rows, keys, limits, page) && page != []
    ensures |page| <= |keys| && page[|page| - 1].0 == keys[|page| - 1]
  {
  }
}
