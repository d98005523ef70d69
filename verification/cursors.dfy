// The durable cursor of a transfer: the table it stands in, the last key copied, and its totals.
module Cursors {
  import opened Wrappers
  import opened Bytes
  import opened Integers
  import opened Stores

  const TABLES := 5
  const CURSOR_BYTES := 18

  datatype Cursor = Cursor(table: nat, after: Option<seq<byte>>, rows: u64, bytes: u64)

  // What a cursor of the transfer looks like: its last key is a key of the database, not empty.
  predicate Valid(c: Cursor)
  {
    c.table <= TABLES && (c.after.Some? ==> 0 < |c.after.value| <= MAX_KEY_BYTES)
  }

  function KeyBytes(after: Option<seq<byte>>): seq<byte>
  {
    match after case None => [] case Some(k) => k
  }

  function Encode(c: Cursor): seq<byte>
  {
    [c.table % 256, |KeyBytes(c.after)| % 256] + EncodeU64(c.rows) + EncodeU64(c.bytes) + KeyBytes(c.after)
  }

  function Decode(b: seq<byte>): Option<Cursor>
  {
    if |b| < CURSOR_BYTES || b[0] as int > TABLES || b[1] as int > MAX_KEY_BYTES || |b| != CURSOR_BYTES + b[1] as int then None
    else Some(Cursor(b[0] as int, if b[1] == 0 then None else Some(b[18..]), DecodeU64(b[2..10]), DecodeU64(b[10..18])))
  }

  lemma RoundTrip(c: Cursor)
    requires Valid(c)
    ensures Decode(Encode(c)) == Some(c) && |Encode(c)| <= 82
  {
    hide EncodeU64, DecodeU64;
    var b, k := Encode(c), KeyBytes(c.after);
    assert b[..2] == [c.table % 256, |k| % 256];
    assert b[0] as int == c.table && b[1] as int == |k|;
    assert b[2..10] == EncodeU64(c.rows) && b[10..18] == EncodeU64(c.bytes) && b[18..] == k;
    U64RoundTrip(c.rows);
    U64RoundTrip(c.bytes);
  }

  // Every byte string the decoder takes is the encoding of what it returns.
  lemma Canonical(b: seq<byte>)
    requires Decode(b).Some?
    ensures Valid(Decode(b).value) && Encode(Decode(b).value) == b
  {
    hide EncodeU64, DecodeU64;
    var c := Decode(b).value;
    U64Canonical(b[2..10]);
    U64Canonical(b[10..18]);
    assert b == b[..2] + b[2..10] + b[10..18] + b[18..];
    assert KeyBytes(c.after) == b[18..];
    assert b[..2] == [b[0], b[1]];
  }
}
