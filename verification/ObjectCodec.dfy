/** The byte formats: the list of a large object's chunks, a stored object, and an object's chunks. */
module ObjectCodec {
  import opened Collections

  type Byte = x: int | 0 <= x < 256

  // ----- little-endian numbers -----

  function Power(w: nat): nat {
    if w == 0 then 1 else 256 * Power(w - 1)
  }

  function Le(n: nat, w: nat): (bs: seq<Byte>)
    ensures |bs| == w
  {
    if w == 0 then [] else [n % 256] + Le(n / 256, w - 1)
  }

  function Number(bs: seq<Byte>): nat {
    if bs == [] then 0 else bs[0] + 256 * Number(bs[1..])
  }

  lemma {:induction false} NumberOfLe(n: nat, w: nat)
    requires n < Power(w)
    ensures Number(Le(n, w)) == n
  {
    if w == 0 {
    } else {
      NumberOfLe(n / 256, w - 1);
      assert Le(n, w)[1..] == Le(n / 256, w - 1);
    }
  }

  /** The low byte comes first: byte `k` has the weight of the `k`-th power of 256. */
  lemma {:induction false} LowByteFirst(n: nat, w: nat, k: nat)
    requires k < w
    ensures Power(k) > 0 && Le(n, w)[k] == n / Power(k) % 256
  {
    if k == 0 {
    } else {
      LowByteFirst(n / 256, w - 1, k - 1);
      DivideTwice(n, Power(k - 1));
    }
  }

  lemma DivideTwice(n: nat, p: nat)
    requires p > 0
    ensures 256 * p > 0 && n / 256 / p == n / (256 * p)
  {
    var q, r := n / 256, n % 256;
    var q', r' := q / p, q % p;
    assert n == 256 * p * q' + (256 * r' + r) && 0 <= 256 * r' + r < 256 * p;
    Quotient(n, 256 * p, q', 256 * r' + r);
  }

  lemma Quotient(n: nat, d: nat, q: nat, r: nat)
    requires d > 0 && n == d * q + r && r < d
    ensures n / d == q
  {
    var q', r' := n / d, n % d;
    assert n == d * q' + r';
    assert d * q' - d * q == d * (q' - q);
    AtLeast(d, q' - q);
  }

  lemma AtLeast(d: int, t: int)
    requires d >= 0
    ensures t >= 1 ==> d * t >= d
    ensures t <= -1 ==> d * t <= -d
  {
    if t >= 1 {
      assert d * t == d + d * (t - 1);
    } else if t <= -1 {
      assert d * t == -d + d * (t + 1);
    }
  }

  const LIMIT16 := 0x1_0000
  const LIMIT64 := 0x1_0000_0000_0000_0000

  lemma Powers()
    ensures Power(2) == LIMIT16 && Power(8) == LIMIT64
  {
    assert Power(4) == 0x1_0000_0000;
    assert Power(6) == 256 * (256 * Power(4)) && Power(8) == 256 * (256 * Power(6));
  }

  lemma Number16(n: nat)
    requires n < LIMIT16
    ensures Number(Le(n, 2)) == n
  {
    Powers();
    NumberOfLe(n, 2);
  }

  lemma Number64(n: nat)
    requires n < LIMIT64
    ensures Number(Le(n, 8)) == n
  {
    Powers();
    NumberOfLe(n, 8);
  }

  type U64 = n: nat | n < LIMIT64

  /** `memcpy` of bytes into the buffer. */
  method Put(buffer: array<Byte>, at: nat, bs: seq<Byte>)
    requires at + |bs| <= buffer.Length
    modifies buffer
    ensures buffer[..] == old(buffer[..at]) + bs + old(buffer[at + |bs|..])
  {
    for i := 0 to |bs|
      invariant buffer[..] == old(buffer[..at]) + bs[..i] + old(buffer[at + i..])
    {
      buffer[at + i] := bs[i];
    }
    assert bs[..|bs|] == bs;
  }

  // ----- the chunk list -----

  type ChunkList = map<U64, (U64, U64)>

  /** The keys in the order in which an ordered map is walked. */
  ghost predicate Walks(keys: seq<U64>, m: ChunkList) {
    && (forall i, j :: 0 <= i < j < |keys| ==> keys[i] < keys[j])
    && (forall k :: k in keys <==> k in m)
  }

  function Row(key: U64, value: (U64, U64)): (bs: seq<Byte>)
    ensures |bs| == 24
  {
    Le(key, 8) + Le(value.0, 8) + Le(value.1, 8)
  }

  function Rows(m: ChunkList, keys: seq<U64>): (bs: seq<Byte>)
    requires forall k :: k in keys ==> k in m
    ensures |bs| == 24 * |keys|
  {
    if keys == [] then []
    else
      var n := |keys| - 1;
      Rows(m, keys[..n]) + Row(keys[n], m[keys[n]])
  }

  /** The map read from `n` rows; a later row replaces an earlier one with the same key. */
  function ReadRows(bs: seq<Byte>, n: nat): ChunkList
    requires 24 * n <= |bs|
  {
    if n == 0 then map[]
    else
      var row := bs[24 * (n - 1)..24 * n];
      ReadRows(bs, n - 1)[U(row[..8]) := (U(row[8..16]), U(row[16..24]))]
  }

  /** Eight bytes as a number. */
  function U(bs: seq<Byte>): U64
    requires |bs| == 8
  {
    NumberBound(bs);
    Powers();
    Number(bs)
  }

  lemma {:induction false} NumberBound(bs: seq<Byte>)
    ensures Number(bs) < Power(|bs|)
  {
    if bs == [] {
    } else {
      NumberBound(bs[1..]);
    }
  }

  /** The rows the count speaks of lie inside the bytes. */
  predicate HoldsRows(bs: seq<Byte>) {
    |bs| >= 8 && 8 + 24 * U(bs[..8]) <= |bs|
  }

  function ReadMap(bs: seq<Byte>): ChunkList
    requires HoldsRows(bs)
  {
    ReadRows(bs[8..], U(bs[..8]))
  }

  lemma NextRow(m: ChunkList, keys: seq<U64>, i: nat)
    requires i < |keys| && forall k :: k in keys ==> k in m
    ensures Rows(m, keys[..i + 1]) == Rows(m, keys[..i]) + Row(keys[i], m[keys[i]])
  {
    assert keys[..i + 1][..i] == keys[..i];
  }

  /** Where the `i`-th chunk lies in the list: its key, and the two numbers of its value behind it. */
  lemma {:induction false} ChunkAt(m: ChunkList, keys: seq<U64>, i: nat)
    requires i < |keys| && forall k :: k in keys ==> k in m
    ensures var bs, at := Rows(m, keys), 24 * i;
            && bs[at..at + 8] == Le(keys[i], 8)
            && bs[at + 8..at + 16] == Le(m[keys[i]].0, 8) && bs[at + 16..at + 24] == Le(m[keys[i]].1, 8)
    decreases |keys|
  {
    hide Le;
    var n := |keys| - 1;
    if i < n {
      ChunkAt(m, keys[..n], i);
      assert forall a, b :: 0 <= a <= b <= 24 * n ==> Rows(m, keys)[a..b] == Rows(m, keys[..n])[a..b];
    } else {
      var row := Row(keys[n], m[keys[n]]);
      assert Rows(m, keys)[24 * n..] == row;
    }
  }

  lemma NoRows(m: ChunkList)
    ensures Rows(m, []) == []
  {
  }

  /**
    `serializeMap`: the count, then one row per chunk in key order; the rest of the buffer is left.
    The source does not compare with the size of the buffer, and `inside` is false when it writes past it.
    */
  method SerializeMap(m: ChunkList, keys: seq<U64>, size: nat) returns (inside: bool, buffer: array<Byte>)
    requires Walks(keys, m) && |keys| < LIMIT64
    ensures fresh(buffer) && buffer.Length == size
    ensures inside <==> 8 + 24 * |keys| <= size
    ensures inside ==> buffer[..8 + 24 * |keys|] == Le(|keys|, 8) + Rows(m, keys)
  {
    hide Le, Row, Rows;
    buffer := new Byte[size](_ => 0);
    inside := true;
    var at := 0;
    if at + 8 > size {
      return false, buffer;
    }
    Put(buffer, at, Le(|keys|, 8));
    at := at + 8;
    assert keys[..0] == [];
    NoRows(m);
    for i := 0 to |keys|
      invariant at == 8 + 24 * i <= size == buffer.Length && inside
      invariant buffer[..at] == Le(|keys|, 8) + Rows(m, keys[..i])
    {
      if at + 24 > size {
        return false, buffer;
      }
      var key := keys[i];
      var (first, second) := m[key];
      PutRow(buffer, at, key, first, second);
      at := at + 24;
      NextRow(m, keys, i);
      Associate(Le(|keys|, 8), Rows(m, keys[..i]), Row(key, m[key]));
    }
    assert keys[..|keys|] == keys;
  }

  method PutRow(buffer: array<Byte>, at: nat, key: U64, first: U64, second: U64)
    requires at + 24 <= buffer.Length
    modifies buffer
    ensures buffer[..at + 24] == old(buffer[..at]) + Row(key, (first, second))
  {
    Put(buffer, at, Le(key, 8));
    assert buffer[..at + 8] == old(buffer[..at]) + Le(key, 8);
    label A:
    Put(buffer, at + 8, Le(first, 8));
    assert buffer[..at + 16] == old@A(buffer[..at + 8]) + Le(first, 8);
    label B:
    Put(buffer, at + 16, Le(second, 8));
    assert buffer[..at + 24] == old@B(buffer[..at + 16]) + Le(second, 8);
  }

  lemma RowAt(bs: seq<Byte>, i: nat)
    requires 8 + 24 * (i + 1) <= |bs|
    ensures var row, at := bs[8..][24 * i..24 * (i + 1)], 8 + 24 * i;
            row[..8] == bs[at..at + 8] && row[8..16] == bs[at + 8..at + 16] && row[16..24] == bs[at + 16..at + 24]
  {
    assert bs[8..] == bs[8..|bs|];
    SliceTwice(bs, 8, |bs|, 24 * i, 24 * (i + 1));
    var at := 8 + 24 * i;
    SliceTwice(bs, at, at + 24, 0, 8);
    SliceTwice(bs, at, at + 24, 8, 16);
    SliceTwice(bs, at, at + 24, 16, 24);
  }

  /**
    `deserializeMap`: reads as many rows as the count says.  The buffer's size is not known to the
    source, and `inside` is false when it reads past it.
    */
  method DeserializeMap(buffer: array<Byte>) returns (inside: bool, m: ChunkList)
    ensures inside <==> HoldsRows(buffer[..])
    ensures inside ==> m == ReadMap(buffer[..])
  {
    m, inside := map[], true;
    if 8 > buffer.Length {
      return false, m;
    }
    assert buffer[..][..8] == buffer[..8];
    var size := U(buffer[..8]);
    var at := 8;
    for i := 0 to size
      invariant at == 8 + 24 * i <= buffer.Length && inside && m == ReadRows(buffer[..][8..], i)
    {
      if at + 24 > buffer.Length {
        return false, m;
      }
      var key := U(buffer[at..at + 8]);
      var first := U(buffer[at + 8..at + 16]);
      var second := U(buffer[at + 16..at + 24]);
      RowAt(buffer[..], i);
      m := m[key := (first, second)];
      at := at + 24;
    }
  }

  lemma RowsLast(m: ChunkList, keys: seq<U64>, n: nat, rest: seq<Byte>)
    requires (forall k :: k in keys ==> k in m) && 0 < n <= |keys|
    ensures var bs, row := Rows(m, keys[..n]) + rest, Row(keys[n - 1], m[keys[n - 1]]);
            && bs == Rows(m, keys[..n - 1]) + (row + rest)
            && bs[24 * (n - 1)..24 * n] == row
  {
    hide Row;
    var row := Row(keys[n - 1], m[keys[n - 1]]);
    assert keys[..n][..n - 1] == keys[..n - 1];
    Associate(Rows(m, keys[..n - 1]), row, rest);
  }

  lemma ReadLast(bs: seq<Byte>, n: nat, key: U64, value: (U64, U64))
    requires 0 < n && 24 * n <= |bs| && bs[24 * (n - 1)..24 * n] == Row(key, value)
    ensures ReadRows(bs, n) == ReadRows(bs, n - 1)[key := value]
  {
    RowReads(key, value);
    hide Row, U;
  }

  lemma KeysLast(m: ChunkList, keys: seq<U64>, n: nat)
    requires (forall k :: k in keys ==> k in m) && 0 < n <= |keys|
    ensures (map k | k in keys[..n - 1] :: m[k])[keys[n - 1] := m[keys[n - 1]]] == map k | k in keys[..n] :: m[k]
  {
    assert keys[..n] == keys[..n - 1] + [keys[n - 1]];
  }

  /** What is read from the rows of the first `n` keys, whatever follows. */
  lemma {:induction false} ReadRowsOfRows(m: ChunkList, keys: seq<U64>, n: nat, rest: seq<Byte>)
    requires (forall k :: k in keys ==> k in m) && n <= |keys|
    ensures 24 * n <= |Rows(m, keys[..n]) + rest|
    ensures ReadRows(Rows(m, keys[..n]) + rest, n) == map k | k in keys[..n] :: m[k]
    decreases n
  {
    hide Row, Rows;
    if n == 0 {
    } else {
      hide ReadRows;
      var key := keys[n - 1];
      var row := Row(key, m[key]);
      RowsLast(m, keys, n, rest);
      ReadRowsOfRows(m, keys, n - 1, row + rest);
      ReadLast(Rows(m, keys[..n]) + rest, n, key, m[key]);
      KeysLast(m, keys, n);
    }
  }

  lemma RowReads(key: U64, value: (U64, U64))
    ensures var row := Row(key, value); U(row[..8]) == key && U(row[8..16]) == value.0 && U(row[16..24]) == value.1
  {
    var row := Row(key, value);
    assert row[..8] == Le(key, 8) && row[8..16] == Le(value.0, 8) && row[16..24] == Le(value.1, 8);
    Number64(key);
    Number64(value.0);
    Number64(value.1);
  }

  lemma RoundTripParts(m: ChunkList, keys: seq<U64>, rest: seq<Byte>)
    requires Walks(keys, m) && |keys| < LIMIT64
    ensures var bs := Le(|keys|, 8) + (Rows(m, keys) + rest);
            U(bs[..8]) == |keys| && ReadMap(bs) == m
  {
    var n := |keys|;
    var bs := Le(n, 8) + (Rows(m, keys) + rest);
    assert bs[..8] == Le(n, 8) && bs[8..] == Rows(m, keys) + rest;
    Number64(n);
    assert keys[..n] == keys;
    ReadRowsOfRows(m, keys, n, rest);
    assert (map k | k in keys :: m[k]) == m;
  }

  /** Every chunk list survives being written to a buffer that is large enough and read back. */
  lemma ChunkListRoundTrip(m: ChunkList, keys: seq<U64>, bs: seq<Byte>)
    requires Walks(keys, m) && |keys| < LIMIT64 && 8 + 24 * |keys| <= |bs|
    requires bs[..8 + 24 * |keys|] == Le(|keys|, 8) + Rows(m, keys)
    ensures U(bs[..8]) == |keys| && ReadMap(bs) == m
  {
    hide Le, Rows;
    var rest := bs[8 + 24 * |keys|..];
    RoundTripParts(m, keys, rest);
    Associate(Le(|keys|, 8), Rows(m, keys), rest);
    assert bs == bs[..8 + 24 * |keys|] + rest;
  }

  // ----- a stored object -----

  /** The size of a log entry and of the key text as laid out on a 64-bit machine. */
  const LOG_ENTRY := 112
  const KEY_HASH := 65
  const HEADER := LOG_ENTRY + KEY_HASH + 2 + 8

  /** The log entry is carried over byte by byte; the body may be missing. */
  datatype Object = Object(entry: seq<Byte>, keyHash: seq<Byte>, keySize: nat, datalen: nat, body: Option<seq<Byte>>) {
    ghost predicate Valid() {
      && |entry| == LOG_ENTRY && |keyHash| == KEY_HASH && keySize < LIMIT16 && HEADER + datalen < LIMIT64
      && (body.Some? ==> |body.value| == datalen)
    }

    /** There is a body exactly when there is data. */
    ghost predicate Complete() {
      body.Some? <==> datalen > 0
    }
  }

  function Zeros(n: nat): seq<Byte> {
    seq(n, _ => 0)
  }

  function Payload(o: Object): seq<Byte> {
    if o.datalen > 0 && o.body.Some? then o.body.value else Zeros(o.datalen)
  }

  function Head(o: Object): seq<Byte> {
    o.entry + o.keyHash + Le(o.keySize, 2) + Le(o.datalen, 8)
  }

  function Bytes(o: Object): seq<Byte> {
    Head(o) + Payload(o)
  }

  /** `WriteZstoreObjectToBuffer`: a missing body leaves zeros. */
  method WriteObject(o: Object) returns (buffer: array<Byte>)
    requires o.Valid()
    ensures fresh(buffer) && buffer[..] == Bytes(o)
  {
    hide Le, Zeros;
    var total := LOG_ENTRY + KEY_HASH + 2 + 8 + o.datalen;
    buffer := new Byte[total](_ => 0);
    AllZeros(buffer[..]);
    assert [] + Zeros(total) == Zeros(total);
    PutNext(buffer, 0, o.entry, []);
    var at := LOG_ENTRY;
    assert [] + o.entry == o.entry;
    PutNext(buffer, at, o.keyHash, o.entry);
    at := at + KEY_HASH;
    PutNext(buffer, at, Le(o.keySize, 2), o.entry + o.keyHash);
    at := at + 2;
    PutNext(buffer, at, Le(o.datalen, 8), o.entry + o.keyHash + Le(o.keySize, 2));
    at := at + 8;
    if o.datalen > 0 && o.body.Some? {
      PutNext(buffer, at, o.body.value, Head(o));
      AllZeros([]);
      assert Bytes(o) + [] == Bytes(o);
    }
  }

  lemma AllZeros(bs: seq<Byte>)
    requires forall i :: 0 <= i < |bs| ==> bs[i] == 0
    ensures bs == Zeros(|bs|)
  {
  }

  lemma ZerosFrom(n: nat, k: nat)
    requires k <= n
    ensures |Zeros(n)| == n && Zeros(n)[k..] == Zeros(n - k)
  {
  }

  /** Writes on behind what has been written; the buffer was zero to begin with. */
  method PutNext(buffer: array<Byte>, at: nat, bs: seq<Byte>, ghost done: seq<Byte>)
    requires |done| == at && at + |bs| <= buffer.Length && buffer[..] == done + Zeros(buffer.Length - at)
    modifies buffer
    ensures buffer[..] == done + bs + Zeros(buffer.Length - at - |bs|)
  {
    hide Zeros;
    ghost var was := buffer[..];
    ZerosFrom(buffer.Length - at, |bs|);
    Put(buffer, at, bs);
    assert was[..at] == done;
    assert was[at + |bs|..] == Zeros(buffer.Length - at)[|bs|..];
    assert old(buffer[..at]) == was[..at] && old(buffer[at + |bs|..]) == was[at + |bs|..];
  }

  /**
    What a buffer decodes to.  The data length is only compared with the buffer after a block of
    that size has been allocated; the sum is computed in 64 bits.
    */
  function Parse(bs: seq<Byte>, memory: nat): Option<Object> {
    if |bs| < HEADER then None
    else
      var keySize, datalen := Number(bs[LOG_ENTRY + KEY_HASH..LOG_ENTRY + KEY_HASH + 2]), U(bs[HEADER - 8..HEADER]);
      var o := Object(bs[..LOG_ENTRY], bs[LOG_ENTRY..LOG_ENTRY + KEY_HASH], keySize, datalen, None);
      if datalen == 0 then Some(o)
      else if datalen > memory || HEADER + datalen > |bs| then None
      else Some(o.(body := Some(bs[HEADER..HEADER + datalen])))
  }

  /**
    `ReadBufferToZstoreObject`; `memory` is the largest block that can be had.  The key text is read
    without a check of its own: `inside` is false exactly when a buffer that holds a log entry ends
    before it.
    */
  method ReadObject(buffer: array<Byte>, memory: nat) returns (inside: bool, r: Option<Object>)
    requires buffer.Length < LIMIT64 && memory < 0x8000_0000_0000_0000
    ensures inside <==> !(LOG_ENTRY <= buffer.Length < LOG_ENTRY + KEY_HASH)
    ensures inside ==> r == Parse(buffer[..], memory)
  {
    inside, r := true, None;
    if buffer.Length < LOG_ENTRY {
      return;
    }
    var at := 0;
    var entry := buffer[at..at + LOG_ENTRY];
    at := at + LOG_ENTRY;
    if at + KEY_HASH > buffer.Length {
      inside := false;
      return;
    }
    var keyHash := buffer[at..at + KEY_HASH];
    at := at + KEY_HASH;
    if at + 2 > buffer.Length {
      return;
    }
    var keySize := Number(buffer[at..at + 2]);
    at := at + 2;
    if at + 8 > buffer.Length {
      return;
    }
    var datalen := U(buffer[at..at + 8]);
    at := at + 8;
    var body := None;
    if datalen > 0 {
      if datalen > memory {
        return;
      }
      if (at + datalen) % LIMIT64 > buffer.Length {
        return;
      }
      body := Some(buffer[at..at + datalen]);
    }
    r := Some(Object(entry, keyHash, keySize, datalen, body));
  }

  lemma HeadParts(o: Object)
    requires o.Valid()
    ensures var h := Head(o);
            && |h| == HEADER && h[..LOG_ENTRY] == o.entry && h[LOG_ENTRY..LOG_ENTRY + KEY_HASH] == o.keyHash
            && h[LOG_ENTRY + KEY_HASH..LOG_ENTRY + KEY_HASH + 2] == Le(o.keySize, 2)
            && h[HEADER - 8..HEADER] == Le(o.datalen, 8)
  {
  }

  /** An object that has a body or no data is read back as it was, whatever follows it in the buffer. */
  lemma ObjectRoundTrip(o: Object, rest: seq<Byte>, memory: nat)
    requires o.Valid() && o.Complete() && o.datalen <= memory
    ensures Parse(Bytes(o) + rest, memory) == Some(o)
  {
    var bs := Bytes(o) + rest;
    HeadParts(o);
    var h, t := Head(o), Payload(o) + rest;
    Associate(h, Payload(o), rest);
    ConcatSlice(h, t, 0, LOG_ENTRY);
    ConcatSlice(h, t, LOG_ENTRY, LOG_ENTRY + KEY_HASH);
    ConcatSlice(h, t, LOG_ENTRY + KEY_HASH, LOG_ENTRY + KEY_HASH + 2);
    ConcatSlice(h, t, HEADER - 8, HEADER);
    Number16(o.keySize);
    Number64(o.datalen);
    assert bs[HEADER..HEADER + o.datalen] == Payload(o);
  }

  /** A missing body comes back as zeros. */
  lemma MissingBodyIsZeros(o: Object, memory: nat)
    requires o.Valid() && o.body == None && 0 < o.datalen <= memory
    ensures Parse(Bytes(o), memory) == Some(o.(body := Some(Zeros(o.datalen))))
  {
    var z := o.(body := Some(Zeros(o.datalen)));
    assert Bytes(z) == Bytes(o) && Bytes(z) + [] == Bytes(z);
    ObjectRoundTrip(z, [], memory);
  }

  lemma {:induction false} LeOfNumber(bs: seq<Byte>)
    ensures Le(Number(bs), |bs|) == bs
  {
    if bs == [] {
    } else {
      LeOfNumber(bs[1..]);
      assert Number(bs) / 256 == Number(bs[1..]) && Number(bs) % 256 == bs[0];
    }
  }

  /** Whatever is read is a complete object, and the buffer starts with its bytes. */
  lemma ParsedIsPrefix(bs: seq<Byte>, memory: nat)
    requires |bs| < LIMIT64 && Parse(bs, memory).Some?
    ensures var o := Parse(bs, memory).value;
            o.Valid() && o.Complete() && o.datalen <= memory && Bytes(o) <= bs
  {
    var o := Parse(bs, memory).value;
    var a, b := LOG_ENTRY + KEY_HASH, LOG_ENTRY + KEY_HASH + 2;
    LeOfNumber(bs[a..b]);
    LeOfNumber(bs[b..HEADER]);
    NumberBound(bs[a..b]);
    Powers();
    hide Le, Number;
    Join(bs, LOG_ENTRY, a, b, HEADER);
    Join(bs, HEADER, HEADER, HEADER, HEADER + o.datalen);
    assert Head(o) == bs[..HEADER];
    assert Bytes(o) == bs[..HEADER + o.datalen];
  }

  lemma Join(bs: seq<Byte>, a: nat, b: nat, c: nat, d: nat)
    requires a <= b <= c <= d <= |bs|
    ensures bs[..a] + bs[a..b] + bs[b..c] + bs[c..d] == bs[..d]
  {
  }

  /** A strict prefix of an object's bytes is never accepted. */
  lemma PrefixRejected(o: Object, p: nat, memory: nat)
    requires o.Valid() && p < |Bytes(o)|
    ensures Parse(Bytes(o)[..p], memory) == None
  {
    var bs := Bytes(o)[..p];
    HeadParts(o);
    if p >= HEADER {
      PrefixSlice(Bytes(o), p, HEADER - 8, HEADER);
      ConcatSlice(Head(o), Payload(o), HEADER - 8, HEADER);
      Number64(o.datalen);
    }
  }

  // ----- an object's chunks -----

  datatype Chunk = Chunk(seqnum: nat, chunkSeqnum: nat, keySize: nat, data: seq<Byte>)

  /** The chunks are consecutive slices of the body, numbered from 1. */
  ghost predicate Slices(body: seq<Byte>, size: nat, chunks: seq<Chunk>) {
    forall i :: 0 <= i < |chunks| ==> SliceAt(body, size, i, chunks[i])
  }

  ghost predicate SliceAt(body: seq<Byte>, size: nat, i: nat, c: Chunk) {
    0 <= i * size <= i * size + size <= |body| && c.data == body[i * size..i * size + size] && c.chunkSeqnum == i + 1
  }

  /**
    `splitObjectIntoChunks`: whole chunks only.  The branch for a short last chunk is never taken,
    because as many bytes as a chunk has are left in every round.
    */
  method Split(body: seq<Byte>, seqnum: nat, keySize: nat, size: nat) returns (chunks: seq<Chunk>)
    requires size > 0
    ensures |chunks| == |body| / size && Slices(body, size, chunks)
    ensures forall i :: 0 <= i < |chunks| ==> chunks[i].seqnum == seqnum && chunks[i].keySize == keySize
  {
    var count := |body| / size;
    var remaining := |body|;
    chunks := [];
    for i := 0 to count
      invariant remaining == |body| - i * size && |chunks| == i && Slices(body, size, chunks)
      invariant forall j :: 0 <= j < i ==> chunks[j].seqnum == seqnum && chunks[j].keySize == keySize
    {
      Enough(|body|, size, i);
      var len := remaining;
      if remaining >= size {
        len := size;
        remaining := remaining - size;
      }
      var c := Chunk(seqnum, i + 1, keySize, body[i * len..i * len + len]);
      assert SliceAt(body, size, i, c);
      hide SliceAt;
      chunks := chunks + [c];
    }
  }

  lemma Enough(n: nat, size: nat, i: nat)
    requires size > 0 && i < n / size
    ensures 0 <= i * size <= i * size + size <= n && (i + 1) * size == i * size + size
  {
    assert (i + 1) * size <= (n / size) * size <= n;
  }

  function Concat(chunks: seq<Chunk>): seq<Byte> {
    if chunks == [] then [] else Concat(chunks[..|chunks| - 1]) + chunks[|chunks| - 1].data
  }

  lemma LastSlice(body: seq<Byte>, size: nat, chunks: seq<Chunk>) returns (at: nat)
    requires Slices(body, size, chunks) && chunks != []
    ensures var n := |chunks| - 1;
            && at == n * size && at + size <= |body| && |chunks| * size == at + size
            && chunks[n].data == body[at..at + size] && Slices(body, size, chunks[..n])
  {
    var n := |chunks| - 1;
    at := n * size;
    assert SliceAt(body, size, n, chunks[n]);
    hide SliceAt;
    assert |chunks| * size == (n + 1) * size == at + size;
  }

  lemma ConcatLast(body: seq<Byte>, chunks: seq<Chunk>, a: nat, b: nat)
    requires a <= b <= |body| && chunks != []
    requires Concat(chunks[..|chunks| - 1]) == body[..a] && chunks[|chunks| - 1].data == body[a..b]
    ensures Concat(chunks) == body[..b]
  {
    assert body[..a] + body[a..b] == body[..b];
  }

  lemma {:induction false} ConcatIs(body: seq<Byte>, size: nat, chunks: seq<Chunk>)
    requires size > 0 && Slices(body, size, chunks)
    ensures 0 <= |chunks| * size <= |body| && Concat(chunks) == body[..|chunks| * size]
  {
    hide Slices;
    if chunks == [] {
    } else {
      hide Concat;
      var at := LastSlice(body, size, chunks);
      ConcatIs(body, size, chunks[..|chunks| - 1]);
      ConcatLast(body, chunks, at, at + size);
    }
  }

  /** The chunks make up the whole object exactly when their size divides it. */
  lemma ChunksCoverIff(body: seq<Byte>, size: nat, chunks: seq<Chunk>)
    requires size > 0 && |chunks| == |body| / size && Slices(body, size, chunks)
    ensures Concat(chunks) == body <==> |body| % size == 0
  {
    ConcatIs(body, size, chunks);
    hide *;
    Division(|body|, size);
    CoverIff(body, |chunks| * size);
  }

  lemma Division(n: nat, size: nat)
    requires size > 0
    ensures (n / size) * size == n <==> n % size == 0
  {
  }

  lemma CoverIff(body: seq<Byte>, n: nat)
    requires n <= |body|
    ensures body[..n] == body <==> n == |body|
  {
  }

  // ----- short buffers -----

  /** One chunk, and a buffer that holds only the count. */
  method WritesPastBuffer() returns (inside: bool)
    ensures !inside
  {
    var buffer;
    inside, buffer := SerializeMap(map[1 := (2, 3)], [1], 8);
  }

  /** A count of one, and nothing behind it. */
  method ReadsPastCount() returns (inside: bool)
    ensures !inside
  {
    Number64(1);
    var bytes := Le(1, 8);
    var buffer := new Byte[8](i requires 0 <= i < 8 => bytes[i]);
    assert buffer[..] == bytes && buffer[..][..8] == bytes;
    var m;
    inside, m := DeserializeMap(buffer);
  }

  /** A log entry, and no key text behind it. */
  method ReadsPastEntry() returns (inside: bool)
    ensures !inside
  {
    var buffer := new Byte[LOG_ENTRY](_ => 0);
    var r;
    inside, r := ReadObject(buffer, 0);
  }
}
