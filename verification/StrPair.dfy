/**
  `StrPair`: a range of the parse buffer whose text is decoded lazily and in place.

  `DecodeFrom` is what the in-place loop of `GetStr` leaves in the buffer, for every input.
  `Plain` is the decoding one would expect (unknown entities stay as they are).  They differ in one
  branch: for an unknown entity the source advances both cursors without copying, so the byte that
  survives is the one under the WRITE cursor.
  */
module StrPair {
  import opened XmlChars
  import Utf8

  const W32: nat := 0x1_0000_0000
  const W64: nat := 0x1_0000_0000_0000_0000

  datatype Flags = Flags(newlines: bool, entities: bool)

  const RAW := Flags(false, false)
  const MARKUP := Flags(true, false)
  const TEXT := Flags(true, true)

  const ENTITIES: seq<(string, char)> :=
    [("quot", '\"'), ("amp", '&'), ("apos", '\''), ("lt", '<'), ("gt", '>')]

  // ----- numeric character references -----

  function Digit(c: char, base: nat): int {
    if '0' <= c <= '9' then c as int - '0' as int
    else if base == 16 && 'a' <= c <= 'f' then c as int - 'a' as int + 10
    else if base == 16 && 'A' <= c <= 'F' then c as int - 'A' as int + 10
    else -1
  }

  /**
    Reads digits from `q` leftwards up to the stop character (`x` or `#`), which sits at `lo` at the
    latest; -1 on anything else.  `mult` wraps at 32 bits and `ucs` at 64.
    */
  function ScanBack(s: string, q: nat, lo: nat, base: nat, mult: nat, ucs: nat): (r: int)
    requires lo <= q < |s|
    ensures r >= -1
    decreases q
  {
    if s[q] == s[lo] then ucs
    else
      var d := Digit(s[q], base);
      if d < 0 then -1
      else ScanBack(s, q - 1, lo, base, mult * base % W32, (ucs + mult * d % W32) % W64)
  }

  datatype Ref = NoRef | Ref(bytes: string, next: nat)

  /** `GetCharacterRef` at the `&` of `&#`; a reference cut off right after `&#` yields no bytes. */
  function CharRef(s: string, i: nat): (r: Ref)
    requires i + 1 < |s| && s[i + 1] == '#'
    ensures r.Ref? ==> i < r.next <= |s| && |r.bytes| <= r.next - i && |r.bytes| <= 4
  {
    if At(s, i + 2) == NUL then Ref("", i + 1)
    else
      var hex := s[i + 2] == 'x';
      var from := if hex then i + 3 else i + 2;
      if At(s, from) == NUL then NoRef
      else
        var k := FindChar(s, from, ';');
        if k == |s| then NoRef
        else
          var ucs := ScanBack(s, k - 1, from - 1, if hex then 16 else 10, 1, 0);
          if ucs < 0 then NoRef else Ref(Utf8.Encode(ucs), k + 1)
  }

  // ----- one decoding step -----

  /** Index in `ENTITIES` of the entity spelled at `i`, searching from entry `e`; 5 when none is. */
  function EntityAt(s: string, i: nat, e: nat): (r: nat)
    requires i < |s| && e <= 5
    ensures e <= r <= 5
    ensures r < 5 ==> StartsAt(s, i + 1, ENTITIES[r].0) && At(s, i + |ENTITIES[r].0| + 1) == ';'
    decreases 5 - e
  {
    if e == 5 then 5
    else if StartsAt(s, i + 1, ENTITIES[e].0) && At(s, i + |ENTITIES[e].0| + 1) == ';' then e
    else EntityAt(s, i, e + 1)
  }

  datatype Token = Emit(bytes: string, next: nat) | Keep

  function TokenAt(s: string, i: nat, f: Flags): (t: Token)
    requires i < |s|
    ensures t.Emit? ==> i < t.next <= |s| && |t.bytes| <= t.next - i
    ensures t.Keep? ==> s[i] == '&'
  {
    if f.newlines && s[i] == CR then Emit([LF], if At(s, i + 1) == LF then i + 2 else i + 1)
    else if f.newlines && s[i] == LF then Emit([LF], if At(s, i + 1) == CR then i + 2 else i + 1)
    else if f.entities && s[i] == '&' then
      if At(s, i + 1) == '#' then
        match CharRef(s, i)
        case NoRef => Emit(['&'], i + 1)
        case Ref(bytes, next) => Emit(bytes, next)
      else
        var e := EntityAt(s, i, 0);
        if e < 5 then Emit([ENTITIES[e].1], i + |ENTITIES[e].0| + 2) else Keep
    else Emit([s[i]], i + 1)
  }

  // ----- what the code computes, and what one would expect -----

  function DecodeFrom(s: string, i: nat, out: string, f: Flags): (r: string)
    requires |out| <= i <= |s|
    ensures |out| <= |r| <= |s|
    decreases |s| - i
  {
    if i == |s| then out
    else
      match TokenAt(s, i, f)
      case Emit(bytes, next) => DecodeFrom(s, next, out + bytes, f)
      case Keep => DecodeFrom(s, i + 1, out + [s[|out|]], f)
  }

  function Decode(s: string, f: Flags): (r: string)
    ensures |r| <= |s|
  {
    DecodeFrom(s, 0, "", f)
  }

  function PlainFrom(s: string, i: nat, f: Flags): string
    requires i <= |s|
    decreases |s| - i
  {
    if i == |s| then ""
    else
      match TokenAt(s, i, f)
      case Emit(bytes, next) => bytes + PlainFrom(s, next, f)
      case Keep => [s[i]] + PlainFrom(s, i + 1, f)
  }

  function Plain(s: string, f: Flags): string {
    PlainFrom(s, 0, f)
  }

  /**
    Every unknown `&` at read offset `i` meets an `&` at the write offset `k`.  This only inspects
    the encoded text and counts lengths, so it can be evaluated before decoding.
    */
  predicate KeepsInPlace(s: string, i: nat, k: nat, f: Flags)
    requires k <= i <= |s|
    decreases |s| - i
  {
    i == |s| ||
    match TokenAt(s, i, f)
    case Emit(bytes, next) => KeepsInPlace(s, next, k + |bytes|, f)
    case Keep => s[k] == '&' && KeepsInPlace(s, i + 1, k + 1, f)
  }

  lemma {:induction false} DecodeFromExtends(s: string, i: nat, out: string, f: Flags)
    requires |out| <= i <= |s|
    ensures |DecodeFrom(s, i, out, f)| == |out| + |PlainFrom(s, i, f)|
    ensures out <= DecodeFrom(s, i, out, f)
    decreases |s| - i
  {
    hide TokenAt;
    if i == |s| {
    } else {
      match TokenAt(s, i, f)
      case Emit(bytes, next) => DecodeFromExtends(s, next, out + bytes, f);
      case Keep => DecodeFromExtends(s, i + 1, out + [s[|out|]], f);
    }
  }

  lemma {:induction false} DecodeFromIsPlain(s: string, i: nat, out: string, f: Flags)
    requires |out| <= i <= |s|
    ensures DecodeFrom(s, i, out, f) == out + PlainFrom(s, i, f) <==> KeepsInPlace(s, i, |out|, f)
    decreases |s| - i
  {
    hide TokenAt;
    if i == |s| {
    } else {
      match TokenAt(s, i, f)
      case Emit(bytes, next) =>
        DecodeFromIsPlain(s, next, out + bytes, f);
        assert out + bytes + PlainFrom(s, next, f) == out + (bytes + PlainFrom(s, next, f));
      case Keep =>
        var b, rest := s[|out|], PlainFrom(s, i + 1, f);
        DecodeFromIsPlain(s, i + 1, out + [b], f);
        DecodeFromExtends(s, i + 1, out + [b], f);
        SameHead(out, b, s[i], rest, DecodeFrom(s, i + 1, out + [b], f));
    }
  }

  lemma SameHead(out: string, b: char, c: char, rest: string, d: string)
    requires out + [b] <= d
    ensures d == out + ([c] + rest) <==> b == c && d == out + [b] + rest
  {
    assert d[|out|] == b;
    assert out + ([c] + rest) == out + [c] + rest;
    assert (out + [c] + rest)[|out|] == c;
  }

  /** The in-place result is the expected one exactly when unknown entities meet aligned cursors. */
  lemma DecodeIsPlainIff(s: string, f: Flags)
    ensures Decode(s, f) == Plain(s, f) <==> KeepsInPlace(s, 0, 0, f)
  {
    DecodeFromIsPlain(s, 0, "", f);
    assert "" + PlainFrom(s, 0, f) == PlainFrom(s, 0, f);
  }

  /** A known entity before an unknown one is enough to lose the ampersand. */
  lemma UnknownEntityAfterShrink()
    ensures Decode("&amp;&b", TEXT) == "&ab" && Plain("&amp;&b", TEXT) == "&&b"
  {
    var s := "&amp;&b";
    assert s[1..5][0] == 'a' && s[1..4] == "amp";
    assert StartsAt(s, 1, "amp") && At(s, 4) == ';';
    assert EntityAt(s, 0, 0) == EntityAt(s, 0, 1) == 1;
    assert TokenAt(s, 0, TEXT) == Emit("&", 5);
    assert !StartsAt(s, 6, "quot") && !StartsAt(s, 6, "amp") && !StartsAt(s, 6, "apos");
    assert !StartsAt(s, 6, "lt") && !StartsAt(s, 6, "gt");
    assert EntityAt(s, 5, 0) == EntityAt(s, 5, 1) == EntityAt(s, 5, 2) == EntityAt(s, 5, 3) == EntityAt(s, 5, 4) == 5;
    assert TokenAt(s, 5, TEXT) == Keep;
    assert TokenAt(s, 6, TEXT) == Emit("b", 7);
    calc {
      Decode(s, TEXT);
      DecodeFrom(s, 5, "" + "&", TEXT);
      { assert "" + "&" == "&"; }
      DecodeFrom(s, 5, "&", TEXT);
      DecodeFrom(s, 6, "&a", TEXT);
      DecodeFrom(s, 7, "&a" + "b", TEXT);
    }
    assert PlainFrom(s, 6, TEXT) == "b" + PlainFrom(s, 7, TEXT) == "b";
    assert PlainFrom(s, 5, TEXT) == "&b";
  }

  // ----- the in-place loop -----

  /** Text `d` and a NUL at `start`, a NUL at `end`, everything else as in `b`. */
  function Splice(b: string, start: nat, end: nat, d: string): (r: string)
    requires start <= end < |b| && |d| <= end - start
    ensures |r| == |b|
    ensures r[..start] == b[..start] && r[end + 1..] == b[end + 1..]
    ensures StartsAt(r, start, d + [NUL])
  {
    var b1 := b[end := NUL];
    var r := b1[..start] + (d + [NUL]) + b1[start + |d| + 1..];
    assert r[end + 1..] == b[end + 1..] by {
      assert forall j :: end < j < |b| ==> r[j] == b[j];
    }
    r
  }

  /** The buffer after `GetStr` on an unflushed pair: decoded text, a NUL, and the old leftovers. */
  function Flushed(b: string, start: nat, end: nat, f: Flags): (r: string)
    requires start <= end < |b|
    ensures |r| == |b|
    ensures r[..start] == b[..start] && r[end + 1..] == b[end + 1..]
    ensures StartsAt(r, start, Decode(b[start..end], f) + [NUL])
  {
    Splice(b, start, end, Decode(b[start..end], f))
  }

  method StrChr(buf: array<char>, from: nat, end: nat, c: char, ghost start: nat, ghost s: string)
    returns (k: nat)
    requires start <= from <= end < buf.Length && |s| == end - start
    requires forall j :: from <= j < end ==> buf[j] == s[j - start]
    ensures k == start + FindChar(s, from - start, c)
  {
    k := from;
    while k < end && buf[k] != c
      invariant from <= k <= end
      invariant FindChar(s, k - start, c) == FindChar(s, from - start, c)
    {
      if buf[k] == NUL { return end; }
      k := k + 1;
    }
  }

  /** The digit loop: leftwards from `last` to the stop character; -1 for the early null return. */
  method ScanDigits(buf: array<char>, last: nat, stop: nat, base: nat, ghost start: nat, ghost s: string)
    returns (result: int)
    requires start <= stop <= last < start + |s| <= buf.Length
    requires forall j :: stop <= j <= last ==> buf[j] == s[j - start]
    ensures result == ScanBack(s, last - start, stop - start, base, 1, 0)
  {
    var q: nat, mult: nat, ucs: nat := last, 1, 0;
    while buf[q] != buf[stop]
      invariant stop <= q <= last
      invariant ScanBack(s, q - start, stop - start, base, mult, ucs)
             == ScanBack(s, last - start, stop - start, base, 1, 0)
      decreases q
    {
      var d := Digit(buf[q], base);
      if d < 0 { return -1; }
      mult, ucs := mult * base % W32, (ucs + mult * d % W32) % W64;
      q := q - 1;
    }
    return ucs;
  }

  /** `adjusted == -1` stands for the null return. */
  method GetCharacterRef(buf: array<char>, p: nat, end: nat, value: array<char>,
                         ghost start: nat, ghost s: string)
    returns (adjusted: int, length: nat)
    requires start <= p && p + 1 < end < buf.Length && |s| == end - start
    requires forall j :: p <= j < end ==> buf[j] == s[j - start]
    requires buf[end] == NUL && buf[p + 1] == '#' && value.Length >= 4 && value != buf
    modifies value
    ensures match CharRef(s, p - start)
            case NoRef => adjusted == -1
            case Ref(bytes, next) => adjusted == start + next && length == |bytes| && value[..length] == bytes
  {
    hide ScanBack, Utf8.Encode;
    length := 0;
    if buf[p + 2] == NUL { return p + 1, 0; }
    var hex := buf[p + 2] == 'x';
    var from := if hex then p + 3 else p + 2;
    if from == end || buf[from] == NUL { return -1, 0; }
    var k := StrChr(buf, from, end, ';', start, s);
    if k == end { return -1, 0; }
    var ucs := ScanDigits(buf, k - 1, from - 1, if hex then 16 else 10, start, s);
    if ucs < 0 { return -1, 0; }
    length := Utf8.ConvertUTF32ToUTF8(ucs, value);
    return k + 1, length;
  }

  /** `memcpy(buf + q, value, length)`. */
  method MemCpy(buf: array<char>, q: nat, value: array<char>, length: nat)
    requires q + length <= buf.Length && length <= value.Length && value != buf
    modifies buf
    ensures buf[q..q + length] == value[..length]
    ensures forall j :: 0 <= j < buf.Length && !(q <= j < q + length) ==> buf[j] == old(buf[j])
  {
    var i := 0;
    while i < length
      invariant 0 <= i <= length
      invariant forall j :: 0 <= j < i ==> buf[q + j] == value[j]
      invariant forall j :: 0 <= j < buf.Length && !(q <= j < q + i) ==> buf[j] == old(buf[j])
    {
      buf[q + i] := value[i];
      i := i + 1;
    }
  }

  method FindEntity(buf: array<char>, p: nat, end: nat, ghost start: nat, ghost s: string) returns (e: nat)
    requires start <= p < end < buf.Length && |s| == end - start
    requires forall j :: p <= j < end ==> buf[j] == s[j - start]
    ensures e == EntityAt(s, p - start, 0)
  {
    hide StartsAt;
    e := 0;
    while e < 5
      invariant 0 <= e <= 5
      invariant EntityAt(s, p - start, e) == EntityAt(s, p - start, 0)
    {
      var found := MatchesAt(buf, p, end, ENTITIES[e].0, start, s);
      if found {
        return;
      }
      e := e + 1;
    }
  }

  /** Whether the name and a semicolon follow the `&` at `p`, before the end. */
  method MatchesAt(buf: array<char>, p: nat, end: nat, name: string, ghost start: nat, ghost s: string)
      returns (found: bool)
    requires start <= p < end < buf.Length && |s| == end - start
    requires forall j :: p <= j < end ==> buf[j] == s[j - start]
    ensures found <==> StartsAt(s, p - start + 1, name) && At(s, p - start + |name| + 1) == ';'
  {
    var n := |name|;
    found := p + n + 1 < end && buf[p + 1..p + 1 + n] == name && buf[p + n + 1] == ';';
    if p + n + 1 < end {
      assert buf[p + 1..p + 1 + n] == s[p + 1 - start..p + 1 + n - start];
    }
  }

  lemma {:induction false} DecodeRaw(s: string, i: nat)
    requires i <= |s|
    ensures DecodeFrom(s, i, s[..i], RAW) == s
    decreases |s| - i
  {
    if i == |s| {
    } else {
      assert s[..i] + [s[i]] == s[..i + 1];
      DecodeRaw(s, i + 1);
    }
  }

  /** What the token at offset `i` adds to the output, and where reading goes on. */
  function Added(s: string, i: nat, k: nat, f: Flags): (r: (string, nat))
    requires k <= i < |s|
    ensures i < r.1 <= |s| && |r.0| <= r.1 - i
  {
    match TokenAt(s, i, f)
    case Emit(bytes, next) => (bytes, next)
    case Keep => ([s[k]], i + 1)
  }

  lemma DecodeUnfold(s: string, i: nat, out: string, f: Flags)
    requires |out| <= i < |s|
    ensures var a := Added(s, i, |out|, f);
            DecodeFrom(s, a.1, out + a.0, f) == DecodeFrom(s, i, out, f)
  {
    hide TokenAt;
  }

  lemma DecodeDone(s: string, out: string, f: Flags)
    requires |out| <= |s|
    ensures DecodeFrom(s, |s|, out, f) == out
  {
  }

  /** The `&` branch of the loop. */
  method DecodeReference(buf: array<char>, p: nat, q: nat, end: nat, f: Flags, value: array<char>,
                         ghost start: nat, ghost s: string)
    returns (p': nat, q': nat)
    requires start <= q <= p < end < buf.Length && |s| == end - start
    requires forall j :: q <= j < end ==> buf[j] == s[j - start]
    requires buf[end] == NUL && value.Length >= 4 && value != buf
    requires f.entities && buf[p] == '&'
    modifies buf, value
    ensures q <= q' <= p' <= end && p < p'
    ensures var a := Added(s, p - start, q - start, f); buf[q..q'] == a.0 && p' == start + a.1
    ensures forall j :: 0 <= j < buf.Length && !(q <= j < q') ==> buf[j] == old(buf[j])
  {
    hide CharRef, EntityAt;
    if buf[p + 1] == '#' {
      var adjusted, length := GetCharacterRef(buf, p, end, value, start, s);
      if adjusted == -1 {
        buf[q] := buf[p];
        p', q' := p + 1, q + 1;
      } else {
        p' := adjusted;
        MemCpy(buf, q, value, length);
        q' := q + length;
      }
    } else {
      var e := FindEntity(buf, p, end, start, s);
      if e < 5 {
        buf[q] := ENTITIES[e].1;
        p', q' := p + |ENTITIES[e].0| + 2, q + 1;
      } else {
        p', q' := p + 1, q + 1;
      }
    }
  }

  /** One iteration of the decoding loop: read the token at `p`, write behind it at `q`. */
  method DecodeStep(buf: array<char>, p: nat, q: nat, end: nat, f: Flags, value: array<char>,
                    ghost start: nat, ghost s: string)
    returns (p': nat, q': nat)
    requires start <= q <= p < end < buf.Length && |s| == end - start
    requires forall j :: q <= j < end ==> buf[j] == s[j - start]
    requires buf[end] == NUL && value.Length >= 4 && value != buf
    modifies buf, value
    ensures q <= q' <= p' <= end && p < p'
    ensures var a := Added(s, p - start, q - start, f); buf[q..q'] == a.0 && p' == start + a.1
    ensures forall j :: 0 <= j < buf.Length && !(q <= j < q') ==> buf[j] == old(buf[j])
  {
    hide CharRef, EntityAt;
    if f.newlines && buf[p] == CR {
      p' := if buf[p + 1] == LF then p + 2 else p + 1;
      buf[q] := LF;
      q' := q + 1;
    } else if f.newlines && buf[p] == LF {
      p' := if buf[p + 1] == CR then p + 2 else p + 1;
      buf[q] := LF;
      q' := q + 1;
    } else if f.entities && buf[p] == '&' {
      p', q' := DecodeReference(buf, p, q, end, f, value, start, s);
    } else {
      buf[q] := buf[p];
      p', q' := p + 1, q + 1;
    }
  }

  /** The terminator may be written first. */
  lemma Terminated(b: string, start: nat, end: nat, f: Flags)
    requires start <= end < |b|
    ensures Flushed(b[end := NUL], start, end, f) == Flushed(b, start, end, f)
  {
    assert b[end := NUL][start..end] == b[start..end];
  }

  /** Raw text is only terminated. */
  lemma RawFlushed(b: string, start: nat, end: nat)
    requires start <= end < |b|
    ensures Flushed(b, start, end, RAW) == b[end := NUL]
  {
    var s := b[start..end];
    DecodeRaw(s, 0);
    assert s[..0] == "";
  }

  class Pair {
    var start: nat
    var end: nat
    var needsFlush: bool
    var flags: Flags

    constructor (start: nat, end: nat, flags: Flags)
      ensures this.start == start && this.end == end && this.flags == flags && needsFlush
    {
      this.start, this.end, this.flags, this.needsFlush := start, end, flags, true;
    }

    /** The text is at `buf[start..]` up to the NUL; a second call finds it already decoded. */
    method GetStr(buf: array<char>) returns (p: nat)
      requires start <= end < buf.Length
      modifies this, buf
      ensures p == start == old(start) && end == old(end) && !needsFlush
      ensures old(needsFlush) ==> buf[..] == Flushed(old(buf[..]), start, end, old(flags))
      ensures !old(needsFlush) ==> buf[..] == old(buf[..])
    {
      hide Flushed;
      if needsFlush {
        ghost var b := buf[..];
        ghost var s := b[start..end];
        buf[end] := NUL;
        assert buf[..] == b[end := NUL];
        needsFlush := false;
        if flags != RAW {
          Terminated(b, start, end, flags);
          DecodeLoop(buf, start, end, flags, s);
          flags := RAW;
        } else {
          RawFlushed(b, start, end);
        }
      }
      p := start;
    }
  }

  lemma SpliceIs(b: string, start: nat, end: nat, d: string, r: string)
    requires start <= end < |b| == |r| && |d| <= end - start
    requires r[start..start + |d|] == d && r[start + |d|] == NUL && b[end] == NUL
    requires forall j :: 0 <= j < |r| && !(start <= j <= start + |d|) ==> r[j] == b[j]
    ensures r == Splice(b, start, end, d)
  {
    assert b[end := NUL] == b;
    assert r[..start] == b[..start];
    assert r[start + |d| + 1..] == b[start + |d| + 1..];
    assert r == r[..start] + r[start..start + |d|] + [r[start + |d|]] + r[start + |d| + 1..];
  }

  /** The two-cursor loop; the read cursor never falls behind the write cursor. */
  method DecodeLoop(buf: array<char>, start: nat, end: nat, f: Flags, ghost s: string)
    requires start <= end < buf.Length && s == buf[start..end] && buf[end] == NUL
    modifies buf
    ensures buf[..] == Flushed(old(buf[..]), start, end, f)
  {
    hide TokenAt, Added, Splice, DecodeFrom;
    var value := new char[10];
    var p, q := start, start;
    ghost var b, out := buf[..], "";
    while p < end
      invariant start <= q <= p <= end && q == start + |out|
      invariant DecodeFrom(s, p - start, out, f) == Decode(s, f)
      invariant buf[start..q] == out
      invariant forall j :: 0 <= j < buf.Length && !(start <= j < q) ==> buf[j] == b[j]
    {
      ghost var i, was := p - start, q;
      p, q := DecodeStep(buf, p, q, end, f, value, start, s);
      DecodeUnfold(s, i, out, f);
      out := out + buf[was..q];
    }
    buf[q] := NUL;
    assert out == Decode(s, f) by {
      DecodeDone(s, out, f);
    }
    SpliceIs(b, start, end, out, buf[..]);
  }
}
