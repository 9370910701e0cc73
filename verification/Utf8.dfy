/**
  UTF-8 as `XMLUtil::ConvertUTF32ToUTF8` writes it (section 3 of RFC 3629, extended to all code
  points below 0x200000), with a decoder proved to invert it on whole sequences.
  */
module Utf8 {
  const LIMIT: nat := 0x200000

  function Cont(u: nat): char {
    (0x80 + u % 64) as char
  }

  /** Code points from 0x200000 on are not converted: nothing is written. */
  function Encode(u: nat): (r: string)
    ensures |r| <= 4
    ensures |r| == 0 <==> u >= LIMIT
    ensures u < 0x80 ==> |r| == 1
  {
    if u < 0x80 then [u as char]
    else if u < 0x800 then [(0xC0 + u / 64) as char, Cont(u)]
    else if u < 0x10000 then [(0xE0 + u / 4096) as char, Cont(u / 64), Cont(u)]
    else if u < LIMIT then [(0xF0 + u / 262144) as char, Cont(u / 4096), Cont(u / 64), Cont(u)]
    else ""
  }

  // ----- the source's masks and shifts -----

  function BitOr(a: nat, b: nat): nat
    decreases a + b
  {
    if a == 0 && b == 0 then 0 else 2 * BitOr(a / 2, b / 2) + if a % 2 == 1 || b % 2 == 1 then 1 else 0
  }

  function BitAnd(a: nat, b: nat): nat
    decreases a + b
  {
    if a == 0 && b == 0 then 0 else 2 * BitAnd(a / 2, b / 2) + if a % 2 == 1 && b % 2 == 1 then 1 else 0
  }

  function Power2(k: nat): nat
    ensures Power2(k) > 0
  {
    if k == 0 then 1 else 2 * Power2(k - 1)
  }

  lemma PowersOfTwo()
    ensures Power2(3) == 8 && Power2(4) == 16 && Power2(5) == 32 && Power2(6) == 64 && Power2(7) == 128
  {
  }

  function ShiftRight(a: nat, n: nat): nat {
    if n == 0 then a else ShiftRight(a / 2, n - 1)
  }

  lemma ShiftBySix(x: nat)
    ensures ShiftRight(x, 6) == x / 64
  {
    assert ShiftRight(x, 6) == ShiftRight(x / 2, 5) == ShiftRight(x / 2 / 2, 4) == ShiftRight(x / 2 / 2 / 2, 3);
    assert ShiftRight(x / 2 / 2 / 2, 3) == ShiftRight(x / 2 / 2 / 2 / 2, 2) == ShiftRight(x / 2 / 2 / 2 / 2 / 2, 1);
    assert ShiftRight(x / 2 / 2 / 2 / 2 / 2, 1) == x / 2 / 2 / 2 / 2 / 2 / 2;
  }

  lemma {:induction false} OrNothing(x: nat)
    ensures BitOr(0, x) == x == BitOr(x, 0)
  {
    if x == 0 {
    } else {
      OrNothing(x / 2);
    }
  }

  lemma {:induction false} AndNothing(x: nat)
    ensures BitAnd(x, 0) == 0
  {
    if x == 0 {
    } else {
      AndNothing(x / 2);
    }
  }

  /** One bit of `x` under a mark that has no bit there and a mask that has one. */
  lemma MaskBit(x: nat, mark: nat, mask: nat)
    ensures BitAnd(BitOr(x, 2 * mark), 2 * mask + 1) == 2 * BitAnd(BitOr(x / 2, mark), mask) + x % 2
  {
    var y := BitOr(x, 2 * mark);
    assert y == 2 * BitOr(x / 2, mark) + x % 2;
    assert y / 2 == BitOr(x / 2, mark) && y % 2 == x % 2;
  }

  lemma MaskThree(x: nat, mark: nat, mask: nat)
    ensures BitAnd(BitOr(x, 8 * mark), 8 * mask + 7) == 8 * BitAnd(BitOr(x / 8, mark), mask) + x % 8
  {
    hide BitAnd, BitOr;
    MaskBit(x, 4 * mark, 4 * mask + 3);
    MaskBit(x / 2, 2 * mark, 2 * mask + 1);
    MaskBit(x / 2 / 2, mark, mask);
    assert x / 2 / 2 / 2 == x / 8;
  }

  lemma TopBits(x: nat)
    ensures BitAnd(BitOr(x, 2), 2) == 2
  {
    var y, z := BitOr(x, 2), BitOr(x / 2, 1);
    AndNothing(z / 2);
    assert y == 2 * z + x % 2 && z % 2 == 1;
    assert y / 2 == z && BitAnd(z, 1) == 1;
  }

  /** A continuation byte: the mark is set, the bit below it cleared, and six bits are kept. */
  lemma ContinuationByte(x: nat)
    ensures BitAnd(BitOr(x, 0x80), 0xBF) == 0x80 + x % 64
  {
    hide BitAnd, BitOr;
    MaskThree(x, 16, 23);
    MaskThree(x / 8, 2, 2);
    TopBits(x / 8 / 8);
  }

  /** A mark above all bits of `x` is added. */
  lemma {:induction false} OrAbove(x: nat, a: nat, k: nat)
    requires x < Power2(k)
    ensures BitOr(x, a * Power2(k)) == a * Power2(k) + x
  {
    if k == 0 {
      OrNothing(a);
    } else {
      var m := a * Power2(k - 1);
      assert a * Power2(k) == 2 * m;
      OrAbove(x / 2, a, k - 1);
      OrNothing(x);
    }
  }

  lemma LeadByte(x: nat, length: nat)
    requires 1 <= length <= 4 && x < [0, 128, 32, 16, 8][length]
    ensures BitOr(x, MARKS[length]) == MARKS[length] + x
  {
    hide BitOr, Power2;
    PowersOfTwo();
    if length == 1 {
      OrNothing(x);
    } else if length == 2 {
      OrAbove(x, 6, 5);
    } else if length == 3 {
      OrAbove(x, 14, 4);
    } else {
      OrAbove(x, 30, 3);
    }
  }

  const MARKS: seq<nat> := [0x00, 0x00, 0xC0, 0xE0, 0xF0]

  /** The source fills the output from its last byte backwards, falling through the cases. */
  method ConvertUTF32ToUTF8(ucs: nat, output: array<char>) returns (length: nat)
    requires output.Length >= 4
    modifies output
    ensures length == |Encode(ucs)|
    ensures output[..length] == Encode(ucs)
    ensures output[length..] == old(output[length..])
  {
    hide BitOr, BitAnd, ShiftRight;
    var input := ucs;
    if input < 0x80 {
      length := 1;
    } else if input < 0x800 {
      length := 2;
    } else if input < 0x10000 {
      length := 3;
    } else if input < LIMIT {
      length := 4;
    } else {
      length := 0;
      return;
    }
    var at := length;
    while at > 1
      invariant 1 <= at <= length
      invariant input == if length == at then ucs
                         else if length == at + 1 then ucs / 64
                         else if length == at + 2 then ucs / 64 / 64
                         else ucs / 64 / 64 / 64
      invariant forall k :: at <= k < length ==> output[k] == Encode(ucs)[k]
      invariant output[length..] == old(output[length..])
    {
      at := at - 1;
      ContinuationByte(input);
      ShiftBySix(input);
      output[at] := BitAnd(BitOr(input, 0x80), 0xBF) as char;
      input := ShiftRight(input, 6);
    }
    LeadByte(input, length);
    output[0] := BitOr(input, MARKS[length]) as char;
    assert output[..length] == Encode(ucs);
  }

  function EncodeAll(us: seq<nat>): string {
    if us == [] then "" else Encode(us[0]) + EncodeAll(us[1..])
  }

  /** Number of bytes a lead byte announces. */
  function LeadLength(c: char): nat {
    if c as int < 0x80 then 1
    else if c as int < 0xE0 then 2
    else if c as int < 0xF0 then 3
    else 4
  }

  function Payload(c: char): int {
    c as int - 0x80
  }

  /** The code point spelled by the first `LeadLength(s[0])` bytes. */
  function First(s: string): int
    requires s != "" && LeadLength(s[0]) <= |s|
  {
    var n := LeadLength(s[0]);
    if n == 1 then s[0] as int
    else if n == 2 then (s[0] as int - 0xC0) * 64 + Payload(s[1])
    else if n == 3 then (s[0] as int - 0xE0) * 4096 + Payload(s[1]) * 64 + Payload(s[2])
    else (s[0] as int - 0xF0) * 262144 + Payload(s[1]) * 4096 + Payload(s[2]) * 64 + Payload(s[3])
  }

  /** Reads code points off a byte string; stops at a truncated tail. */
  function Decode(s: string): seq<int>
    decreases |s|
  {
    if s == "" || LeadLength(s[0]) > |s| then []
    else [First(s)] + Decode(s[LeadLength(s[0])..])
  }

  lemma Digits64(u: nat)
    ensures u == 64 * (u / 64) + u % 64
    ensures u / 64 == 64 * (u / 4096) + u / 64 % 64
    ensures u / 4096 == 64 * (u / 262144) + u / 4096 % 64
  {
  }

  lemma FirstOfEncode(u: nat, rest: string)
    requires u < LIMIT
    ensures var s := Encode(u) + rest;
            LeadLength(s[0]) == |Encode(u)| && First(s) == u
  {
    Digits64(u);
    var s, t := Encode(u) + rest, Encode(u);
    assert s[0] == t[0];
    if u < 0x80 {
    } else if u < 0x800 {
      assert s[1] == t[1];
    } else if u < 0x10000 {
      assert s[1] == t[1] && s[2] == t[2];
    } else {
      assert s[1] == t[1] && s[2] == t[2] && s[3] == t[3];
    }
  }

  lemma DecodeFirst(u: nat, rest: string)
    requires u < LIMIT
    ensures Decode(Encode(u) + rest) == [u as int] + Decode(rest)
  {
    FirstOfEncode(u, rest);
    assert (Encode(u) + rest)[|Encode(u)|..] == rest;
  }

  /** A concatenation of encodings has only one reading. */
  lemma {:induction false} DecodesUniquely(us: seq<nat>)
    requires forall i :: 0 <= i < |us| ==> us[i] < LIMIT
    ensures Decode(EncodeAll(us)) == us
  {
    if us == [] {
    } else {
      DecodeFirst(us[0], EncodeAll(us[1..]));
      DecodesUniquely(us[1..]);
      assert [us[0]] + us[1..] == us;
    }
  }
}
