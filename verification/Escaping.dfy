/**
  The escaping side of text: what `XMLPrinter::PrintString` emits, numeric character references,
  and that `StrPair` decoding undoes both.
  */
module Escaping {
  import opened XmlChars
  import opened StrPair
  import Utf8

  /** Entry of `ENTITIES` that replaces `c`; 5 when `c` is printed as it is. */
  function EntityFor(c: char, full: bool): (e: nat)
    ensures e <= 5
    ensures e < 5 ==> ENTITIES[e].1 == c
    ensures e == 5 ==> c != '&' && c != '<' && c != '>'
    ensures e == 5 && full ==> c != '\"' && c != '\''
    ensures e < 5 && !full ==> c != '\"' && c != '\''
  {
    if full && c == '\"' then 0
    else if c == '&' then 1
    else if full && c == '\'' then 2
    else if c == '<' then 3
    else if c == '>' then 4
    else 5
  }

  function EscapeChar(c: char, full: bool): (r: string)
    ensures r != ""
  {
    var e := EntityFor(c, full);
    if e == 5 then [c] else "&" + ENTITIES[e].0 + ";"
  }

  function Escape(t: string, full: bool): string {
    if t == "" then "" else EscapeChar(t[0], full) + Escape(t[1..], full)
  }

  lemma {:induction false} EscapeConcat(a: string, b: string, full: bool)
    ensures Escape(a + b, full) == Escape(a, full) + Escape(b, full)
  {
    hide EscapeChar;
    if a == "" {
      assert a + b == b;
    } else {
      assert (a + b)[1..] == a[1..] + b;
      EscapeConcat(a[1..], b, full);
    }
  }

  lemma EscapeEmpty(full: bool)
    ensures Escape("", full) == ""
  {
  }

  lemma EscapeSingle(c: char, full: bool)
    ensures Escape([c], full) == EscapeChar(c, full)
  {
    assert [c][1..] == "";
    assert Escape([c], full) == EscapeChar(c, full) + "";
  }

  predicate Free(t: string, c: char) {
    forall i :: 0 <= i < |t| ==> t[i] != c
  }

  /** Escaped text never contains `<` or `>`, and escaped attribute values contain no quote of either kind. */
  lemma {:induction false} EscapeAvoids(t: string, full: bool)
    ensures Free(Escape(t, full), '<') && Free(Escape(t, full), '>')
    ensures full ==> Free(Escape(t, full), '\"') && Free(Escape(t, full), '\'')
  {
    if t == "" {
    } else {
      EscapeAvoids(t[1..], full);
    }
  }

  lemma {:induction false} EscapeNulFree(t: string, full: bool)
    requires Free(t, NUL)
    ensures Free(Escape(t, full), NUL)
  {
    if t == "" {
    } else {
      EscapeNulFree(t[1..], full);
    }
  }

  // ----- escaped text decodes to itself -----

  lemma EntityFound(s: string, i: nat, e: nat)
    requires i < |s| && e < 5 && StartsAt(s, i + 1, ENTITIES[e].0) && At(s, i + |ENTITIES[e].0| + 1) == ';'
    ensures EntityAt(s, i, 0) == e
  {
    var p := ENTITIES[e].0;
    assert s[i + 1] == p[0] && s[i + 2] == p[1] by {
      StartsAtIndex(s, i + 1, p, 0);
      StartsAtIndex(s, i + 1, p, 1);
    }
    EntityFoundFrom(s, i, e, e);
  }

  lemma EntityFoundFrom(s: string, i: nat, e: nat, k: nat)
    requires i + 2 < |s| && k <= e < 5
    requires s[i + 1] == ENTITIES[e].0[0] && s[i + 2] == ENTITIES[e].0[1]
    requires StartsAt(s, i + 1, ENTITIES[e].0) && At(s, i + |ENTITIES[e].0| + 1) == ';'
    requires EntityAt(s, i, k) == e
    ensures EntityAt(s, i, 0) == e
  {
    if k == 0 {
    } else {
      var p := ENTITIES[k - 1].0;
      if StartsAt(s, i + 1, p) {
        StartsAtIndex(s, i + 1, p, 0);
        StartsAtIndex(s, i + 1, p, 1);
      }
      EntityFoundFrom(s, i, e, k - 1);
    }
  }

  lemma EscapedToken(s: string, i: nat, c: char, full: bool)
    requires StartsAt(s, i, EscapeChar(c, full))
    requires c != CR && (c == LF ==> At(s, i + |EscapeChar(c, full)|) != CR)
    ensures TokenAt(s, i, TEXT) == Emit([c], i + |EscapeChar(c, full)|)
  {
    hide TokenAt, StartsAt;
    var e := EntityFor(c, full);
    if e < 5 {
      NamedToken(s, i, e);
    } else {
      PlainToken(s, i, c);
    }
  }

  lemma NamedToken(s: string, i: nat, e: nat)
    requires e < 5 && StartsAt(s, i, "&" + ENTITIES[e].0 + ";")
    ensures i < |s| && TokenAt(s, i, TEXT) == Emit([ENTITIES[e].1], i + |ENTITIES[e].0| + 2)
  {
    hide CharRef, EntityAt, StartsAt;
    var p := ENTITIES[e].0;
    StartsAtConcat(s, i, "&" + p, ";");
    StartsAtConcat(s, i, "&", p);
    StartsAtIndex(s, i, "&", 0);
    StartsAtIndex(s, i + 1 + |p|, ";", 0);
    StartsAtIndex(s, i + 1, p, 0);
    EntityFound(s, i, e);
  }

  lemma PlainToken(s: string, i: nat, c: char)
    requires StartsAt(s, i, [c]) && c != '&' && c != CR && (c == LF ==> At(s, i + 1) != CR)
    ensures i < |s| && TokenAt(s, i, TEXT) == Emit([c], i + 1)
  {
    hide CharRef, EntityAt;
    StartsAtIndex(s, i, [c], 0);
  }

  lemma EscapeStart(t: string, full: bool)
    requires t != "" && t[0] != CR
    ensures var e := Escape(t, full); e != "" && e[0] != CR
  {
  }

  lemma EscapeSplit(s: string, i: nat, t: string, full: bool)
    requires i <= |s| && s[i..] == Escape(t, full) && t != "" && Free(t, CR)
    ensures var e := EscapeChar(t[0], full);
            && StartsAt(s, i, e)
            && s[i + |e|..] == Escape(t[1..], full)
            && At(s, i + |e|) != CR
  {
    hide EscapeChar;
    var e := EscapeChar(t[0], full);
    assert s[i..][|e|..] == s[i + |e|..];
    assert s[i..i + |e|] == s[i..][..|e|];
    if t[1..] != "" {
      EscapeStart(t[1..], full);
      assert s[i + |e|..][0] == s[i + |e|];
    }
  }

  /** Also: no read meets an unknown entity, so the in-place result is the same. */
  lemma {:induction false} UnescapeFrom(s: string, i: nat, k: nat, t: string, full: bool)
    requires k <= i <= |s| && s[i..] == Escape(t, full) && Free(t, CR)
    ensures PlainFrom(s, i, TEXT) == t
    ensures KeepsInPlace(s, i, k, TEXT)
    decreases |t|
  {
    hide TokenAt, EscapeChar;
    if t == "" {
    } else {
      EscapeSplit(s, i, t, full);
      EscapedToken(s, i, t[0], full);
      UnescapeFrom(s, i + |EscapeChar(t[0], full)|, k + 1, t[1..], full);
      assert [t[0]] + t[1..] == t;
    }
  }

  /** What `PrintString` emits, in either mode, `GetStr` decodes back in place. */
  lemma DecodeEscape(t: string, full: bool)
    requires Free(t, CR)
    ensures Decode(Escape(t, full), TEXT) == t
  {
    var s := Escape(t, full);
    assert s[0..] == s;
    UnescapeFrom(s, 0, 0, t, full);
    DecodeIsPlainIff(s, TEXT);
  }

  /** CDATA, comments and the like are only newline-normalised: CR-free text is left alone. */
  lemma {:induction false} MarkupFrom(s: string, i: nat)
    requires i <= |s| && Free(s, CR)
    ensures DecodeFrom(s, i, s[..i], MARKUP) == s
    decreases |s| - i
  {
    if i == |s| {
    } else {
      assert s[..i] + [s[i]] == s[..i + 1];
      MarkupFrom(s, i + 1);
    }
  }

  lemma DecodeMarkup(s: string)
    requires Free(s, CR)
    ensures Decode(s, MARKUP) == s
  {
    MarkupFrom(s, 0);
    assert s[..0] == "";
  }

  // ----- numeric references -----

  const LOWER := "0123456789abcdef"
  const UPPER := "0123456789ABCDEF"

  /** A digit is worth its place in the alphabet of its base, in either case. */
  lemma DigitIs(c: char, base: nat, v: nat)
    requires base == 10 || base == 16
    ensures Digit(c, base) == v <==> v < base && (LOWER[v] == c || UPPER[v] == c)
  {
    assert |LOWER| == 16 == |UPPER|;
    if v < 10 {
      assert LOWER[v] == UPPER[v] == '0' + v as char;
    } else if v < 16 {
      assert LOWER[v] == 'a' + (v - 10) as char && UPPER[v] == 'A' + (v - 10) as char;
    }
  }

  predicate AllDigits(d: string, base: nat) {
    forall i :: 0 <= i < |d| ==> Digit(d[i], base) >= 0
  }

  datatype Numeral = Numeral(digits: string, base: nat) {
    /** At most 8 hexadecimal or 9 decimal digits, so that the 32-bit multiplier does not wrap. */
    predicate Valid() {
      && ((base == 16 && 1 <= |digits| <= 8) || (base == 10 && 1 <= |digits| <= 9))
      && AllDigits(digits, base)
    }

    function Text(): string {
      (if base == 16 then "&#x" else "&#") + digits + ";"
    }
  }

  type Reference = n: Numeral | n.Valid() witness Numeral("0", 10)

  function Value(d: string, base: nat): nat
    requires AllDigits(d, base)
  {
    if d == "" then 0 else Value(d[..|d| - 1], base) * base + Digit(d[|d| - 1], base)
  }

  function Pow(b: nat, n: nat): nat {
    if n == 0 then 1 else b * Pow(b, n - 1)
  }

  function MaxDigits(base: nat): nat {
    if base == 16 then 8 else 9
  }

  lemma PowSmall(base: nat, m: nat)
    requires (base == 10 || base == 16) && m <= MaxDigits(base)
    ensures 1 <= Pow(base, m) <= W32
    ensures m < MaxDigits(base) ==> Pow(base, m) < W32
  {
    assert Pow(16, 2) == 256 && Pow(10, 2) == 100;
    assert Pow(16, 4) == 0x1_0000 && Pow(10, 4) == 10_000;
    assert Pow(16, 6) == 0x100_0000 && Pow(10, 6) == 1_000_000;
    assert Pow(16, 8) == W32 && Pow(10, 8) == 100_000_000;
  }

  lemma Regroup(p: nat, p': nat, b: nat, v: nat, d: nat, u: nat)
    requires p' == p * b
    ensures u + p * d + p' * v == u + p * (v * b + d)
  {
    assert p' * v == p * (b * v) == p * (v * b);
    assert p * (v * b + d) == p * (v * b) + p * d;
  }

  lemma ScanStep(s: string, q: nat, lo: nat, base: nat, mult: nat, ucs: nat)
    requires lo < q < |s| && s[q] != s[lo] && Digit(s[q], base) >= 0
    requires mult * Digit(s[q], base) < W32 && ucs <= 9 * W32
    ensures ScanBack(s, q, lo, base, mult, ucs)
         == ScanBack(s, q - 1, lo, base, mult * base % W32, ucs + mult * Digit(s[q], base))
  {
    hide Digit;
    NoWrap(ucs, mult * Digit(s[q], base));
  }

  lemma NoWrap(ucs: nat, x: nat)
    requires x < W32 && ucs <= 9 * W32
    ensures (ucs + x % W32) % W64 == ucs + x
  {
  }

  lemma DigitFacts(c: char, base: nat)
    requires base == 10 || base == 16
    ensures Digit(c, base) < base
    ensures Digit(c, base) >= 0 ==> c != 'x' && c != '#' && c != ';' && c != NUL
  {
  }

  lemma Below(p: nat, d: nat, b: nat)
    requires d < b && 1 <= p && b * p <= W32
    ensures p * d < W32
  {
    assert p * d <= p * (b - 1);
  }

  /** The last digit of the run, and what is left of it. */
  lemma LastDigit(s: string, q: nat, lo: nat, base: nat)
    requires lo < q < |s| && AllDigits(s[lo + 1..q + 1], base)
    ensures AllDigits(s[lo + 1..q], base) && Digit(s[q], base) >= 0
    ensures Value(s[lo + 1..q + 1], base) == Value(s[lo + 1..q], base) * base + Digit(s[q], base)
  {
    hide Digit;
    var d, init := s[lo + 1..q + 1], s[lo + 1..q];
    assert d[..|d| - 1] == init && d[|d| - 1] == s[q];
    assert forall i :: 0 <= i < |init| ==> init[i] == d[i];
  }

  lemma Weights(base: nat, m: nat, v: nat)
    requires (base == 10 || base == 16) && m < MaxDigits(base) && v < base
    ensures 1 <= Pow(base, m) < W32 && Pow(base, m + 1) == Pow(base, m) * base && Pow(base, m) * v < W32
  {
    PowSmall(base, m);
    PowSmall(base, m + 1);
    Below(Pow(base, m), v, base);
  }

  /** The right-to-left loop of the source computes the left-to-right value. */
  lemma {:induction false} ScanBackValue(s: string, q: nat, lo: nat, base: nat, m: nat, ucs: nat)
    requires lo <= q < |s| && ((base == 16 && s[lo] == 'x') || (base == 10 && s[lo] == '#'))
    requires m + (q - lo) <= MaxDigits(base) && ucs <= m * W32
    requires AllDigits(s[lo + 1..q + 1], base)
    ensures ScanBack(s, q, lo, base, Pow(base, m) % W32, ucs) == ucs + Pow(base, m) * Value(s[lo + 1..q + 1], base)
    decreases q
  {
    hide Digit, ScanBack, Pow, Value, AllDigits;
    if lo < q {
      var v, mult := Digit(s[q], base), Pow(base, m);
      LastDigit(s, q, lo, base);
      DigitFacts(s[q], base);
      Weights(base, m, v);
      assert mult % W32 == mult;
      ScanStep(s, q, lo, base, mult, ucs);
      ScanBackValue(s, q - 1, lo, base, m + 1, ucs + mult * v);
      Regroup(mult, Pow(base, m + 1), base, Value(s[lo + 1..q], base), v, ucs);
    } else {
      NoDigits(s, q, base);
      ScanStops(s, q, base, Pow(base, m) % W32, ucs);
    }
  }

  lemma NoDigits(s: string, q: nat, base: nat)
    requires q < |s|
    ensures AllDigits(s[q + 1..q + 1], base) && Value(s[q + 1..q + 1], base) == 0
  {
  }

  lemma ScanStops(s: string, lo: nat, base: nat, mult: nat, ucs: nat)
    requires lo < |s|
    ensures ScanBack(s, lo, lo, base, mult, ucs) == ucs
  {
  }

  lemma NumeralLayout(s: string, i: nat, n: Reference)
    requires StartsAt(s, i, n.Text())
    ensures var from := i + |n.Text()| - 1 - |n.digits|; var k := from + |n.digits|;
            && from == i + (if n.base == 16 then 3 else 2)
            && k < |s| && s[i] == '&' && s[i + 1] == '#' && s[k] == ';'
            && s[from..k] == n.digits
            && (n.base == 16 ==> s[i + 2] == 'x')
  {
    var head := if n.base == 16 then "&#x" else "&#";
    StartsAtConcat(s, i, head + n.digits, ";");
    StartsAtConcat(s, i, head, n.digits);
    StartsAtIndex(s, i, head, 0);
    StartsAtIndex(s, i, head, 1);
    StartsAtIndex(s, i, head, |head| - 1);
    StartsAtIndex(s, i + |head| + |n.digits|, ";", 0);
  }

  /** A reference at `i` is read in full and yields the encoding of its value. */
  lemma NumeralRef(s: string, i: nat, n: Reference)
    requires StartsAt(s, i, n.Text())
    ensures s[i] == '&' && At(s, i + 1) == '#'
    ensures CharRef(s, i) == Ref(Utf8.Encode(Value(n.digits, n.base)), i + |n.Text()|)
  {
    hide ScanBack, Utf8.Encode, Value;
    NumeralLayout(s, i, n);
    var k := i + |n.Text()| - 1;
    var from := k - |n.digits|;
    forall j | from <= j < k
      ensures s[j] != 'x' && s[j] != ';' && s[j] != NUL
    {
      assert s[j] == n.digits[j - from];
      DigitFacts(s[j], n.base);
    }
    FindSkips(s, from, k, ';');
    assert Pow(n.base, 0) == 1;
    ScanBackValue(s, k - 1, from - 1, n.base, 0, 0);
  }

  lemma NumeralToken(s: string, i: nat, n: Reference)
    requires StartsAt(s, i, n.Text())
    ensures i < |s| && TokenAt(s, i, TEXT) == Emit(Utf8.Encode(Value(n.digits, n.base)), i + |n.Text()|)
  {
    hide CharRef, EntityAt, Utf8.Encode, Value;
    NumeralRef(s, i, n);
  }

  lemma {:induction false} FindSkips(s: string, from: nat, k: nat, c: char)
    requires from <= k < |s| && s[k] == c
    requires forall j :: from <= j < k ==> s[j] != c && s[j] != NUL
    ensures FindChar(s, from, c) == k
    decreases k - from
  {
    if from == k {
    } else {
      FindSkips(s, from + 1, k, c);
    }
  }

  function NumeralText(ns: seq<Reference>): string {
    if ns == [] then "" else ns[0].Text() + NumeralText(ns[1..])
  }

  function Values(ns: seq<Reference>): (r: seq<nat>)
    ensures |r| == |ns|
    ensures forall i :: 0 <= i < |ns| ==> r[i] == Value(ns[i].digits, ns[i].base)
  {
    if ns == [] then [] else [Value(ns[0].digits, ns[0].base)] + Values(ns[1..])
  }

  lemma EmitStep(s: string, i: nat, k: nat, f: Flags, bytes: string, next: nat)
    requires k <= i < |s| && TokenAt(s, i, f) == Emit(bytes, next) && KeepsInPlace(s, next, k + |bytes|, f)
    ensures PlainFrom(s, i, f) == bytes + PlainFrom(s, next, f)
    ensures KeepsInPlace(s, i, k, f)
  {
    hide TokenAt;
  }

  lemma NoMore(s: string, k: nat, f: Flags)
    requires k <= |s|
    ensures PlainFrom(s, |s|, f) == "" && KeepsInPlace(s, |s|, k, f) && Utf8.EncodeAll(Values([])) == ""
  {
  }

  lemma EncodeFirst(ns: seq<Reference>)
    requires ns != []
    ensures Utf8.EncodeAll(Values(ns)) == Utf8.Encode(Value(ns[0].digits, ns[0].base)) + Utf8.EncodeAll(Values(ns[1..]))
  {
    hide Utf8.Encode, Value;
    assert Values(ns)[1..] == Values(ns[1..]);
  }

  lemma {:induction false} NumeralsFrom(s: string, i: nat, k: nat, ns: seq<Reference>)
    requires k <= i <= |s| && s[i..] == NumeralText(ns)
    ensures PlainFrom(s, i, TEXT) == Utf8.EncodeAll(Values(ns))
    ensures KeepsInPlace(s, i, k, TEXT)
    decreases |ns|
  {
    hide TokenAt, Utf8.Encode, Value, Values, Reference.Text, PlainFrom, KeepsInPlace, Utf8.EncodeAll;
    if ns == [] {
      NoMore(s, k, TEXT);
    } else {
      var t := ns[0].Text();
      assert s[i..i + |t|] == s[i..][..|t|];
      assert s[i + |t|..] == s[i..][|t|..];
      NumeralToken(s, i, ns[0]);
      var bytes := Utf8.Encode(Value(ns[0].digits, ns[0].base));
      NumeralsFrom(s, i + |t|, k + |bytes|, ns[1..]);
      EmitStep(s, i, k, TEXT, bytes, i + |t|);
      EncodeFirst(ns);
    }
  }

  /** A text of numeric references decodes to the UTF-8 of their code points, read back uniquely. */
  lemma DecodeNumerals(ns: seq<Reference>)
    ensures Decode(NumeralText(ns), TEXT) == Utf8.EncodeAll(Values(ns))
    ensures (forall i :: 0 <= i < |ns| ==> Values(ns)[i] < Utf8.LIMIT) ==>
              Utf8.Decode(Decode(NumeralText(ns), TEXT)) == Values(ns)
  {
    var s := NumeralText(ns);
    assert s[0..] == s;
    NumeralsFrom(s, 0, 0, ns);
    DecodeIsPlainIff(s, TEXT);
    if forall i :: 0 <= i < |ns| ==> Values(ns)[i] < Utf8.LIMIT {
      Utf8.DecodesUniquely(Values(ns));
    }
  }
}
