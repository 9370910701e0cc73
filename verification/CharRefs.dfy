/**
  What every token of a text stands for, said without the decoder: line ends, the five named references,
  numeric references of any length, and everything that only looks like one of them.
  */
module CharRefs {
  import opened XmlChars
  import opened StrPair
  import opened Escaping
  import Utf8

  // ----- arithmetic modulo 2^32 -----

  lemma {:induction false} ModAdd(x: nat, k: nat)
    ensures (x + k * W32) % W32 == x % W32
  {
    if k == 0 {
    } else {
      ModAdd(x, k - 1);
      assert x + k * W32 == x + (k - 1) * W32 + W32;
    }
  }

  lemma ModMul(a: nat, b: nat)
    ensures a % W32 * b % W32 == a * b % W32
  {
    var k, r := a / W32, a % W32;
    assert a * b == r * b + k * b * W32 by {
      assert a == k * W32 + r;
      Distribute(k * W32, r, b);
      assert k * W32 * b == k * b * W32;
    }
    ModAdd(r * b, k * b);
  }

  lemma Distribute(a: int, b: int, c: int)
    ensures (a + b) * c == a * c + b * c
  {
  }

  lemma {:induction false} PowSum(b: nat, m: nat, n: nat)
    ensures Pow(b, m + n) == Pow(b, m) * Pow(b, n)
  {
    if m == 0 {
    } else {
      PowSum(b, m - 1, n);
      assert b * (Pow(b, m - 1) * Pow(b, n)) == b * Pow(b, m - 1) * Pow(b, n);
    }
  }

  lemma PowNext(b: nat, m: nat)
    ensures Pow(b, m + 1) == Pow(b, m) * b
  {
  }

  lemma PowEight(base: nat)
    requires base == 10 || base == 16
    ensures Pow(base, 8) == if base == 10 then 100_000_000 else W32
  {
    assert Pow(base, 4) == if base == 10 then 10_000 else 0x1_0000;
    hide Pow;
    PowSum(base, 4, 4);
  }

  lemma PowThirtyTwo(base: nat)
    requires base == 10 || base == 16
    ensures Pow(base, 32) % W32 == 0
  {
    hide Pow;
    PowEight(base);
    PowSum(base, 8, 8);
    PowSum(base, 16, 16);
    ModMul(Pow(base, 16), Pow(base, 16));
    if base == 10 {
      assert Pow(base, 16) == 10_000_000_000_000_000;
    } else {
      assert Pow(base, 16) == W64;
    }
  }

  /** From the 32nd digit on, in either base, the 32-bit multiplier is zero. */
  lemma {:induction false} PowVanishes(base: nat, m: nat)
    requires (base == 10 || base == 16) && m >= 32
    ensures Pow(base, m) % W32 == 0
  {
    hide Pow;
    if m == 32 {
      PowThirtyTwo(base);
    } else {
      PowVanishes(base, m - 1);
      ModMul(Pow(base, m - 1), base);
      PowNext(base, m - 1);
    }
  }

  // ----- the worth of a run of digits -----

  /** Digit by digit from the right, each one's share taken modulo 2^32; `m` digits come before. */
  function Worth(d: string, base: nat, m: nat): nat
    requires AllDigits(d, base)
    decreases d
  {
    if d == "" then 0
    else Pow(base, m) * Digit(d[|d| - 1], base) % W32 + Worth(d[..|d| - 1], base, m + 1)
  }

  lemma WorthLast(s: string, d: nat, q: nat, base: nat, m: nat)
    requires d <= q < |s| && AllDigits(s[d..q + 1], base)
    ensures AllDigits(s[d..q], base) && Digit(s[q], base) >= 0
    ensures Worth(s[d..q + 1], base, m) == Pow(base, m) * Digit(s[q], base) % W32 + Worth(s[d..q], base, m + 1)
  {
    hide Digit, Pow;
    var r, init := s[d..q + 1], s[d..q];
    assert r[..|r| - 1] == init && r[|r| - 1] == s[q];
    assert forall i :: 0 <= i < |init| ==> init[i] == r[i];
  }

  /** The sum of the shares stays below 2^37: the 64-bit accumulator never wraps. */
  lemma ShareBound(base: nat, m: nat, v: nat, ucs: nat)
    requires (base == 10 || base == 16) && v < base && ucs <= (if m < 32 then m else 32) * W32
    ensures var share := Pow(base, m) * v % W32;
            ucs + share <= (if m + 1 < 32 then m + 1 else 32) * W32 < W64 && (ucs + share) % W64 == ucs + share
  {
    hide Pow;
    if m >= 32 {
      PowVanishes(base, m);
      ModMul(Pow(base, m), v);
    }
  }

  lemma ScanOne(s: string, q: nat, lo: nat, base: nat, m: nat, ucs: nat)
    requires lo < q < |s| && s[q] != s[lo] && Digit(s[q], base) >= 0 && (base == 10 || base == 16)
    requires ucs <= (if m < 32 then m else 32) * W32
    ensures ScanBack(s, q, lo, base, Pow(base, m) % W32, ucs)
         == ScanBack(s, q - 1, lo, base, Pow(base, m + 1) % W32, ucs + Pow(base, m) * Digit(s[q], base) % W32)
  {
    hide Digit, Pow;
    var p, v := Pow(base, m), Digit(s[q], base);
    DigitFacts(s[q], base);
    ModMul(p, v);
    ModMul(p, base);
    PowNext(base, m);
    ShareBound(base, m, v, ucs);
  }

  predicate Stop(c: char, base: nat) {
    (base == 16 && c == 'x') || (base == 10 && c == '#')
  }

  /** The right-to-left loop with its two wrapping counters, on a run of digits of any length. */
  lemma {:induction false} ScanIsWorth(s: string, q: nat, d: nat, lo: nat, base: nat, m: nat, ucs: nat)
    requires lo < d <= q + 1 <= |s| && Stop(s[lo], base) && s[d - 1] == s[lo] && AllDigits(s[d..q + 1], base)
    requires ucs <= (if m < 32 then m else 32) * W32
    ensures ScanBack(s, q, lo, base, Pow(base, m) % W32, ucs) == ucs + Worth(s[d..q + 1], base, m)
    decreases q
  {
    hide Digit, Pow, AllDigits;
    if d == q + 1 {
      assert s[d..q + 1] == "";
    } else {
      hide ScanBack, Worth;
      WorthLast(s, d, q, base, m);
      DigitFacts(s[q], base);
      ScanOne(s, q, lo, base, m, ucs);
      ShareBound(base, m, Digit(s[q], base), ucs);
      ScanIsWorth(s, q - 1, d, lo, base, m + 1, ucs + Pow(base, m) * Digit(s[q], base) % W32);
    }
  }

  /** Only digits back to a stop character are accepted. */
  lemma {:induction false} ScanFinds(s: string, q: nat, lo: nat, base: nat, mult: nat, ucs: nat) returns (d: nat)
    requires lo <= q < |s| && ScanBack(s, q, lo, base, mult, ucs) >= 0
    ensures lo < d <= q + 1 && s[d - 1] == s[lo] && AllDigits(s[d..q + 1], base)
    decreases q
  {
    hide Digit;
    if s[q] == s[lo] {
      d := q + 1;
    } else {
      d := ScanFinds(s, q - 1, lo, base, mult * base % W32, (ucs + mult * Digit(s[q], base) % W32) % W64);
      assert s[d..q + 1] == s[d..q] + [s[q]];
    }
  }

  // ----- numeric references -----

  function Base(s: string, i: nat): nat {
    if At(s, i + 2) == 'x' then 16 else 10
  }

  /** Where the digits may begin. */
  function From(s: string, i: nat): nat {
    if At(s, i + 2) == 'x' then i + 3 else i + 2
  }

  /**
    The `&#` at `i` begins a numeric reference with its semicolon at `k`: no semicolon and no NUL come before
    it, and from `d` on there are only digits.  What stands before another `x` or `#` is ignored.
    */
  ghost predicate Refers(s: string, i: nat, d: nat, k: nat) {
    && From(s, i) <= d <= k < |s| && s[k] == ';'
    && (forall j :: From(s, i) <= j < k ==> s[j] != ';' && s[j] != NUL)
    && Stop(s[d - 1], Base(s, i)) && AllDigits(s[d..k], Base(s, i))
  }

  lemma RefersIs(s: string, i: nat, d: nat, k: nat)
    requires i + 1 < |s| && s[i + 1] == '#' && Refers(s, i, d, k)
    ensures CharRef(s, i) == Ref(Utf8.Encode(Worth(s[d..k], Base(s, i), 0)), k + 1)
  {
    hide Utf8.Encode, Worth, AllDigits, ScanBack;
    var from := From(s, i);
    FindSkips(s, from, k, ';');
    assert Pow(Base(s, i), 0) % W32 == 1;
    ScanIsWorth(s, k - 1, d, from - 1, Base(s, i), 0, 0);
  }

  lemma RefIsRefers(s: string, i: nat) returns (d: nat, k: nat)
    requires i + 1 < |s| && s[i + 1] == '#' && At(s, i + 2) != NUL && CharRef(s, i).Ref?
    ensures Refers(s, i, d, k)
  {
    hide Utf8.Encode, AllDigits, ScanBack;
    var from := From(s, i);
    k := FindChar(s, from, ';');
    d := ScanFinds(s, k - 1, from - 1, Base(s, i), 1, 0);
  }

  // ----- tokens -----

  /** Which line end stands at `i`, if any does: its length. */
  function LineEnd(s: string, i: nat): nat {
    if StartsAt(s, i, "\r\n") || StartsAt(s, i, "\n\r") then 2
    else if StartsAt(s, i, "\r") || StartsAt(s, i, "\n") then 1
    else 0
  }

  /** What an ampersand begins. */
  ghost predicate RefMeans(s: string, i: nat, t: Token) {
    if StartsAt(s, i, "&lt;") then t == Emit("<", i + 4)
    else if StartsAt(s, i, "&gt;") then t == Emit(">", i + 4)
    else if StartsAt(s, i, "&amp;") then t == Emit("&", i + 5)
    else if StartsAt(s, i, "&apos;") then t == Emit("\'", i + 6)
    else if StartsAt(s, i, "&quot;") then t == Emit("\"", i + 6)
    else if !StartsAt(s, i, "&#") then t == Keep
    else if At(s, i + 2) == NUL then t == Emit("", i + 1)
    else if exists d: nat, k: nat :: Refers(s, i, d, k) then
      exists d: nat, k: nat :: Refers(s, i, d, k) && t == Emit(Utf8.Encode(Worth(s[d..k], Base(s, i), 0)), k + 1)
    else t == Emit("&", i + 1)
  }

  /** What a token is, at every position of every text. */
  ghost predicate Means(s: string, i: nat, f: Flags, t: Token)
    requires i < |s|
  {
    if f.newlines && LineEnd(s, i) > 0 then t == Emit("\n", i + LineEnd(s, i))
    else if f.entities && s[i] == '&' then RefMeans(s, i, t)
    else t == Emit([s[i]], i + 1)
  }

  lemma NamedIs(s: string, i: nat, e: nat)
    requires i < |s| && s[i] == '&' && e < 5
    ensures StartsAt(s, i, "&" + ENTITIES[e].0 + ";") <==>
              StartsAt(s, i + 1, ENTITIES[e].0) && At(s, i + |ENTITIES[e].0| + 1) == ';'
  {
    var name := ENTITIES[e].0;
    StartsAtConcat(s, i, "&" + name, ";");
    StartsAtConcat(s, i, "&", name);
    CharIs(s, i, '&');
    CharIs(s, i + 1 + |name|, ';');
  }

  lemma CharIs(s: string, i: nat, c: char)
    requires c != NUL
    ensures StartsAt(s, i, [c]) <==> At(s, i) == c
  {
    if i < |s| {
      assert s[i..i + 1] == [s[i]];
    }
  }

  lemma PairIs(s: string, i: nat, c: char, d: char)
    requires c != NUL && d != NUL
    ensures StartsAt(s, i, [c, d]) <==> At(s, i) == c && At(s, i + 1) == d
  {
    CharIs(s, i, c);
    CharIs(s, i + 1, d);
    StartsAtConcat(s, i, [c], [d]);
    assert [c] + [d] == [c, d];
  }

  /** At most one of the five names is spelled at a place. */
  lemma OneName(s: string, i: nat, e: nat)
    requires e < 5 && StartsAt(s, i, "&" + ENTITIES[e].0 + ";")
    ensures i < |s| && s[i] == '&' && At(s, i + 1) == ENTITIES[e].0[0] != '#' && EntityAt(s, i, 0) == e
  {
    var name := ENTITIES[e].0;
    StartsAtIndex(s, i, "&" + name + ";", 0);
    StartsAtIndex(s, i, "&" + name + ";", 1);
    NamedIs(s, i, e);
    EntityFound(s, i, e);
  }

  lemma NoName(s: string, i: nat)
    requires i < |s| && s[i] == '&' && forall e :: 0 <= e < 5 ==> !StartsAt(s, i, "&" + ENTITIES[e].0 + ";")
    ensures EntityAt(s, i, 0) == 5
  {
    hide StartsAt, EntityAt;
    var e := EntityAt(s, i, 0);
    if e < 5 {
      NamedIs(s, i, e);
    }
  }

  lemma Spellings()
    ensures "&" + ENTITIES[0].0 + ";" == "&quot;" && "&" + ENTITIES[1].0 + ";" == "&amp;"
    ensures "&" + ENTITIES[2].0 + ";" == "&apos;" && "&" + ENTITIES[3].0 + ";" == "&lt;"
    ensures "&" + ENTITIES[4].0 + ";" == "&gt;"
  {
  }

  lemma ReferenceIs(s: string, i: nat, t: Token)
    requires i < |s| && s[i] == '&'
    ensures TokenAt(s, i, TEXT) == t <==> RefMeans(s, i, t)
  {
    hide CharRef, EntityAt, StartsAt, Refers, Worth, Utf8.Encode;
    Spellings();
    PairIs(s, i, '&', '#');
    forall e | 0 <= e < 5 && StartsAt(s, i, "&" + ENTITIES[e].0 + ";")
      ensures EntityAt(s, i, 0) == e && At(s, i + 1) != '#'
    {
      OneName(s, i, e);
    }
    if forall e :: 0 <= e < 5 ==> !StartsAt(s, i, "&" + ENTITIES[e].0 + ";") {
      NoName(s, i);
      if At(s, i + 1) == '#' {
        NumberIs(s, i);
      }
    }
  }

  lemma NumberIs(s: string, i: nat)
    requires i + 1 < |s| && s[i + 1] == '#'
    ensures At(s, i + 2) == NUL ==> CharRef(s, i) == Ref("", i + 1)
    ensures forall d: nat, k: nat :: At(s, i + 2) != NUL && Refers(s, i, d, k) ==>
              CharRef(s, i) == Ref(Utf8.Encode(Worth(s[d..k], Base(s, i), 0)), k + 1)
    ensures At(s, i + 2) != NUL && (forall d: nat, k: nat :: !Refers(s, i, d, k)) ==> CharRef(s, i) == NoRef
  {
    if At(s, i + 2) == NUL {
    } else {
      hide CharRef, Refers, Worth, Utf8.Encode;
      forall d: nat, k: nat | Refers(s, i, d, k)
        ensures CharRef(s, i) == Ref(Utf8.Encode(Worth(s[d..k], Base(s, i), 0)), k + 1)
      {
        RefersIs(s, i, d, k);
      }
      if CharRef(s, i).Ref? {
        var d, k := RefIsRefers(s, i);
      }
    }
  }

  /** The decoder reads exactly this token, at every position and in every mode. */
  lemma TokenIs(s: string, i: nat, f: Flags, t: Token)
    requires i < |s|
    ensures TokenAt(s, i, f) == t <==> Means(s, i, f, t)
  {
    CharIs(s, i, '\r');
    CharIs(s, i, '\n');
    PairIs(s, i, '\r', '\n');
    PairIs(s, i, '\n', '\r');
    hide CharRef, EntityAt, StartsAt, RefMeans;
    if s[i] == '&' {
      ReferenceIs(s, i, t);
    }
  }
}
