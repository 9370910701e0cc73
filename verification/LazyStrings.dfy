/**
  Lazy decoding over a shared buffer: `GetStr` may be called on the recorded ranges in any order and
  any number of times, and every result is the decoding of the ORIGINAL text.
  */
module LazyStrings {
  import opened XmlChars
  import opened StrPair
  import opened XmlParser
  import opened XmlRanges
  import opened XmlReader
  import T = XmlTree
  import N = XmlNormal

  predicate InRange(calls: seq<nat>, n: nat) {
    forall k :: 0 <= k < |calls| ==> calls[k] < n
  }

  /** Buffer and the set of ranges already flushed. */
  datatype State = State(buf: string, flushed: set<nat>)

  /** `GetStr` on range `i`. */
  function Call(st: State, rs: seq<Range>, fs: seq<Flags>, i: nat): (r: State)
    requires Separated(rs, |st.buf|) && |fs| == |rs| && i < |rs|
    ensures |r.buf| == |st.buf| && r.flushed == st.flushed + {i}
  {
    if i in st.flushed then st.(flushed := st.flushed + {i})
    else State(Flushed(st.buf, rs[i].start, rs[i].end, fs[i]), st.flushed + {i})
  }

  function Run(st: State, rs: seq<Range>, fs: seq<Flags>, calls: seq<nat>): (r: State)
    requires Separated(rs, |st.buf|) && |fs| == |rs| && InRange(calls, |rs|)
    ensures |r.buf| == |st.buf|
    decreases calls
  {
    if calls == [] then st else Run(Call(st, rs, fs, calls[0]), rs, fs, calls[1..])
  }

  /** Flushed ranges hold decoded text and a NUL; the others still hold their original text. */
  predicate Holds(src: string, st: State, rs: seq<Range>, fs: seq<Flags>, i: nat)
    requires Separated(rs, |st.buf|) && |fs| == |rs| && i < |rs|
  {
    if i in st.flushed then StartsAt(st.buf, rs[i].start, Decode(Slice(src, rs[i]), fs[i]) + [NUL])
    else st.buf[rs[i].start..rs[i].end] == Slice(src, rs[i])
  }

  ghost predicate Consistent(src: string, st: State, rs: seq<Range>, fs: seq<Flags>)
    requires Separated(rs, |st.buf|) && |fs| == |rs|
  {
    |st.buf| == |src| + 1 && forall i :: 0 <= i < |rs| ==> Holds(src, st, rs, fs, i)
  }

  lemma SameOutside(a: string, b: string, start: nat, end: nat, lo: nat, hi: nat)
    requires start <= end < |a| == |b| && lo <= hi <= |a|
    requires a[..start] == b[..start] && a[end + 1..] == b[end + 1..]
    requires hi <= start || end < lo
    ensures a[lo..hi] == b[lo..hi]
  {
    if hi <= start {
      assert a[..start][lo..hi] == a[lo..hi] && b[..start][lo..hi] == b[lo..hi];
    } else {
      assert a[end + 1..][lo - end - 1..hi - end - 1] == a[lo..hi];
      assert b[end + 1..][lo - end - 1..hi - end - 1] == b[lo..hi];
    }
  }

  lemma CallKeeps(src: string, st: State, rs: seq<Range>, fs: seq<Flags>, i: nat, j: nat)
    requires Separated(rs, |st.buf|) && |fs| == |rs| && i < |rs| && j < |rs|
    requires Consistent(src, st, rs, fs)
    ensures Holds(src, Call(st, rs, fs, i), rs, fs, j)
  {
    hide Decode, Flushed;
    assert Holds(src, st, rs, fs, i) && Holds(src, st, rs, fs, j);
    var st' := Call(st, rs, fs, i);
    if i !in st.flushed && i != j {
      var hi := if j in st.flushed then rs[j].start + |Decode(Slice(src, rs[j]), fs[j])| + 1 else rs[j].end;
      SameOutside(st.buf, st'.buf, rs[i].start, rs[i].end, rs[j].start, hi);
    }
  }

  lemma {:induction false} RunConsistent(src: string, st: State, rs: seq<Range>, fs: seq<Flags>, calls: seq<nat>)
    requires Separated(rs, |st.buf|) && |fs| == |rs| && InRange(calls, |rs|)
    requires Consistent(src, st, rs, fs)
    ensures Consistent(src, Run(st, rs, fs, calls), rs, fs)
    ensures Run(st, rs, fs, calls).flushed == st.flushed + set c | c in calls
    decreases calls
  {
    hide Call, Holds;
    if calls == [] {
    } else {
      var st' := Call(st, rs, fs, calls[0]);
      forall j | 0 <= j < |rs|
        ensures Holds(src, st', rs, fs, j)
      {
        CallKeeps(src, st, rs, fs, calls[0], j);
      }
      RunConsistent(src, st', rs, fs, calls[1..]);
      assert (set c | c in calls) == {calls[0]} + set c | c in calls[1..];
    }
  }

  // ----- the strings of a parsed document -----

  function AttrFlags(attrs: seq<Attr>): seq<Flags> {
    if attrs == [] then [] else [RAW, TEXT] + AttrFlags(attrs[1..])
  }

  /** How each string of a node is to be decoded, in the order of `Ranges`. */
  function FlagsOf(n: Node): seq<Flags>
    decreases n, 1
  {
    match n
    case Element(_, attrs, kids, close) =>
      [RAW] + AttrFlags(attrs) + AllFlags(kids) + (if close.Matched? then [RAW] else [])
    case Text(_, cdata) => [if cdata then MARKUP else TEXT]
    case _ => [MARKUP]
  }

  function AllFlags(ns: seq<Node>): seq<Flags>
    decreases ns, 0
  {
    if ns == [] then [] else FlagsOf(ns[0]) + AllFlags(ns[1..])
  }

  /** What is not among the texts is a name, and is not decoded. */
  predicate Fit(rs: seq<Range>, fs: seq<Flags>, ts: seq<Range>) {
    |fs| == |rs| && forall i :: 0 <= i < |rs| ==> fs[i] == RAW || rs[i] in ts
  }

  lemma FitJoin(a: seq<Range>, af: seq<Flags>, at: seq<Range>, b: seq<Range>, bf: seq<Flags>, bt: seq<Range>)
    requires Fit(a, af, at) && Fit(b, bf, bt)
    ensures Fit(a + b, af + bf, at + bt)
  {
  }

  lemma {:induction false} AttrFlagsFit(attrs: seq<Attr>)
    ensures Fit(AttrRanges(attrs), AttrFlags(attrs), AttrTexts(attrs))
  {
    if attrs == [] {
    } else {
      AttrFlagsFit(attrs[1..]);
      var a := attrs[0];
      FitJoin([a.name, a.value], [RAW, TEXT], [a.value],
              AttrRanges(attrs[1..]), AttrFlags(attrs[1..]), AttrTexts(attrs[1..]));
    }
  }

  lemma {:induction false} FlagsFit(n: Node)
    ensures Fit(Ranges(n), FlagsOf(n), Texts(n))
    decreases n, 1
  {
    if n.Element? {
      AttrFlagsFit(n.attrs);
      AllFlagsFit(n.kids);
      ElementFit(n);
    }
  }

  lemma ElementFit(n: Node)
    requires n.Element? && Fit(AttrRanges(n.attrs), AttrFlags(n.attrs), AttrTexts(n.attrs))
    requires Fit(AllRanges(n.kids), AllFlags(n.kids), AllTexts(n.kids))
    ensures Fit(Ranges(n), FlagsOf(n), Texts(n))
  {
    hide Fit, AttrRanges, AttrFlags, AttrTexts, AllRanges, AllFlags, AllTexts;
    var end := CloseRanges(n.close);
    var ef := if n.close.Matched? then [RAW] else [];
    assert Fit([n.name], [RAW], []) && Fit(end, ef, []) by { NamesFit(n.name, n.close); }
    FitJoin([n.name], [RAW], [], AttrRanges(n.attrs), AttrFlags(n.attrs), AttrTexts(n.attrs));
    FitJoin([n.name] + AttrRanges(n.attrs), [RAW] + AttrFlags(n.attrs), [] + AttrTexts(n.attrs),
            AllRanges(n.kids), AllFlags(n.kids), AllTexts(n.kids));
    FitJoin([n.name] + AttrRanges(n.attrs) + AllRanges(n.kids), [RAW] + AttrFlags(n.attrs) + AllFlags(n.kids),
            [] + AttrTexts(n.attrs) + AllTexts(n.kids), end, ef, []);
    assert [] + AttrTexts(n.attrs) + AllTexts(n.kids) + [] == AttrTexts(n.attrs) + AllTexts(n.kids);
  }

  lemma NamesFit(name: Range, close: Close)
    ensures Fit([name], [RAW], []) && Fit(CloseRanges(close), if close.Matched? then [RAW] else [], [])
  {
  }

  lemma {:induction false} AllFlagsFit(ns: seq<Node>)
    ensures Fit(AllRanges(ns), AllFlags(ns), AllTexts(ns))
    decreases ns, 0
  {
    hide Ranges, FlagsOf, Texts;
    if ns == [] {
    } else {
      FlagsFit(ns[0]);
      AllFlagsFit(ns[1..]);
      FitJoin(Ranges(ns[0]), FlagsOf(ns[0]), Texts(ns[0]), AllRanges(ns[1..]), AllFlags(ns[1..]), AllTexts(ns[1..]));
    }
  }

  /** The strings that the parser itself has asked for. */
  function Done(rs: seq<Range>, flushed: set<nat>): set<nat> {
    set i | 0 <= i < |rs| && rs[i].end in flushed
  }

  lemma NamesStay(text: string)
    ensures Decode(text, RAW) == text
  {
    DecodeRaw(text, 0);
    assert text[..0] == "";
  }

  /** A parse leaves the buffer as the calls it made of `GetStr` would have. */
  lemma LeftConsistent(src: string, buf: string, flushed: set<nat>, nodes: seq<Node>)
    requires Left(src, buf, flushed, nodes) && Separated(AllRanges(nodes), |buf|)
    ensures |AllFlags(nodes)| == |AllRanges(nodes)|
    ensures var rs := AllRanges(nodes); Consistent(src, State(buf, Done(rs, flushed)), rs, AllFlags(nodes))
  {
    hide AllRanges, AllFlags, AllTexts, Decode;
    AllFlagsFit(nodes);
    var rs, fs := AllRanges(nodes), AllFlags(nodes);
    forall i | 0 <= i < |rs|
      ensures Holds(src, State(buf, Done(rs, flushed)), rs, fs, i)
    {
      var text := Slice(src, rs[i]);
      assert rs[i] in rs;
      if rs[i].end in flushed {
        NamesStay(text);
        assert buf[rs[i].start..rs[i].end + 1] == text + [NUL];
      }
    }
  }

  /**
    After a parse, any sequence of `GetStr` calls leaves each requested string decoded as if eagerly
    from the input.
    */
  lemma LazyIsEager(lx: Lexicon, src: string, buf: string, flushed: set<nat>, calls: seq<nat>)
    requires lx.Valid() && Parse(lx, src).Ok? && Left(src, buf, flushed, Parse(lx, src).doc.nodes)
    requires InRange(calls, |AllRanges(Parse(lx, src).doc.nodes)|)
    ensures var nodes := Parse(lx, src).doc.nodes;
            var rs, fs := AllRanges(nodes), AllFlags(nodes);
            && Separated(rs, |buf|) && |fs| == |rs|
            && var end := Run(State(buf, Done(rs, flushed)), rs, fs, calls);
               forall i :: i in calls ==> StartsAt(end.buf, rs[i].start, Decode(Slice(src, rs[i]), fs[i]) + [NUL])
  {
    hide Parse, AllRanges, AllFlags, Decode, Flushed, Left, Holds, Separated;
    StartOf(lx, src, buf, flushed);
    var nodes := Parse(lx, src).doc.nodes;
    var rs, fs := AllRanges(nodes), AllFlags(nodes);
    var st := State(buf, Done(rs, flushed));
    RunConsistent(src, st, rs, fs, calls);
    var end := Run(st, rs, fs, calls);
    forall i | i in calls
      ensures StartsAt(end.buf, rs[i].start, Decode(Slice(src, rs[i]), fs[i]) + [NUL])
    {
      Decoded(src, end, rs, fs, i);
    }
  }

  lemma LeftSize(src: string, buf: string, flushed: set<nat>, nodes: seq<Node>)
    requires Left(src, buf, flushed, nodes)
    ensures |buf| == |src| + 1
  {
  }

  // ----- the same, run on one buffer -----

  /** One `StrPair` per range; those of `done` have been decoded. */
  ghost predicate Paired(rs: seq<Range>, fs: seq<Flags>, pairs: seq<Pair>, done: set<nat>)
    reads pairs
  {
    && |pairs| == |rs| == |fs|
    && (forall i, j :: 0 <= i < j < |pairs| ==> pairs[i] != pairs[j])
    && (forall i :: 0 <= i < |pairs| ==>
          && pairs[i].start == rs[i].start && pairs[i].end == rs[i].end
          && pairs[i].needsFlush == (i !in done) && (pairs[i].needsFlush ==> pairs[i].flags == fs[i]))
  }

  /** The string pairs as the parser leaves them. */
  method MakePairs(rs: seq<Range>, fs: seq<Flags>, flushed: set<nat>) returns (pairs: seq<Pair>)
    requires |fs| == |rs|
    ensures fresh(pairs) && Paired(rs, fs, pairs, Done(rs, flushed))
  {
    pairs := [];
    for i := 0 to |rs|
      invariant fresh(pairs) && Paired(rs[..i], fs[..i], pairs, Done(rs, flushed))
    {
      var p := new Pair(rs[i].start, rs[i].end, fs[i]);
      if rs[i].end in flushed {
        p.needsFlush := false;
      }
      pairs := pairs + [p];
    }
    assert rs[..|rs|] == rs && fs[..|fs|] == fs;
  }

  method GetOne(ghost src: string, buf: array<char>, pairs: seq<Pair>, i: nat,
                ghost rs: seq<Range>, ghost fs: seq<Flags>, ghost done: set<nat>)
    requires Separated(rs, buf.Length) && Paired(rs, fs, pairs, done) && i < |rs|
    requires Consistent(src, State(buf[..], done), rs, fs)
    modifies buf, pairs[i]
    ensures Paired(rs, fs, pairs, done + {i}) && Consistent(src, State(buf[..], done + {i}), rs, fs)
  {
    hide Decode, Flushed, Holds, Separated;
    ghost var st := State(buf[..], done);
    assert rs[i].start <= rs[i].end < buf.Length by { InBuffer(rs, buf.Length, i); }
    var p := pairs[i].GetStr(buf);
    assert State(buf[..], done + {i}) == Call(st, rs, fs, i);
    forall j | 0 <= j < |rs|
      ensures Holds(src, State(buf[..], done + {i}), rs, fs, j)
    {
      CallKeeps(src, st, rs, fs, i, j);
    }
  }

  lemma InBuffer(rs: seq<Range>, size: nat, i: nat)
    requires Separated(rs, size) && i < |rs|
    ensures rs[i].start <= rs[i].end < size
  {
  }

  /**
    Parses a text in its buffer, then asks for strings in any order, any number of times, all in the
    same buffer: each one asked for is there, decoded from the original text.
    */
  method ParseThenGet(lx: Lexicon, text: string, calls: seq<nat>) returns (ok: bool, nodes: seq<Node>, buf: array<char>)
    requires lx.Valid()
    ensures ok <==> Parse(lx, text).Ok?
    ensures ok ==> nodes == Parse(lx, text).doc.nodes && |AllFlags(nodes)| == |AllRanges(nodes)|
    ensures ok ==> forall i :: i in calls && i < |AllRanges(nodes)| ==>
              var r := AllRanges(nodes)[i];
              StartsAt(buf[..], r.start, Decode(Slice(text, r), AllFlags(nodes)[i]) + [NUL])
  {
    hide Parse, AllRanges, AllFlags, Decode, Flushed, Left, Holds, Separated, Reader.Valid;
    var reader := new Reader(lx, text);
    buf := reader.buf;
    var bom;
    bom, nodes := reader.Parse();
    ok := reader.errorId.None?;
    if !ok {
      return;
    }
    var rs, fs := AllRanges(nodes), AllFlags(nodes);
    ghost var done := Done(rs, reader.flushed);
    StartOf(lx, text, buf[..], reader.flushed);
    var pairs := MakePairs(rs, fs, reader.flushed);
    for k := 0 to |calls|
      invariant fresh(buf) && fresh(pairs) && buf.Length == |text| + 1 && Paired(rs, fs, pairs, done)
      invariant Separated(rs, buf.Length) && Consistent(text, State(buf[..], done), rs, fs)
      invariant forall i :: i in calls[..k] && i < |rs| ==> i in done
    {
      if calls[k] < |rs| {
        GetOne(text, buf, pairs, calls[k], rs, fs, done);
        done := done + {calls[k]};
      }
    }
    forall i | i in calls && i < |rs|
      ensures StartsAt(buf[..], rs[i].start, Decode(Slice(text, rs[i]), fs[i]) + [NUL])
    {
      Decoded(text, State(buf[..], done), rs, fs, i);
    }
  }

  lemma StartOf(lx: Lexicon, src: string, buf: string, flushed: set<nat>)
    requires lx.Valid() && Parse(lx, src).Ok? && Left(src, buf, flushed, Parse(lx, src).doc.nodes)
    ensures var nodes := Parse(lx, src).doc.nodes;
            var rs, fs := AllRanges(nodes), AllFlags(nodes);
            && |buf| == |src| + 1 && Separated(rs, |buf|) && |fs| == |rs|
            && Consistent(src, State(buf, Done(rs, flushed)), rs, fs)
  {
    hide Parse, AllRanges, AllFlags, Left, Holds;
    ParseSeparates(lx, src);
    LeftSize(src, buf, flushed, Parse(lx, src).doc.nodes);
    LeftConsistent(src, buf, flushed, Parse(lx, src).doc.nodes);
  }

  lemma Decoded(src: string, st: State, rs: seq<Range>, fs: seq<Flags>, i: nat)
    requires Separated(rs, |st.buf|) && |fs| == |rs| && i < |rs| && Consistent(src, st, rs, fs) && i in st.flushed
    ensures StartsAt(st.buf, rs[i].start, Decode(Slice(src, rs[i]), fs[i]) + [NUL])
  {
    hide Decode;
    assert Holds(src, st, rs, fs, i);
  }

  // ----- the whole document -----

  /** The string `v`, terminated, where `r` starts. */
  predicate Here(buf: string, r: Range, v: string) {
    StartsAt(buf, r.start, v + [NUL])
  }

  predicate ShowsAttrs(buf: string, attrs: seq<Attr>, ts: seq<T.Attribute>) {
    |attrs| == |ts| && (attrs != [] ==>
      && Here(buf, attrs[0].name, ts[0].name) && Here(buf, attrs[0].value, ts[0].value)
      && ShowsAttrs(buf, attrs[1..], ts[1..]))
  }

  /** Every string of the tree `t` stands in the buffer where the node `n` points. */
  predicate Shows(buf: string, n: Node, t: T.Tree)
    decreases n, 1
  {
    match n
    case Element(name, attrs, kids, _) =>
      t.Element? && Here(buf, name, t.name) && ShowsAttrs(buf, attrs, t.attrs) && ShowsAll(buf, kids, t.kids)
    case Text(r, cdata) => t.Text? && t.cdata == cdata && Here(buf, r, t.value)
    case Comment(r) => t.Comment? && Here(buf, r, t.value)
    case Declaration(r) => t.Declaration? && Here(buf, r, t.value)
    case Unknown(r) => t.Unknown? && Here(buf, r, t.value)
  }

  predicate ShowsAll(buf: string, ns: seq<Node>, ts: seq<T.Tree>)
    decreases ns, 0
  {
    |ns| == |ts| && (ns != [] ==> Shows(buf, ns[0], ts[0]) && ShowsAll(buf, ns[1..], ts[1..]))
  }

  ghost predicate AllHere(src: string, buf: string, rs: seq<Range>, fs: seq<Flags>) {
    |rs| == |fs| && forall i :: 0 <= i < |rs| ==> Here(buf, rs[i], Decode(Slice(src, rs[i]), fs[i]))
  }

  lemma HereSplits(src: string, buf: string, a: seq<Range>, af: seq<Flags>, b: seq<Range>, bf: seq<Flags>)
    requires AllHere(src, buf, a + b, af + bf) && |a| == |af|
    ensures AllHere(src, buf, a, af) && AllHere(src, buf, b, bf)
  {
    hide Here, Decode, Slice;
    var rs, fs := a + b, af + bf;
    forall i | 0 <= i < |a|
      ensures Here(buf, a[i], Decode(Slice(src, a[i]), af[i]))
    {
      assert rs[i] == a[i] && fs[i] == af[i];
    }
    forall i | 0 <= i < |b|
      ensures Here(buf, b[i], Decode(Slice(src, b[i]), bf[i]))
    {
      assert rs[|a| + i] == b[i] && fs[|a| + i] == bf[i];
    }
  }

  lemma {:induction false} AttrsShown(src: string, buf: string, attrs: seq<Attr>)
    requires AllHere(src, buf, AttrRanges(attrs), AttrFlags(attrs))
    ensures ShowsAttrs(buf, attrs, N.ReadAttrs(src, attrs))
  {
    hide Here, Decode, Slice;
    if attrs == [] {
    } else {
      var a := attrs[0];
      HereSplits(src, buf, [a.name, a.value], [RAW, TEXT], AttrRanges(attrs[1..]), AttrFlags(attrs[1..]));
      NamesStay(Slice(src, a.name));
      assert [a.name, a.value][0] == a.name && [a.name, a.value][1] == a.value;
      AttrsShown(src, buf, attrs[1..]);
    }
  }

  lemma {:induction false} NodeShown(src: string, buf: string, n: Node)
    requires AllHere(src, buf, Ranges(n), FlagsOf(n))
    ensures Shows(buf, n, N.Read(src, n))
    decreases n, 1
  {
    hide Here, Decode, Slice, AttrRanges, AttrFlags, AllRanges, AllFlags;
    if n.Element? {
      AttrFlagsFit(n.attrs);
      AllFlagsFit(n.kids);
      var a, af := [n.name], [RAW];
      var b, bf := AttrRanges(n.attrs), AttrFlags(n.attrs);
      var c, cf := AllRanges(n.kids), AllFlags(n.kids);
      HereSplits(src, buf, a + b + c, af + bf + cf, CloseRanges(n.close), if n.close.Matched? then [RAW] else []);
      HereSplits(src, buf, a + b, af + bf, c, cf);
      HereSplits(src, buf, a, af, b, bf);
      NamesStay(Slice(src, n.name));
      assert a[0] == n.name && af[0] == RAW;
      AttrsShown(src, buf, n.attrs);
      AllShown(src, buf, n.kids);
    } else {
      assert Ranges(n)[0] == n.text;
    }
  }

  lemma {:induction false} AllShown(src: string, buf: string, ns: seq<Node>)
    requires AllHere(src, buf, AllRanges(ns), AllFlags(ns))
    ensures ShowsAll(buf, ns, N.ReadAll(src, ns))
    decreases ns, 0
  {
    hide Shows, AllHere, Ranges, FlagsOf, N.Read;
    if ns == [] {
    } else {
      FlagsFit(ns[0]);
      HereSplits(src, buf, Ranges(ns[0]), FlagsOf(ns[0]), AllRanges(ns[1..]), AllFlags(ns[1..]));
      NodeShown(src, buf, ns[0]);
      AllShown(src, buf, ns[1..]);
    }
  }

  lemma {:induction false} StartsLate(rs: seq<Range>, size: nat, i: nat)
    requires Separated(rs, size) && i < |rs|
    ensures i <= rs[i].start < size
  {
    if i == 0 {
    } else {
      StartsLate(rs, size, i - 1);
    }
  }

  /** There are not more strings than bytes in the buffer. */
  lemma FewStrings(lx: Lexicon, src: string)
    requires lx.Valid() && Parse(lx, src).Ok?
    ensures |AllRanges(Parse(lx, src).doc.nodes)| <= |src| + 1
  {
    hide Parse, AllRanges, Separated;
    ParseSeparates(lx, src);
    var rs := AllRanges(Parse(lx, src).doc.nodes);
    if rs != [] {
      StartsLate(rs, |src| + 1, |rs| - 1);
    }
  }

  /**
    Parses a text in its buffer and asks for every string: the tree then stands in the buffer as the
    reading of the original text says.
    */
  method ParseAndRead(lx: Lexicon, text: string) returns (ok: bool, nodes: seq<Node>, buf: array<char>)
    requires lx.Valid()
    ensures ok <==> Parse(lx, text).Ok?
    ensures ok ==> nodes == Parse(lx, text).doc.nodes && ShowsAll(buf[..], nodes, N.ReadAll(text, nodes))
  {
    hide Parse, AllRanges, AllFlags, Decode, Slice, ShowsAll, N.ReadAll;
    var calls := seq(|text| + 1, i => i);
    ok, nodes, buf := ParseThenGet(lx, text, calls);
    if ok {
      FewStrings(lx, text);
      var rs, fs := AllRanges(nodes), AllFlags(nodes);
      forall i | 0 <= i < |rs|
        ensures Here(buf[..], rs[i], Decode(Slice(text, rs[i]), fs[i]))
      {
        assert calls[i] == i;
      }
      AllShown(text, buf[..], nodes);
    }
  }
}
