/**
  The string ranges a successful parse records: in document order, each range together with its
  terminator byte lies strictly before the next one.
  */
module XmlRanges {
  import opened Collections
  import opened XmlChars
  import opened XmlParser

  function AttrRanges(attrs: seq<Attr>): seq<Range> {
    if attrs == [] then [] else [attrs[0].name, attrs[0].value] + AttrRanges(attrs[1..])
  }

  function CloseRanges(c: Close): seq<Range> {
    if c.Matched? then [c.endName] else []
  }

  function Ranges(n: Node): seq<Range>
    decreases n, 1
  {
    match n
    case Element(name, attrs, kids, close) => [name] + AttrRanges(attrs) + AllRanges(kids) + CloseRanges(close)
    case Text(r, _) => [r]
    case Comment(r) => [r]
    case Declaration(r) => [r]
    case Unknown(r) => [r]
  }

  function AllRanges(ns: seq<Node>): seq<Range>
    decreases ns, 0
  {
    if ns == [] then [] else Ranges(ns[0]) + AllRanges(ns[1..])
  }

  // ----- what is not a name: decoded only when it is asked for -----

  function AttrTexts(attrs: seq<Attr>): seq<Range> {
    if attrs == [] then [] else [attrs[0].value] + AttrTexts(attrs[1..])
  }

  function Texts(n: Node): seq<Range>
    decreases n, 1
  {
    if n.Element? then AttrTexts(n.attrs) + AllTexts(n.kids) else [n.text]
  }

  function AllTexts(ns: seq<Node>): seq<Range>
    decreases ns, 0
  {
    if ns == [] then [] else Texts(ns[0]) + AllTexts(ns[1..])
  }

  lemma {:induction false} AttrTextsInside(attrs: seq<Attr>)
    ensures forall t :: t in AttrTexts(attrs) ==> t in AttrRanges(attrs)
  {
    if attrs == [] {
    } else {
      AttrTextsInside(attrs[1..]);
    }
  }

  lemma {:induction false} TextsInside(n: Node)
    ensures forall t :: t in Texts(n) ==> t in Ranges(n)
    decreases n, 1
  {
    if n.Element? {
      AttrTextsInside(n.attrs);
      AllTextsInside(n.kids);
    }
  }

  lemma {:induction false} AllTextsInside(ns: seq<Node>)
    ensures forall t :: t in AllTexts(ns) ==> t in AllRanges(ns)
    decreases ns, 0
  {
    if ns == [] {
    } else {
      TextsInside(ns[0]);
      AllTextsInside(ns[1..]);
    }
  }

  lemma {:induction false} AllTextsAppend(ns: seq<Node>, n: Node)
    ensures AllTexts(ns + [n]) == AllTexts(ns) + Texts(n)
  {
    if ns == [] {
      assert ns + [n] == [n] && [n][1..] == [];
      assert AllTexts([n]) == Texts(n) + [];
    } else {
      assert (ns + [n])[1..] == ns[1..] + [n];
      AllTextsAppend(ns[1..], n);
    }
  }

  lemma {:induction false} AllRangesAppend(ns: seq<Node>, n: Node)
    ensures AllRanges(ns + [n]) == AllRanges(ns) + Ranges(n)
  {
    if ns == [] {
      assert ns + [n] == [n] && [n][1..] == [];
      assert AllRanges([n]) == Ranges(n) + [];
    } else {
      assert (ns + [n])[1..] == ns[1..] + [n];
      AllRangesAppend(ns[1..], n);
    }
  }

  lemma {:induction false} AttrRangesAppend(attrs: seq<Attr>, a: Attr)
    ensures AttrRanges(attrs + [a]) == AttrRanges(attrs) + [a.name, a.value]
  {
    if attrs == [] {
      assert attrs + [a] == [a] && [a][1..] == [];
    } else {
      assert (attrs + [a])[1..] == attrs[1..] + [a];
      AttrRangesAppend(attrs[1..], a);
    }
  }

  /** The ranges, each with its terminator, follow one another between `lo` and `hi`. */
  predicate Chain(rs: seq<Range>, lo: nat, hi: nat) {
    if rs == [] then lo <= hi
    else lo <= rs[0].start <= rs[0].end < hi && Chain(rs[1..], rs[0].end + 1, hi)
  }

  lemma {:induction false} ChainJoin(a: seq<Range>, b: seq<Range>, lo: nat, m: nat, m': nat, hi: nat)
    requires Chain(a, lo, m) && m <= m' && Chain(b, m', hi)
    ensures Chain(a + b, lo, hi)
  {
    if a == [] {
      assert a + b == b;
      ChainWiden(b, m', lo, hi);
    } else {
      assert (a + b)[1..] == a[1..] + b;
      ChainBound(b, m', hi);
      ChainJoin(a[1..], b, a[0].end + 1, m, m', hi);
      assert a[0].end < hi;
    }
  }

  lemma {:induction false} ChainBound(rs: seq<Range>, lo: nat, hi: nat)
    requires Chain(rs, lo, hi)
    ensures lo <= hi
  {
    if rs == [] {
    } else {
      ChainBound(rs[1..], rs[0].end + 1, hi);
    }
  }

  lemma ChainWiden(rs: seq<Range>, lo: nat, lo': nat, hi: nat)
    requires Chain(rs, lo, hi) && lo' <= lo
    ensures Chain(rs, lo', hi)
  {
  }

  lemma {:induction false} ChainRaise(rs: seq<Range>, lo: nat, hi: nat, hi': nat)
    requires Chain(rs, lo, hi) && hi <= hi'
    ensures Chain(rs, lo, hi')
  {
    if rs == [] {
    } else {
      ChainRaise(rs[1..], rs[0].end + 1, hi, hi');
    }
  }

  lemma {:induction false} ChainWithin(rs: seq<Range>, lo: nat, hi: nat, i: nat)
    requires Chain(rs, lo, hi) && i < |rs|
    ensures lo <= rs[i].start <= rs[i].end < hi
  {
    if i > 0 {
      ChainWithin(rs[1..], rs[0].end + 1, hi, i - 1);
    } else {
      ChainBound(rs[1..], rs[0].end + 1, hi);
    }
  }

  /** Pairwise disjointness, terminators included. */
  lemma {:induction false} ChainSeparates(rs: seq<Range>, lo: nat, hi: nat, i: nat, j: nat)
    requires Chain(rs, lo, hi) && i < j < |rs|
    ensures rs[i].end < rs[j].start
  {
    if i == 0 {
      ChainWithin(rs[1..], rs[0].end + 1, hi, j - 1);
    } else {
      ChainSeparates(rs[1..], rs[0].end + 1, hi, i - 1, j - 1);
    }
  }

  /** `f` is behind the cursor `p`, or just past a `<` that the cursor still has to read. */
  predicate Behind(s: string, f: nat, p: nat) {
    f <= p || (f == p + 1 && At(s, p) == '<')
  }

  lemma AttrChain(lx: Lexicon, s: string, p: nat)
    requires p <= |s| && ParseAttr(lx, s, p).GotAttr?
    ensures var r := ParseAttr(lx, s, p); Chain([r.attr.name, r.attr.value], p, r.next)
  {
    var r := ParseAttr(lx, s, p);
    assert [r.attr.name, r.attr.value][1..] == [r.attr.value];
    assert [r.attr.value][1..] == [];
  }

  lemma {:induction false} AttrsChain(lx: Lexicon, s: string, p: nat, attrs: seq<Attr>, lo: nat)
    requires p <= |s| && Chain(AttrRanges(attrs), lo, p) && !ParseAttrs(lx, s, p, attrs).TagFail?
    ensures var r := ParseAttrs(lx, s, p, attrs); Chain(AttrRanges(r.attrs), lo, r.next)
    decreases |s| - p
  {
    hide ParseAttr;
    var q := Skip(lx, s, p);
    ChainRaise(AttrRanges(attrs), lo, p, q);
    if lx.isNameStart(s[q]) {
      var r := ParseAttr(lx, s, q);
      AttrChain(lx, s, q);
      AttrRangesAppend(attrs, r.attr);
      ChainJoin(AttrRanges(attrs), [r.attr.name, r.attr.value], lo, q, q, r.next);
      AttrsChain(lx, s, r.next, attrs + [r.attr], lo);
    } else {
      ChainRaise(AttrRanges(attrs), lo, q, ParseAttrs(lx, s, p, attrs).next);
    }
  }

  /** Where the ranges of a node end: text still shares its `<` with the next node. */
  function NodeEnd(n: Node, next: nat): nat {
    if n.Text? && !n.cdata then next + 1 else next
  }

  lemma LeafChain(lx: Lexicon, s: string, p: nat, q: nat, k: Kind)
    requires p <= q < |s| && StartsAt(s, q, k.Header()) && k != ElementKind
    requires ParseLeaf(lx, s, p, q, k).Parsed?
    ensures var r := ParseLeaf(lx, s, p, q, k);
            && Chain(Ranges(r.node), if k == TextKind then p else q + 1, NodeEnd(r.node, r.next))
            && Behind(s, NodeEnd(r.node, r.next), r.next)
  {
    hide FindTag, StartsAt;
    var r := ParseLeaf(lx, s, p, q, k);
    assert Ranges(r.node) == [r.node.text];
    assert [r.node.text][1..] == [];
    if k == TextKind {
      StartsAtIndex(s, r.next, "<", 0);
    }
  }

  lemma {:induction false} NodesChain(lx: Lexicon, s: string, p: nat, depth: nat, top: bool, nodes: seq<Node>,
                                      lo: nat, f: nat)
    requires p <= |s| && lx.Valid() && Chain(AllRanges(nodes), lo, f) && Behind(s, f, p)
    requires !ParseNodes(lx, s, p, depth, top, nodes).Broken?
    ensures var r := ParseNodes(lx, s, p, depth, top, nodes);
            && (r.Ended? ==> Chain(AllRanges(r.nodes), lo, |s| + 1))
            && (r.Closed? ==> Chain(AllRanges(r.nodes) + [r.name], lo, r.next))
    decreases |s| - p, 1
  {
    hide ParseNode, AllRanges, Chain;
    var q := Skip(lx, s, p);
    if At(s, q) == NUL {
      ChainRaise(AllRanges(nodes), lo, f, |s| + 1);
    } else {
      var r := ParseNode(lx, s, p, q, depth);
      var from := if s[q] == '<' then q + 1 else p;
      assert f <= from;
      NodeChain(lx, s, p, q, depth);
      if r.EndTag? {
        ChainJoin(AllRanges(nodes), [r.name], lo, f, from, r.next);
      } else {
        var f' := NodeEnd(r.node, r.next);
        ChainJoin(AllRanges(nodes), Ranges(r.node), lo, f, from, f');
        AllRangesAppend(nodes, r.node);
        NodesChain(lx, s, r.next, depth, top, nodes + [r.node], lo, f');
      }
    }
  }

  lemma {:induction false} NodeChain(lx: Lexicon, s: string, p: nat, q: nat, depth: nat)
    requires p <= q < |s| && q == Skip(lx, s, p) && lx.Valid() && !ParseNode(lx, s, p, q, depth).Fail?
    ensures var r := ParseNode(lx, s, p, q, depth);
            var from := if s[q] == '<' then q + 1 else p;
            && (r.EndTag? ==> s[q] == '<' && Chain([r.name], from, r.next))
            && (r.Parsed? ==> Chain(Ranges(r.node), from, NodeEnd(r.node, r.next)))
            && (r.Parsed? ==> Behind(s, NodeEnd(r.node, r.next), r.next))
    decreases |s| - p, 0
  {
    hide ParseElement, ParseLeaf, Chain, Ranges;
    var k := Identify(s, q);
    if k == ElementKind {
      ElementChain(lx, s, q + 1, depth);
    } else {
      LeafChain(lx, s, p, q, k);
    }
  }

  lemma {:induction false} ElementChain(lx: Lexicon, s: string, p: nat, depth: nat)
    requires p <= |s| && lx.Valid() && !ParseElement(lx, s, p, depth).Fail?
    ensures var r := ParseElement(lx, s, p, depth);
            && (r.EndTag? ==> Chain([r.name], p, r.next))
            && (r.Parsed? ==> r.node.Element? && Chain(Ranges(r.node), p, r.next))
    decreases |s| - p, 0
  {
    hide ParseContent, ParseAttrs;
    var w := Skip(lx, s, p);
    var n := if At(s, w) == '/' then w + 1 else w;
    var e := ParseName(lx, s, n).value;
    var tag := ParseAttrs(lx, s, e, []);
    var name := Range(n, e);
    TagChain(lx, s, p, name);
    var r := ParseElement(lx, s, p, depth);
    if tag.TagClosed? {
      assert Ranges(r.node) == [name] + AttrRanges(tag.attrs);
    } else if r.EndTag? {
      ChainPrefix([name], AttrRanges(tag.attrs), p, tag.next);
    } else {
      ContentChain(lx, s, tag.next, depth, name, tag.attrs, p);
    }
  }

  /** The name of a tag and its attributes. */
  lemma TagChain(lx: Lexicon, s: string, p: nat, name: Range)
    requires p <= name.start && ParseTagAt(lx, s, name)
    ensures Chain([name] + AttrRanges(ParseAttrs(lx, s, name.end, []).attrs), p, ParseAttrs(lx, s, name.end, []).next)
  {
    hide ParseAttrs;
    var tag := ParseAttrs(lx, s, name.end, []);
    AttrsAfterName(lx, s, name);
    assert ([name] + AttrRanges(tag.attrs))[1..] == AttrRanges(tag.attrs);
  }

  ghost predicate ParseTagAt(lx: Lexicon, s: string, name: Range) {
    && name.start <= name.end <= |s| && ParseName(lx, s, name.start) == Some(name.end)
    && !ParseAttrs(lx, s, name.end, []).TagFail? && lx.Valid()
  }

  lemma AttrsAfterName(lx: Lexicon, s: string, name: Range)
    requires ParseTagAt(lx, s, name)
    ensures Chain(AttrRanges(ParseAttrs(lx, s, name.end, []).attrs), name.end + 1, ParseAttrs(lx, s, name.end, []).next)
  {
    hide ParseAttr;
    var q := Skip(lx, s, name.end);
    assert Skip(lx, s, q) == q;
    assert ParseAttrs(lx, s, name.end, []) == ParseAttrs(lx, s, q, []);
    if q > name.end {
      AttrsChain(lx, s, q, [], name.end + 1);
    }
  }

  lemma {:induction false} ContentChain(lx: Lexicon, s: string, p: nat, depth: nat, name: Range, attrs: seq<Attr>,
                                        lo: nat)
    requires p <= |s| && lx.Valid() && Chain([name] + AttrRanges(attrs), lo, p)
    requires !ParseContent(lx, s, p, depth, name, attrs).Fail?
    ensures var r := ParseContent(lx, s, p, depth, name, attrs);
            r.Parsed? && r.node.Element? && Chain(Ranges(r.node), lo, r.next)
    decreases |s| - p, 2
  {
    hide ParseNodes, Chain;
    var kids := ParseNodes(lx, s, p, depth + 1, false, []);
    assert Chain([], p, p) by { EmptyChain(p); }
    NodesChain(lx, s, p, depth + 1, false, [], p, p);
    var tail := AllRanges(kids.nodes) + [kids.name];
    ChainJoin([name] + AttrRanges(attrs), tail, lo, p, p, kids.next);
    assert [name] + AttrRanges(attrs) + tail
        == [name] + AttrRanges(attrs) + AllRanges(kids.nodes) + [kids.name];
  }

  lemma NoRanges()
    ensures AllRanges([]) == []
  {
  }

  lemma EmptyChain(p: nat)
    ensures Chain([], p, p)
  {
  }

  /** Ranges with their terminators are disjoint and lie in a buffer of `size` bytes. */
  predicate Separated(rs: seq<Range>, size: nat) {
    && (forall i :: 0 <= i < |rs| ==> rs[i].start <= rs[i].end < size)
    && (forall i, j :: 0 <= i < j < |rs| ==> rs[i].end < rs[j].start)
  }

  /** All ranges of a parsed document, with their terminators, are disjoint and inside the buffer. */
  lemma ParseSeparates(lx: Lexicon, s: string)
    requires lx.Valid() && Parse(lx, s).Ok?
    ensures Separated(AllRanges(Parse(lx, s).doc.nodes), |s| + 1)
  {
    ParseChain(lx, s);
    var rs := AllRanges(Parse(lx, s).doc.nodes);
    forall i | 0 <= i < |rs|
      ensures rs[i].start <= rs[i].end <= |s|
    {
      ChainWithin(rs, 0, |s| + 1, i);
    }
    forall i, j | 0 <= i < j < |rs|
      ensures rs[i].end < rs[j].start
    {
      ChainSeparates(rs, 0, |s| + 1, i, j);
    }
  }

  /** Where the nodes of a document come from. */
  lemma ParsedNodes(lx: Lexicon, s: string) returns (p: nat)
    requires lx.Valid() && Parse(lx, s).Ok?
    ensures p <= |s| && !ParseNodes(lx, s, p, 1, true, []).Broken?
    ensures Parse(lx, s).doc.nodes == ParseNodes(lx, s, p, 1, true, []).nodes
  {
    hide ParseNodes, Skip;
    var w := Skip(lx, s, 0);
    p := if StartsAt(s, w, BOM) then w + 3 else w;
  }

  lemma ParseChain(lx: Lexicon, s: string)
    requires lx.Valid() && Parse(lx, s).Ok?
    ensures Chain(AllRanges(Parse(lx, s).doc.nodes), 0, |s| + 1)
  {
    hide ParseNodes, Chain, AllRanges, Skip;
    var p := ParsedNodes(lx, s);
    hide Parse;
    assert Chain(AllRanges([]), p, p) by { EmptyChain(p); NoRanges(); }
    NodesChain(lx, s, p, 1, true, [], p, p);
    var r := ParseNodes(lx, s, p, 1, true, []);
    if r.Closed? {
      ChainPrefix(AllRanges(r.nodes), [r.name], p, r.next);
      ChainRaise(AllRanges(r.nodes), p, r.next, |s| + 1);
    }
    ChainWiden(AllRanges(r.nodes), p, 0, |s| + 1);
  }

  lemma {:induction false} ChainPrefix(a: seq<Range>, b: seq<Range>, lo: nat, hi: nat)
    requires Chain(a + b, lo, hi)
    ensures Chain(a, lo, hi)
  {
    if a == [] {
      ChainBound(a + b, lo, hi);
    } else {
      assert (a + b)[1..] == a[1..] + b;
      ChainPrefix(a[1..], b, a[0].end + 1, hi);
    }
  }
}
