/**
  The many ways to write the attributes of an element: blanks around the equals sign, quotes of either kind,
  blanks or none between one attribute and the next.  All of them are read as the same names and values.
  */
module XmlSpelling {
  import opened Collections
  import opened XmlChars
  import opened XmlTree
  import opened XmlNormal
  import opened Escaping
  import StrPair
  import P = XmlParser
  import G = XmlGrammar
  import W = XmlWellFormed

  /** An attribute as it is written. */
  datatype Spelled = Spelled(gap: string, name: string, before: string, after: string, quote: char, value: string) {
    function Head(): string {
      gap + name + before + "=" + after
    }

    function Text(): string {
      Head() + ([quote] + value + [quote])
    }

    predicate Valid(lx: P.Lexicon) {
      && Blank(lx, gap) && ValidName(lx, name) && Blank(lx, before) && Blank(lx, after)
      && quote in {'\"', '\''} && Free(value, quote) && Free(value, NUL)
    }
  }

  function Spelling(attrs: seq<Spelled>): string {
    if attrs == [] then "" else attrs[0].Text() + Spelling(attrs[1..])
  }

  /** Names are valid and distinct, and a blank sets the first one off. */
  predicate AllValid(lx: P.Lexicon, attrs: seq<Spelled>) {
    && (forall i :: 0 <= i < |attrs| ==> attrs[i].Valid(lx))
    && (forall i, j :: 0 <= i < j < |attrs| ==> attrs[i].name != attrs[j].name)
  }

  /** The attributes that are meant. */
  function Meaning(attrs: seq<Spelled>): seq<Attribute> {
    if attrs == [] then []
    else [Attribute(attrs[0].name, StrPair.Decode(attrs[0].value, StrPair.TEXT))] + Meaning(attrs[1..])
  }

  /** Where an attribute written at `p` has its name and its value. */
  function Place(p: nat, a: Spelled): P.Attr {
    var n, v := p + |a.gap|, p + |a.Head()| + 1;
    P.Attr(P.Range(n, n + |a.name|), P.Range(v, v + |a.value|))
  }

  function Places(p: nat, attrs: seq<Spelled>): (r: seq<P.Attr>)
    ensures |r| == |attrs|
    decreases attrs
  {
    if attrs == [] then [] else [Place(p, attrs[0])] + Places(p + |attrs[0].Text()|, attrs[1..])
  }

  lemma BlanksAt(lx: P.Lexicon, s: string, i: nat, run: string)
    requires StartsAt(s, i, run) && Blank(lx, run)
    ensures G.Blanks(lx, s, i, i + |run|)
  {
    forall k | i <= k < i + |run|
      ensures lx.isSpace(s[k])
    {
      StartsAtIndex(s, i, run, k - i);
    }
  }

  lemma TokenAt(lx: P.Lexicon, s: string, i: nat, n: string)
    requires StartsAt(s, i, n) && ValidName(lx, n) && (i + |n| < |s| ==> !lx.isName(s[i + |n|]))
    ensures G.Token(lx, s, P.Range(i, i + |n|)) && P.Slice(s, P.Range(i, i + |n|)) == n
  {
    forall k | i <= k < i + |n|
      ensures s[k] == n[k - i]
    {
      StartsAtIndex(s, i, n, k - i);
    }
  }

  lemma ValueAt(s: string, i: nat, v: string, quote: char)
    requires StartsAt(s, i, v) && StartsAt(s, i + |v|, [quote]) && Free(v, quote) && Free(v, NUL)
    ensures G.UpTo(s, P.Range(i, i + |v|), [quote]) && P.Slice(s, P.Range(i, i + |v|)) == v
  {
    forall j | i <= j < i + |v|
      ensures s[j] != NUL && !StartsAt(s, j, [quote])
    {
      StartsAtIndex(s, i, v, j - i);
      assert s[j..j + 1][0] == s[j];
    }
  }

  /** The parts of a written attribute follow one another. */
  lemma PartsAt(s: string, p: nat, a: Spelled)
    requires StartsAt(s, p, a.Text())
    ensures var n := p + |a.gap|;
            var e := n + |a.name| + |a.before|;
            var q := e + 1 + |a.after|;
            && StartsAt(s, p, a.gap) && StartsAt(s, n, a.name) && StartsAt(s, n + |a.name|, a.before)
            && StartsAt(s, e, "=") && StartsAt(s, e + 1, a.after)
            && q == p + |a.Head()| && q + |a.value| + 2 == p + |a.Text()| <= |s|
            && StartsAt(s, q, [a.quote]) && StartsAt(s, q + 1, a.value) && StartsAt(s, q + 1 + |a.value|, [a.quote])
  {
    assert p + |a.Text()| <= |s|;
    hide StartsAt;
    StartsAtConcat(s, p, a.Head(), [a.quote] + a.value + [a.quote]);
    StartsAtConcat(s, p + |a.Head()|, [a.quote] + a.value, [a.quote]);
    StartsAtConcat(s, p + |a.Head()|, [a.quote], a.value);
    StartsAtConcat(s, p, a.gap + a.name + a.before + "=", a.after);
    StartsAtConcat(s, p, a.gap + a.name + a.before, "=");
    StartsAtConcat(s, p, a.gap + a.name, a.before);
    StartsAtConcat(s, p, a.gap, a.name);
  }

  lemma NameStops(lx: P.Lexicon, s: string, i: nat, run: string, c: char)
    requires lx.Valid() && Blank(lx, run) && StartsAt(s, i, run) && StartsAt(s, i + |run|, [c]) && c in {'=', '/'}
    ensures i < |s| && !lx.isName(s[i])
  {
    StartsAtIndex(s, i + |run|, [c], 0);
    if run != "" {
      StartsAtIndex(s, i, run, 0);
    }
  }

  lemma EqualsAt(lx: P.Lexicon, s: string, i: nat, before: string, after: string)
    requires Blank(lx, before) && Blank(lx, after) && StartsAt(s, i, before) && StartsAt(s, i + |before|, "=")
    requires StartsAt(s, i + |before| + 1, after)
    ensures G.EqualsSign(lx, s, i, i + |before| + 1 + |after|)
  {
    var e := i + |before|;
    BlanksAt(lx, s, i, before);
    BlanksAt(lx, s, e + 1, after);
    StartsAtIndex(s, e, "=", 0);
    assert G.Blanks(lx, s, i, e) && At(s, e) == '=' && G.Blanks(lx, s, e + 1, e + 1 + |after|);
  }

  lemma SpelledAt(lx: P.Lexicon, s: string, p: nat, a: Spelled)
    requires lx.Valid() && a.Valid(lx) && StartsAt(s, p, a.Text())
    ensures var r := Place(p, a);
            && G.Blanks(lx, s, p, r.name.start) && G.AttrAt(lx, s, r) && r.value.end + 1 == p + |a.Text()|
            && P.Slice(s, r.name) == a.name && P.Slice(s, r.value) == a.value
  {
    hide G.Blanks, G.UpTo, G.Token, G.EqualsSign, StartsAt, P.Slice, Blank, ValidName, Free, P.Lexicon.Valid;
    hide Spelled.Text, Spelled.Head;
    PartsAt(s, p, a);
    NameStops(lx, s, p + |a.gap| + |a.name|, a.before, '=');
    var n := p + |a.gap|;
    var q := n + |a.name| + |a.before| + 1 + |a.after|;
    BlanksAt(lx, s, p, a.gap);
    TokenAt(lx, s, n, a.name);
    EqualsAt(lx, s, n + |a.name|, a.before, a.after);
    StartsAtIndex(s, q, [a.quote], 0);
    ValueAt(s, q + 1, a.value, a.quote);
  }

  lemma {:induction false} SpellingAt(lx: P.Lexicon, s: string, p: nat, attrs: seq<Spelled>)
    requires lx.Valid() && AllValid(lx, attrs) && StartsAt(s, p, Spelling(attrs))
    ensures var r := Places(p, attrs);
            && G.AttrsAt(lx, s, p, r) && G.AttrsEnd(p, r) == p + |Spelling(attrs)|
            && ReadAttrs(s, r) == Meaning(attrs) && W.DistinctNames(s, r)
            && forall i :: 0 <= i < |attrs| ==> P.Slice(s, r[i].name) == attrs[i].name
    decreases attrs
  {
    hide G.AttrAt, G.Blanks, P.Slice, StartsAt, StrPair.Decode, Place, P.Lexicon.Valid;
    hide Spelled.Text, Spelled.Head, Spelled.Valid;
    if attrs == [] {
    } else {
      var a, rest := attrs[0], attrs[1..];
      StartsAtConcat(s, p, a.Text(), Spelling(rest));
      SpelledAt(lx, s, p, a);
      SpellingAt(lx, s, p + |a.Text()|, rest);
      assert Places(p, attrs)[1..] == Places(p + |a.Text()|, rest);
    }
  }

  /** A tag without content, its attributes written in any of these ways, is one element with those attributes. */
  lemma {:induction false} SpelledAttributes(lx: P.Lexicon, name: string, attrs: seq<Spelled>, gap: string)
    requires lx.Valid() && lx.maxDepth != 1 && ValidName(lx, name) && AllValid(lx, attrs) && Blank(lx, gap)
    requires attrs != [] ==> attrs[0].gap != ""
    ensures var s := "<" + name + Spelling(attrs) + gap + "/>";
            var r := P.Parse(lx, s);
            r.Ok? && !r.doc.bom && ReadAll(s, r.doc.nodes) == [Element(name, Meaning(attrs), [])]
  {
    var s := "<" + name + Spelling(attrs) + gap + "/>";
    var r := TagSpelled(lx, s, name, attrs, gap);
    var node := P.Element(P.Range(1, 1 + |name|), r, [], P.SelfClosed);
    TagDocument(lx, s, P.Range(1, 1 + |name|), r);
    G.ParseIsGrammar(lx, s, P.Document(false, [node]));
    hide G.IsDocument, G.TagAt, Spelling, P.Parse, Meaning, P.Slice, ReadAttrs;
    assert [node][1..] == [];
  }

  lemma {:induction false} TagSpelled(lx: P.Lexicon, s: string, name: string, attrs: seq<Spelled>, gap: string)
    returns (r: seq<P.Attr>)
    requires lx.Valid() && ValidName(lx, name) && AllValid(lx, attrs) && Blank(lx, gap)
    requires attrs != [] ==> attrs[0].gap != ""
    requires s == "<" + name + Spelling(attrs) + gap + "/>"
    ensures var tag := P.Range(1, 1 + |name|);
            && G.TagAt(lx, s, tag, r, "/>", |s|) && StartsAt(s, 0, "<")
            && P.Slice(s, tag) == name && ReadAttrs(s, r) == Meaning(attrs)
  {
    hide G.Blanks, G.Token, G.AttrsAt, G.AttrsEnd, StartsAt, P.Slice, Blank, ValidName, P.Lexicon.Valid, AllValid;
    hide Places, Spelling, Meaning, W.DistinctNames;
    TagParts(s, name, Spelling(attrs), gap);
    AfterName(lx, s, name, attrs, gap);
    r := Places(1 + |name|, attrs);
    SpellingAt(lx, s, 1 + |name|, attrs);
    TokenAt(lx, s, 1, name);
    BlanksAt(lx, s, 1 + |name| + |Spelling(attrs)|, gap);
  }

  lemma TagParts(s: string, name: string, attrs: string, gap: string)
    requires s == "<" + name + attrs + gap + "/>"
    ensures StartsAt(s, 0, "<") && StartsAt(s, 1, name) && StartsAt(s, 1 + |name|, attrs)
    ensures var e := 1 + |name| + |attrs|;
            StartsAt(s, e, gap) && StartsAt(s, e + |gap|, "/>") && |s| == e + |gap| + 2
  {
    assert StartsAt(s, 0, s);
    hide StartsAt;
    StartsAtConcat(s, 0, "<" + name + attrs + gap, "/>");
    StartsAtConcat(s, 0, "<" + name + attrs, gap);
    StartsAtConcat(s, 0, "<" + name, attrs);
    StartsAtConcat(s, 0, "<", name);
  }

  lemma {:induction false} AfterName(lx: P.Lexicon, s: string, name: string, attrs: seq<Spelled>, gap: string)
    requires lx.Valid() && AllValid(lx, attrs) && Blank(lx, gap) && (attrs != [] ==> attrs[0].gap != "")
    requires s == "<" + name + Spelling(attrs) + gap + "/>"
    ensures !lx.isName(s[1 + |name|])
  {
    TagParts(s, name, Spelling(attrs), gap);
    if attrs == [] {
      StartsAtConcat(s, 1 + |name| + |gap|, "/", ">");
      assert "/" + ">" == "/>";
      NameStops(lx, s, 1 + |name|, gap, '/');
    } else {
      StartsAtConcat(s, 1 + |name|, attrs[0].Text(), Spelling(attrs[1..]));
      PartsAt(s, 1 + |name|, attrs[0]);
      StartsAtIndex(s, 1 + |name|, attrs[0].gap, 0);
      assert attrs[0].Valid(lx);
    }
  }

  lemma TagDocument(lx: P.Lexicon, s: string, tag: P.Range, attrs: seq<P.Attr>)
    requires lx.Valid() && lx.maxDepth != 1 && StartsAt(s, 0, "<") && tag.start == 1
    requires G.TagAt(lx, s, tag, attrs, "/>", |s|)
    ensures G.IsDocument(lx, s, P.Document(false, [P.Element(tag, attrs, [], P.SelfClosed)]))
  {
    var node := P.Element(tag, attrs, [], P.SelfClosed);
    StartsAtIndex(s, 0, "<", 0);
    G.TokenStarts(lx, s, tag);
    assert G.OpensAt(lx, s, 0, 0, 1);
    assert G.NodeAt(lx, s, 0, node, 1, |s|);
    assert [node][1..] == [];
    assert G.ListAt(lx, s, |s|, [], 1, |s|);
    assert G.ListAt(lx, s, 0, [node], 1, |s|);
    assert G.Blanks(lx, s, |s|, |s|);
    assert G.OverAt(lx, s, |s|);
    if StartsAt(s, 0, BOM) { StartsAtIndex(s, 0, BOM, 0); }
    assert G.StartOf(lx, s, false, 0);
  }
}
