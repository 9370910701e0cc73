/**
  The language that `XMLDocument::Parse` accepts, said without the parser: where each tag, name, quote and
  end mark has to stand around the ranges of a parsed tree.  The parser accepts a buffer with a tree exactly
  when the buffer is laid out as that tree.
  */
module XmlGrammar {
  import opened Collections
  import opened XmlChars
  import opened XmlParser
  import W = XmlWellFormed

  // ----- the grammar -----

  ghost predicate Blanks(lx: Lexicon, s: string, i: nat, j: nat) {
    i <= j <= |s| && forall k :: i <= k < j ==> lx.isSpace(s[k])
  }

  /** A name, with no name character behind it. */
  ghost predicate Token(lx: Lexicon, s: string, r: Range) {
    W.IsNameToken(lx, s, r) && (r.end < |s| ==> !lx.isName(s[r.end]))
  }

  /** The range ends at the first `mark`, with no NUL before it. */
  ghost predicate UpTo(s: string, r: Range, mark: string) {
    && r.start <= r.end && StartsAt(s, r.end, mark)
    && forall j :: r.start <= j < r.end ==> s[j] != NUL && !StartsAt(s, j, mark)
  }

  ghost predicate EqualsSign(lx: Lexicon, s: string, i: nat, j: nat) {
    exists e: nat :: Blanks(lx, s, i, e) && At(s, e) == '=' && Blanks(lx, s, e + 1, j)
  }

  /** A name, an equals sign that may stand among blanks, and a value in quotes of either kind. */
  ghost predicate AttrAt(lx: Lexicon, s: string, a: Attr) {
    && Token(lx, s, a.name) && a.name.end < a.value.start <= |s|
    && s[a.value.start - 1] in {'\"', '\''}
    && EqualsSign(lx, s, a.name.end, a.value.start - 1)
    && UpTo(s, a.value, [s[a.value.start - 1]])
  }

  /** Attributes one after the other from `p` on; blanks between them may be left out. */
  ghost predicate AttrsAt(lx: Lexicon, s: string, p: nat, attrs: seq<Attr>)
    decreases attrs
  {
    attrs != [] ==>
      && Blanks(lx, s, p, attrs[0].name.start) && AttrAt(lx, s, attrs[0])
      && AttrsAt(lx, s, attrs[0].value.end + 1, attrs[1..])
  }

  function AttrsEnd(p: nat, attrs: seq<Attr>): nat
    decreases attrs
  {
    if attrs == [] then p else AttrsEnd(attrs[0].value.end + 1, attrs[1..])
  }

  /** Blanks and `mark`, and nothing else, from `p` to `q`. */
  ghost predicate EndsWith(lx: Lexicon, s: string, p: nat, mark: string, q: nat) {
    |mark| <= q && Blanks(lx, s, p, q - |mark|) && StartsAt(s, q - |mark|, mark)
  }

  ghost predicate TagAt(lx: Lexicon, s: string, name: Range, attrs: seq<Attr>, mark: string, q: nat) {
    && Token(lx, s, name) && AttrsAt(lx, s, name.end, attrs) && W.DistinctNames(s, attrs)
    && EndsWith(lx, s, AttrsEnd(name.end, attrs), mark, q)
  }

  ghost predicate OpensAt(lx: Lexicon, s: string, p: nat, lt: nat, w: nat) {
    Blanks(lx, s, p, lt) && At(s, lt) == '<' && At(s, lt + 1) !in {'!', '?'} && Blanks(lx, s, lt + 1, w)
  }

  /** From `p` to `w` blanks around the `<` of a tag. */
  ghost predicate Opens(lx: Lexicon, s: string, p: nat, w: nat) {
    exists lt: nat :: OpensAt(lx, s, p, lt, w)
  }

  /** The same with a slash before `w`. */
  ghost predicate OpensSlashed(lx: Lexicon, s: string, p: nat, w: nat) {
    w > 0 && At(s, w - 1) == '/' && Opens(lx, s, p, w - 1)
  }

  /** An end tag; the attributes it may carry are dropped. */
  ghost predicate EndTagAt(lx: Lexicon, s: string, p: nat, name: Range, q: nat) {
    OpensSlashed(lx, s, p, name.start) && exists attrs :: TagAt(lx, s, name, attrs, ">", q)
  }

  /** Blanks, a header, the range and its end mark. */
  ghost predicate MarkedAt(lx: Lexicon, s: string, p: nat, header: string, r: Range, mark: string, q: nat) {
    && |header| <= r.start && Blanks(lx, s, p, r.start - |header|) && StartsAt(s, r.start - |header|, header)
    && UpTo(s, r, mark) && q == r.end + |mark|
  }

  /** Everything up to the next `<`, blanks included but not alone, with input behind the `<`. */
  ghost predicate TextAt(lx: Lexicon, s: string, p: nat, r: Range, q: nat) {
    && r.start == p && q == r.end && UpTo(s, r, "<") && !Blanks(lx, s, p, q) && At(s, q + 1) != NUL
  }

  ghost predicate NodeAt(lx: Lexicon, s: string, p: nat, n: Node, depth: nat, q: nat)
    decreases n, 1
  {
    match n
    case Element(name, attrs, kids, close) =>
      if close.SelfClosed? then
        && kids == [] && (Opens(lx, s, p, name.start) || OpensSlashed(lx, s, p, name.start))
        && TagAt(lx, s, name, attrs, "/>", q)
      else
        && Opens(lx, s, p, name.start) && depth + 1 != lx.maxDepth
        && Slice(s, close.endName) == Slice(s, name) && W.DeclarationsFirst(kids, false)
        && exists b: nat, e: nat ::
             && TagAt(lx, s, name, attrs, ">", b) && ListAt(lx, s, b, kids, depth + 1, e)
             && EndTagAt(lx, s, e, close.endName, q)
    case Text(r, cdata) =>
      if cdata then MarkedAt(lx, s, p, "<![CDATA[", r, "]]>", q) else TextAt(lx, s, p, r, q)
    case Comment(r) => MarkedAt(lx, s, p, "<!--", r, "-->", q)
    case Declaration(r) => MarkedAt(lx, s, p, "<?", r, "?>", q)
    case Unknown(r) =>
      && MarkedAt(lx, s, p, "<!", r, ">", q)
      && !StartsAt(s, r.start, "--") && !StartsAt(s, r.start, "[CDATA[")
  }

  ghost predicate ListAt(lx: Lexicon, s: string, p: nat, ns: seq<Node>, depth: nat, q: nat)
    decreases ns, 0
  {
    if ns == [] then p == q
    else exists m: nat :: NodeAt(lx, s, p, ns[0], depth, m) && ListAt(lx, s, m, ns[1..], depth, q)
  }

  /** Nothing but blanks up to the end of the input. */
  ghost predicate OverAt(lx: Lexicon, s: string, p: nat) {
    exists e: nat :: Blanks(lx, s, p, e) && At(s, e) == NUL
  }

  /** The list is over: by the end of the input, or by an end tag that nothing has opened. */
  ghost predicate StopsAt(lx: Lexicon, s: string, p: nat) {
    OverAt(lx, s, p) || exists name, q: nat :: EndTagAt(lx, s, p, name, q)
  }

  ghost predicate StartOf(lx: Lexicon, s: string, bom: bool, p: nat) {
    && p <= |s| && At(s, p) != NUL
    && (bom ==> p >= 3 && Blanks(lx, s, 0, p - 3) && StartsAt(s, p - 3, BOM))
    && (!bom ==> Blanks(lx, s, 0, p) && !lx.isSpace(s[p]) && !StartsAt(s, p, BOM))
  }

  /** The buffer is laid out as this document. */
  ghost predicate IsDocument(lx: Lexicon, s: string, doc: Document) {
    && lx.maxDepth != 1 && W.DeclarationsFirst(doc.nodes, true)
    && exists p: nat, q: nat ::
         StartOf(lx, s, doc.bom, p) && ListAt(lx, s, p, doc.nodes, 1, q) && StopsAt(lx, s, q)
  }

  // ----- scanning -----

  lemma {:induction false} SkipTo(lx: Lexicon, s: string, i: nat, j: nat)
    requires Blanks(lx, s, i, j) && (j < |s| ==> !lx.isSpace(s[j]))
    ensures Skip(lx, s, i) == j
    decreases j - i
  {
    if i == j {
    } else {
      SkipTo(lx, s, i + 1, j);
    }
  }

  lemma {:induction false} NameEndTo(lx: Lexicon, s: string, i: nat, j: nat)
    requires lx.Valid() && i <= j <= |s| && (forall k :: i <= k < j ==> lx.isName(s[k]))
    requires j < |s| ==> !lx.isName(s[j])
    ensures NameEnd(lx, s, i) == j
    decreases j - i
  {
    if i == j {
    } else {
      NameEndTo(lx, s, i + 1, j);
    }
  }

  lemma TokenParses(lx: Lexicon, s: string, r: Range)
    requires lx.Valid() && Token(lx, s, r)
    ensures ParseName(lx, s, r.start) == Some(r.end)
  {
    NameEndTo(lx, s, r.start + 1, r.end);
  }

  lemma TokenOf(lx: Lexicon, s: string, p: nat)
    requires lx.Valid() && p <= |s| && ParseName(lx, s, p).Some?
    ensures Token(lx, s, Range(p, ParseName(lx, s, p).value))
  {
  }

  lemma {:induction false} FindUpTo(s: string, r: Range, mark: string)
    requires UpTo(s, r, mark) && mark != "" && mark[0] != NUL
    ensures FindTag(s, r.start, mark) == Some(r.end)
    decreases r.end - r.start
  {
    StartsAtIndex(s, r.end, mark, 0);
    if r.start == r.end {
    } else {
      FindUpTo(s, Range(r.start + 1, r.end), mark);
    }
  }

  // ----- attributes -----

  lemma AttrParses(lx: Lexicon, s: string, a: Attr)
    requires lx.Valid() && AttrAt(lx, s, a)
    ensures a.name.start <= |s| && ParseAttr(lx, s, a.name.start) == GotAttr(a, a.value.end + 1)
  {
    hide Token, UpTo, Skip, ParseName, FindTag, StartsAt;
    TokenParses(lx, s, a.name);
    var e: nat :| Blanks(lx, s, a.name.end, e) && At(s, e) == '=' && Blanks(lx, s, e + 1, a.value.start - 1);
    SkipTo(lx, s, a.name.end, e);
    SkipTo(lx, s, e + 1, a.value.start - 1);
    FindUpTo(s, a.value, [s[a.value.start - 1]]);
    assert a == Attr(Range(a.name.start, a.name.end), Range(a.value.start, a.value.end));
  }

  lemma AttrOf(lx: Lexicon, s: string, p: nat)
    requires lx.Valid() && p <= |s| && ParseAttr(lx, s, p).GotAttr?
    ensures var r := ParseAttr(lx, s, p);
            AttrAt(lx, s, r.attr) && r.attr.name.start == p && r.next == r.attr.value.end + 1
  {
    TokenOf(lx, s, p);
    hide Token;
    var name := ParseName(lx, s, p).value;
    var e := Skip(lx, s, name);
    assert Blanks(lx, s, name, e) && At(s, e) == '=' && Blanks(lx, s, e + 1, Skip(lx, s, e + 1));
  }

  lemma {:induction false} AttrsReach(lx: Lexicon, s: string, p: nat, acc: seq<Attr>, attrs: seq<Attr>)
    requires lx.Valid() && p <= |s| && AttrsAt(lx, s, p, attrs) && W.DistinctNames(s, acc + attrs)
    ensures AttrsEnd(p, attrs) <= |s|
    ensures ParseAttrs(lx, s, p, acc) == ParseAttrs(lx, s, AttrsEnd(p, attrs), acc + attrs)
    decreases attrs
  {
    hide AttrAt, ParseAttrs, W.DistinctNames;
    if attrs == [] {
      assert acc + attrs == acc;
    } else {
      var a, rest := attrs[0], attrs[1..];
      assert acc + attrs == acc + [a] + rest;
      NewName(s, acc, a, rest);
      OneAttr(lx, s, p, acc, a);
      AttrsReach(lx, s, a.value.end + 1, acc + [a], rest);
    }
  }

  lemma AttrsParse(lx: Lexicon, s: string, p: nat, attrs: seq<Attr>, mark: string, q: nat)
    requires lx.Valid() && mark in {">", "/>"} && p <= |s|
    requires AttrsAt(lx, s, p, attrs) && EndsWith(lx, s, AttrsEnd(p, attrs), mark, q) && W.DistinctNames(s, attrs)
    ensures ParseAttrs(lx, s, p, []) == if mark == ">" then TagOpen(attrs, q) else TagClosed(attrs, q)
  {
    hide AttrsAt, ParseAttrs, EndsWith, W.DistinctNames;
    assert [] + attrs == attrs;
    AttrsReach(lx, s, p, [], attrs);
    TagEnds(lx, s, AttrsEnd(p, attrs), attrs, mark, q);
  }

  lemma OneAttr(lx: Lexicon, s: string, p: nat, acc: seq<Attr>, a: Attr)
    requires lx.Valid() && Blanks(lx, s, p, a.name.start) && AttrAt(lx, s, a) && !HasName(s, acc, a.name)
    ensures a.value.end + 1 <= |s| && ParseAttrs(lx, s, p, acc) == ParseAttrs(lx, s, a.value.end + 1, acc + [a])
  {
    hide AttrAt, ParseAttr, HasName;
    AttrParses(lx, s, a);
    NameOf(lx, s, a);
    SkipTo(lx, s, p, a.name.start);
  }

  lemma NameOf(lx: Lexicon, s: string, a: Attr)
    requires AttrAt(lx, s, a)
    ensures a.name.start < |s| && lx.isNameStart(s[a.name.start])
  {
  }

  lemma NewName(s: string, acc: seq<Attr>, a: Attr, rest: seq<Attr>)
    requires W.DistinctNames(s, acc + [a] + rest)
    ensures !HasName(s, acc, a.name)
  {
    var all := acc + [a] + rest;
    forall i | 0 <= i < |acc|
      ensures Slice(s, acc[i].name) != Slice(s, a.name)
    {
      assert all[i] == acc[i] && all[|acc|] == a;
    }
  }

  lemma TagEnds(lx: Lexicon, s: string, p: nat, acc: seq<Attr>, mark: string, q: nat)
    requires lx.Valid() && mark in {">", "/>"} && EndsWith(lx, s, p, mark, q)
    ensures p <= |s| && ParseAttrs(lx, s, p, acc) == if mark == ">" then TagOpen(acc, q) else TagClosed(acc, q)
  {
    var k := q - |mark|;
    StartsAtIndex(s, k, mark, 0);
    StartsAtIndex(s, k, mark, |mark| - 1);
    SkipTo(lx, s, p, k);
  }

  lemma TagEndOf(lx: Lexicon, s: string, p: nat, acc: seq<Attr>)
    requires p <= |s| && !ParseAttrs(lx, s, p, acc).TagFail? && !lx.isNameStart(At(s, Skip(lx, s, p)))
    ensures var r := ParseAttrs(lx, s, p, acc);
            r.attrs == acc && EndsWith(lx, s, p, if r.TagOpen? then ">" else "/>", r.next)
  {
    var q := Skip(lx, s, p);
    assert s[q..q + 1] == [s[q]];
    if s[q] == '/' {
      assert s[q..q + 2] == [s[q], s[q + 1]];
    }
  }

  lemma OneAttrOf(lx: Lexicon, s: string, p: nat, acc: seq<Attr>) returns (a: Attr)
    requires lx.Valid() && p <= |s| && !ParseAttrs(lx, s, p, acc).TagFail?
    requires lx.isNameStart(At(s, Skip(lx, s, p)))
    ensures Blanks(lx, s, p, a.name.start) && AttrAt(lx, s, a) && p < a.value.end + 1 <= |s|
    ensures ParseAttrs(lx, s, p, acc) == ParseAttrs(lx, s, a.value.end + 1, acc + [a])
  {
    hide AttrAt, ParseAttr, Skip, HasName;
    var q := Skip(lx, s, p);
    AttrOf(lx, s, q);
    a := ParseAttr(lx, s, q).attr;
  }

  lemma {:induction false} AttrsOf(lx: Lexicon, s: string, p: nat, acc: seq<Attr>) returns (attrs: seq<Attr>)
    requires lx.Valid() && p <= |s| && !ParseAttrs(lx, s, p, acc).TagFail?
    ensures var r := ParseAttrs(lx, s, p, acc);
            && r.attrs == acc + attrs && AttrsAt(lx, s, p, attrs)
            && EndsWith(lx, s, AttrsEnd(p, attrs), if r.TagOpen? then ">" else "/>", r.next)
    decreases |s| - p
  {
    hide AttrAt, ParseAttrs, EndsWith, Blanks, Skip, Lexicon.Valid;
    if !lx.isNameStart(At(s, Skip(lx, s, p))) {
      attrs := [];
      TagEndOf(lx, s, p, acc);
      assert acc + attrs == acc;
    } else {
      var a := OneAttrOf(lx, s, p, acc);
      var rest := AttrsOf(lx, s, a.value.end + 1, acc + [a]);
      attrs := [a] + rest;
      assert acc + attrs == acc + [a] + rest && attrs[1..] == rest;
    }
  }

  lemma TagParses(lx: Lexicon, s: string, name: Range, attrs: seq<Attr>, mark: string, q: nat)
    requires lx.Valid() && mark in {">", "/>"} && TagAt(lx, s, name, attrs, mark, q)
    ensures name.start < name.end <= |s| && ParseName(lx, s, name.start) == Some(name.end)
    ensures ParseAttrs(lx, s, name.end, []) == if mark == ">" then TagOpen(attrs, q) else TagClosed(attrs, q)
  {
    hide ParseName, ParseAttrs, AttrsAt, EndsWith, W.DistinctNames;
    TokenParses(lx, s, name);
    AttrsParse(lx, s, name.end, attrs, mark, q);
  }

  lemma TagOf(lx: Lexicon, s: string, n: nat)
    requires lx.Valid() && n <= |s| && ParseName(lx, s, n).Some?
    requires !ParseAttrs(lx, s, ParseName(lx, s, n).value, []).TagFail?
    ensures var e := ParseName(lx, s, n).value;
            var r := ParseAttrs(lx, s, e, []);
            TagAt(lx, s, Range(n, e), r.attrs, if r.TagOpen? then ">" else "/>", r.next)
  {
    hide ParseName, ParseAttrs, AttrsAt, EndsWith, Token;
    TokenOf(lx, s, n);
    var e := ParseName(lx, s, n).value;
    var attrs := AttrsOf(lx, s, e, []);
    assert [] + attrs == attrs;
    W.AttrsDistinct(lx, s, e, []);
  }

  // ----- nodes -----

  /** Where a tag opens, the parser finds an element and gets to `w`. */
  lemma OpenParses(lx: Lexicon, s: string, p: nat, w: nat) returns (lt: nat)
    requires lx.Valid() && Opens(lx, s, p, w) && w < |s| && !lx.isSpace(s[w])
    ensures p <= lt < |s| && Skip(lx, s, p) == lt && At(s, lt) != NUL && Identify(s, lt) == ElementKind
    ensures Skip(lx, s, lt + 1) == w
  {
    lt :| OpensAt(lx, s, p, lt, w);
    SkipTo(lx, s, p, lt);
    SkipTo(lx, s, lt + 1, w);
    NotMarked(s, lt);
    assert s[lt..lt + 1] == "<";
  }

  lemma NotMarked(s: string, lt: nat)
    requires At(s, lt + 1) !in {'!', '?'}
    ensures !StartsAt(s, lt, "<?") && !StartsAt(s, lt, "<!")
    ensures !StartsAt(s, lt, "<!--") && !StartsAt(s, lt, "<![CDATA[")
  {
    if StartsAt(s, lt, "<?") { StartsAtIndex(s, lt, "<?", 1); }
    if StartsAt(s, lt, "<!--") { StartsAtIndex(s, lt, "<!--", 1); }
    if StartsAt(s, lt, "<![CDATA[") { StartsAtIndex(s, lt, "<![CDATA[", 1); }
    if StartsAt(s, lt, "<!") { StartsAtIndex(s, lt, "<!", 1); }
  }

  lemma TokenStarts(lx: Lexicon, s: string, r: Range)
    requires lx.Valid() && Token(lx, s, r)
    ensures r.start < |s| && lx.isNameStart(s[r.start]) && !lx.isSpace(s[r.start]) && s[r.start] != '/'
  {
  }

  lemma SelfClosedParses(lx: Lexicon, s: string, p: nat, name: Range, attrs: seq<Attr>, depth: nat, q: nat)
    requires lx.Valid() && (Opens(lx, s, p, name.start) || OpensSlashed(lx, s, p, name.start))
    requires TagAt(lx, s, name, attrs, "/>", q)
    ensures p <= |s| && At(s, Skip(lx, s, p)) != NUL
    ensures ParseNode(lx, s, p, Skip(lx, s, p), depth) == Parsed(Element(name, attrs, [], SelfClosed), q)
  {
    hide Opens, Skip, ParseName, ParseAttrs, Identify, ParseContent, AttrsAt, EndsWith, Token, W.DistinctNames;
    TokenStarts(lx, s, name);
    TagParses(lx, s, name, attrs, "/>", q);
    if Opens(lx, s, p, name.start) {
      var lt := OpenParses(lx, s, p, name.start);
    } else {
      var lt := OpenParses(lx, s, p, name.start - 1);
    }
  }

  lemma EndTagParses(lx: Lexicon, s: string, p: nat, name: Range, depth: nat, q: nat)
    requires lx.Valid() && EndTagAt(lx, s, p, name, q)
    ensures p <= |s| && At(s, Skip(lx, s, p)) != NUL
    ensures ParseNode(lx, s, p, Skip(lx, s, p), depth) == EndTag(name, q)
  {
    hide Opens, Skip, ParseName, ParseAttrs, Identify, ParseContent, AttrsAt, EndsWith, Token, W.DistinctNames;
    var attrs :| TagAt(lx, s, name, attrs, ">", q);
    TokenStarts(lx, s, name);
    TagParses(lx, s, name, attrs, ">", q);
    var lt := OpenParses(lx, s, p, name.start - 1);
  }

  lemma OpenElementParses(lx: Lexicon, s: string, p: nat, name: Range, attrs: seq<Attr>, depth: nat, b: nat)
    requires lx.Valid() && Opens(lx, s, p, name.start) && TagAt(lx, s, name, attrs, ">", b)
    ensures p <= |s| && b <= |s| && At(s, Skip(lx, s, p)) != NUL
    ensures ParseNode(lx, s, p, Skip(lx, s, p), depth) == ParseContent(lx, s, b, depth, name, attrs)
  {
    TokenStarts(lx, s, name);
    TagParses(lx, s, name, attrs, ">", b);
    hide Skip, ParseName, ParseAttrs, Identify, TagAt, ParseContent;
    var lt := OpenParses(lx, s, p, name.start);
    assert name == Range(name.start, name.end);
  }

  lemma HeaderStarts(lx: Lexicon, s: string, lt: nat, k: Kind)
    requires lx.Valid() && StartsAt(s, lt, k.Header()) && k != TextKind
    ensures lt < lt + |k.Header()| <= |s| && s[lt] == '<' && !lx.isSpace(s[lt])
  {
    StartsAtIndex(s, lt, k.Header(), 0);
  }

  lemma EndMarkStarts(k: Kind)
    ensures k.EndMark()[0] != NUL
  {
  }

  lemma MarkedParses(lx: Lexicon, s: string, p: nat, k: Kind, r: Range, depth: nat, q: nat)
    requires lx.Valid() && MarkedAt(lx, s, p, k.Header(), r, k.EndMark(), q) && k != TextKind && k != ElementKind
    requires Identify(s, r.start - |k.Header()|) == k
    ensures p <= |s| && At(s, Skip(lx, s, p)) != NUL
    ensures ParseNode(lx, s, p, Skip(lx, s, p), depth) == Parsed(k.Leaf(r), q)
  {
    hide Skip, Identify, FindTag, StartsAt, UpTo, Lexicon.Valid, Kind.Header, Kind.EndMark, Kind.Leaf;
    var lt := r.start - |k.Header()|;
    assert p <= lt;
    hide Blanks;
    HeaderStarts(lx, s, lt, k);
    EndMarkStarts(k);
    SkipTo(lx, s, p, lt);
    FindUpTo(s, r, k.EndMark());
    assert r == Range(r.start, r.end);
  }

  lemma HeaderIdentified(s: string, lt: nat, k: Kind)
    requires StartsAt(s, lt, k.Header()) && k != TextKind && k != ElementKind
    requires k == UnknownKind ==> !StartsAt(s, lt + 2, "--") && !StartsAt(s, lt + 2, "[CDATA[")
    ensures lt < |s| && Identify(s, lt) == k
  {
    StartsAtIndex(s, lt, k.Header(), 1);
    if k == DeclarationKind {
    } else {
      if StartsAt(s, lt, "<?") { StartsAtIndex(s, lt, "<?", 1); }
      if k == CommentKind {
      } else if k == CDataKind {
        StartsAtIndex(s, lt, k.Header(), 2);
        if StartsAt(s, lt, "<!--") { StartsAtIndex(s, lt, "<!--", 2); }
      } else {
        StartsAtConcat(s, lt, "<!", "--");
        StartsAtConcat(s, lt, "<!", "[CDATA[");
        assert "<!" + "--" == "<!--" && "<!" + "[CDATA[" == "<![CDATA[";
      }
    }
  }

  lemma TextParses(lx: Lexicon, s: string, p: nat, r: Range, depth: nat, q: nat)
    requires lx.Valid() && TextAt(lx, s, p, r, q)
    ensures p <= |s| && At(s, Skip(lx, s, p)) != NUL
    ensures ParseNode(lx, s, p, Skip(lx, s, p), depth) == Parsed(Text(r, false), q)
  {
    hide Skip, Identify, FindTag, TextAt, UpTo, StartsAt, Blanks, Lexicon.Valid;
    TextBegins(lx, s, p, r, q);
    assert r == Range(r.start, r.end);
  }

  lemma TextBegins(lx: Lexicon, s: string, p: nat, r: Range, q: nat)
    requires TextAt(lx, s, p, r, q)
    ensures p <= |s| && FindTag(s, r.start, "<") == Some(r.end)
    ensures var w := Skip(lx, s, p);
            w < |s| && s[w] != NUL && Identify(s, w) == TextKind
    ensures At(s, q + 1) != NUL && r.start == p && r.end == q
  {
    hide Skip, Identify, FindTag;
    FindUpTo(s, r, "<");
    var w := Skip(lx, s, p);
    assert w < q;
    assert s[w..w + 1] == [s[w]];
  }

  lemma LeafParses(lx: Lexicon, s: string, p: nat, n: Node, depth: nat, q: nat)
    requires lx.Valid() && !n.Element? && NodeAt(lx, s, p, n, depth, q)
    ensures p <= |s| && At(s, Skip(lx, s, p)) != NUL
    ensures ParseNode(lx, s, p, Skip(lx, s, p), depth) == Parsed(n, q)
  {
    hide Skip, ParseNode, Identify, StartsAt, Blanks, UpTo;
    if n.Text? && !n.cdata {
      TextParses(lx, s, p, n.text, depth, q);
    } else {
      var k := match n
        case Text(_, _) => CDataKind
        case Comment(_) => CommentKind
        case Declaration(_) => DeclarationKind
        case _ => UnknownKind;
      HeaderIdentified(s, n.text.start - |k.Header()|, k);
      MarkedParses(lx, s, p, k, n.text, depth, q);
    }
  }

  lemma {:induction false} NodeParses(lx: Lexicon, s: string, p: nat, n: Node, depth: nat, q: nat)
    requires lx.Valid() && NodeAt(lx, s, p, n, depth, q)
    ensures p <= |s| && At(s, Skip(lx, s, p)) != NUL
    ensures ParseNode(lx, s, p, Skip(lx, s, p), depth) == Parsed(n, q)
    decreases n, 1
  {
    hide Skip, ParseNode, ParseContent, TagAt, EndTagAt, Opens, OpensSlashed, W.DeclarationsFirst;
    if !n.Element? {
      LeafParses(lx, s, p, n, depth, q);
    } else if n.close.SelfClosed? {
      SelfClosedParses(lx, s, p, n.name, n.attrs, depth, q);
    } else {
      var b: nat, e: nat :| TagAt(lx, s, n.name, n.attrs, ">", b) && ListAt(lx, s, b, n.kids, depth + 1, e)
                            && EndTagAt(lx, s, e, n.close.endName, q);
      OpenElementParses(lx, s, p, n.name, n.attrs, depth, b);
      assert [] + n.kids == n.kids;
      NodesParse(lx, s, b, n.kids, depth + 1, e, false, []);
      ContentParses(lx, s, b, n, depth, e, q);
    }
  }

  lemma {:induction false} NodesParse(lx: Lexicon, s: string, p: nat, ns: seq<Node>, depth: nat, q: nat, top: bool,
                                      acc: seq<Node>)
    requires lx.Valid() && p <= |s| && ListAt(lx, s, p, ns, depth, q) && W.DeclarationsFirst(acc + ns, top)
    ensures q <= |s| && ParseNodes(lx, s, p, depth, top, acc) == ParseNodes(lx, s, q, depth, top, acc + ns)
    decreases ns, 0
  {
    hide Skip, ParseNode, NodeAt, OnlyDeclarations, W.DeclarationsFirst;
    if ns == [] {
      assert acc + ns == acc;
    } else {
      var m: nat :| NodeAt(lx, s, p, ns[0], depth, m) && ListAt(lx, s, m, ns[1..], depth, q);
      NodeParses(lx, s, p, ns[0], depth, m);
      assert acc + ns == acc + [ns[0]] + ns[1..];
      Allowed(acc, ns[0], ns[1..], top);
      NodesParse(lx, s, m, ns[1..], depth, q, top, acc + [ns[0]]);
    }
  }

  lemma Allowed(acc: seq<Node>, n: Node, rest: seq<Node>, top: bool)
    requires W.DeclarationsFirst(acc + [n] + rest, top)
    ensures n.Declaration? ==> top && OnlyDeclarations(acc)
  {
    var all := acc + [n] + rest;
    assert all[|acc|] == n && forall i :: 0 <= i < |acc| ==> all[i] == acc[i];
  }

  lemma ContentParses(lx: Lexicon, s: string, b: nat, n: Node, depth: nat, e: nat, q: nat)
    requires lx.Valid() && n.Element? && n.close.Matched? && b <= |s| && e <= |s| && depth + 1 != lx.maxDepth
    requires ParseNodes(lx, s, b, depth + 1, false, []) == ParseNodes(lx, s, e, depth + 1, false, [] + n.kids)
    requires EndTagAt(lx, s, e, n.close.endName, q) && Slice(s, n.close.endName) == Slice(s, n.name)
    ensures ParseContent(lx, s, b, depth, n.name, n.attrs) == Parsed(n, q)
  {
    hide Skip, ParseNode, ParseNodes, EndTagAt, Slice, Lexicon.Valid;
    assert [] + n.kids == n.kids;
    EndTagParses(lx, s, e, n.close.endName, depth + 1, q);
    ClosedBy(lx, s, e, depth + 1, n.kids);
    NotOver(lx, s, b, depth + 1);
  }

  lemma ClosedBy(lx: Lexicon, s: string, e: nat, depth: nat, kids: seq<Node>)
    requires lx.Valid() && e <= |s| && At(s, Skip(lx, s, e)) != NUL
    requires ParseNode(lx, s, e, Skip(lx, s, e), depth).EndTag?
    ensures var r := ParseNode(lx, s, e, Skip(lx, s, e), depth);
            ParseNodes(lx, s, e, depth, false, kids) == Closed(kids, r.name, r.next)
  {
    hide ParseNode, Skip;
  }

  lemma NotOver(lx: Lexicon, s: string, b: nat, depth: nat)
    requires lx.Valid() && b <= |s| && ParseNodes(lx, s, b, depth, false, []).Closed?
    ensures At(s, b) != NUL
  {
    hide ParseNode;
  }

  // ----- what the parser accepts is laid out so -----

  lemma OpenOf(lx: Lexicon, s: string, p: nat, lt: nat)
    requires lx.Valid() && p <= |s| && lt == Skip(lx, s, p) && lt < |s| && Identify(s, lt) == ElementKind
    ensures Opens(lx, s, p, Skip(lx, s, lt + 1))
  {
    if lt + 1 < |s| {
      assert s[lt..lt + 2] == [s[lt], s[lt + 1]];
    }
    assert s[lt..lt + 1] == [s[lt]];
    assert OpensAt(lx, s, p, lt, Skip(lx, s, lt + 1));
  }

  lemma LeafOf(lx: Lexicon, s: string, p: nat, lt: nat, depth: nat)
    requires lx.Valid() && p <= lt < |s| && lt == Skip(lx, s, p) && Identify(s, lt) != ElementKind
    ensures var r := ParseLeaf(lx, s, p, lt, Identify(s, lt));
            r.Parsed? ==> NodeAt(lx, s, p, r.node, depth, r.next)
  {
    hide Skip, ParseLeaf, StartsAt, MarkedAt, TextAt, Identify, Lexicon.Valid;
    var k := Identify(s, lt);
    if k == TextKind {
      TextOf(lx, s, p, lt);
    } else {
      MarkedOf(lx, s, p, lt, k);
      if k == UnknownKind {
        NoOtherMark(s, lt);
      }
    }
  }

  lemma NoOtherMark(s: string, lt: nat)
    requires lt < |s| && Identify(s, lt) == UnknownKind
    ensures !StartsAt(s, lt + 2, "--") && !StartsAt(s, lt + 2, "[CDATA[")
  {
    StartsAtConcat(s, lt, "<!", "--");
    StartsAtConcat(s, lt, "<!", "[CDATA[");
    assert "<!" + "--" == "<!--" && "<!" + "[CDATA[" == "<![CDATA[";
  }

  lemma MarkedOf(lx: Lexicon, s: string, p: nat, lt: nat, k: Kind)
    requires p <= lt < |s| && lt == Skip(lx, s, p) && StartsAt(s, lt, k.Header()) && k !in {TextKind, ElementKind}
    ensures var r := ParseLeaf(lx, s, p, lt, k);
            r.Parsed? ==>
              && r.node == k.Leaf(r.node.text) && r.node.text.start == lt + |k.Header()|
              && MarkedAt(lx, s, p, k.Header(), r.node.text, k.EndMark(), r.next)
  {
    hide Skip, FindTag, StartsAt;
  }

  lemma TextOf(lx: Lexicon, s: string, p: nat, lt: nat)
    requires lx.Valid() && p <= lt < |s| && lt == Skip(lx, s, p) && Identify(s, lt) == TextKind
    ensures var r := ParseLeaf(lx, s, p, lt, TextKind);
            r.Parsed? ==> r.node.Text? && !r.node.cdata && TextAt(lx, s, p, r.node.text, r.next)
  {
    hide Skip, FindTag;
    var end := FindTag(s, p, "<");
    if end.Some? {
      StartsAtIndex(s, end.value, "<", 0);
      assert !lx.isSpace(s[lt]) && s[lt] != '<';
      assert lt < end.value;
    }
  }

  lemma {:induction false} NodeOf(lx: Lexicon, s: string, p: nat, lt: nat, depth: nat)
    requires lx.Valid() && p <= lt < |s| && lt == Skip(lx, s, p)
    ensures var r := ParseNode(lx, s, p, lt, depth);
            && (r.Parsed? ==> NodeAt(lx, s, p, r.node, depth, r.next))
            && (r.EndTag? ==> EndTagAt(lx, s, p, r.name, r.next))
    decreases |s| - p, 0
  {
    hide Skip, Identify, ParseLeaf, ParseElement, NodeAt, EndTagAt, Opens;
    if Identify(s, lt) == ElementKind {
      OpenOf(lx, s, p, lt);
      ElementOf(lx, s, p, lt + 1, depth);
    } else {
      LeafOf(lx, s, p, lt, depth);
    }
  }

  lemma {:induction false} ElementOf(lx: Lexicon, s: string, p0: nat, p: nat, depth: nat)
    requires lx.Valid() && p <= |s| && Opens(lx, s, p0, Skip(lx, s, p))
    ensures var r := ParseElement(lx, s, p, depth);
            && (r.Parsed? ==> NodeAt(lx, s, p0, r.node, depth, r.next))
            && (r.EndTag? ==> EndTagAt(lx, s, p0, r.name, r.next))
    decreases |s| - p, 0
  {
    hide Skip, ParseName, ParseAttrs, ParseContent, TagAt, Opens, ListAt, W.DeclarationsFirst, Slice;
    var w := Skip(lx, s, p);
    var n := if At(s, w) == '/' then w + 1 else w;
    var name := ParseName(lx, s, n);
    if name.Some? {
      var tag := ParseAttrs(lx, s, name.value, []);
      if !tag.TagFail? {
        TagOf(lx, s, n);
        if tag.TagOpen? && n == w {
          ContentOf(lx, s, p0, tag.next, depth, Range(n, name.value), tag.attrs);
        }
      }
    }
  }

  lemma {:induction false} ContentOf(lx: Lexicon, s: string, p0: nat, p: nat, depth: nat, name: Range,
                                     attrs: seq<Attr>)
    requires lx.Valid() && p <= |s| && Opens(lx, s, p0, name.start) && TagAt(lx, s, name, attrs, ">", p)
    ensures var r := ParseContent(lx, s, p, depth, name, attrs);
            r.Parsed? ==> NodeAt(lx, s, p0, r.node, depth, r.next)
    decreases |s| - p, 2
  {
    hide ParseNodes, TagAt, Opens, ListAt, W.DeclarationsFirst, Slice, EndTagAt;
    var r := ParseContent(lx, s, p, depth, name, attrs);
    if r.Parsed? {
      assert W.DeclarationsFirst([], false) by { NoDeclarations(); }
      var ns, e := NodesOf(lx, s, p, depth + 1, false, []);
      assert [] + ns == ns;
    }
  }

  lemma NoDeclarations()
    ensures W.DeclarationsFirst([], false) && W.DeclarationsFirst([], true)
  {
  }

  lemma {:induction false} NodesOf(lx: Lexicon, s: string, p: nat, depth: nat, top: bool, acc: seq<Node>)
    returns (ns: seq<Node>, q: nat)
    requires lx.Valid() && p <= |s| && W.DeclarationsFirst(acc, top)
    requires !ParseNodes(lx, s, p, depth, top, acc).Broken?
    ensures var r := ParseNodes(lx, s, p, depth, top, acc);
            && r.nodes == acc + ns && ListAt(lx, s, p, ns, depth, q) && W.DeclarationsFirst(r.nodes, top)
            && (r.Closed? ==> EndTagAt(lx, s, q, r.name, r.next))
            && (r.Ended? ==> OverAt(lx, s, q))
    decreases |s| - p, 1
  {
    hide ParseNode, NodeAt, EndTagAt, Skip, OnlyDeclarations, W.DeclarationsFirst;
    var lt := Skip(lx, s, p);
    ns, q := [], p;
    if At(s, lt) == NUL {
      assert Blanks(lx, s, p, lt);
      assert acc + ns == acc;
    } else {
      NodeOf(lx, s, p, lt, depth);
      var r := ParseNode(lx, s, p, lt, depth);
      if r.Parsed? {
        var rest;
        W.AppendDeclaration(acc, r.node, top);
        rest, q := NodesOf(lx, s, r.next, depth, top, acc + [r.node]);
        ns := [r.node] + rest;
        assert acc + ns == acc + [r.node] + rest && ns[1..] == rest;
      } else {
        assert acc + ns == acc;
      }
    }
  }

  // ----- documents -----

  lemma ListEnds(lx: Lexicon, s: string, q: nat, depth: nat, nodes: seq<Node>)
    requires lx.Valid() && q <= |s| && StopsAt(lx, s, q)
    ensures var r := ParseNodes(lx, s, q, depth, true, nodes);
            !r.Broken? && r.nodes == nodes
  {
    hide EndTagAt, ParseNode;
    if OverAt(lx, s, q) {
      var e: nat :| Blanks(lx, s, q, e) && At(s, e) == NUL;
      SkipTo(lx, s, q, e);
    } else {
      var name, q': nat :| EndTagAt(lx, s, q, name, q');
      EndTagParses(lx, s, q, name, depth, q');
    }
  }

  lemma StartParses(lx: Lexicon, s: string, bom: bool, p: nat)
    requires lx.Valid() && StartOf(lx, s, bom, p)
    ensures var w := Skip(lx, s, 0);
            StartsAt(s, w, BOM) == bom && p == if bom then w + 3 else w
  {
    if bom {
      StartsAtIndex(s, p - 3, BOM, 0);
      SkipTo(lx, s, 0, p - 3);
    } else {
      SkipTo(lx, s, 0, p);
    }
  }

  /** The parser accepts a buffer with a document exactly when the buffer is laid out as that document. */
  lemma ParseIsGrammar(lx: Lexicon, s: string, doc: Document)
    requires lx.Valid()
    ensures Parse(lx, s) == Ok(doc) <==> IsDocument(lx, s, doc)
  {
    hide Skip, ParseNodes, ListAt, StopsAt, W.DeclarationsFirst, StartsAt;
    if IsDocument(lx, s, doc) {
      var p: nat, q: nat :| StartOf(lx, s, doc.bom, p) && ListAt(lx, s, p, doc.nodes, 1, q) && StopsAt(lx, s, q);
      StartParses(lx, s, doc.bom, p);
      assert [] + doc.nodes == doc.nodes;
      NodesParse(lx, s, p, doc.nodes, 1, q, true, []);
      ListEnds(lx, s, q, 1, doc.nodes);
    }
    if Parse(lx, s) == Ok(doc) {
      AcceptedIsDocument(lx, s);
    }
  }

  lemma AcceptedIsDocument(lx: Lexicon, s: string)
    requires lx.Valid() && Parse(lx, s).Ok?
    ensures IsDocument(lx, s, Parse(lx, s).doc)
  {
    hide Skip, ParseNodes, ListAt, OverAt, EndTagAt, W.DeclarationsFirst, StartsAt;
    var w := Skip(lx, s, 0);
    var bom := StartsAt(s, w, BOM);
    var p := if bom then w + 3 else w;
    NoDeclarations();
    var ns, q := NodesOf(lx, s, p, 1, true, []);
    assert [] + ns == ns;
    assert StartOf(lx, s, bom, p);
    assert StopsAt(lx, s, q);
  }
}
