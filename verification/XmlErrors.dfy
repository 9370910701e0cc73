/**
  What goes wrong in a buffer that is not a document, and the error reported for it: the first thing that
  breaks the grammar decides.  Together with the grammar this says what the parser does with every input.
  */
module XmlErrors {
  import opened Collections
  import opened XmlChars
  import opened XmlParser
  import opened XmlGrammar
  import W = XmlWellFormed

  // ----- what goes wrong -----

  /** The input ends, or breaks off at a NUL, without the mark. */
  ghost predicate Unended(s: string, p: nat, mark: string) {
    exists e: nat :: EndsBefore(s, p, mark, e)
  }

  ghost predicate EndsBefore(s: string, p: nat, mark: string, e: nat) {
    p <= e <= |s| && At(s, e) == NUL && forall j :: p <= j < e ==> s[j] != NUL && !StartsAt(s, j, mark)
  }

  /** Blanks from `p` to `k`, and no more there. */
  ghost predicate SkipsTo(lx: Lexicon, s: string, p: nat, k: nat) {
    Blanks(lx, s, p, k) && (k < |s| ==> !lx.isSpace(s[k]))
  }

  ghost predicate NoAttrAt(lx: Lexicon, s: string, k: nat) {
    forall a :: AttrAt(lx, s, a) ==> a.name.start != k
  }

  ghost predicate NameTaken(lx: Lexicon, s: string, k: nat, attrs: seq<Attr>) {
    exists a :: AttrAt(lx, s, a) && a.name.start == k && HasName(s, attrs, a.name)
  }

  /** After good attributes: one that is none, or has a name used before; or neither attribute nor end. */
  ghost predicate AttrsFailAt(lx: Lexicon, s: string, p: nat, attrs: seq<Attr>, k: nat, error: Error) {
    && AttrsAt(lx, s, p, attrs) && W.DistinctNames(s, attrs) && SkipsTo(lx, s, AttrsEnd(p, attrs), k)
    && if lx.isNameStart(At(s, k))
       then (NoAttrAt(lx, s, k) || NameTaken(lx, s, k, attrs)) && error == ParsingAttribute
       else At(s, k) != '>' && !StartsAt(s, k, "/>") && error == ParsingElement
  }

  ghost predicate AttrsFail(lx: Lexicon, s: string, p: nat, error: Error) {
    exists attrs, k: nat :: AttrsFailAt(lx, s, p, attrs, k, error)
  }

  ghost predicate MarkFails(s: string, lt: nat, header: string, mark: string) {
    StartsAt(s, lt, header) && Unended(s, lt + |header|, mark)
  }

  ghost predicate TextFails(s: string, p: nat, error: Error) {
    || (Unended(s, p, "<") && error == ParsingText)
    || (exists q: nat :: UpTo(s, Range(p, q), "<") && At(s, q + 1) == NUL && error == Parsing)
  }

  /** A comment, declaration, section or unknown markup without its end mark; a text without a tag behind it. */
  ghost predicate LeafFails(lx: Lexicon, s: string, p: nat, lt: nat, error: Error) {
    if StartsAt(s, lt, "<?") then MarkFails(s, lt, "<?", "?>") && error == ParsingDeclaration
    else if StartsAt(s, lt, "<!--") then MarkFails(s, lt, "<!--", "-->") && error == ParsingComment
    else if StartsAt(s, lt, "<![CDATA[") then MarkFails(s, lt, "<![CDATA[", "]]>") && error == ParsingCData
    else if StartsAt(s, lt, "<!") then MarkFails(s, lt, "<!", ">") && error == ParsingUnknown
    else
      && At(s, lt) != '<'
      && TextFails(s, p, error)
  }

  ghost predicate NodeFails(lx: Lexicon, s: string, p: nat, depth: nat, error: Error)
    requires p <= |s|
    decreases |s| - p, 3
  {
    exists lt: nat :: SkipsTo(lx, s, p, lt) && At(s, lt) != NUL && NodeFailsAt(lx, s, p, lt, depth, error)
  }

  ghost predicate NodeFailsAt(lx: Lexicon, s: string, p: nat, lt: nat, depth: nat, error: Error)
    requires p <= lt < |s|
    decreases |s| - p, 2
  {
    || LeafFails(lx, s, p, lt, error)
    || (At(s, lt) == '<' && At(s, lt + 1) !in {'!', '?'} && TagFails(lx, s, lt + 1, depth, error))
  }

  /** Behind the `<`: no name, bad attributes, or bad content. */
  ghost predicate TagFails(lx: Lexicon, s: string, p: nat, depth: nat, error: Error)
    requires p <= |s|
    decreases |s| - p, 4
  {
    exists w: nat :: SkipsTo(lx, s, p, w) && TagFailsAt(lx, s, p, w, depth, error)
  }

  ghost predicate TagFailsAt(lx: Lexicon, s: string, p: nat, w: nat, depth: nat, error: Error)
    requires p <= w <= |s|
    decreases |s| - p, 3
  {
    if At(s, w) == '/' then NoName(lx, s, w + 1, error) || BadTag(lx, s, w + 1, error)
    else
      || NoName(lx, s, w, error) || BadTag(lx, s, w, error)
      || (exists e: nat, attrs, b: nat ::
            && p < b <= |s| && TagAt(lx, s, Range(w, e), attrs, ">", b)
            && ContentFails(lx, s, b, depth, Range(w, e), error))
  }

  ghost predicate NoName(lx: Lexicon, s: string, n: nat, error: Error) {
    !lx.isNameStart(At(s, n)) && error == Parsing
  }

  ghost predicate BadTag(lx: Lexicon, s: string, n: nat, error: Error) {
    exists e: nat :: Token(lx, s, Range(n, e)) && AttrsFail(lx, s, e, error)
  }

  /** Nothing behind the tag, nesting too deep, a bad child, no end tag, or that of another element. */
  ghost predicate ContentFails(lx: Lexicon, s: string, b: nat, depth: nat, name: Range, error: Error)
    requires b <= |s|
    decreases |s| - b, 6
  {
    if At(s, b) == NUL then error == Mismatched
    else if depth + 1 == lx.maxDepth then error == DepthExceeded
    else
      || ListFails(lx, s, b, depth + 1, false, error)
      || exists ns, q: nat ::
           && ListAt(lx, s, b, ns, depth + 1, q) && W.DeclarationsFirst(ns, false)
           && ((OverAt(lx, s, q) && error == Parsing) || (OtherEnd(lx, s, q, name) && error == Mismatched))
  }

  ghost predicate OtherEnd(lx: Lexicon, s: string, q: nat, name: Range) {
    exists end: Range, next: nat :: EndTagAt(lx, s, q, end, next) && Slice(s, end) != Slice(s, name)
  }

  /** Good siblings, and then one that fails or a declaration that is out of place. */
  ghost predicate ListFails(lx: Lexicon, s: string, p: nat, depth: nat, top: bool, error: Error)
    requires p <= |s|
    decreases |s| - p, 5
  {
    exists ns, q: nat ::
      && p <= q <= |s| && ListAt(lx, s, p, ns, depth, q) && W.DeclarationsFirst(ns, top)
      && NextFails(lx, s, q, depth, ns, top, error)
  }

  ghost predicate NextFails(lx: Lexicon, s: string, q: nat, depth: nat, ns: seq<Node>, top: bool, error: Error)
    requires q <= |s|
    decreases |s| - q, 4
  {
    NodeFails(lx, s, q, depth, error) || (Misplaced(lx, s, q, depth, ns, top) && error == ParsingDeclaration)
  }

  ghost predicate Misplaced(lx: Lexicon, s: string, q: nat, depth: nat, ns: seq<Node>, top: bool) {
    exists n, m: nat :: NodeAt(lx, s, q, n, depth, m) && n.Declaration? && !W.DeclarationsFirst(ns + [n], top)
  }

  ghost predicate IsError(lx: Lexicon, s: string, error: Error) {
    exists w: nat :: SkipsTo(lx, s, 0, w) && FailsFrom(lx, s, if StartsAt(s, w, BOM) then w + 3 else w, error)
  }

  ghost predicate FailsFrom(lx: Lexicon, s: string, p: nat, error: Error) {
    if At(s, p) == NUL then error == EmptyDocument
    else if lx.maxDepth == 1 then error == DepthExceeded
    else ListFails(lx, s, p, 1, true, error)
  }

  // ----- scanning -----

  lemma {:induction false} NotFound(s: string, p: nat, mark: string, e: nat)
    requires EndsBefore(s, p, mark, e)
    ensures FindTag(s, p, mark) == None
    decreases e - p
  {
    hide StartsAt;
    if p == e {
    } else {
      NotFound(s, p + 1, mark, e);
    }
  }

  lemma {:induction false} NotFoundOf(s: string, p: nat, mark: string) returns (e: nat)
    requires p <= |s| && FindTag(s, p, mark) == None
    ensures EndsBefore(s, p, mark, e)
    decreases |s| - p
  {
    hide StartsAt;
    if At(s, p) == NUL {
      e := p;
    } else {
      e := NotFoundOf(s, p + 1, mark);
    }
  }

  // ----- attributes -----

  lemma AttrsFailHere(lx: Lexicon, s: string, p: nat, attrs: seq<Attr>, k: nat, error: Error)
    requires lx.Valid() && p <= |s| && SkipsTo(lx, s, p, k)
    requires if lx.isNameStart(At(s, k))
             then (NoAttrAt(lx, s, k) || NameTaken(lx, s, k, attrs)) && error == ParsingAttribute
             else At(s, k) != '>' && !StartsAt(s, k, "/>") && error == ParsingElement
    ensures ParseAttrs(lx, s, p, attrs) == TagFail(error)
  {
    SkipTo(lx, s, p, k);
    if lx.isNameStart(At(s, k)) {
      hide AttrAt, ParseAttr, HasName, Skip;
      if NoAttrAt(lx, s, k) {
        if ParseAttr(lx, s, k).GotAttr? {
          AttrOf(lx, s, k);
        }
      } else {
        var a :| AttrAt(lx, s, a) && a.name.start == k && HasName(s, attrs, a.name);
        AttrParses(lx, s, a);
      }
    } else if k + 1 < |s| {
      assert s[k..k + 2] == [s[k], s[k + 1]];
    }
  }

  lemma AttrsFailParse(lx: Lexicon, s: string, p: nat, error: Error)
    requires lx.Valid() && p <= |s| && AttrsFail(lx, s, p, error)
    ensures ParseAttrs(lx, s, p, []) == TagFail(error)
  {
    hide AttrsAt, ParseAttrs, W.DistinctNames, StartsAt, NoAttrAt, NameTaken;
    var attrs, k: nat :| AttrsFailAt(lx, s, p, attrs, k, error);
    assert [] + attrs == attrs;
    AttrsReach(lx, s, p, [], attrs);
    AttrsFailHere(lx, s, AttrsEnd(p, attrs), attrs, k, error);
  }

  lemma {:induction false} AttrsFailOf(lx: Lexicon, s: string, p: nat, acc: seq<Attr>)
    returns (attrs: seq<Attr>, k: nat)
    requires lx.Valid() && p <= |s| && W.DistinctNames(s, acc) && ParseAttrs(lx, s, p, acc).TagFail?
    ensures AttrsAt(lx, s, p, attrs) && W.DistinctNames(s, acc + attrs) && SkipsTo(lx, s, AttrsEnd(p, attrs), k)
    ensures var error := ParseAttrs(lx, s, p, acc).error;
            if lx.isNameStart(At(s, k))
            then (NoAttrAt(lx, s, k) || NameTaken(lx, s, k, acc + attrs)) && error == ParsingAttribute
            else At(s, k) != '>' && !StartsAt(s, k, "/>") && error == ParsingElement
    decreases |s| - p
  {
    hide AttrAt, ParseAttr, HasName, Skip, AttrsEnd, AttrsAt;
    attrs, k := [], Skip(lx, s, p);
    NoAttrs(lx, s, p);
    assert acc + attrs == acc;
    if lx.isNameStart(At(s, k)) {
      var r := ParseAttr(lx, s, k);
      if r.NoAttr? {
        NoAttrOf(lx, s, k);
      } else {
        AttrOf(lx, s, k);
        if !HasName(s, acc, r.attr.name) {
          var rest;
          StillDistinct(s, acc, r.attr);
          rest, k := AttrsFailOf(lx, s, r.next, acc + [r.attr]);
          attrs := [r.attr] + rest;
          assert acc + attrs == acc + [r.attr] + rest;
          MoreAttrs(lx, s, p, r.attr, rest);
        }
      }
    } else {
      NoClose(s, k);
    }
  }

  lemma SomeAttrFails(lx: Lexicon, s: string, p: nat)
    requires lx.Valid() && p <= |s| && ParseAttrs(lx, s, p, []).TagFail?
    ensures AttrsFail(lx, s, p, ParseAttrs(lx, s, p, []).error)
  {
    hide ParseAttrs, AttrsAt, NoAttrAt, NameTaken;
    var attrs, k := AttrsFailOf(lx, s, p, []);
    assert [] + attrs == attrs;
    assert AttrsFailAt(lx, s, p, attrs, k, ParseAttrs(lx, s, p, []).error);
  }

  lemma NoAttrs(lx: Lexicon, s: string, p: nat)
    ensures AttrsAt(lx, s, p, []) && AttrsEnd(p, []) == p
  {
  }

  lemma MoreAttrs(lx: Lexicon, s: string, p: nat, a: Attr, rest: seq<Attr>)
    requires Blanks(lx, s, p, a.name.start) && AttrAt(lx, s, a) && AttrsAt(lx, s, a.value.end + 1, rest)
    ensures AttrsAt(lx, s, p, [a] + rest) && AttrsEnd(p, [a] + rest) == AttrsEnd(a.value.end + 1, rest)
  {
    hide AttrAt, Blanks;
    assert ([a] + rest)[1..] == rest;
  }

  lemma NoAttrOf(lx: Lexicon, s: string, k: nat)
    requires lx.Valid() && k <= |s| && ParseAttr(lx, s, k).NoAttr?
    ensures NoAttrAt(lx, s, k)
  {
    hide AttrAt, ParseAttr;
    forall a | AttrAt(lx, s, a)
      ensures a.name.start != k
    {
      AttrParses(lx, s, a);
    }
  }

  lemma StillDistinct(s: string, acc: seq<Attr>, a: Attr)
    requires W.DistinctNames(s, acc) && !HasName(s, acc, a.name)
    ensures W.DistinctNames(s, acc + [a])
  {
    hide Slice;
    forall i | 0 <= i < |acc|
      ensures Slice(s, acc[i].name) != Slice(s, a.name)
    {
      assert acc[i] in acc;
    }
  }

  lemma NoClose(s: string, k: nat)
    requires At(s, k) != '/' || At(s, k + 1) != '>'
    ensures !StartsAt(s, k, "/>")
  {
    if StartsAt(s, k, "/>") {
      StartsAtIndex(s, k, "/>", 0);
      StartsAtIndex(s, k, "/>", 1);
    }
  }

  // ----- nodes without children -----

  lemma MarkNotFound(lx: Lexicon, s: string, p: nat, lt: nat, k: Kind)
    requires p <= lt < |s| && StartsAt(s, lt, k.Header()) && k != TextKind
    ensures ParseLeaf(lx, s, p, lt, k).Fail? <==> MarkFails(s, lt, k.Header(), k.EndMark())
    ensures ParseLeaf(lx, s, p, lt, k).Fail? ==> ParseLeaf(lx, s, p, lt, k) == Fail(k.ErrorId())
  {
    hide FindTag, EndsBefore, StartsAt, Kind.Header, Kind.EndMark;
    var start := lt + |k.Header()|;
    Inside(s, lt, k.Header());
    if FindTag(s, start, k.EndMark()).None? {
      var e := NotFoundOf(s, start, k.EndMark());
    } else if MarkFails(s, lt, k.Header(), k.EndMark()) {
      var e: nat :| EndsBefore(s, start, k.EndMark(), e);
      NotFound(s, start, k.EndMark(), e);
    }
  }

  lemma Inside(s: string, i: nat, t: string)
    requires StartsAt(s, i, t)
    ensures i + |t| <= |s|
  {
  }

  lemma TextNotFound(lx: Lexicon, s: string, p: nat, lt: nat, error: Error)
    requires p <= lt < |s|
    ensures ParseLeaf(lx, s, p, lt, TextKind) == Fail(error) <==> TextFails(s, p, error)
  {
    hide EndsBefore;
    var end := FindTag(s, p, "<");
    if end.None? {
      var e := NotFoundOf(s, p, "<");
    } else {
      StartsAtIndex(s, end.value, "<", 0);
      assert UpTo(s, Range(p, end.value), "<");
    }
    hide FindTag, UpTo, StartsAt;
    if Unended(s, p, "<") {
      var e: nat :| EndsBefore(s, p, "<", e);
      NotFound(s, p, "<", e);
    }
    forall q: nat | UpTo(s, Range(p, q), "<")
      ensures end == Some(q)
    {
      FindUpTo(s, Range(p, q), "<");
    }
  }

  /** A leaf fails in the parser exactly as the grammar says. */
  lemma LeafFailsIff(lx: Lexicon, s: string, p: nat, lt: nat, error: Error)
    requires p <= lt < |s|
    ensures Identify(s, lt) != ElementKind && ParseLeaf(lx, s, p, lt, Identify(s, lt)) == Fail(error)
            <==> LeafFails(lx, s, p, lt, error)
  {
    CharAt(s, lt);
    hide ParseLeaf, StartsAt, MarkFails, Unended, UpTo;
    var k := Identify(s, lt);
    if k == TextKind {
      TextNotFound(lx, s, p, lt, error);
    } else if k != ElementKind {
      MarkNotFound(lx, s, p, lt, k);
    }
  }

  lemma CharAt(s: string, i: nat)
    requires i < |s|
    ensures StartsAt(s, i, "<") <==> s[i] == '<'
  {
    assert s[i..i + 1] == [s[i]];
  }

  // ----- what fails in the grammar fails in the parser -----

  lemma {:induction false} NodeFailParse(lx: Lexicon, s: string, p: nat, depth: nat, error: Error)
    requires lx.Valid() && p <= |s| && NodeFails(lx, s, p, depth, error)
    ensures At(s, Skip(lx, s, p)) != NUL && ParseNode(lx, s, p, Skip(lx, s, p), depth) == Fail(error)
    decreases |s| - p, 3
  {
    hide Skip, Identify, ParseLeaf, ParseElement, LeafFails, TagFails;
    var lt: nat :| SkipsTo(lx, s, p, lt) && At(s, lt) != NUL && NodeFailsAt(lx, s, p, lt, depth, error);
    SkipTo(lx, s, p, lt);
    LeafFailsIff(lx, s, p, lt, error);
    if !LeafFails(lx, s, p, lt, error) {
      IsElement(s, lt);
      TagFailParse(lx, s, lt + 1, depth, error);
    }
  }

  lemma IsElement(s: string, lt: nat)
    requires lt < |s|
    ensures Identify(s, lt) == ElementKind <==> s[lt] == '<' && At(s, lt + 1) !in {'!', '?'}
  {
    CharAt(s, lt);
    if lt + 1 < |s| {
      assert s[lt..lt + 2] == [s[lt], s[lt + 1]];
    }
    if At(s, lt + 1) !in {'!', '?'} {
      NotMarked(s, lt);
    }
  }

  lemma {:induction false} TagFailParse(lx: Lexicon, s: string, p: nat, depth: nat, error: Error)
    requires lx.Valid() && p <= |s| && TagFails(lx, s, p, depth, error)
    ensures ParseElement(lx, s, p, depth) == Fail(error)
    decreases |s| - p, 4
  {
    hide Skip, ParseName, ParseAttrs, ParseContent, ContentFails, TagAt, Token, AttrsFail;
    var w: nat :| SkipsTo(lx, s, p, w) && TagFailsAt(lx, s, p, w, depth, error);
    SkipTo(lx, s, p, w);
    var n := if At(s, w) == '/' then w + 1 else w;
    if NoName(lx, s, n, error) {
      Nameless(lx, s, n);
    } else if BadTag(lx, s, n, error) {
      var e: nat :| Token(lx, s, Range(n, e)) && AttrsFail(lx, s, e, error);
      TokenParses(lx, s, Range(n, e));
      AttrsFailParse(lx, s, e, error);
    } else {
      var e: nat, attrs, b: nat :|
        p < b <= |s| && TagAt(lx, s, Range(w, e), attrs, ">", b) && ContentFails(lx, s, b, depth, Range(w, e), error);
      TagParses(lx, s, Range(w, e), attrs, ">", b);
      ContentFailParse(lx, s, b, depth, Range(w, e), attrs, error);
    }
  }

  lemma Nameless(lx: Lexicon, s: string, n: nat)
    requires lx.Valid() && n <= |s| && !lx.isNameStart(At(s, n))
    ensures ParseName(lx, s, n) == None
  {
  }

  lemma {:induction false} ContentFailParse(lx: Lexicon, s: string, b: nat, depth: nat, name: Range, attrs: seq<Attr>,
                                            error: Error)
    requires lx.Valid() && b <= |s| && ContentFails(lx, s, b, depth, name, error)
    ensures ParseContent(lx, s, b, depth, name, attrs) == Fail(error)
    decreases |s| - b, 6
  {
    hide ParseNodes, ListFails, ListAt, W.DeclarationsFirst, OverAt, OtherEnd, Slice;
    if At(s, b) == NUL || depth + 1 == lx.maxDepth {
    } else if ListFails(lx, s, b, depth + 1, false, error) {
      ListFailParse(lx, s, b, depth + 1, false, error);
    } else {
      var ns, q: nat :|
        && ListAt(lx, s, b, ns, depth + 1, q) && W.DeclarationsFirst(ns, false)
        && ((OverAt(lx, s, q) && error == Parsing) || (OtherEnd(lx, s, q, name) && error == Mismatched));
      assert [] + ns == ns;
      NodesParse(lx, s, b, ns, depth + 1, q, false, []);
      ListEndFails(lx, s, q, depth + 1, ns, name, error);
    }
  }

  lemma ListEndFails(lx: Lexicon, s: string, q: nat, depth: nat, ns: seq<Node>, name: Range, error: Error)
    requires lx.Valid() && q <= |s|
    requires (OverAt(lx, s, q) && error == Parsing) || (OtherEnd(lx, s, q, name) && error == Mismatched)
    ensures var r := ParseNodes(lx, s, q, depth, false, ns);
            || (r.Ended? && error == Parsing)
            || (r.Closed? && Slice(s, r.name) != Slice(s, name) && error == Mismatched)
  {
    hide ParseNode, EndTagAt, Slice;
    if OverAt(lx, s, q) && error == Parsing {
      var e: nat :| Blanks(lx, s, q, e) && At(s, e) == NUL;
      SkipTo(lx, s, q, e);
    } else {
      var end: Range, next: nat :| EndTagAt(lx, s, q, end, next) && Slice(s, end) != Slice(s, name);
      EndTagParses(lx, s, q, end, depth, next);
    }
  }

  lemma {:induction false} ListFailParse(lx: Lexicon, s: string, p: nat, depth: nat, top: bool, error: Error)
    requires lx.Valid() && p <= |s| && ListFails(lx, s, p, depth, top, error)
    ensures ParseNodes(lx, s, p, depth, top, []) == Broken(error)
    decreases |s| - p, 5
  {
    hide Skip, ParseNode, ListAt, NodeAt, W.DeclarationsFirst, OnlyDeclarations, NodeFails;
    var ns, q: nat :|
      && p <= q <= |s| && ListAt(lx, s, p, ns, depth, q) && W.DeclarationsFirst(ns, top)
      && NextFails(lx, s, q, depth, ns, top, error);
    assert [] + ns == ns;
    NodesParse(lx, s, p, ns, depth, q, top, []);
    if NodeFails(lx, s, q, depth, error) {
      NodeFailParse(lx, s, q, depth, error);
    } else {
      var n, m: nat :| NodeAt(lx, s, q, n, depth, m) && n.Declaration? && !W.DeclarationsFirst(ns + [n], top);
      NodeParses(lx, s, q, n, depth, m);
      if top && OnlyDeclarations(ns) {
        W.AppendDeclaration(ns, n, top);
      }
    }
  }

  // ----- and the other way round -----

  lemma {:induction false} NodeFailOf(lx: Lexicon, s: string, p: nat, lt: nat, depth: nat)
    requires lx.Valid() && p <= lt < |s| && lt == Skip(lx, s, p) && s[lt] != NUL
    requires ParseNode(lx, s, p, lt, depth).Fail?
    ensures NodeFails(lx, s, p, depth, ParseNode(lx, s, p, lt, depth).error)
    decreases |s| - p, 3
  {
    hide Skip, Identify, ParseLeaf, ParseElement, LeafFails, TagFails;
    var error := ParseNode(lx, s, p, lt, depth).error;
    IsElement(s, lt);
    if Identify(s, lt) == ElementKind {
      TagFailOf(lx, s, lt + 1, depth);
    } else {
      LeafFailsIff(lx, s, p, lt, error);
    }
    assert NodeFailsAt(lx, s, p, lt, depth, error);
  }

  lemma {:induction false} TagFailOf(lx: Lexicon, s: string, p: nat, depth: nat)
    requires lx.Valid() && p <= |s| && ParseElement(lx, s, p, depth).Fail?
    ensures TagFails(lx, s, p, depth, ParseElement(lx, s, p, depth).error)
    decreases |s| - p, 4
  {
    hide Skip, ParseName, ParseAttrs, ParseContent, ContentFails, TagAt, Token, AttrsFail, Lexicon.Valid;
    var error := ParseElement(lx, s, p, depth).error;
    var w := Skip(lx, s, p);
    var n := if At(s, w) == '/' then w + 1 else w;
    if ParseName(lx, s, n).None? {
      assert NoName(lx, s, n, error) by { NamelessOf(lx, s, n); }
    } else {
      var e := ParseName(lx, s, n).value;
      TokenOf(lx, s, n);
      if ParseAttrs(lx, s, e, []).TagFail? {
        SomeAttrFails(lx, s, e);
        assert BadTag(lx, s, n, error);
      } else {
        TagOf(lx, s, n);
        var tag := ParseAttrs(lx, s, e, []);
        ContentFailOf(lx, s, tag.next, depth, Range(n, e), tag.attrs);
      }
    }
    assert TagFailsAt(lx, s, p, w, depth, error);
  }

  lemma NamelessOf(lx: Lexicon, s: string, n: nat)
    requires lx.Valid() && n <= |s| && ParseName(lx, s, n) == None
    ensures !lx.isNameStart(At(s, n))
  {
  }

  lemma {:induction false} ContentFailOf(lx: Lexicon, s: string, b: nat, depth: nat, name: Range, attrs: seq<Attr>)
    requires lx.Valid() && b <= |s| && ParseContent(lx, s, b, depth, name, attrs).Fail?
    ensures ContentFails(lx, s, b, depth, name, ParseContent(lx, s, b, depth, name, attrs).error)
    decreases |s| - b, 7
  {
    hide ParseNodes, ListFails, ListAt, W.DeclarationsFirst, OverAt, EndTagAt, Slice;
    if At(s, b) == NUL || depth + 1 == lx.maxDepth {
    } else {
      NoDeclarations();
      if ParseNodes(lx, s, b, depth + 1, false, []).Broken? {
        ListFailOf(lx, s, b, depth + 1, false);
      } else {
        var ns, q := NodesOf(lx, s, b, depth + 1, false, []);
        assert [] + ns == ns;
        var r := ParseNodes(lx, s, b, depth + 1, false, []);
        if r.Closed? {
          assert EndTagAt(lx, s, q, r.name, r.next);
          assert OtherEnd(lx, s, q, name);
        }
      }
    }
  }

  lemma {:induction false} ListFailOf(lx: Lexicon, s: string, p: nat, depth: nat, top: bool)
    requires lx.Valid() && p <= |s| && ParseNodes(lx, s, p, depth, top, []).Broken?
    ensures ListFails(lx, s, p, depth, top, ParseNodes(lx, s, p, depth, top, []).error)
    decreases |s| - p, 6
  {
    hide ParseNodes, ListAt, W.DeclarationsFirst, NextFails;
    NoDeclarations();
    var ns, q := FailAfter(lx, s, p, depth, top, []);
    assert [] + ns == ns;
  }

  lemma {:induction false} FailAfter(lx: Lexicon, s: string, p: nat, depth: nat, top: bool, acc: seq<Node>)
    returns (ns: seq<Node>, q: nat)
    requires lx.Valid() && p <= |s| && W.DeclarationsFirst(acc, top)
    requires ParseNodes(lx, s, p, depth, top, acc).Broken?
    ensures p <= q <= |s| && ListAt(lx, s, p, ns, depth, q) && W.DeclarationsFirst(acc + ns, top)
    ensures NextFails(lx, s, q, depth, acc + ns, top, ParseNodes(lx, s, p, depth, top, acc).error)
    decreases |s| - p, 5
  {
    hide Skip, ParseNode, NodeAt, NodeFails, OnlyDeclarations, W.DeclarationsFirst;
    var lt := Skip(lx, s, p);
    var r := ParseNode(lx, s, p, lt, depth);
    ns, q := [], p;
    assert acc + ns == acc;
    if r.Fail? {
      NodeFailOf(lx, s, p, lt, depth);
    } else {
      NodeOf(lx, s, p, lt, depth);
      if r.node.Declaration? && !(top && OnlyDeclarations(acc)) {
        OutOfPlace(acc, r.node, top);
      } else {
        W.AppendDeclaration(acc, r.node, top);
        var rest;
        rest, q := FailAfter(lx, s, r.next, depth, top, acc + [r.node]);
        ns := [r.node] + rest;
        assert acc + ns == acc + [r.node] + rest && ns[1..] == rest;
      }
    }
  }

  lemma OutOfPlace(acc: seq<Node>, n: Node, top: bool)
    requires n.Declaration? && !(top && OnlyDeclarations(acc))
    ensures !W.DeclarationsFirst(acc + [n], top)
  {
    if W.DeclarationsFirst(acc + [n], top) {
      assert acc + [n] + [] == acc + [n];
      Allowed(acc, n, [], top);
    }
  }

  /** The parser reports exactly the error that the grammar calls for, on every buffer. */
  lemma ParseErrors(lx: Lexicon, s: string, error: Error)
    requires lx.Valid()
    ensures Parse(lx, s) == Failed(error) <==> IsError(lx, s, error)
  {
    hide Skip, ParseNodes, ListFails, StartsAt;
    var w := Skip(lx, s, 0);
    assert SkipsTo(lx, s, 0, w);
    forall k: nat | SkipsTo(lx, s, 0, k)
      ensures k == w
    {
      SkipTo(lx, s, 0, k);
    }
    var p := if StartsAt(s, w, BOM) then w + 3 else w;
    if At(s, p) != NUL && lx.maxDepth != 1 {
      if ListFails(lx, s, p, 1, true, error) {
        ListFailParse(lx, s, p, 1, true, error);
      }
      if ParseNodes(lx, s, p, 1, true, []).Broken? {
        ListFailOf(lx, s, p, 1, true);
      }
    }
  }
}
