/**
  What a parse without error guarantees about its tree: XML 1.0 section 3 (matching end tags) and
  section 3.1 (unique attribute names), the nesting limit, and where declarations may stand.
  */
module XmlWellFormed {
  import opened Collections
  import opened XmlChars
  import opened XmlParser

  predicate DistinctNames(s: string, attrs: seq<Attr>) {
    forall i, j :: 0 <= i < j < |attrs| ==> Slice(s, attrs[i].name) != Slice(s, attrs[j].name)
  }

  predicate IsNameToken(lx: Lexicon, s: string, r: Range) {
    && r.start < r.end <= |s| && lx.isNameStart(s[r.start])
    && forall i :: r.start < i < r.end ==> lx.isName(s[i])
  }

  predicate IsEndTag(lx: Lexicon, s: string, r: Range) {
    IsNameToken(lx, s, r) && r.start > 0 && s[r.start - 1] == '/'
  }

  predicate BelowLimit(lx: Lexicon, depth: nat) {
    lx.maxDepth == 0 || depth < lx.maxDepth
  }

  /** An open element at depth `depth` holds its children at `depth + 1`, still below the limit. */
  predicate Sound(lx: Lexicon, s: string, n: Node, depth: nat) {
    match n
    case Element(name, attrs, kids, close) =>
      && IsNameToken(lx, s, name) && DistinctNames(s, attrs)
      && (close.SelfClosed? ==> kids == [])
      && (close.Matched? ==> IsEndTag(lx, s, close.endName) && Slice(s, close.endName) == Slice(s, name))
      && (close.Matched? ==> BelowLimit(lx, depth + 1))
      && forall k :: k in kids ==> !k.Declaration? && Sound(lx, s, k, depth + 1)
    case _ => true
  }

  predicate AllSound(lx: Lexicon, s: string, ns: seq<Node>, depth: nat) {
    forall n :: n in ns ==> Sound(lx, s, n, depth)
  }

  /** Declarations come before everything else, and only at top level. */
  predicate DeclarationsFirst(ns: seq<Node>, top: bool) {
    && Leading(ns, (n: Node) => n.Declaration?)
    && (!top ==> forall i :: 0 <= i < |ns| ==> !ns[i].Declaration?)
  }

  lemma {:induction false} AttrsDistinct(lx: Lexicon, s: string, p: nat, attrs: seq<Attr>)
    requires p <= |s| && DistinctNames(s, attrs) && !ParseAttrs(lx, s, p, attrs).TagFail?
    ensures DistinctNames(s, ParseAttrs(lx, s, p, attrs).attrs)
    decreases |s| - p
  {
    hide ParseAttr;
    var q := Skip(lx, s, p);
    if !lx.isNameStart(s[q]) {
    } else {
      var r := ParseAttr(lx, s, q);
      AttrsDistinct(lx, s, r.next, attrs + [r.attr]);
    }
  }

  lemma {:induction false} NodesSound(lx: Lexicon, s: string, p: nat, depth: nat, top: bool, nodes: seq<Node>)
    requires p <= |s| && lx.Valid() && BelowLimit(lx, depth)
    requires AllSound(lx, s, nodes, depth) && DeclarationsFirst(nodes, top)
    requires !ParseNodes(lx, s, p, depth, top, nodes).Broken?
    ensures var r := ParseNodes(lx, s, p, depth, top, nodes);
            && AllSound(lx, s, r.nodes, depth) && DeclarationsFirst(r.nodes, top)
            && (r.Closed? ==> IsEndTag(lx, s, r.name))
    decreases |s| - p, 1
  {
    hide ParseNode, IsEndTag, Sound, Skip;
    var q := Skip(lx, s, p);
    if At(s, q) == NUL {
    } else {
      NodeSound(lx, s, p, q, depth);
      var r := ParseNode(lx, s, p, q, depth);
      if r.Parsed? {
        AppendDeclaration(nodes, r.node, top);
        NodesSound(lx, s, r.next, depth, top, nodes + [r.node]);
      }
    }
  }

  lemma AppendDeclaration(nodes: seq<Node>, n: Node, top: bool)
    requires DeclarationsFirst(nodes, top)
    requires n.Declaration? ==> top && OnlyDeclarations(nodes)
    ensures DeclarationsFirst(nodes + [n], top)
  {
  }

  lemma {:induction false} NodeSound(lx: Lexicon, s: string, p: nat, q: nat, depth: nat)
    requires p <= q < |s| && q == Skip(lx, s, p) && lx.Valid() && BelowLimit(lx, depth)
    ensures var r := ParseNode(lx, s, p, q, depth);
            && (r.Parsed? ==> Sound(lx, s, r.node, depth))
            && (r.EndTag? ==> IsEndTag(lx, s, r.name))
    decreases |s| - p, 0
  {
    hide ParseElement, ParseLeaf, IsEndTag;
    if Identify(s, q) == ElementKind {
      ElementSound(lx, s, q + 1, depth);
    }
  }

  lemma {:induction false} ElementSound(lx: Lexicon, s: string, p: nat, depth: nat)
    requires p <= |s| && lx.Valid() && BelowLimit(lx, depth)
    ensures var r := ParseElement(lx, s, p, depth);
            && (r.Parsed? ==> Sound(lx, s, r.node, depth))
            && (r.EndTag? ==> IsEndTag(lx, s, r.name))
    decreases |s| - p, 0
  {
    hide ParseContent, ParseAttrs;
    var w := Skip(lx, s, p);
    var n := if At(s, w) == '/' then w + 1 else w;
    var name := ParseName(lx, s, n);
    if name.Some? {
      var tag := ParseAttrs(lx, s, name.value, []);
      if !tag.TagFail? {
        AttrsDistinct(lx, s, name.value, []);
        if tag.TagOpen? && n == w {
          ContentSound(lx, s, tag.next, depth, Range(n, name.value), tag.attrs);
        }
      }
    }
  }

  lemma {:induction false} ContentSound(lx: Lexicon, s: string, p: nat, depth: nat, name: Range, attrs: seq<Attr>)
    requires p <= |s| && lx.Valid() && BelowLimit(lx, depth)
    requires IsNameToken(lx, s, name) && DistinctNames(s, attrs)
    ensures var r := ParseContent(lx, s, p, depth, name, attrs);
            r.Parsed? ==> Sound(lx, s, r.node, depth)
    decreases |s| - p, 2
  {
    hide ParseNodes, IsEndTag;
    if ParseContent(lx, s, p, depth, name, attrs).Parsed? {
      NodesSound(lx, s, p, depth + 1, false, []);
    }
  }

  /** Every parse without error yields a sound tree, whatever the input. */
  lemma ParseSound(lx: Lexicon, s: string)
    requires lx.Valid() && Parse(lx, s).Ok?
    ensures var nodes := Parse(lx, s).doc.nodes;
            AllSound(lx, s, nodes, 1) && DeclarationsFirst(nodes, true)
  {
    hide ParseNodes, Skip, StartsAt;
    var w := Skip(lx, s, 0);
    var p := if StartsAt(s, w, BOM) then w + 3 else w;
    NodesSound(lx, s, p, 1, true, []);
  }
}
