/**
  What `XMLDocument::Parse` computes, as functions on the parse buffer: positions instead of
  pointers, `Fail` instead of a null return with an error set.  Strings are recorded as ranges of the
  buffer, as `StrPair` does; `Range.end` is where the terminating NUL goes when it is flushed.

  Whitespace and name characters and the nesting limit are a parameter; `DEFAULT` is how the library
  sets them.  The whitespace mode is the default one (whitespace preserved).
  */
module XmlParser {
  import opened Collections
  import opened XmlChars

  datatype Lexicon = Lexicon(isSpace: char -> bool, isNameStart: char -> bool, isName: char -> bool, maxDepth: nat) {
    ghost predicate Valid() {
      && isSpace(' ') && isSpace(LF) && !isSpace('\U{EF}')
      && (forall c: char :: isSpace(c) ==> !isName(c) && !isNameStart(c) && !Markup(c))
      && (forall c: char :: isNameStart(c) ==> isName(c) && c != '!' && c != '?')
      && (forall c: char :: isName(c) ==> !Markup(c))
    }
  }

  predicate Markup(c: char) {
    c in {NUL, '<', '>', '/', '=', '\"', '\'', '&'}
  }

  /** `XMLUtil::IsWhiteSpace`: `isspace` of the C locale, which holds of no byte from 128 on. */
  predicate IsWhiteSpace(c: char) {
    c == ' ' || 9 <= c as int <= 13
  }

  predicate IsNameStartChar(c: char) {
    c as int >= 128 || 'a' <= c <= 'z' || 'A' <= c <= 'Z' || c == ':' || c == '_'
  }

  predicate IsNameChar(c: char) {
    IsNameStartChar(c) || '0' <= c <= '9' || c == '.' || c == '-'
  }

  const MAX_ELEMENT_DEPTH: nat := 500

  const DEFAULT := Lexicon(IsWhiteSpace, IsNameStartChar, IsNameChar, MAX_ELEMENT_DEPTH)

  lemma DefaultValid()
    ensures DEFAULT.Valid()
  {
  }

  datatype Error =
    | EmptyDocument | Parsing | ParsingElement | ParsingAttribute | ParsingText | ParsingCData
    | ParsingComment | ParsingDeclaration | ParsingUnknown | Mismatched | DepthExceeded

  datatype Range = Range(start: nat, end: nat)

  datatype Attr = Attr(name: Range, value: Range)

  datatype Close = SelfClosed | Matched(endName: Range)

  datatype Node =
    | Element(name: Range, attrs: seq<Attr>, kids: seq<Node>, close: Close)
    | Text(text: Range, cdata: bool)
    | Comment(text: Range)
    | Declaration(text: Range)
    | Unknown(text: Range)

  function Slice(s: string, r: Range): string {
    if r.start <= r.end <= |s| then s[r.start..r.end] else ""
  }

  // ----- scanning -----

  function Skip(lx: Lexicon, s: string, p: nat): (q: nat)
    requires p <= |s|
    ensures p <= q <= |s|
    ensures forall j :: p <= j < q ==> lx.isSpace(s[j])
    ensures q < |s| ==> !lx.isSpace(s[q])
    decreases |s| - p
  {
    if p < |s| && lx.isSpace(s[p]) then Skip(lx, s, p + 1) else p
  }

  /** `ParseText`: the first occurrence of `tag` before any NUL. */
  function FindTag(s: string, p: nat, tag: string): (r: Option<nat>)
    requires p <= |s|
    ensures r.Some? ==> p <= r.value && StartsAt(s, r.value, tag)
    ensures r.Some? ==> forall j :: p <= j < r.value ==> s[j] != NUL && !StartsAt(s, j, tag)
    decreases |s| - p
  {
    if At(s, p) == NUL then None
    else if StartsAt(s, p, tag) then Some(p)
    else FindTag(s, p + 1, tag)
  }

  function NameEnd(lx: Lexicon, s: string, p: nat): (q: nat)
    requires p <= |s|
    ensures p <= q <= |s|
    ensures forall j :: p <= j < q ==> lx.isName(s[j])
    ensures q < |s| ==> s[q] == NUL || !lx.isName(s[q])
    decreases |s| - p
  {
    if At(s, p) != NUL && lx.isName(s[p]) then NameEnd(lx, s, p + 1) else p
  }

  /** `ParseName`: the end of the name at `p`. */
  function ParseName(lx: Lexicon, s: string, p: nat): (r: Option<nat>)
    requires p <= |s|
    ensures r.Some? ==> p < r.value <= |s|
  {
    if At(s, p) != NUL && lx.isNameStart(s[p]) then Some(NameEnd(lx, s, p + 1)) else None
  }

  // ----- attributes -----

  datatype AttrResult = NoAttr | GotAttr(attr: Attr, next: nat)

  function ParseAttr(lx: Lexicon, s: string, p: nat): (r: AttrResult)
    requires p <= |s|
    ensures r.GotAttr? ==> p < r.next <= |s|
  {
    var name := ParseName(lx, s, p);
    if name.None? || At(s, name.value) == NUL then NoAttr
    else
      var eq := Skip(lx, s, name.value);
      if At(s, eq) != '=' then NoAttr
      else
        var quote := Skip(lx, s, eq + 1);
        if At(s, quote) != '\"' && At(s, quote) != '\'' then NoAttr
        else
          var close := FindTag(s, quote + 1, [s[quote]]);
          if close.None? then NoAttr
          else GotAttr(Attr(Range(p, name.value), Range(quote + 1, close.value)), close.value + 1)
  }

  predicate HasName(s: string, attrs: seq<Attr>, name: Range) {
    exists a :: a in attrs && Slice(s, a.name) == Slice(s, name)
  }

  datatype TagResult =
    | TagFail(error: Error)
    | TagOpen(attrs: seq<Attr>, next: nat)
    | TagClosed(attrs: seq<Attr>, next: nat)

  function ParseAttrs(lx: Lexicon, s: string, p: nat, attrs: seq<Attr>): (r: TagResult)
    requires p <= |s|
    ensures !r.TagFail? ==> p < r.next <= |s|
    decreases |s| - p
  {
    var q := Skip(lx, s, p);
    if At(s, q) == NUL then TagFail(ParsingElement)
    else if lx.isNameStart(s[q]) then
      match ParseAttr(lx, s, q)
      case NoAttr => TagFail(ParsingAttribute)
      case GotAttr(a, next) =>
        if HasName(s, attrs, a.name) then TagFail(ParsingAttribute)
        else ParseAttrs(lx, s, next, attrs + [a])
    else if s[q] == '>' then TagOpen(attrs, q + 1)
    else if s[q] == '/' && At(s, q + 1) == '>' then TagClosed(attrs, q + 2)
    else TagFail(ParsingElement)
  }

  // ----- nodes -----

  datatype NodeResult =
    | Fail(error: Error)
    | EndTag(name: Range, next: nat)
    | Parsed(node: Node, next: nat)

  /** `Ended` ran into the end of the input; `Closed` met an end tag, handed to the caller. */
  datatype ListResult =
    | Broken(error: Error)
    | Ended(nodes: seq<Node>)
    | Closed(nodes: seq<Node>, name: Range, next: nat)

  datatype Kind = DeclarationKind | CommentKind | CDataKind | UnknownKind | ElementKind | TextKind {
    function Header(): string {
      match this
      case DeclarationKind => "<?"
      case CommentKind => "<!--"
      case CDataKind => "<![CDATA["
      case UnknownKind => "<!"
      case ElementKind => "<"
      case TextKind => ""
    }

    function EndMark(): (t: string)
      ensures t != ""
    {
      match this
      case DeclarationKind => "?>"
      case CommentKind => "-->"
      case CDataKind => "]]>"
      case UnknownKind => ">"
      case ElementKind => ">"
      case TextKind => "<"
    }

    function ErrorId(): Error {
      match this
      case DeclarationKind => ParsingDeclaration
      case CommentKind => ParsingComment
      case CDataKind => ParsingCData
      case UnknownKind => ParsingUnknown
      case ElementKind => ParsingElement
      case TextKind => ParsingText
    }

    /** The leaf node of this kind. */
    function Leaf(r: Range): (n: Node)
      ensures !n.Element? && n.text == r
    {
      match this
      case DeclarationKind => Declaration(r)
      case CommentKind => Comment(r)
      case UnknownKind => Unknown(r)
      case _ => Text(r, this == CDataKind)
    }
  }

  /** The headers are tested in this order; anything but `<` starts a text. */
  function Identify(s: string, q: nat): (k: Kind)
    requires q < |s|
    ensures StartsAt(s, q, k.Header())
    ensures k == TextKind <==> s[q] != '<'
  {
    if StartsAt(s, q, "<?") then StartsAtIndex(s, q, "<?", 0); DeclarationKind
    else if StartsAt(s, q, "<!--") then StartsAtIndex(s, q, "<!--", 0); CommentKind
    else if StartsAt(s, q, "<![CDATA[") then StartsAtIndex(s, q, "<![CDATA[", 0); CDataKind
    else if StartsAt(s, q, "<!") then StartsAtIndex(s, q, "<!", 0); UnknownKind
    else if StartsAt(s, q, "<") then ElementKind
    else TextKind
  }

  /** A node that is not an element; text is read from `p`, leading spaces included. */
  function ParseLeaf(lx: Lexicon, s: string, p: nat, q: nat, k: Kind): (r: NodeResult)
    requires p <= q < |s| && StartsAt(s, q, k.Header())
    ensures !r.EndTag?
    ensures r.Parsed? ==> p <= r.next <= |s| && !r.node.Element?
    ensures r.Parsed? ==> r.next == p ==> At(s, p) == '<' && k == TextKind
  {
    var start := if k == TextKind then p else q + |k.Header()|;
    match FindTag(s, start, k.EndMark())
    case None => Fail(k.ErrorId())
    case Some(end) =>
      var node := k.Leaf(Range(start, end));
      if k != TextKind then Parsed(node, end + |k.EndMark()|)
      else if At(s, end + 1) == NUL then Fail(Parsing)
      else Parsed(node, end)
  }

  predicate OnlyDeclarations(nodes: seq<Node>) {
    nodes == [] || (nodes[0].Declaration? && nodes[|nodes| - 1].Declaration?)
  }

  function ParseNodes(lx: Lexicon, s: string, p: nat, depth: nat, top: bool, nodes: seq<Node>): (r: ListResult)
    requires p <= |s| && lx.Valid()
    ensures r.Closed? ==> p < r.next <= |s|
    decreases |s| - p, 1
  {
    var q := Skip(lx, s, p);
    if At(s, q) == NUL then Ended(nodes)
    else
      match ParseNode(lx, s, p, q, depth)
      case Fail(e) => Broken(e)
      case EndTag(name, next) => Closed(nodes, name, next)
      case Parsed(node, next) =>
        if node.Declaration? && !(top && OnlyDeclarations(nodes)) then Broken(ParsingDeclaration)
        else ParseNodes(lx, s, next, depth, top, nodes + [node])
  }

  /** `q` is the first non-space position at or after `p`. */
  function ParseNode(lx: Lexicon, s: string, p: nat, q: nat, depth: nat): (r: NodeResult)
    requires p <= q < |s| && q == Skip(lx, s, p) && lx.Valid()
    ensures !r.Fail? ==> p < r.next <= |s|
    decreases |s| - p, 0
  {
    var k := Identify(s, q);
    if k == ElementKind then ParseElement(lx, s, q + 1, depth) else ParseLeaf(lx, s, p, q, k)
  }

  /** From behind the `<`. `</a/>` is a self-closed element: `/>` overrides the leading slash. */
  function ParseElement(lx: Lexicon, s: string, p: nat, depth: nat): (r: NodeResult)
    requires p <= |s| && lx.Valid()
    ensures !r.Fail? ==> p < r.next <= |s|
    decreases |s| - p, 0
  {
    var w := Skip(lx, s, p);
    var closing := At(s, w) == '/';
    var n := if closing then w + 1 else w;
    match ParseName(lx, s, n)
    case None => Fail(Parsing)
    case Some(e) =>
      match ParseAttrs(lx, s, e, [])
      case TagFail(error) => Fail(error)
      case TagClosed(attrs, next) => Parsed(Element(Range(n, e), attrs, [], SelfClosed), next)
      case TagOpen(attrs, next) =>
        if closing then EndTag(Range(n, e), next)
        else ParseContent(lx, s, next, depth, Range(n, e), attrs)
  }

  /** The children of an open element, and its end tag. */
  function ParseContent(lx: Lexicon, s: string, p: nat, depth: nat, name: Range, attrs: seq<Attr>): (r: NodeResult)
    requires p <= |s| && lx.Valid()
    ensures !r.Fail? ==> r.Parsed? && p < r.next <= |s|
    decreases |s| - p, 2
  {
    if At(s, p) == NUL then Fail(Mismatched)
    else if depth + 1 == lx.maxDepth then Fail(DepthExceeded)
    else
      match ParseNodes(lx, s, p, depth + 1, false, [])
      case Broken(error) => Fail(error)
      case Ended(_) => Fail(Parsing)
      case Closed(kids, endName, next) =>
        if Slice(s, endName) == Slice(s, name)
        then Parsed(Element(name, attrs, kids, Matched(endName)), next)
        else Fail(Mismatched)
  }

  // ----- documents -----

  datatype Document = Document(bom: bool, nodes: seq<Node>)

  datatype ParseResult = Failed(error: Error) | Ok(doc: Document)

  function Finish(bom: bool, r: ListResult): ParseResult {
    if r.Broken? then Failed(r.error) else Ok(Document(bom, r.nodes))
  }

  /** A stray end tag at top level ends the parse without an error. */
  function Parse(lx: Lexicon, s: string): (r: ParseResult)
    requires lx.Valid()
  {
    var w := Skip(lx, s, 0);
    var bom := StartsAt(s, w, BOM);
    var p := if bom then w + 3 else w;
    if At(s, p) == NUL then Failed(EmptyDocument)
    else if lx.maxDepth == 1 then Failed(DepthExceeded)
    else Finish(bom, ParseNodes(lx, s, p, 1, true, []))
  }
}
