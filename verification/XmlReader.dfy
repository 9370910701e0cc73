/**
  The parser as it runs: a cursor over one buffer, a child reading its parent's end tag, and names
  flushed (their terminator overwritten with NUL) while the rest of the buffer is still being read.
  Every method is proved against the functions of `XmlParser` on the ORIGINAL input, so the flushes
  never reach a byte that is read later.
  */
module XmlReader {
  import opened Collections
  import opened XmlChars
  import opened XmlParser
  import opened XmlRanges

  /** `_closingType`: OPEN, CLOSED, CLOSING. */
  datatype ClosingType = OpenTag | ClosedTag | ClosingTag

  /** What an element's `ParseDeep` hands to the loop of its parent; `next == -1` is a null return. */
  datatype Raw = Raw(name: Range, attrs: seq<Attr>, kids: seq<Node>, closing: ClosingType, endTag: Option<Range>,
                     next: int)

  /** What the parent's loop makes of it. */
  function Settle(s: string, raw: Raw, error: Option<Error>): NodeResult {
    if raw.next < 0 then Fail(if error.Some? then error.value else Parsing)
    else if raw.closing == ClosingTag then EndTag(raw.name, raw.next)
    else if raw.endTag.None? then
      if raw.closing == OpenTag then Fail(Mismatched)
      else Parsed(Element(raw.name, raw.attrs, raw.kids, SelfClosed), raw.next)
    else if raw.closing != OpenTag || Slice(s, raw.endTag.value) != Slice(s, raw.name) then Fail(Mismatched)
    else Parsed(Element(raw.name, raw.attrs, raw.kids, Matched(raw.endTag.value)), raw.next)
  }

  function AsInt(r: Option<nat>): int {
    if r.Some? then r.value else -1
  }

  /** Bytes flushed since `before` lie behind `p`. */
  ghost predicate Grown(before: set<nat>, after: set<nat>, p: nat) {
    forall f :: f in after ==> f in before || p < f
  }

  /**
    No text of `rs` was written to, and all of it ends at `p` at the latest; of those in `ts`, not
    even the terminator was.
    */
  ghost predicate Kept(flushed: set<nat>, rs: seq<Range>, ts: seq<Range>, p: nat) {
    && (forall r :: r in rs ==> r.start <= r.end <= p && forall f :: f in flushed ==> f < r.start || r.end <= f)
    && (forall t :: t in ts ==> t.start <= t.end <= p && forall f :: f in flushed ==> f < t.start || t.end < f)
  }

  /** A buffer after a parse: texts as given, names as given and perhaps terminated. */
  ghost predicate Left(src: string, buf: string, flushed: set<nat>, nodes: seq<Node>) {
    && |buf| == |src| + 1
    && (forall r :: r in AllRanges(nodes) ==>
          r.start <= r.end <= |src| && buf[r.start..r.end] == src[r.start..r.end])
    && (forall r :: r in AllRanges(nodes) && r.end in flushed ==> buf[r.end] == NUL && r !in AllTexts(nodes))
  }

  lemma KeptLeaves(src: string, buf: string, flushed: set<nat>, nodes: seq<Node>)
    requires |buf| == |src| + 1 && Kept(flushed, AllRanges(nodes), AllTexts(nodes), |src|)
    requires forall i :: 0 <= i < |src| ==> buf[i] == src[i] || i in flushed
    requires forall f :: f in flushed ==> f < |buf| && buf[f] == NUL
    ensures Left(src, buf, flushed, nodes)
  {
    hide AllRanges, AllTexts;
    forall r | r in AllRanges(nodes)
      ensures buf[r.start..r.end] == src[r.start..r.end]
    {
    }
  }

  /** Later flushes do not reach what was recorded earlier. */
  lemma KeptStable(before: set<nat>, after: set<nat>, rs: seq<Range>, ts: seq<Range>, p: nat, p': nat)
    requires Kept(before, rs, ts, p) && Grown(before, after, p) && p <= p'
    ensures Kept(after, rs, ts, p')
  {
  }

  lemma GrownNot(flushed: set<nat>, p: nat)
    ensures Grown(flushed, flushed, p)
  {
  }

  lemma GrownOn(a: set<nat>, b: set<nat>, c: set<nat>, p0: nat, p: nat)
    requires Grown(a, b, p0) && Grown(b, c, p) && p0 <= p
    ensures Grown(a, c, p0)
  {
  }

  class Reader {
    const lx: Lexicon
    const buf: array<char>
    ghost const src: string
    /** Where the names end whose `GetStr` has been called. */
    var flushed: set<nat>
    var errorId: Option<Error>
    var parsingDepth: nat

    ghost predicate Valid()
      reads this, buf
    {
      && lx.Valid() && buf.Length == |src| + 1 && buf[|src|] == NUL
      && (forall i :: 0 <= i < |src| ==> buf[i] == src[i] || i in flushed)
      && (forall f :: f in flushed ==> f < buf.Length && buf[f] == NUL)
    }

    /** Everything from `p` on is still as it was given. */
    ghost predicate Unread(p: nat)
      reads this
    {
      p <= |src| && forall f :: f in flushed ==> f < p
    }

    /** The text of `r` has not been written to; its terminator may have been. */
    ghost predicate Intact(r: Range)
      reads this
    {
      r.start <= r.end <= |src| && forall f :: f in flushed ==> f < r.start || r.end <= f
    }

    /** Neither the text of `r` nor its terminator has been written to. */
    ghost predicate Untouched(r: Range)
      reads this
    {
      r.start <= r.end <= |src| && forall f :: f in flushed ==> f < r.start || r.end < f
    }

    constructor (lx: Lexicon, text: string)
      requires lx.Valid()
      ensures Valid() && fresh(buf) && src == text && this.lx == lx
      ensures flushed == {} && errorId.None? && parsingDepth == 0
    {
      this.lx := lx;
      src, flushed, errorId, parsingDepth := text, {}, None, 0;
      var b := new char[|text| + 1](i => if 0 <= i < |text| then text[i] else NUL);
      buf := b;
    }

    /** `*p`. */
    method Peek(p: nat) returns (c: char)
      requires Valid() && Unread(p)
      ensures c == At(src, p)
    {
      return buf[p];
    }

    method SkipWhiteSpace(p: nat) returns (q: nat)
      requires Valid() && Unread(p)
      ensures q == Skip(lx, src, p)
    {
      q := p;
      while lx.isSpace(buf[q])
        invariant p <= q <= |src|
        invariant Skip(lx, src, q) == Skip(lx, src, p)
        decreases buf.Length - q
      {
        q := q + 1;
      }
    }

    /** `strncmp(p, tag, |tag|) == 0`. */
    method LooksAt(p: nat, tag: string) returns (yes: bool)
      requires Valid() && Unread(p)
      ensures yes == StartsAt(src, p, tag)
    {
      if p + |tag| >= buf.Length { return false; }
      assert buf[p..p + |tag|] == src[p..p + |tag|];
      return buf[p..p + |tag|] == tag;
    }

    method ParseText(p: nat, tag: string) returns (end: int)
      requires Valid() && Unread(p) && tag != ""
      ensures end == AsInt(FindTag(src, p, tag))
    {
      hide StartsAt;
      var q := p;
      while buf[q] != NUL
        invariant p <= q <= |src|
        invariant FindTag(src, q, tag) == FindTag(src, p, tag)
        decreases buf.Length - q
      {
        var found := LooksAt(q, tag);
        if found { return q; }
        q := q + 1;
      }
      return -1;
    }

    method ParseNameAt(p: nat) returns (e: int)
      requires Valid() && Unread(p)
      ensures e == AsInt(ParseName(lx, src, p))
    {
      if buf[p] == NUL || !lx.isNameStart(buf[p]) { return -1; }
      e := p + 1;
      while buf[e] != NUL && lx.isName(buf[e])
        invariant p < e <= |src|
        invariant NameEnd(lx, src, e) == NameEnd(lx, src, p + 1)
        decreases buf.Length - e
      {
        e := e + 1;
      }
    }

    /** `GetStr` on a name: only its terminator is written, and the cursor `p` is already past it. */
    method FlushName(r: Range, ghost p: nat)
      requires Valid() && Unread(p) && r.end < p
      modifies buf, this`flushed
      ensures Valid() && Unread(p) && flushed == old(flushed) + {r.end}
    {
      buf[r.end] := NUL;
      flushed := flushed + {r.end};
    }

    /** `StringEqual` on two flushed names. */
    method SameName(a: Range, b: Range) returns (same: bool)
      requires Valid() && Intact(a) && Intact(b)
      ensures same == (Slice(src, a) == Slice(src, b))
    {
      assert buf[a.start..a.end] == src[a.start..a.end];
      assert buf[b.start..b.end] == src[b.start..b.end];
      return buf[a.start..a.end] == buf[b.start..b.end];
    }

    method ParseAttribute(p: nat) returns (attr: Attr, next: int)
      requires Valid() && Unread(p)
      ensures match ParseAttr(lx, src, p)
              case NoAttr => next == -1
              case GotAttr(a, n) => next == n && attr == a
    {
      hide ParseName, Skip, FindTag;
      attr := Attr(Range(0, 0), Range(0, 0));
      var e := ParseNameAt(p);
      if e < 0 { return attr, -1; }
      var c := Peek(e);
      if c == NUL { return attr, -1; }
      attr, next := ParseAttributeValue(p, e);
    }

    /** The rest of `ParseAttribute`, once the name has been read. */
    method ParseAttributeValue(p: nat, e: nat) returns (attr: Attr, next: int)
      requires Valid() && Unread(p) && ParseName(lx, src, p) == Some(e) && At(src, e) != NUL
      ensures match ParseAttr(lx, src, p)
              case NoAttr => next == -1
              case GotAttr(a, n) => next == n && attr == a
    {
      hide ParseName, Skip, FindTag;
      attr := Attr(Range(0, 0), Range(0, 0));
      var eq := SkipWhiteSpace(e);
      var c := Peek(eq);
      if c != '=' { return attr, -1; }
      var quote := SkipWhiteSpace(eq + 1);
      c := Peek(quote);
      if c != '\"' && c != '\'' { return attr, -1; }
      var end := ParseText(quote + 1, [c]);
      if end < 0 { return attr, -1; }
      return Attr(Range(p, e), Range(quote + 1, end)), end + 1;
    }

    /** The ranges of `attrs` are intact, in order, and end before `p`. */
    ghost predicate AttrsIntact(attrs: seq<Attr>, p: nat)
      reads this
    {
      && (forall i :: 0 <= i < |attrs| ==>
            && Intact(attrs[i].name) && Untouched(attrs[i].value)
            && attrs[i].name.start < attrs[i].name.end < attrs[i].value.start && attrs[i].value.end < p)
      && (forall i, j :: 0 <= i < j < |attrs| ==> attrs[i].value.end < attrs[j].name.start)
    }

    /** `FindAttribute`: compares with each name recorded so far, flushing it and the new one. */
    method FindAttribute(attrs: seq<Attr>, name: Range, ghost p0: nat, ghost p: nat) returns (found: bool)
      requires Valid() && Unread(p) && Intact(name) && name.end < p && AttrsIntact(attrs, name.start)
      requires p0 <= name.start < name.end && forall i :: 0 <= i < |attrs| ==> p0 <= attrs[i].name.start
      modifies buf, this`flushed
      ensures Valid() && Unread(p) && Intact(name) && AttrsIntact(attrs, name.start)
      ensures found == HasName(src, attrs, name) && old(flushed) + {name.end} <= flushed
      ensures forall f :: f in flushed ==> f in old(flushed) || p0 < f <= name.end
    {
      hide Slice, Reader.Unread, Reader.Valid;
      FlushName(name, p);
      var i := 0;
      while i < |attrs|
        invariant 0 <= i <= |attrs| && Valid() && Unread(p) && Intact(name) && AttrsIntact(attrs, name.start)
        invariant forall j :: 0 <= j < i ==> Slice(src, attrs[j].name) != Slice(src, name)
        invariant old(flushed) + {name.end} <= flushed
        invariant forall f :: f in flushed ==> f in old(flushed) || p0 < f <= name.end
      {
        var same := CompareNext(attrs, i, name, p);
        if same { return true; }
        i := i + 1;
      }
      return false;
    }

    method CompareNext(attrs: seq<Attr>, i: nat, name: Range, ghost p: nat) returns (same: bool)
      requires Valid() && Unread(p) && Intact(name) && name.end < p && AttrsIntact(attrs, name.start) && i < |attrs|
      modifies buf, this`flushed
      ensures Valid() && Unread(p) && Intact(name) && AttrsIntact(attrs, name.start)
      ensures same == (Slice(src, attrs[i].name) == Slice(src, name))
      ensures flushed == old(flushed) + {attrs[i].name.end}
    {
      hide Slice, Reader.Unread, Reader.Valid;
      FlushName(attrs[i].name, p);
      same := SameName(attrs[i].name, name);
    }

    /** Attributes recorded since `p0`, everything flushed since lying in between. */
    ghost predicate AttrState(before: set<nat>, p0: nat, attrs: seq<Attr>, p: nat)
      reads this
    {
      && p0 <= p && Unread(p) && AttrsIntact(attrs, p)
      && (forall i :: 0 <= i < |attrs| ==> p0 <= attrs[i].name.start)
      && Grown(before, flushed, p0)
    }

    /** One attribute of the loop below; `next == -1` with the error set when it is refused. */
    method NextAttribute(attrs: seq<Attr>, p: nat, q: nat, ghost before: set<nat>, ghost p0: nat)
      returns (attr: Attr, next: int)
      requires Valid() && AttrState(before, p0, attrs, p) && p <= q == Skip(lx, src, p) && q < |src|
      requires lx.isNameStart(src[q]) && src[q] != NUL
      modifies buf, this`flushed, this`errorId
      ensures Valid()
      ensures next < 0 ==> next == -1 && errorId == Some(ParsingAttribute)
      ensures next < 0 ==> ParseAttrs(lx, src, p, attrs) == TagFail(ParsingAttribute)
      ensures next >= 0 ==> errorId == old(errorId) && p < next && AttrState(before, p0, attrs + [attr], next)
      ensures next >= 0 ==> ParseAttrs(lx, src, p, attrs) == ParseAttrs(lx, src, next, attrs + [attr])
    {
      hide Skip, HasName, ParseAttr;
      attr, next := ParseAttribute(q);
      if next < 0 {
        errorId := Some(ParsingAttribute);
        return;
      }
      AttrShape(lx, src, q);
      var found := FindAttribute(attrs, attr.name, p0, next);
      if found {
        errorId := Some(ParsingAttribute);
        next := -1;
        return;
      }
    }

    method ParseAttributes(p0: nat) returns (attrs: seq<Attr>, closed: bool, next: int)
      requires Valid() && Unread(p0) && errorId.None?
      modifies buf, this`flushed, this`errorId
      ensures Valid() && TagMatches(ParseAttrs(lx, src, p0, []), attrs, closed, next, errorId)
      ensures next >= 0 ==> Unread(next) && Grown(old(flushed), flushed, p0)
      ensures next >= 0 ==> Kept(flushed, AttrRanges(attrs), AttrTexts(attrs), next)
    {
      hide ParseAttrs, Skip, TagMatches;
      attrs, closed := [], false;
      var p := p0;
      while true
        invariant Valid() && errorId.None? && AttrState(old(flushed), p0, attrs, p)
        invariant ParseAttrs(lx, src, p, attrs) == ParseAttrs(lx, src, p0, [])
        decreases buf.Length - p
      {
        var q := SkipWhiteSpace(p);
        var c := Peek(q);
        if c == NUL || !lx.isNameStart(c) {
          next, closed := EndAttributes(attrs, p, q, old(flushed), p0);
          return;
        }
        var attr, n := NextAttribute(attrs, p, q, old(flushed), p0);
        if n < 0 {
          FailedTag(errorId.value, attrs);
          return attrs, false, -1;
        }
        attrs, p := attrs + [attr], n;
      }
    }

    /** No further attribute: the tag ends here, or it is an error. */
    method EndAttributes(attrs: seq<Attr>, p: nat, q: nat, ghost before: set<nat>, ghost p0: nat)
        returns (next: int, closed: bool)
      requires Valid() && errorId.None? && AttrState(before, p0, attrs, p) && p <= q == Skip(lx, src, p)
      requires At(src, q) == NUL || !lx.isNameStart(At(src, q))
      modifies this`errorId
      ensures Valid() && TagMatches(ParseAttrs(lx, src, p, attrs), attrs, closed, next, errorId)
      ensures next >= 0 ==> Unread(next) && Grown(before, flushed, p0)
      ensures next >= 0 ==> Kept(flushed, AttrRanges(attrs), AttrTexts(attrs), next)
    {
      hide Skip;
      var c := Peek(q);
      if c == NUL {
        errorId := Some(ParsingElement);
        return -1, false;
      }
      next, closed := EndOfTag(q);
      AttrsKept(attrs, q);
    }

    /** `>` or `/>`; anything else is an error. */
    method EndOfTag(q: nat) returns (next: int, closed: bool)
      requires Valid() && Unread(q) && q < |src| && errorId.None?
      modifies this`errorId
      ensures if src[q] == '>' then next == q + 1 && !closed && errorId.None?
              else if src[q] == '/' && At(src, q + 1) == '>' then next == q + 2 && closed && errorId.None?
              else next == -1 && errorId == Some(ParsingElement)
    {
      closed := false;
      var c := Peek(q);
      if c == '>' { return q + 1, false; }
      if c == '/' {
        var d := Peek(q + 1);
        if d == '>' { return q + 2, true; }
      }
      errorId := Some(ParsingElement);
      next := -1;
    }

    /** `Identify`. */
    method IdentifyAt(q: nat) returns (k: Kind)
      requires Valid() && Unread(q) && q < |src|
      ensures k == Identify(src, q)
    {
      hide StartsAt;
      var b := LooksAt(q, "<?");
      if b { return DeclarationKind; }
      b := LooksAt(q, "<!--");
      if b { return CommentKind; }
      b := LooksAt(q, "<![CDATA[");
      if b { return CDataKind; }
      b := LooksAt(q, "<!");
      if b { return UnknownKind; }
      b := LooksAt(q, "<");
      return if b then ElementKind else TextKind;
    }

    /** `ParseDeep` of texts, comments, declarations and unknowns. */
    method LeafParseDeep(p: nat, q: nat, k: Kind) returns (r: NodeResult)
      requires Valid() && Unread(p) && p <= q < |src| && StartsAt(src, q, k.Header()) && k != ElementKind
      modifies this`errorId
      ensures r == ParseLeaf(lx, src, p, q, k)
      ensures if r.Fail? then errorId == Some(r.error) else errorId == old(errorId)
    {
      hide FindTag, Kind.Leaf, Kind.Header, Kind.EndMark, Kind.ErrorId, Reader.Valid;
      var start := if k == TextKind then p else q + |k.Header()|;
      var end := ParseText(start, k.EndMark());
      if end < 0 {
        errorId := Some(k.ErrorId());
        return Fail(k.ErrorId());
      }
      var node := k.Leaf(Range(start, end));
      if k != TextKind { return Parsed(node, end + |k.EndMark()|); }
      var c := Peek(end + 1);
      if c == NUL {
        errorId := Some(Parsing);
        return Fail(Parsing);
      }
      return Parsed(node, end);
    }

    lemma {:induction false} AttrsKept(attrs: seq<Attr>, p: nat)
      requires AttrsIntact(attrs, p)
      ensures Kept(flushed, AttrRanges(attrs), AttrTexts(attrs), p)
      decreases attrs
    {
      if attrs == [] {
      } else {
        AttrsKept(attrs[1..], p);
        assert Intact(attrs[0].name) && Untouched(attrs[0].value);
      }
    }

    /** `XMLElement::ParseDeep`, from behind the `<`. */
    method ElementParseDeep(p: nat) returns (raw: Raw)
      requires Valid() && Unread(p) && errorId.None?
      modifies buf, this`flushed, this`errorId, this`parsingDepth
      ensures Valid() && parsingDepth == old(parsingDepth)
      ensures Settle(src, raw, errorId) == ParseElement(lx, src, p, parsingDepth)
      ensures raw.next >= 0 ==> RawState(old(flushed), p, raw)
      decreases buf.Length - p, 0
    {
      hide ParseName, ParseAttrs, ParseContent, Skip, AttrRanges, AttrTexts;
      var w := SkipWhiteSpace(p);
      var c := Peek(w);
      var closing, n := OpenTag, w;
      if c == '/' {
        closing, n := ClosingTag, w + 1;
      }
      var e := ParseNameAt(n);
      if e < 0 { return Raw(Range(0, 0), [], [], closing, None, -1); }
      var attrs, closed, next := ParseAttributes(e);
      if closed {
        closing := ClosedTag;
      }
      raw := Raw(Range(n, e), attrs, [], closing, None, next);
      if next < 0 { return; }
      NoRanges();
      if closing == OpenTag {
        raw := ContentParseDeep(raw, old(flushed), p);
      }
    }

    /** What is recorded between `p` and `raw.next` is intact. */
    ghost predicate RawState(before: set<nat>, p: nat, raw: Raw)
      reads this
    {
      && errorId.None? && 0 <= raw.next && Unread(raw.next) && Grown(before, flushed, p)
      && p <= raw.name.start < raw.name.end < raw.next
      && (raw.endTag.Some? ==> raw.name.end < raw.endTag.value.start && raw.endTag.value.end < raw.next)
      && Kept(flushed, RawRanges(raw), RawTexts(raw), raw.next)
    }

    /** The rest of `XMLElement::ParseDeep` once an open tag has been read. */
    method ContentParseDeep(tag: Raw, ghost before: set<nat>, ghost p: nat) returns (raw: Raw)
      requires Valid() && RawState(before, p, tag) && tag.closing == OpenTag && tag.endTag.None? && tag.kids == []
      modifies buf, this`flushed, this`errorId, this`parsingDepth
      ensures Valid() && parsingDepth == old(parsingDepth)
      ensures Settle(src, raw, errorId) == ParseContent(lx, src, tag.next, parsingDepth, tag.name, tag.attrs)
      ensures raw.next >= 0 ==> RawState(before, p, raw)
      decreases buf.Length - tag.next, 3
    {
      hide ParseNodes, AttrRanges, AllRanges, AttrTexts, AllTexts, Kept;
      var c := Peek(tag.next);
      if c == NUL { return tag; }
      ghost var mid := flushed;
      var kids, endTag, next := NodeParseDeep(tag.next, false);
      raw := tag.(kids := kids, endTag := endTag, next := next);
      if next >= 0 {
        KeptStable(mid, flushed, RawRanges(tag), RawTexts(tag), tag.next, next);
        KeptJoin(flushed, tag, raw);
      }
    }

    /** One turn of the loop in `XMLNode::ParseDeep`: a child, its end tag and its errors. */
    method ParseOne(p: nat, q: nat) returns (r: NodeResult)
      requires Valid() && Unread(p) && errorId.None? && p <= q < |src| && q == Skip(lx, src, p)
      modifies buf, this`flushed, this`errorId, this`parsingDepth
      ensures Valid() && parsingDepth == old(parsingDepth)
      ensures r == ParseNode(lx, src, p, q, parsingDepth)
      ensures if r.Fail? then errorId == Some(r.error) else errorId.None?
      ensures !r.Fail? ==> Unread(r.next) && Grown(old(flushed), flushed, p)
      ensures r.Parsed? ==> Kept(flushed, Ranges(r.node), Texts(r.node), r.next)
      ensures r.EndTag? ==> Kept(flushed, [r.name], [], r.next) && p < r.name.start && r.name.end < r.next
      decreases buf.Length - p, 1, 0
    {
      hide ParseElement, ParseLeaf, Skip, Identify, Kept;
      var k := IdentifyAt(q);
      if k == ElementKind {
        var raw := ElementParseDeep(q + 1);
        r := SettleElement(raw, old(flushed), q + 1);
      } else {
        r := LeafParseDeep(p, q, k);
        if r.Parsed? { LeafKept(lx, src, p, q, k, flushed); }
      }
    }

    /** The end tag handed up by a child is compared with the child's own name. */
    method SettleElement(raw: Raw, ghost before: set<nat>, ghost p: nat) returns (r: NodeResult)
      requires Valid() && p <= |src| && (raw.next >= 0 ==> RawState(before, p, raw))
      requires Settle(src, raw, errorId) == ParseElement(lx, src, p, parsingDepth)
      modifies buf, this`flushed, this`errorId
      ensures Valid() && r == Settle(src, raw, old(errorId))
      ensures if r.Fail? then errorId == Some(r.error) else errorId.None?
      ensures !r.Fail? ==> Unread(r.next) && Grown(before, flushed, p) && p <= raw.name.start && raw.name.end < r.next
      ensures r.Parsed? ==> Kept(flushed, Ranges(r.node), Texts(r.node), r.next)
      ensures r.EndTag? ==> Kept(flushed, [r.name], [], r.next)
    {
      hide AttrRanges, AllRanges, AttrTexts, AllTexts, ParseElement;
      if raw.next < 0 {
        if errorId.None? {
          errorId := Some(Parsing);
        }
        return Fail(errorId.value);
      }
      if raw.closing == ClosingTag { return EndTag(raw.name, raw.next); }
      var mismatch := raw.closing == OpenTag;
      ghost var mid := flushed;
      if raw.endTag.Some? {
        var same := CompareTags(raw, before, p);
        mismatch := raw.closing != OpenTag || !same;
      }
      if mismatch {
        errorId := Some(Mismatched);
        return Fail(Mismatched);
      }
      var close := if raw.endTag.Some? then Matched(raw.endTag.value) else SelfClosed;
      r := Parsed(Element(raw.name, raw.attrs, raw.kids, close), raw.next);
      ElementChain(lx, src, p, parsingDepth);
      KeptTags(mid, flushed, raw, r.node, p);
    }

    method CompareTags(raw: Raw, ghost before: set<nat>, ghost p: nat) returns (same: bool)
      requires Valid() && RawState(before, p, raw) && raw.endTag.Some?
      modifies buf, this`flushed
      ensures Valid() && Unread(raw.next) && Grown(before, flushed, p)
      ensures flushed == old(flushed) + {raw.endTag.value.end, raw.name.end}
      ensures same == (Slice(src, raw.endTag.value) == Slice(src, raw.name))
    {
      hide AttrRanges, AllRanges;
      assert raw.endTag.value in RawRanges(raw) && raw.name in RawRanges(raw);
      FlushName(raw.endTag.value, raw.next);
      FlushName(raw.name, raw.next);
      same := SameName(raw.endTag.value, raw.name);
    }

    /** `XMLNode::ParseDeep`: siblings up to the end of the input, an error or an end tag. */
    method NodeParseDeep(p0: nat, top: bool) returns (nodes: seq<Node>, endTag: Option<Range>, next: int)
      requires Valid() && Unread(p0) && errorId.None?
      modifies buf, this`flushed, this`errorId, this`parsingDepth
      ensures Valid() && parsingDepth == old(parsingDepth)
      ensures ListMatches(NodesBelow(lx, src, p0, parsingDepth, top), nodes, endTag, next, errorId)
      ensures errorId.None? ==> Grown(old(flushed), flushed, p0)
      ensures errorId.None? ==> Kept(flushed, AllRanges(nodes), AllTexts(nodes), |src|)
      ensures next >= 0 ==> Unread(next) && p0 < endTag.value.start && endTag.value.end < next
      ensures next >= 0 ==> Kept(flushed, AllRanges(nodes) + [endTag.value], AllTexts(nodes), next)
      decreases buf.Length - p0, 2
    {
      hide ParseNodes, AllRanges, AllTexts, Kept, Grown;
      parsingDepth := parsingDepth + 1;
      if parsingDepth == lx.maxDepth {
        errorId := Some(DepthExceeded);
        nodes, endTag, next := [], None, -1;
      } else {
        nodes, endTag, next := Siblings(p0, top);
      }
      parsingDepth := parsingDepth - 1;
    }

    /** The loop of `XMLNode::ParseDeep`. */
    method Siblings(p0: nat, top: bool) returns (nodes: seq<Node>, endTag: Option<Range>, next: int)
      requires Valid() && Unread(p0) && errorId.None?
      modifies buf, this`flushed, this`errorId, this`parsingDepth
      ensures Valid() && parsingDepth == old(parsingDepth)
      ensures ListMatches(ParseNodes(lx, src, p0, parsingDepth, top, []), nodes, endTag, next, errorId)
      ensures errorId.None? ==> Grown(old(flushed), flushed, p0)
      ensures errorId.None? ==> Kept(flushed, AllRanges(nodes), AllTexts(nodes), |src|)
      ensures next >= 0 ==> Unread(next) && p0 < endTag.value.start && endTag.value.end < next
      ensures next >= 0 ==> Kept(flushed, AllRanges(nodes) + [endTag.value], AllTexts(nodes), next)
      decreases buf.Length - p0, 1, 1
    {
      hide ParseNode, AllRanges, AllTexts, Kept, Skip, OnlyDeclarations, ParseNodes, Grown;
      assert buf.Length == |src| + 1;
      hide Reader.Valid;
      nodes, endTag, next := [], None, -1;
      var p := p0;
      KeptNone(flushed, p0);
      GrownNot(flushed, p0);
      while true
        invariant Valid() && Unread(p) && errorId.None? && p0 <= p && parsingDepth == old(parsingDepth)
        invariant endTag.None? && next == -1
        invariant ParseNodes(lx, src, p, parsingDepth, top, nodes) == ParseNodes(lx, src, p0, parsingDepth, top, [])
        invariant Grown(old(flushed), flushed, p0) && Kept(flushed, AllRanges(nodes), AllTexts(nodes), p)
        decreases buf.Length - p
      {
        var q := SkipWhiteSpace(p);
        UnfoldNodes(lx, src, p, parsingDepth, top, nodes);
        var c := Peek(q);
        if c == NUL { break; }
        ghost var mid := flushed;
        var r := ParseOne(p, q);
        if r.Fail? { break; }
        KeptStable(mid, flushed, AllRanges(nodes), AllTexts(nodes), p, r.next);
        GrownOn(old(flushed), mid, flushed, p0, p);
        if r.EndTag? {
          KeptAppend(flushed, AllRanges(nodes), AllTexts(nodes), [r.name], [], r.next);
          assert AllTexts(nodes) + [] == AllTexts(nodes);
          endTag, next := Some(r.name), r.next;
          break;
        }
        if r.node.Declaration? && !(top && OnlyDeclarations(nodes)) {
          errorId := Some(ParsingDeclaration);
          break;
        }
        KeptAppend(flushed, AllRanges(nodes), AllTexts(nodes), Ranges(r.node), Texts(r.node), r.next);
        AllRangesAppend(nodes, r.node);
        AllTextsAppend(nodes, r.node);
        nodes, p := nodes + [r.node], r.next;
      }
      if errorId.None? {
        GrownNot(flushed, if next >= 0 then next else p);
        KeptStable(flushed, flushed, AllRanges(nodes), AllTexts(nodes), if next >= 0 then next else p, |src|);
      }
    }

    /**
      `XMLDocument::Parse` on the buffer: the result of `XmlParser.Parse` on the given text, or its
      error.  Afterwards the text of every recorded range is still what was given, and what was
      written is terminators of names.
      */
    method Parse() returns (bom: bool, nodes: seq<Node>)
      requires Valid() && flushed == {} && errorId.None? && parsingDepth == 0
      modifies buf, this`flushed, this`errorId, this`parsingDepth
      ensures Valid() && parsingDepth == 0
      ensures match XmlParser.Parse(lx, src)
              case Failed(e) => errorId == Some(e) && nodes == []
              case Ok(doc) => errorId.None? && doc == Document(bom, nodes)
      ensures errorId.None? ==> Left(src, buf[..], flushed, nodes)
    {
      hide ParseNodes, AllRanges, AllTexts, Skip, StartsAt, Left, Kept;
      nodes := [];
      var w := SkipWhiteSpace(0);
      bom := LooksAt(w, BOM);
      var p := if bom then w + 3 else w;
      var c := PeekAfterMark(w, bom);
      if c == NUL {
        errorId := Some(EmptyDocument);
        return;
      }
      var endTag, next;
      nodes, endTag, next := NodeParseDeep(p, true);
      if errorId.Some? {
        nodes := [];
      } else {
        KeptLeaves(src, buf[..], flushed, nodes);
      }
    }

    method PeekAfterMark(w: nat, bom: bool) returns (c: char)
      requires Valid() && Unread(w) && bom == StartsAt(src, w, BOM)
      ensures var p := if bom then w + 3 else w; p <= |src| && Unread(p) && c == At(src, p)
    {
      c := Peek(if bom then w + 3 else w);
    }
  }

  ghost function NodesBelow(lx: Lexicon, s: string, p: nat, depth: nat, top: bool): ListResult
    requires p <= |s| && lx.Valid()
  {
    if depth + 1 == lx.maxDepth then Broken(DepthExceeded) else ParseNodes(lx, s, p, depth + 1, top, [])
  }

  predicate ListMatches(r: ListResult, nodes: seq<Node>, endTag: Option<Range>, next: int, error: Option<Error>) {
    match r
    case Broken(e) => next == -1 && error == Some(e)
    case Ended(ns) => next == -1 && error.None? && nodes == ns
    case Closed(ns, name, n) => next == n && error.None? && nodes == ns && endTag == Some(name)
  }

  lemma KeptNone(flushed: set<nat>, p: nat)
    ensures Kept(flushed, AllRanges([]), AllTexts([]), p)
  {
  }

  lemma KeptAppend(flushed: set<nat>, a: seq<Range>, at: seq<Range>, b: seq<Range>, bt: seq<Range>, p: nat)
    requires Kept(flushed, a, at, p) && Kept(flushed, b, bt, p)
    ensures Kept(flushed, a + b, at + bt, p)
  {
  }

  lemma KeptFlush(flushed: set<nat>, rs: seq<Range>, ts: seq<Range>, p: nat, lo: nat, hi: nat, i: nat)
    requires Kept(flushed, rs, ts, p) && Chain(rs, lo, hi) && i < |rs|
    requires forall t :: t in ts ==> t in rs[..i] || t in rs[i + 1..]
    ensures Kept(flushed + {rs[i].end}, rs, ts, p)
  {
    hide Chain;
    forall j | 0 <= j < |rs|
      ensures rs[i].end < rs[j].start || rs[j].end <= rs[i].end
    {
      if i < j {
        ChainSeparates(rs, lo, hi, i, j);
      } else if j < i {
        ChainSeparates(rs, lo, hi, j, i);
        ChainWithin(rs, lo, hi, i);
      }
    }
    forall t | t in ts
      ensures rs[i].end < t.start || t.end < rs[i].end
    {
      if t in rs[..i] {
        var j :| 0 <= j < i && rs[j] == t;
        ChainSeparates(rs, lo, hi, j, i);
        ChainWithin(rs, lo, hi, i);
      } else {
        var j :| i < j < |rs| && rs[j] == t;
        ChainSeparates(rs, lo, hi, i, j);
      }
    }
  }

  /** The texts of an element lie between its name and its end tag. */
  lemma TextsBetween(raw: Raw)
    requires raw.endTag.Some?
    ensures var rs := RawRanges(raw); forall t :: t in RawTexts(raw) ==> t in rs[1..] && t in rs[..|rs| - 1]
  {
    hide AttrRanges, AllRanges, AttrTexts, AllTexts;
    AttrTextsInside(raw.attrs);
    AllTextsInside(raw.kids);
    var rs := RawRanges(raw);
    assert rs[1..] == AttrRanges(raw.attrs) + AllRanges(raw.kids) + [raw.endTag.value];
    assert rs[..|rs| - 1] == [raw.name] + AttrRanges(raw.attrs) + AllRanges(raw.kids);
  }

  /** Flushing an element's name and its end tag leaves all its texts intact. */
  lemma KeptTags(before: set<nat>, after: set<nat>, raw: Raw, n: Node, lo: nat)
    requires raw.next >= 0 && n.Element? && n.name == raw.name && n.attrs == raw.attrs && n.kids == raw.kids
    requires n.close == if raw.endTag.Some? then Matched(raw.endTag.value) else SelfClosed
    requires Kept(before, RawRanges(raw), RawTexts(raw), raw.next) && Chain(Ranges(n), lo, raw.next)
    requires after == if raw.endTag.Some? then before + {raw.endTag.value.end, raw.name.end} else before
    ensures Kept(after, Ranges(n), Texts(n), raw.next)
  {
    hide Chain, Kept, AttrRanges, AllRanges, AttrTexts, AllTexts;
    var rs, ts := Ranges(n), Texts(n);
    assert rs == RawRanges(raw) && ts == RawTexts(raw);
    if raw.endTag.Some? {
      var k := |rs| - 1;
      TextsBetween(raw);
      KeptFlush(before, rs, ts, raw.next, lo, raw.next, k);
      KeptFlush(before + {rs[k].end}, rs, ts, raw.next, lo, raw.next, 0);
      assert after == before + {rs[k].end} + {rs[0].end};
    }
  }

  /** In document order; `[r.name] + attributes + children + end tag`. */
  function RawRanges(raw: Raw): seq<Range> {
    [raw.name] + AttrRanges(raw.attrs) + AllRanges(raw.kids) + (if raw.endTag.Some? then [raw.endTag.value] else [])
  }

  function RawTexts(raw: Raw): seq<Range> {
    AttrTexts(raw.attrs) + AllTexts(raw.kids)
  }

  lemma KeptJoin(flushed: set<nat>, tag: Raw, raw: Raw)
    requires raw == tag.(kids := raw.kids, endTag := raw.endTag, next := raw.next)
    requires tag.endTag.None? && raw.endTag.Some?
    requires raw.next >= 0 && Kept(flushed, RawRanges(tag), RawTexts(tag), raw.next)
    requires Kept(flushed, AllRanges(raw.kids) + [raw.endTag.value], AllTexts(raw.kids), raw.next)
    ensures Kept(flushed, RawRanges(raw), RawTexts(raw), raw.next)
  {
    hide AttrRanges, AllRanges, AttrTexts, AllTexts;
  }

  lemma LeafKept(lx: Lexicon, s: string, p: nat, q: nat, k: Kind, flushed: set<nat>)
    requires p <= q < |s| && StartsAt(s, q, k.Header()) && k != ElementKind && ParseLeaf(lx, s, p, q, k).Parsed?
    requires forall f :: f in flushed ==> f < p
    ensures var r := ParseLeaf(lx, s, p, q, k); Kept(flushed, Ranges(r.node), Texts(r.node), r.next)
  {
    hide FindTag;
  }

  predicate TagMatches(r: TagResult, attrs: seq<Attr>, closed: bool, next: int, error: Option<Error>) {
    match r
    case TagFail(e) => next == -1 && error == Some(e)
    case TagOpen(a, n) => next == n && attrs == a && !closed && error.None?
    case TagClosed(a, n) => next == n && attrs == a && closed && error.None?
  }

  /** What one round contributes to the list. */
  ghost function ListStep(lx: Lexicon, s: string, depth: nat, top: bool, nodes: seq<Node>, r: NodeResult): ListResult
    requires lx.Valid() && (r.Parsed? ==> r.next <= |s|)
  {
    if r.Fail? then Broken(r.error)
    else if r.EndTag? then Closed(nodes, r.name, r.next)
    else if r.node.Declaration? && !(top && OnlyDeclarations(nodes)) then Broken(ParsingDeclaration)
    else ParseNodes(lx, s, r.next, depth, top, nodes + [r.node])
  }

  lemma UnfoldNodes(lx: Lexicon, s: string, p: nat, depth: nat, top: bool, nodes: seq<Node>)
    requires p <= |s| && lx.Valid()
    ensures var q := Skip(lx, s, p);
            ParseNodes(lx, s, p, depth, top, nodes) ==
            if At(s, q) == NUL then Ended(nodes)
            else ListStep(lx, s, depth, top, nodes, ParseNode(lx, s, p, q, depth))
  {
  }

  lemma FailedTag(e: Error, attrs: seq<Attr>)
    ensures TagMatches(TagFail(e), attrs, false, -1, Some(e))
  {
  }

  lemma AttrShape(lx: Lexicon, s: string, p: nat)
    requires p <= |s| && ParseAttr(lx, s, p).GotAttr?
    ensures var r := ParseAttr(lx, s, p);
            && r.attr.name.start == p && p < r.attr.name.end < r.attr.value.start
            && r.attr.value.start <= r.attr.value.end < r.next
  {
  }
}
