/**
  Parsing what the printer emits, compact or indented, gives back the normal form of the tree.
  */
module XmlRoundTrip {
  import opened Collections
  import opened XmlChars
  import opened XmlTree
  import opened XmlPrinter
  import opened XmlNormal
  import P = XmlParser
  import StrPair
  import opened Escaping

  // ----- finding what was printed -----

  /** The last character of a mark occurs nowhere else in it. */
  predicate LastUnique(tag: string) {
    && tag != "" && Free(tag, NUL)
    && forall o :: 0 <= o < |tag| - 1 ==> tag[o] != tag[|tag| - 1]
  }

  lemma MatchInside(s: string, p: nat, v: string, tag: string, j: nat)
    requires StartsAt(s, p, v) && j + |tag| <= |v| && StartsAt(s, p + j, tag)
    ensures StartsAt(v, j, tag)
  {
    forall k | 0 <= k < |tag|
      ensures v[j + k] == tag[k]
    {
      StartsAtIndex(s, p, v, j + k);
      StartsAtIndex(s, p + j, tag, k);
    }
    assert v[j..j + |tag|] == tag;
  }

  lemma Differs(s: string, q: nat, mark: string, k: nat)
    requires k < |mark| && At(s, q + k) != mark[k]
    ensures !StartsAt(s, q, mark)
  {
    if StartsAt(s, q, mark) {
      StartsAtIndex(s, q, mark, k);
    }
  }

  lemma NoEarlierMatch(s: string, p: nat, v: string, tag: string, j: nat)
    requires StartsAt(s, p, v) && StartsAt(s, p + |v|, tag) && !Contains(v, tag) && LastUnique(tag) && j < |v|
    ensures !StartsAt(s, p + j, tag)
  {
    if j + |tag| <= |v| {
      if StartsAt(s, p + j, tag) {
        MatchInside(s, p, v, tag, j);
      }
    } else {
      StartsAtIndex(s, p + |v|, tag, j + |tag| - 1 - |v|);
      Differs(s, p + j, tag, |tag| - 1);
    }
  }

  lemma {:induction false} FindFrom(s: string, i: nat, k: nat, tag: string)
    requires i <= k && StartsAt(s, k, tag) && At(s, k) != NUL
    requires forall j :: i <= j < k ==> s[j] != NUL && !StartsAt(s, j, tag)
    ensures P.FindTag(s, i, tag) == Some(k)
    decreases k - i
  {
    hide StartsAt;
    if i == k {
    } else {
      FindFrom(s, i + 1, k, tag);
    }
  }

  lemma Finds(s: string, p: nat, v: string, tag: string)
    requires StartsAt(s, p, v + tag) && !Contains(v, tag) && LastUnique(tag) && Free(v, NUL)
    ensures P.FindTag(s, p, tag) == Some(p + |v|)
    ensures P.Slice(s, P.Range(p, p + |v|)) == v
  {
    hide P.FindTag, Contains;
    StartsAtConcat(s, p, v, tag);
    StartsAtIndex(s, p + |v|, tag, 0);
    forall i | p <= i < p + |v|
      ensures s[i] != NUL && !StartsAt(s, i, tag)
    {
      StartsAtIndex(s, p, v, i - p);
      NoEarlierMatch(s, p, v, tag, i - p);
    }
    FindFrom(s, p, p + |v|, tag);
  }

  lemma FreeNotContained(v: string, c: char)
    requires Free(v, c)
    ensures !Contains(v, [c])
  {
    forall j | 0 <= j < |v| && StartsAt(v, j, [c])
      ensures false
    {
      StartsAtIndex(v, j, [c], 0);
    }
  }

  lemma {:induction false} SkipsBlank(lx: P.Lexicon, s: string, p: nat, run: string, j: nat)
    requires StartsAt(s, p, run) && Blank(lx, run) && j <= |run|
    requires p + |run| == |s| || !lx.isSpace(s[p + |run|])
    ensures P.Skip(lx, s, p + j) == p + |run|
    decreases |run| - j
  {
    if j == |run| {
    } else {
      StartsAtIndex(s, p, run, j);
      SkipsBlank(lx, s, p, run, j + 1);
    }
  }

  lemma {:induction false} NameEndAt(lx: P.Lexicon, s: string, p: nat, n: string, j: nat)
    requires lx.Valid() && StartsAt(s, p, n) && ValidName(lx, n) && 1 <= j <= |n|
    requires !lx.isName(At(s, p + |n|))
    ensures P.NameEnd(lx, s, p + j) == p + |n|
    decreases |n| - j
  {
    if j == |n| {
    } else {
      StartsAtIndex(s, p, n, j);
      NameEndAt(lx, s, p, n, j + 1);
    }
  }

  lemma NameStarts(lx: P.Lexicon, s: string, p: nat, n: string)
    requires StartsAt(s, p, n) && ValidName(lx, n)
    ensures p < |s| && lx.isNameStart(s[p])
  {
    StartsAtIndex(s, p, n, 0);
  }

  lemma NameParses(lx: P.Lexicon, s: string, p: nat, n: string)
    requires lx.Valid() && StartsAt(s, p, n) && ValidName(lx, n) && !lx.isName(At(s, p + |n|))
    ensures P.ParseName(lx, s, p) == Some(p + |n|)
    ensures P.Slice(s, P.Range(p, p + |n|)) == n
  {
    StartsAtIndex(s, p, n, 0);
    NameEndAt(lx, s, p, n, 1);
  }

  // ----- attributes -----

  lemma AttrLayout(s: string, p: nat, a: Attribute)
    requires StartsAt(s, p, PrintAttr(a))
    ensures var eq := p + 1 + |a.name|;
            && At(s, p) == ' ' && StartsAt(s, p + 1, a.name)
            && At(s, eq) == '=' && At(s, eq + 1) == '\"'
            && StartsAt(s, eq + 2, Escape(a.value, true) + "\"")
            && |PrintAttr(a)| == 1 + |a.name| + 2 + |Escape(a.value, true)| + 1
  {
    hide Escape;
    StartsAtConcat(s, p, " " + a.name + "=\"", Escape(a.value, true) + "\"");
    StartsAtConcat(s, p, " " + a.name, "=\"");
    StartsAtConcat(s, p, " ", a.name);
    StartsAtIndex(s, p, " ", 0);
    StartsAtIndex(s, p + 1 + |a.name|, "=\"", 0);
    StartsAtIndex(s, p + 1 + |a.name|, "=\"", 1);
  }

  lemma AttrParses(lx: P.Lexicon, s: string, p: nat, a: Attribute) returns (r: P.Attr)
    requires lx.Valid() && StartsAt(s, p, PrintAttr(a)) && ValidName(lx, a.name) && Clean(a.value)
    ensures P.Skip(lx, s, p) == p + 1 && lx.isNameStart(At(s, p + 1))
    ensures P.ParseAttr(lx, s, p + 1) == P.GotAttr(r, p + |PrintAttr(a)|)
    ensures P.Slice(s, r.name) == a.name && StrPair.Decode(P.Slice(s, r.value), StrPair.TEXT) == a.value
  {
    hide PrintAttr, StrPair.Decode, Escape, P.Slice, P.ParseName, P.FindTag, ValidName, Contains, StartsAt;
    var e := Escape(a.value, true);
    var eq := p + 1 + |a.name|;
    AttrLayout(s, p, a);
    NameStarts(lx, s, p + 1, a.name);
    NameParses(lx, s, p + 1, a.name);
    EscapeAvoids(a.value, true);
    EscapeNulFree(a.value, true);
    FreeNotContained(e, '\"');
    Finds(s, eq + 2, e, "\"");
    DecodeEscape(a.value, true);
    r := P.Attr(P.Range(p + 1, eq), P.Range(eq + 2, eq + 2 + |e|));
    assert P.Skip(lx, s, eq) == eq && P.Skip(lx, s, eq + 1) == eq + 1;
  }

  lemma {:induction false} AttrsParse(lx: P.Lexicon, s: string, p: nat, attrs: seq<Attribute>, done: seq<P.Attr>)
    returns (r: seq<P.Attr>)
    requires lx.Valid() && StartsAt(s, p, PrintAttrs(attrs)) && PrintableAttrs(lx, ReadAttrs(s, done) + attrs)
    ensures P.ParseAttrs(lx, s, p, done) == P.ParseAttrs(lx, s, p + |PrintAttrs(attrs)|, r)
    ensures ReadAttrs(s, r) == ReadAttrs(s, done) + attrs
    decreases attrs
  {
    hide PrintAttr, ReadAttrs, P.ParseAttr, P.Slice, StrPair.Decode, StartsAt, P.HasName, P.Skip;
    r := done;
    if attrs == [] {
    } else {
      StartsAtConcat(s, p, PrintAttr(attrs[0]), PrintAttrs(attrs[1..]));
      assert (ReadAttrs(s, done) + attrs)[|ReadAttrs(s, done)|] == attrs[0];
      var a := AttrParses(lx, s, p, attrs[0]);
      ReadAttrsAppend(s, done, a);
      assert ReadAttrs(s, done) + attrs == ReadAttrs(s, done + [a]) + attrs[1..];
      NewName(lx, s, done, attrs, a);
      r := AttrsParse(lx, s, p + |PrintAttr(attrs[0])|, attrs[1..], done + [a]);
    }
  }

  lemma NewName(lx: P.Lexicon, s: string, done: seq<P.Attr>, attrs: seq<Attribute>, a: P.Attr)
    requires PrintableAttrs(lx, ReadAttrs(s, done) + attrs) && attrs != [] && P.Slice(s, a.name) == attrs[0].name
    ensures !P.HasName(s, done, a.name)
  {
    hide P.Slice, StrPair.Decode;
    var all := ReadAttrs(s, done) + attrs;
    forall i | 0 <= i < |done|
      ensures P.Slice(s, done[i].name) != P.Slice(s, a.name)
    {
      ReadAttrsAt(s, done, i);
      assert all[i].name != all[|ReadAttrs(s, done)|].name;
    }
  }

  lemma {:induction false} ReadAttrsAt(s: string, attrs: seq<P.Attr>, i: nat)
    requires i < |attrs|
    ensures |ReadAttrs(s, attrs)| == |attrs| && ReadAttrs(s, attrs)[i].name == P.Slice(s, attrs[i].name)
  {
    hide P.Slice, StrPair.Decode;
    if |attrs| <= 1 {
    } else {
      ReadAttrsAt(s, attrs[1..], if i > 0 then i - 1 else 0);
    }
  }

  // ----- leaves -----

  /** The kind a leaf is recognised as. */
  function KindOf(t: Tree): P.Kind
    requires !t.Element? && !PlainText(t)
  {
    match t
    case Text(_, _) => P.CDataKind
    case Comment(_) => P.CommentKind
    case Declaration(_) => P.DeclarationKind
    case Unknown(_) => P.UnknownKind
  }

  lemma LeafLayout(s: string, q: nat, t: Tree)
    requires !t.Element? && !PlainText(t) && StartsAt(s, q, Leaf(t))
    ensures var k := KindOf(t);
            && StartsAt(s, q, k.Header()) && StartsAt(s, q + |k.Header()|, t.value + k.EndMark())
            && |Leaf(t)| == |k.Header()| + |t.value| + |k.EndMark()|
  {
    var k := KindOf(t);
    assert Leaf(t) == k.Header() + t.value + k.EndMark();
    StartsAtConcat(s, q, k.Header() + t.value, k.EndMark());
    StartsAtConcat(s, q, k.Header(), t.value);
    StartsAtConcat(s, q + |k.Header()|, t.value, k.EndMark());
  }

  /** A mark other than that of an unknown is recognised by its second and third character. */
  lemma MarkIdentified(s: string, q: nat, k: P.Kind)
    requires k in {P.DeclarationKind, P.CommentKind, P.CDataKind} && StartsAt(s, q, k.Header())
    ensures q < |s| && s[q] == '<' && P.Identify(s, q) == k
  {
    hide StartsAt;
    var h := k.Header();
    StartsAtIndex(s, q, h, 0);
    StartsAtIndex(s, q, h, 1);
    if k != P.DeclarationKind {
      StartsAtIndex(s, q, h, 2);
      Differs(s, q, "<?", 1);
      if k == P.CDataKind {
        Differs(s, q, "<!--", 2);
      }
    }
  }

  lemma LeafIdentified(lx: P.Lexicon, s: string, q: nat, t: Tree)
    requires !t.Element? && !PlainText(t) && StartsAt(s, q, Leaf(t)) && Printable(lx, t)
    ensures q < |s| && s[q] == '<' && P.Identify(s, q) == KindOf(t)
  {
    hide StartsAt, Leaf, P.Identify;
    LeafLayout(s, q, t);
    if t.Unknown? {
      StartsAtIndex(s, q, "<!", 0);
      UnknownIdentified(s, q, t.value);
    } else {
      MarkIdentified(s, q, KindOf(t));
    }
  }

  lemma UnknownIdentified(s: string, q: nat, v: string)
    requires StartsAt(s, q, "<!") && StartsAt(s, q + 2, v + ">")
    requires !StartsAt(v, 0, "--") && !StartsAt(v, 0, "[CDATA[")
    ensures P.Identify(s, q) == P.UnknownKind
  {
    StartsAtIndex(s, q, "<!", 1);
    NotMark(s, q, v, "--");
    NotMark(s, q, v, "[CDATA[");
    assert "<!" + "--" == "<!--" && "<!" + "[CDATA[" == "<![CDATA[";
  }

  lemma NotMark(s: string, q: nat, v: string, mark: string)
    requires StartsAt(s, q + 2, v + ">") && !StartsAt(v, 0, mark) && Free(mark, '>') && mark != ""
    ensures !StartsAt(s, q, "<!" + mark)
  {
    if StartsAt(s, q, "<!" + mark) {
      StartsAtConcat(s, q, "<!", mark);
      StartsAtConcat(s, q + 2, v, ">");
      if |mark| > |v| {
        StartsAtIndex(s, q + 2 + |v|, ">", 0);
        StartsAtIndex(s, q + 2, mark, |v|);
      }
    }
  }

  lemma LeafParses(lx: P.Lexicon, s: string, q: nat, depth: nat, t: Tree) returns (n: P.Node)
    requires lx.Valid() && !t.Element? && !PlainText(t) && StartsAt(s, q, Leaf(t)) && Printable(lx, t)
    ensures q < |s| && P.Skip(lx, s, q) == q
    ensures P.ParseNode(lx, s, q, q, depth) == P.Parsed(n, q + |Leaf(t)|)
    ensures Read(s, n) == t
  {
    hide StrPair.Decode, Contains, P.Slice, P.FindTag, P.Identify, Leaf;
    LeafIdentified(lx, s, q, t);
    LeafLayout(s, q, t);
    var k := KindOf(t);
    var start := q + |k.Header()|;
    Finds(s, start, t.value, k.EndMark());
    DecodeMarkup(t.value);
    n := k.Leaf(P.Range(start, start + |t.value|));
  }

  // ----- siblings -----

  /** What is printed of a node other than plain text, without whitespace around it. */
  function Core(compact: bool, st: PState, t: Tree): string {
    if t.Element? then
      var body := PrintAll(compact, Inside(compact, st), t.kids);
      StartTag(t.name, t.attrs) +
        (if t.kids == [] then "/>" else ">" + body.text + Closing(compact, body.st, st.depth, t.name))
    else Leaf(t)
  }

  function Inside(compact: bool, st: PState): PState {
    Led(compact, st).(depth := st.depth + 1)
  }

  function Closing(compact: bool, inner: PState, depth: nat, name: string): string {
    CloseLead(compact, inner.textDepth, depth) + EndTag(name)
  }

  function LeadOf(compact: bool, st: PState, t: Tree): string {
    if t.Text? then "" else Lead(compact, st)
  }

  function TailOf(compact: bool, st: PState, t: Tree): string {
    if t.Element? then Tail(compact, st.depth) else ""
  }

  lemma PrintSplits(compact: bool, st: PState, t: Tree)
    ensures PrintTree(compact, st, t).text == LeadOf(compact, st, t) + Core(compact, st, t) + TailOf(compact, st, t)
  {
    hide PrintAll, Lead, Leaf, StartTag, CloseLead, EndTag, Tail;
    if t.Element? {
      var body := PrintAll(compact, Inside(compact, st), t.kids);
      var lead, start, tail := Lead(compact, st), StartTag(t.name, t.attrs), Tail(compact, st.depth);
      if t.kids == [] {
        PrintNone(compact, Inside(compact, st));
        assert lead + start + ("" + "" + ("/>" + tail)) == lead + (start + "/>") + tail;
      } else {
        var shut := Closing(compact, body.st, st.depth, t.name);
        assert lead + start + (">" + body.text + (shut + tail)) == lead + (start + (">" + body.text + shut)) + tail;
      }
    }
  }

  lemma {:induction false} IndentBlank(lx: P.Lexicon, depth: nat)
    requires lx.Valid()
    ensures Blank(lx, Indent(depth))
  {
    if depth == 0 {
    } else {
      IndentBlank(lx, depth - 1);
    }
  }

  lemma SpacingBlank(lx: P.Lexicon, compact: bool, st: PState, t: Tree)
    requires lx.Valid()
    ensures Blank(lx, LeadOf(compact, st, t)) && Blank(lx, TailOf(compact, st, t))
  {
    IndentBlank(lx, st.depth);
  }

  /** Blank text is not affected by escaping. */
  lemma {:induction false} EscapeBlank(lx: P.Lexicon, run: string)
    requires lx.Valid() && Blank(lx, run)
    ensures Escape(run, false) == run
  {
    if run == "" {
    } else {
      assert lx.isSpace(run[0]);
      EscapeBlank(lx, run[1..]);
      assert [run[0]] + run[1..] == run;
    }
  }

  lemma MarkupNode(lx: P.Lexicon, s: string, p: nat, q: nat, depth: nat)
    requires lx.Valid() && p <= q < |s| && q == P.Skip(lx, s, p) == P.Skip(lx, s, q) && s[q] == '<'
    ensures P.ParseNode(lx, s, p, q, depth) == P.ParseNode(lx, s, q, q, depth)
  {
    hide P.ParseElement, P.FindTag, P.Identify, P.Skip;
  }

  /** Blanks before a `<` are skipped. */
  lemma SkipBlanks(lx: P.Lexicon, s: string, p: nat, run: string, depth: nat, top: bool, acc: seq<P.Node>)
    requires lx.Valid() && StartsAt(s, p, run) && Blank(lx, run) && At(s, p + |run|) == '<'
    ensures P.ParseNodes(lx, s, p, depth, top, acc) == P.ParseNodes(lx, s, p + |run|, depth, top, acc)
  {
    hide P.ParseNode;
    var q := p + |run|;
    SkipsBlank(lx, s, p, run, 0);
    assert P.Skip(lx, s, q) == q;
    MarkupNode(lx, s, p, q, depth);
  }

  lemma {:induction false} EscapeNotBlank(lx: P.Lexicon, run: string) returns (i: nat)
    requires lx.Valid() && !Blank(lx, run)
    ensures i < |Escape(run, false)| && !lx.isSpace(Escape(run, false)[i])
  {
    hide Escape;
    var rest := run[1..];
    EscapeConcat([run[0]], rest, false);
    assert [run[0]] + rest == run;
    EscapeSingle(run[0], false);
    var e := EscapeChar(run[0], false);
    if !lx.isSpace(run[0]) {
      i := 0;
      assert Escape(run, false)[0] == e[0];
    } else {
      assert !Blank(lx, rest);
      var j := EscapeNotBlank(lx, rest);
      i := |e| + j;
    }
  }

  /** A run of text up to the next `<` becomes one text node, spaces included. */
  lemma TextParses(lx: P.Lexicon, s: string, p: nat, run: string, depth: nat, top: bool, acc: seq<P.Node>)
    returns (n: P.Node)
    requires lx.Valid() && StartsAt(s, p, Escape(run, false) + "<") && !Blank(lx, run) && Clean(run)
    requires At(s, p + |Escape(run, false)| + 1) != NUL
    ensures P.ParseNodes(lx, s, p, depth, top, acc)
         == P.ParseNodes(lx, s, p + |Escape(run, false)|, depth, top, acc + [n])
    ensures Read(s, n) == Text(run, false)
  {
    hide Escape, P.FindTag, StrPair.Decode, Blank, Clean, P.ParseNode, P.ParseNodes, Read;
    var e := Escape(run, false);
    StartsAtConcat(s, p, e, "<");
    var q := TextStart(lx, s, p, run);
    FindsText(s, p, run);
    n := P.Text(P.Range(p, p + |e|), false);
    ReadsText(s, p, run);
    TextNode(lx, s, p, q, depth, p + |e|);
    NodeStep(lx, s, p, q, depth, top, acc, n, p + |e|);
  }

  lemma FindsText(s: string, p: nat, run: string)
    requires StartsAt(s, p, Escape(run, false) + "<") && Clean(run)
    ensures P.FindTag(s, p, "<") == Some(p + |Escape(run, false)|)
  {
    hide Escape, Contains, P.FindTag;
    var e := Escape(run, false);
    StartsAtConcat(s, p, e, "<");
    FreeNotContained(e, '<') by { EscapeAvoids(run, false); }
    EscapeNulFree(run, false);
    Finds(s, p, e, "<");
  }

  lemma ReadsText(s: string, p: nat, run: string)
    requires StartsAt(s, p, Escape(run, false)) && Clean(run)
    ensures Read(s, P.Text(P.Range(p, p + |Escape(run, false)|), false)) == Text(run, false)
  {
    hide Escape, StrPair.Decode;
    DecodeEscape(run, false);
  }

  lemma TextNode(lx: P.Lexicon, s: string, p: nat, q: nat, depth: nat, end: nat)
    requires lx.Valid() && p <= q < |s| && q == P.Skip(lx, s, p) && s[q] != '<'
    requires P.FindTag(s, p, "<") == Some(end) && At(s, end + 1) != NUL
    ensures P.ParseNode(lx, s, p, q, depth) == P.Parsed(P.Text(P.Range(p, end), false), end)
  {
    hide P.FindTag, P.ParseElement, P.Skip;
  }

  lemma NodeStep(lx: P.Lexicon, s: string, p: nat, q: nat, depth: nat, top: bool, acc: seq<P.Node>, n: P.Node,
                 next: nat)
    requires lx.Valid() && p <= q < |s| && q == P.Skip(lx, s, p) && s[q] != NUL
    requires P.ParseNode(lx, s, p, q, depth) == P.Parsed(n, next)
    requires n.Declaration? ==> top && P.OnlyDeclarations(acc)
    ensures P.ParseNodes(lx, s, p, depth, top, acc) == P.ParseNodes(lx, s, next, depth, top, acc + [n])
  {
    hide P.ParseNode, P.Skip;
  }

  lemma TextStart(lx: P.Lexicon, s: string, p: nat, run: string) returns (q: nat)
    requires lx.Valid() && StartsAt(s, p, Escape(run, false)) && !Blank(lx, run) && Clean(run)
    ensures q == P.Skip(lx, s, p) && q < |s| && s[q] != '<' && s[q] != NUL
  {
    hide Escape, Blank;
    var e := Escape(run, false);
    q := P.Skip(lx, s, p);
    var i := EscapeNotBlank(lx, run);
    StartsAtIndex(s, p, e, i);
    EscapeAvoids(run, false);
    EscapeNulFree(run, false);
    StartsAtIndex(s, p, e, q - p);
  }

  // ----- tags -----

  lemma TagIdentified(lx: P.Lexicon, s: string, q: nat)
    requires lx.Valid() && q + 1 < |s| && s[q] == '<' && s[q + 1] != '!' && s[q + 1] != '?'
    ensures P.Identify(s, q) == P.ElementKind
  {
    assert s[q..q + 1] == "<";
    if StartsAt(s, q, "<?") { StartsAtIndex(s, q, "<?", 1); }
    if StartsAt(s, q, "<!") { StartsAtIndex(s, q, "<!", 1); }
    if StartsAt(s, q, "<!--") { StartsAtIndex(s, q, "<!--", 1); }
    if StartsAt(s, q, "<![CDATA[") { StartsAtIndex(s, q, "<![CDATA[", 1); }
  }

  lemma EndTagLayout(s: string, q: nat, name: string)
    requires StartsAt(s, q, EndTag(name))
    ensures At(s, q) == '<' && At(s, q + 1) == '/' && StartsAt(s, q + 2, name) && At(s, q + 2 + |name|) == '>'
  {
    StartsAtConcat(s, q, "</" + name, ">");
    StartsAtConcat(s, q, "</", name);
    StartsAtIndex(s, q, "</", 0);
    StartsAtIndex(s, q, "</", 1);
    StartsAtIndex(s, q + 2 + |name|, ">", 0);
  }

  lemma EndTagParses(lx: P.Lexicon, s: string, q: nat, name: string, depth: nat, top: bool, acc: seq<P.Node>)
    requires lx.Valid() && StartsAt(s, q, EndTag(name)) && ValidName(lx, name)
    ensures P.ParseNodes(lx, s, q, depth, top, acc)
         == P.Closed(acc, P.Range(q + 2, q + 2 + |name|), q + |EndTag(name)|)
    ensures P.Slice(s, P.Range(q + 2, q + 2 + |name|)) == name
  {
    hide P.ParseElement, P.Slice, P.Identify, EndTag;
    EndTagLayout(s, q, name);
    TagIdentified(lx, s, q);
    EndTagElement(lx, s, q, name, depth);
    assert P.Skip(lx, s, q) == q;
  }

  lemma EndTagElement(lx: P.Lexicon, s: string, q: nat, name: string, depth: nat)
    requires lx.Valid() && StartsAt(s, q, EndTag(name)) && ValidName(lx, name)
    ensures P.ParseElement(lx, s, q + 1, depth) == P.EndTag(P.Range(q + 2, q + 2 + |name|), q + |EndTag(name)|)
    ensures P.Slice(s, P.Range(q + 2, q + 2 + |name|)) == name
  {
    hide P.ParseName, P.ParseContent, P.Slice, P.ParseAttr;
    EndTagLayout(s, q, name);
    NameParses(lx, s, q + 2, name);
    var e := q + 2 + |name|;
    assert P.Skip(lx, s, q + 1) == q + 1 && P.Skip(lx, s, e) == e;
  }

  /** Behind a start tag: its attributes are read, and `>` or `/>` ends it. */
  lemma StartTagParses(lx: P.Lexicon, s: string, q: nat, name: string, attrs: seq<Attribute>, end: string)
    returns (r: seq<P.Attr>)
    requires lx.Valid() && StartsAt(s, q, StartTag(name, attrs) + end) && (end == ">" || end == "/>")
    requires ValidName(lx, name) && PrintableAttrs(lx, attrs)
    ensures var e, next := q + 1 + |name|, q + |StartTag(name, attrs)| + |end|;
            && At(s, q) == '<' && P.Skip(lx, s, q + 1) == q + 1 && lx.isNameStart(At(s, q + 1))
            && P.ParseName(lx, s, q + 1) == Some(e) && P.Slice(s, P.Range(q + 1, e)) == name
            && P.ParseAttrs(lx, s, e, []) == (if end == ">" then P.TagOpen(r, next) else P.TagClosed(r, next))
    ensures ReadAttrs(s, r) == attrs
  {
    hide P.ParseName, P.Slice, P.ParseAttr, ReadAttrs, PrintAttrs, StartsAt, P.HasName, PrintableAttrs, ValidName;
    var e, f := q + 1 + |name|, q + |StartTag(name, attrs)|;
    StartTagLayout(s, q, name, attrs, end);
    NameStarts(lx, s, q + 1, name);
    NameParses(lx, s, q + 1, name);
    assert ReadAttrs(s, []) + attrs == attrs by { NoAttrs(s); }
    r := AttrsParse(lx, s, e, attrs, []);
    assert P.Skip(lx, s, f) == f;
  }

  lemma NoAttrs(s: string)
    ensures ReadAttrs(s, []) == []
  {
  }

  lemma StartTagLayout(s: string, q: nat, name: string, attrs: seq<Attribute>, end: string)
    requires StartsAt(s, q, StartTag(name, attrs) + end) && (end == ">" || end == "/>")
    ensures var e, f := q + 1 + |name|, q + |StartTag(name, attrs)|;
            && At(s, q) == '<' && StartsAt(s, q + 1, name) && StartsAt(s, e, PrintAttrs(attrs))
            && f == e + |PrintAttrs(attrs)| && At(s, f) == end[0] && (end == "/>" ==> At(s, f + 1) == '>')
            && At(s, e) in {' ', '>', '/'}
  {
    hide PrintAttr, PrintAttrs, StartsAt;
    var e, f := q + 1 + |name|, q + |StartTag(name, attrs)|;
    StartsAtConcat(s, q, StartTag(name, attrs), end);
    StartsAtConcat(s, q, "<" + name, PrintAttrs(attrs));
    StartsAtConcat(s, q, "<", name);
    StartsAtIndex(s, q, "<", 0);
    StartsAtIndex(s, f, end, 0);
    if end == "/>" { StartsAtIndex(s, f, end, 1); }
    BehindName(s, e, attrs);
  }

  lemma BehindName(s: string, e: nat, attrs: seq<Attribute>)
    requires StartsAt(s, e, PrintAttrs(attrs)) && At(s, e + |PrintAttrs(attrs)|) in {'>', '/'}
    ensures At(s, e) in {' ', '>', '/'}
  {
    hide PrintAttr;
    if attrs != [] {
      StartsAtConcat(s, e, PrintAttr(attrs[0]), PrintAttrs(attrs[1..]));
      AttrLayout(s, e, attrs[0]);
    }
  }

  // ----- pending text before a tag -----

  predicate TagLike(core: string) {
    |core| >= 2 && core[0] == '<' && core[1] != NUL
  }

  lemma Pending(lx: P.Lexicon, s: string, p: nat, run: string, lead: string, core: string,
                depth: nat, top: bool, acc: seq<P.Node>)
    returns (acc': seq<P.Node>, q: nat)
    requires lx.Valid() && StartsAt(s, p, Escape(run, false) + (lead + core)) && TagLike(core)
    requires Blank(lx, lead) && (!Blank(lx, run) ==> lead == "") && Clean(run)
    ensures q == p + |Escape(run, false)| + |lead| && StartsAt(s, q, core)
    ensures P.ParseNodes(lx, s, p, depth, top, acc) == P.ParseNodes(lx, s, q, depth, top, acc')
    ensures ReadAll(s, acc') == ReadAll(s, acc) + Flush(lx, run)
    ensures Blank(lx, run) ==> acc' == acc
  {
    hide P.ParseNodes, Escape, ReadAll, Read;
    var e := Escape(run, false);
    q := p + |e| + |lead|;
    StartsAtConcat(s, p, e, lead + core);
    StartsAtConcat(s, p + |e|, lead, core);
    StartsAtIndex(s, q, core, 0);
    StartsAtIndex(s, q, core, 1);
    if Blank(lx, run) {
      EscapeBlank(lx, run);
      StartsAtConcat(s, p, run, lead);
      SkipBlanks(lx, s, p, run + lead, depth, top, acc);
      acc' := acc;
    } else {
      assert s[q..q + 1] == "<";
      StartsAtConcat(s, p, e, "<");
      var n := TextParses(lx, s, p, run, depth, top, acc);
      ReadAllAppend(s, acc, n);
      acc' := acc + [n];
    }
  }

  // ----- whole trees -----

  /** Where a list of siblings may stand: only the document holds declarations, it holds no plain text. */
  predicate Placed(ts: seq<Tree>, top: bool, acc: seq<P.Node>) {
    if top then
      && Leading(ts, (t: Tree) => t.Declaration?) && (forall i :: 0 <= i < |ts| ==> !PlainText(ts[i]))
      && (ts != [] && ts[0].Declaration? ==> P.OnlyDeclarations(acc))
    else forall i :: 0 <= i < |ts| ==> !ts[i].Declaration?
  }

  /** Below an element the printer is past its first tag. */
  predicate StateOk(compact: bool, st: PState, top: bool) {
    top || (st.depth > 0 && (compact || !st.first))
  }

  /** Pending text is clean; unless blank, the printer knows about it and will not break the line. */
  predicate RunOk(lx: P.Lexicon, run: string, textDepth: int, top: bool) {
    Clean(run) && (!Blank(lx, run) ==> textDepth >= 0 && !top)
  }

  lemma CoreIsTag(lx: P.Lexicon, compact: bool, st: PState, t: Tree)
    requires lx.Valid() && Printable(lx, t) && !PlainText(t)
    ensures TagLike(Core(compact, st, t))
  {
    hide PrintAll, PrintAttrs, EndTag, CloseLead;
    if t.Element? {
      assert StartTag(t.name, t.attrs)[..2] == "<" + [t.name[0]];
    }
  }

  lemma NormBlankRun(lx: P.Lexicon, ts: seq<Tree>, run: string)
    requires Blank(lx, run) && (ts == [] || !PlainText(ts[0]))
    ensures Norm(lx, ts, run) == Norm(lx, ts, "")
  {
  }

  lemma {:induction false} ForestParses(lx: P.Lexicon, s: string, p: nat, depth: nat, top: bool, acc: seq<P.Node>,
                                        compact: bool, st: PState, ts: seq<Tree>, run: string)
    returns (acc': seq<P.Node>, p': nat, run': string)
    requires lx.Valid() && StartsAt(s, p, Escape(run, false) + PrintAll(compact, st, ts).text)
    requires AllPrintable(lx, ts) && AllFit(lx, ts, depth) && Placed(ts, top, acc)
    requires RunOk(lx, run, st.textDepth, top) && StateOk(compact, st, top)
    ensures StartsAt(s, p', Escape(run', false))
    ensures p' + |Escape(run', false)| == p + |Escape(run, false)| + |PrintAll(compact, st, ts).text|
    ensures P.ParseNodes(lx, s, p, depth, top, acc) == P.ParseNodes(lx, s, p', depth, top, acc')
    ensures ReadAll(s, acc') + Flush(lx, run') == ReadAll(s, acc) + Norm(lx, ts, run)
    ensures RunOk(lx, run', PrintAll(compact, st, ts).st.textDepth, top)
    decreases ts, 0
  {
    hide P.ParseNodes, Escape, PrintTree, ReadAll, Read, NormTree, Blank, Core, Printable, Fits;
    if ts == [] {
      acc', p', run' := acc, p, run;
      assert Escape(run, false) + "" == Escape(run, false);
    } else {
      var head := PrintTree(compact, st, ts[0]);
      var rest := PrintAll(compact, head.st, ts[1..]).text;
      if PlainText(ts[0]) {
        TextJoins(compact, st, ts[0], run, rest);
        var more := run + ts[0].value;
        CleanRun(lx, run, ts[0]);
        acc', p', run' := ForestParses(lx, s, p, depth, top, acc, compact, head.st, ts[1..], more);
      } else {
        var acc1, p1 := HeadParses(lx, s, p, depth, top, acc, compact, st, ts, run);
        var tail := TailOf(compact, st, ts[0]);
        SpacingBlank(lx, compact, st, ts[0]);
        EscapeBlank(lx, tail);
        acc', p', run' := ForestParses(lx, s, p1, depth, top, acc1, compact, head.st, ts[1..], tail);
        NormHead(lx, compact, st, ts, top, run, ReadAll(s, acc));
      }
    }
  }

  lemma CleanRun(lx: P.Lexicon, run: string, t: Tree)
    requires Clean(run) && PlainText(t) && Printable(lx, t)
    ensures Clean(run + t.value)
  {
  }

  lemma TextJoins(compact: bool, st: PState, t: Tree, run: string, rest: string)
    requires PlainText(t)
    ensures var head := PrintTree(compact, st, t);
            && Escape(run, false) + (head.text + rest) == Escape(run + t.value, false) + rest
            && head.st == st.(textDepth := st.depth - 1)
  {
    hide Escape;
    EscapeConcat(run, t.value, false);
  }

  lemma NormTail(lx: P.Lexicon, compact: bool, st: PState, ts: seq<Tree>, top: bool)
    requires lx.Valid() && ts != [] && StateOk(compact, st, top)
    requires top ==> forall i :: 0 <= i < |ts| ==> !PlainText(ts[i])
    ensures Norm(lx, ts[1..], TailOf(compact, st, ts[0])) == Norm(lx, ts[1..], "")
  {
    hide Norm;
    if top {
      SpacingBlank(lx, compact, st, ts[0]);
      NormBlankRun(lx, ts[1..], TailOf(compact, st, ts[0]));
    }
  }

  /** The spacing behind the first sibling does not show in the normal form. */
  lemma NormHead(lx: P.Lexicon, compact: bool, st: PState, ts: seq<Tree>, top: bool, run: string, done: seq<Tree>)
    requires lx.Valid() && ts != [] && !PlainText(ts[0]) && StateOk(compact, st, top)
    requires top ==> forall i :: 0 <= i < |ts| ==> !PlainText(ts[i])
    ensures done + Flush(lx, run) + [NormTree(lx, ts[0])] + Norm(lx, ts[1..], TailOf(compact, st, ts[0]))
         == done + Norm(lx, ts, run)
  {
    hide NormTree, Flush, TailOf;
    NormTail(lx, compact, st, ts, top);
    assert Norm(lx, ts, run) == Flush(lx, run) + [NormTree(lx, ts[0])] + Norm(lx, ts[1..], "");
  }

  /** Pending text, the first sibling after it, and nothing else. */
  lemma {:induction false} HeadParses(lx: P.Lexicon, s: string, p: nat, depth: nat, top: bool, acc: seq<P.Node>,
                                      compact: bool, st: PState, ts: seq<Tree>, run: string)
    returns (acc': seq<P.Node>, p': nat)
    requires lx.Valid() && StartsAt(s, p, Escape(run, false) + PrintAll(compact, st, ts).text)
    requires AllPrintable(lx, ts) && AllFit(lx, ts, depth) && Placed(ts, top, acc)
    requires RunOk(lx, run, st.textDepth, top) && StateOk(compact, st, top)
    requires ts != [] && !PlainText(ts[0])
    ensures var head := PrintTree(compact, st, ts[0]);
            var tail := TailOf(compact, st, ts[0]);
            && StartsAt(s, p', tail + PrintAll(compact, head.st, ts[1..]).text)
            && p' + |tail| == p + |Escape(run, false)| + |head.text|
    ensures P.ParseNodes(lx, s, p, depth, top, acc) == P.ParseNodes(lx, s, p', depth, top, acc')
    ensures ReadAll(s, acc') == ReadAll(s, acc) + Flush(lx, run) + [NormTree(lx, ts[0])]
    ensures Placed(ts[1..], top, acc')
    decreases ts, 0, 0
  {
    hide P.ParseNodes, P.ParseNode, Escape, PrintTree, ReadAll, Read, NormTree, Core, Printable, Fits, PrintAll;
    var t := ts[0];
    var lead, core, tail := LeadOf(compact, st, t), Core(compact, st, t), TailOf(compact, st, t);
    HeadLayout(s, p, compact, st, ts, run);
    CoreIsTag(lx, compact, st, t);
    SpacingBlank(lx, compact, st, t);
    assert !Blank(lx, run) ==> lead == "" by {
      if !Blank(lx, run) { NoLead(compact, st, t); }
    }
    var acc1, q := Pending(lx, s, p, run, lead, core, depth, top, acc);
    var n := NodeParses(lx, s, q, depth, compact, st, t);
    KindKept(lx, s, n, t);
    StartsAtIndex(s, q, core, 0);
    NodeStep(lx, s, q, q, depth, top, acc1, n, q + |core|);
    ReadAllAppend(s, acc1, n);
    acc', p' := acc1 + [n], q + |core|;
  }

  lemma NoLead(compact: bool, st: PState, t: Tree)
    requires st.textDepth >= 0 && (compact || !st.first)
    ensures LeadOf(compact, st, t) == ""
  {
  }

  lemma HeadLayout(s: string, p: nat, compact: bool, st: PState, ts: seq<Tree>, run: string)
    requires ts != [] && StartsAt(s, p, Escape(run, false) + PrintAll(compact, st, ts).text)
    ensures var head := PrintTree(compact, st, ts[0]);
            var e, core := Escape(run, false), Core(compact, st, ts[0]);
            var lead, tail := LeadOf(compact, st, ts[0]), TailOf(compact, st, ts[0]);
            && StartsAt(s, p, e + (lead + core))
            && StartsAt(s, p + |e| + |lead| + |core|, tail + PrintAll(compact, head.st, ts[1..]).text)
            && |head.text| == |lead| + |core| + |tail|
  {
    hide Escape, PrintTree, Core, LeadOf, TailOf;
    var head := PrintTree(compact, st, ts[0]);
    var e, core := Escape(run, false), Core(compact, st, ts[0]);
    var lead, tail := LeadOf(compact, st, ts[0]), TailOf(compact, st, ts[0]);
    var rest := PrintAll(compact, head.st, ts[1..]).text;
    PrintSplits(compact, st, ts[0]);
    assert e + (lead + core + tail + rest) == e + (lead + core) + (tail + rest);
    StartsAtConcat(s, p, e + (lead + core), tail + rest);
  }

  lemma KindKept(lx: P.Lexicon, s: string, n: P.Node, t: Tree)
    requires Read(s, n) == NormTree(lx, t)
    ensures n.Declaration? <==> t.Declaration?
  {
  }

  lemma {:induction false} NodeParses(lx: P.Lexicon, s: string, q: nat, depth: nat, compact: bool, st: PState, t: Tree)
    returns (n: P.Node)
    requires lx.Valid() && StartsAt(s, q, Core(compact, st, t)) && !PlainText(t)
    requires Printable(lx, t) && Fits(lx, t, depth)
    ensures q < |s| && P.Skip(lx, s, q) == q
    ensures P.ParseNode(lx, s, q, q, depth) == P.Parsed(n, q + |Core(compact, st, t)|)
    ensures Read(s, n) == NormTree(lx, t)
    decreases t, 1
  {
    hide P.ParseNode, Read, Printable, Fits, P.Skip;
    if t.Element? {
      n := ElementParses(lx, s, q, depth, compact, st, t);
    } else {
      n := LeafParses(lx, s, q, depth, t);
    }
  }

  lemma {:induction false} ElementParses(lx: P.Lexicon, s: string, q: nat, depth: nat,
                                         compact: bool, st: PState, t: Tree)
    returns (n: P.Node)
    requires lx.Valid() && StartsAt(s, q, Core(compact, st, t)) && t.Element?
    requires Printable(lx, t) && Fits(lx, t, depth)
    ensures q < |s| && P.Skip(lx, s, q) == q
    ensures P.ParseNode(lx, s, q, q, depth) == P.Parsed(n, q + |Core(compact, st, t)|)
    ensures Read(s, n) == NormTree(lx, t)
    decreases t, 0
  {
    hide P.ParseName, P.ParseAttrs, P.ParseNode, P.Skip, P.Slice, StartTag, Closing, PrintAll, StartsAt, P.ParseContent;
    if t.kids == [] {
      n := ClosedParses(lx, s, q, depth, t);
    } else {
      n := OpenParses(lx, s, q, depth, compact, st, t);
    }
  }

  lemma OpenCore(compact: bool, st: PState, t: Tree)
    requires t.Element? && t.kids != []
    ensures var body := PrintAll(compact, Inside(compact, st), t.kids);
            Core(compact, st, t) ==
            StartTag(t.name, t.attrs) + ">" + (body.text + Closing(compact, body.st, st.depth, t.name))
  {
    hide PrintAll, StartTag, Closing, Inside;
    var body := PrintAll(compact, Inside(compact, st), t.kids);
    Associate(">", body.text, Closing(compact, body.st, st.depth, t.name));
    Associate(StartTag(t.name, t.attrs), ">", body.text + Closing(compact, body.st, st.depth, t.name));
  }

  lemma {:induction false} OpenParses(lx: P.Lexicon, s: string, q: nat, depth: nat, compact: bool, st: PState, t: Tree)
    returns (n: P.Node)
    requires lx.Valid() && StartsAt(s, q, Core(compact, st, t)) && t.Element? && t.kids != []
    requires Printable(lx, t) && Fits(lx, t, depth)
    ensures q < |s| && P.Skip(lx, s, q) == q
    ensures P.ParseNode(lx, s, q, q, depth) == P.Parsed(n, q + |Core(compact, st, t)|)
    ensures Read(s, n) == NormTree(lx, t)
    decreases t.kids, 2
  {
    hide P.ParseName, P.ParseAttrs, P.ParseNode, P.Skip, P.Slice, StartTag, Closing, PrintAll, StartsAt, P.ParseContent;
    hide Core, Inside, Read, NormTree;
    var start := StartTag(t.name, t.attrs);
    var name := P.Range(q + 1, q + 1 + |t.name|);
    var body := PrintAll(compact, Inside(compact, st), t.kids);
    var inner := body.text + Closing(compact, body.st, st.depth, t.name);
    OpenCore(compact, st, t);
    StartsAtConcat(s, q, start + ">", inner);
    var r := StartTagParses(lx, s, q, t.name, t.attrs, ">");
    TagElement(lx, s, q, name, r, depth);
    n := ContentParses(lx, s, q + |start| + 1, depth, compact, st, t, name, r);
  }

  lemma ClosedParses(lx: P.Lexicon, s: string, q: nat, depth: nat, t: Tree) returns (n: P.Node)
    requires lx.Valid() && t.Element? && t.kids == [] && Printable(lx, t)
    requires StartsAt(s, q, StartTag(t.name, t.attrs) + "/>")
    ensures q < |s| && P.Skip(lx, s, q) == q
    ensures P.ParseNode(lx, s, q, q, depth) == P.Parsed(n, q + |StartTag(t.name, t.attrs)| + 2)
    ensures Read(s, n) == NormTree(lx, t)
  {
    hide P.ParseName, P.ParseAttrs, P.ParseNode, P.Skip, P.Slice, StartTag, StartsAt, ReadAttrs, Norm;
    var name := P.Range(q + 1, q + 1 + |t.name|);
    var r := StartTagParses(lx, s, q, t.name, t.attrs, "/>");
    TagElement(lx, s, q, name, r, depth);
    n := P.Element(name, r, [], P.SelfClosed);
    NormNone(lx);
  }

  /** From the parts of a start tag to the node it opens. */
  lemma TagElement(lx: P.Lexicon, s: string, q: nat, name: P.Range, attrs: seq<P.Attr>, depth: nat)
    requires lx.Valid() && At(s, q) == '<' && name.start == q + 1 <= |s| && P.Skip(lx, s, q + 1) == q + 1
    requires lx.isNameStart(At(s, q + 1)) && P.ParseName(lx, s, q + 1) == Some(name.end)
    requires var tag := P.ParseAttrs(lx, s, name.end, []); !tag.TagFail? && tag.attrs == attrs
    ensures P.Skip(lx, s, q) == q
    ensures var tag := P.ParseAttrs(lx, s, name.end, []);
            P.ParseNode(lx, s, q, q, depth) ==
            if tag.TagClosed? then P.Parsed(P.Element(name, attrs, [], P.SelfClosed), tag.next)
            else P.ParseContent(lx, s, tag.next, depth, name, attrs)
  {
    hide P.ParseName, P.ParseAttrs, P.ParseContent, P.Identify;
    TagIdentified(lx, s, q);
  }

  lemma NormNone(lx: P.Lexicon)
    ensures Norm(lx, [], "") == []
  {
  }

  lemma {:induction false} ContentParses(lx: P.Lexicon, s: string, b: nat, depth: nat,
                                         compact: bool, st: PState, t: Tree,
                                         name: P.Range, attrs: seq<P.Attr>)
    returns (n: P.Node)
    requires lx.Valid() && t.Element? && t.kids != [] && Printable(lx, t) && Fits(lx, t, depth)
    requires var body := PrintAll(compact, Inside(compact, st), t.kids);
             StartsAt(s, b, body.text + Closing(compact, body.st, st.depth, t.name))
    requires P.Slice(s, name) == t.name && ReadAttrs(s, attrs) == t.attrs
    ensures var body := PrintAll(compact, Inside(compact, st), t.kids);
            var end := b + |body.text| + |Closing(compact, body.st, st.depth, t.name)|;
            P.ParseContent(lx, s, b, depth, name, attrs) == P.Parsed(n, end)
    ensures Read(s, n) == NormTree(lx, t)
    decreases t.kids, 1
  {
    hide P.ParseNodes, P.Slice, PrintAll, Norm, Escape, ReadAttrs, EndTag, CloseLead, ReadAll;
    var st1 := Inside(compact, st);
    var body := PrintAll(compact, st1, t.kids);
    var lead, core := CloseLead(compact, body.st.textDepth, st.depth), EndTag(t.name);
    StartsAtConcat(s, b, body.text, lead + core);
    assert Escape("", false) + body.text == body.text by { EscapeEmpty(false); }
    var acc, p, run := ForestParses(lx, s, b, depth + 1, false, [], compact, st1, t.kids, "");
    StartsAtConcat(s, p, Escape(run, false), lead + core);
    CloseSpacing(lx, compact, body.st.textDepth, st.depth, t.name);
    var acc', q := Pending(lx, s, p, run, lead, core, depth + 1, false, acc);
    EndTagParses(lx, s, q, t.name, depth + 1, false, acc');
    var endName := P.Range(q + 2, q + 2 + |t.name|);
    n := P.Element(name, attrs, acc', P.Matched(endName));
    assert ReadAll(s, acc') == Norm(lx, t.kids, "") by { NoNodes(s); }
    assert At(s, b) != NUL by {
      if At(s, b) == NUL { EmptyInput(lx, s, b, depth + 1); }
    }
  }

  lemma NoNodes(s: string)
    ensures ReadAll(s, []) == []
  {
  }

  lemma EmptyInput(lx: P.Lexicon, s: string, b: nat, depth: nat)
    requires lx.Valid() && b <= |s| && At(s, b) == NUL
    ensures P.ParseNodes(lx, s, b, depth, false, []) == P.Ended([])
  {
    assert P.Skip(lx, s, b) == b;
  }

  lemma CloseSpacing(lx: P.Lexicon, compact: bool, textDepth: int, depth: nat, name: string)
    requires lx.Valid()
    ensures Blank(lx, CloseLead(compact, textDepth, depth)) && TagLike(EndTag(name))
    ensures textDepth >= 0 ==> CloseLead(compact, textDepth, depth) == ""
  {
    IndentBlank(lx, depth);
  }

  // ----- documents -----

  /** Documents the printer can render faithfully; plain text may be anything free of NUL and CR. */
  predicate Document(lx: P.Lexicon, ts: seq<Tree>) {
    && ts != [] && AllPrintable(lx, ts) && AllFit(lx, ts, 1) && lx.maxDepth != 1
    && Placed(ts, true, [])
  }

  /** The print of a document starts with blanks and a tag. */
  lemma FirstTag(lx: P.Lexicon, compact: bool, st: PState, ts: seq<Tree>) returns (lead: string)
    requires lx.Valid() && Document(lx, ts)
    ensures var body := PrintAll(compact, st, ts).text;
            && Blank(lx, lead) && |lead| < |body| && body[..|lead|] == lead && body[|lead|] == '<'
            && body[0] != NUL
  {
    hide PrintTree, Core, Printable, Fits, Lead;
    lead := LeadOf(compact, st, ts[0]);
    PrintSplits(compact, st, ts[0]);
    CoreIsTag(lx, compact, st, ts[0]);
    SpacingBlank(lx, compact, st, ts[0]);
  }

  lemma NoMark(s: string, i: nat)
    requires At(s, i) == '<'
    ensures !StartsAt(s, i, BOM)
  {
    if i + 3 <= |s| { assert s[i..i + 3][0] == s[i]; }
  }

  /** Leading blanks are taken off first. */
  lemma PlainStart(lx: P.Lexicon, s: string, lead: string)
    requires lx.Valid() && lx.maxDepth != 1
    requires Blank(lx, lead) && StartsAt(s, 0, lead) && At(s, |lead|) == '<'
    ensures P.Parse(lx, s) == P.Finish(false, P.ParseNodes(lx, s, 0, 1, true, []))
  {
    hide P.ParseNodes, StartsAt, P.Finish;
    SkipBlanks(lx, s, 0, lead, 1, true, []);
    SkipsBlank(lx, s, 0, lead, 0);
    NoMark(s, |lead|);
  }

  /** The byte order mark is taken off, and remembered. */
  lemma MarkedStart(lx: P.Lexicon, s: string)
    requires lx.Valid() && lx.maxDepth != 1 && StartsAt(s, 0, BOM) && At(s, 3) != NUL
    ensures P.Parse(lx, s) == P.Finish(true, P.ParseNodes(lx, s, 3, 1, true, []))
  {
    hide P.ParseNodes, P.Finish;
    StartsAtIndex(s, 0, BOM, 0);
    assert P.Skip(lx, s, 0) == 0;
  }

  lemma DocumentStart(lx: P.Lexicon, s: string, bom: bool, body: string, lead: string)
    requires lx.Valid() && lx.maxDepth != 1 && s == (if bom then BOM else "") + body
    requires Blank(lx, lead) && |lead| < |body| && body[..|lead|] == lead && body[|lead|] == '<' && body[0] != NUL
    ensures var p := if bom then 3 else 0;
            StartsAt(s, p, body) && P.Parse(lx, s) == P.Finish(bom, P.ParseNodes(lx, s, p, 1, true, []))
  {
    hide P.ParseNodes, P.Parse, P.Finish, Blank;
    if bom {
      assert s[..3] == BOM && s[3..] == body;
      MarkedStart(lx, s);
    } else {
      assert s == body;
      PlainStart(lx, s, lead);
    }
  }

  lemma AllBlank(lx: P.Lexicon, s: string, p: nat, run: string, acc: seq<P.Node>)
    requires lx.Valid() && StartsAt(s, p, run) && Blank(lx, run) && p + |run| == |s|
    ensures P.ParseNodes(lx, s, p, 1, true, acc) == P.Ended(acc)
  {
    SkipsBlank(lx, s, p, run, 0);
  }

  /** Parsing the print of a document, compact or indented, yields its normal form. */
  lemma ParsePrint(lx: P.Lexicon, compact: bool, depth: nat, bom: bool, ts: seq<Tree>)
    requires lx.Valid() && Document(lx, ts)
    ensures var s := PrintDocument(compact, depth, bom, ts);
            var r := P.Parse(lx, s);
            r.Ok? && r.doc.bom == bom && ReadAll(s, r.doc.nodes) == Norm(lx, ts, "")
  {
    hide PrintAll, Norm, ReadAll, P.ParseNodes, P.Parse, Escape, Document;
    var s := PrintDocument(compact, depth, bom, ts);
    var st := PState(depth, -1, true);
    var body := PrintAll(compact, st, ts).text;
    var lead := FirstTag(lx, compact, st, ts);
    DocumentParts(lx, ts);
    DocumentStart(lx, s, bom, body, lead);
    assert Escape("", false) + body == body by { EscapeEmpty(false); }
    var acc, p, run := ForestParses(lx, s, if bom then 3 else 0, 1, true, [], compact, st, ts, "");
    EscapeBlank(lx, run);
    AllBlank(lx, s, p, run, acc);
    NoNodes(s);
    assert ReadAll(s, acc) + Flush(lx, run) == ReadAll(s, acc);
    assert ReadAll(s, []) + Norm(lx, ts, "") == Norm(lx, ts, "");
  }

  lemma DocumentParts(lx: P.Lexicon, ts: seq<Tree>)
    requires Document(lx, ts)
    ensures AllPrintable(lx, ts) && AllFit(lx, ts, 1) && Placed(ts, true, []) && lx.maxDepth != 1
  {
  }

  /** Printing then parsing is the identity exactly on normal trees. */
  lemma RoundTrip(lx: P.Lexicon, compact: bool, depth: nat, bom: bool, ts: seq<Tree>)
    requires lx.Valid() && Document(lx, ts)
    ensures var s := PrintDocument(compact, depth, bom, ts);
            P.Parse(lx, s).Ok? && (ReadAll(s, P.Parse(lx, s).doc.nodes) == ts <==> Normal(lx, ts))
  {
    ParsePrint(lx, compact, depth, bom, ts);
    NormFixed(lx, ts);
  }

  const SPACE := Text(" ", false)
  const SPACED := Element("a", [], [SPACE])

  lemma SpacedIsDocument()
    ensures P.DEFAULT.Valid() && Document(P.DEFAULT, [SPACED])
  {
    P.DefaultValid();
    assert Printable(P.DEFAULT, SPACE) && Fits(P.DEFAULT, SPACE, 2);
    assert Printable(P.DEFAULT, SPACED) && Fits(P.DEFAULT, SPACED, 1);
  }

  lemma SpacedIsNotNormal()
    ensures Norm(P.DEFAULT, [SPACED], "") == [Element("a", [], [])]
  {
    assert Norm(P.DEFAULT, [SPACE], "") == Norm(P.DEFAULT, [], " ");
    assert Norm(P.DEFAULT, [SPACED], "") == [NormTree(P.DEFAULT, SPACED)] + Norm(P.DEFAULT, [], "");
  }

  /** Not every tree is normal: an element that holds one space comes back empty. */
  lemma BlankTextIsLost(compact: bool, depth: nat, bom: bool)
    ensures P.DEFAULT.Valid()
    ensures var s := PrintDocument(compact, depth, bom, [SPACED]);
            var r := P.Parse(P.DEFAULT, s);
            r.Ok? && ReadAll(s, r.doc.nodes) == [Element("a", [], [])]
  {
    hide PrintDocument, P.Parse, ReadAll, Document, Norm;
    SpacedIsDocument();
    SpacedIsNotNormal();
    ParsePrint(P.DEFAULT, compact, depth, bom, [SPACED]);
  }

  /** Indentation is invisible to the parser. */
  lemma IndentedIsCompact(lx: P.Lexicon, depth: nat, depth': nat, bom: bool, ts: seq<Tree>)
    requires lx.Valid() && Document(lx, ts)
    ensures var a, b := PrintDocument(true, depth, bom, ts), PrintDocument(false, depth', bom, ts);
            var ra, rb := P.Parse(lx, a), P.Parse(lx, b);
            ra.Ok? && rb.Ok? && ra.doc.bom == rb.doc.bom && ReadAll(a, ra.doc.nodes) == ReadAll(b, rb.doc.nodes)
  {
    ParsePrint(lx, true, depth, bom, ts);
    ParsePrint(lx, false, depth', bom, ts);
  }
}
