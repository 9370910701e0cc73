/**
  Trees as read back from a parsed buffer, the trees that can be printed, and the normal form that
  printing and parsing reduces a tree to: adjacent plain texts merge, blank runs of text vanish.
  */
module XmlNormal {
  import opened XmlChars
  import opened XmlTree
  import P = XmlParser
  import StrPair
  import opened Escaping

  // ----- reading -----

  function ReadAttrs(s: string, attrs: seq<P.Attr>): seq<Attribute> {
    if attrs == [] then []
    else [Attribute(P.Slice(s, attrs[0].name), StrPair.Decode(P.Slice(s, attrs[0].value), StrPair.TEXT))]
         + ReadAttrs(s, attrs[1..])
  }

  /** The tree behind a parsed node: every string decoded as `GetStr` does. */
  function Read(s: string, n: P.Node): Tree
    decreases n, 1
  {
    match n
    case Element(name, attrs, kids, _) => Element(P.Slice(s, name), ReadAttrs(s, attrs), ReadAll(s, kids))
    case Text(r, cdata) =>
      Text(StrPair.Decode(P.Slice(s, r), if cdata then StrPair.MARKUP else StrPair.TEXT), cdata)
    case Comment(r) => Comment(StrPair.Decode(P.Slice(s, r), StrPair.MARKUP))
    case Declaration(r) => Declaration(StrPair.Decode(P.Slice(s, r), StrPair.MARKUP))
    case Unknown(r) => Unknown(StrPair.Decode(P.Slice(s, r), StrPair.MARKUP))
  }

  function ReadAll(s: string, ns: seq<P.Node>): seq<Tree>
    decreases ns, 0
  {
    if ns == [] then [] else [Read(s, ns[0])] + ReadAll(s, ns[1..])
  }

  lemma {:induction false} ReadAllAppend(s: string, ns: seq<P.Node>, n: P.Node)
    ensures ReadAll(s, ns + [n]) == ReadAll(s, ns) + [Read(s, n)]
  {
    hide Read;
    if ns == [] {
      assert ns + [n] == [n] && [n][1..] == [];
    } else {
      assert (ns + [n])[1..] == ns[1..] + [n];
      ReadAllAppend(s, ns[1..], n);
    }
  }

  lemma {:induction false} ReadAttrsAppend(s: string, attrs: seq<P.Attr>, a: P.Attr)
    ensures ReadAttrs(s, attrs + [a]) == ReadAttrs(s, attrs)
              + [Attribute(P.Slice(s, a.name), StrPair.Decode(P.Slice(s, a.value), StrPair.TEXT))]
  {
    hide StrPair.Decode, P.Slice;
    if attrs == [] {
      assert attrs + [a] == [a] && [a][1..] == [];
    } else {
      assert (attrs + [a])[1..] == attrs[1..] + [a];
      ReadAttrsAppend(s, attrs[1..], a);
    }
  }

  // ----- normal form -----

  predicate Blank(lx: P.Lexicon, s: string) {
    forall i :: 0 <= i < |s| ==> lx.isSpace(s[i])
  }

  predicate PlainText(t: Tree) {
    t.Text? && !t.cdata
  }

  /** The text node a run of plain text is parsed into. */
  function Flush(lx: P.Lexicon, run: string): seq<Tree> {
    if Blank(lx, run) then [] else [Text(run, false)]
  }

  /** Normal form of a list of siblings, `run` being the plain text just before them. */
  function Norm(lx: P.Lexicon, ts: seq<Tree>, run: string): seq<Tree>
    decreases ts, 0
  {
    if ts == [] then Flush(lx, run)
    else if PlainText(ts[0]) then Norm(lx, ts[1..], run + ts[0].value)
    else Flush(lx, run) + [NormTree(lx, ts[0])] + Norm(lx, ts[1..], "")
  }

  function NormTree(lx: P.Lexicon, t: Tree): Tree
    decreases t, 1
  {
    if t.Element? then t.(kids := Norm(lx, t.kids, "")) else t
  }

  /** No blank text, no two plain texts side by side, at any level. */
  predicate Normal(lx: P.Lexicon, ts: seq<Tree>)
    decreases ts, 0
  {
    ts != [] ==>
      && NormalTree(lx, ts[0])
      && Normal(lx, ts[1..])
      && (|ts| > 1 ==> !(PlainText(ts[0]) && PlainText(ts[1])))
  }

  predicate NormalTree(lx: P.Lexicon, t: Tree)
    decreases t, 1
  {
    && (t.Element? ==> Normal(lx, t.kids))
    && (PlainText(t) ==> !Blank(lx, t.value))
  }

  lemma {:induction false} NormSize(lx: P.Lexicon, ts: seq<Tree>, run: string)
    ensures |Norm(lx, ts, run)| <= |ts| + |Flush(lx, run)|
    ensures run == "" ==> |Norm(lx, ts, run)| <= |ts|
    decreases |ts|
  {
    hide NormTree;
    if ts == [] {
    } else {
      if PlainText(ts[0]) {
        NormSize(lx, ts[1..], run + ts[0].value);
      } else {
        NormSize(lx, ts[1..], "");
      }
    }
  }

  /** A list is its own normal form exactly when it is normal. */
  lemma {:induction false} NormFixed(lx: P.Lexicon, ts: seq<Tree>)
    ensures Norm(lx, ts, "") == ts <==> Normal(lx, ts)
    decreases ts, 0
  {
    if ts == [] {
    } else {
      if PlainText(ts[0]) {
        assert "" + ts[0].value == ts[0].value;
        NormTextHead(lx, ts);
      } else {
        NormTreeFixed(lx, ts[0]);
        NormFixed(lx, ts[1..]);
        NormMarkupHead(lx, ts);
      }
    }
  }

  lemma {:induction false} NormTreeFixed(lx: P.Lexicon, t: Tree)
    ensures NormTree(lx, t) == t <==> t.Element? ==> Normal(lx, t.kids)
    decreases t, 1
  {
    if t.Element? {
      NormFixed(lx, t.kids);
    }
  }

  lemma NormMarkupHead(lx: P.Lexicon, ts: seq<Tree>)
    requires ts != [] && !PlainText(ts[0])
    ensures Norm(lx, ts, "") == ts <==> NormTree(lx, ts[0]) == ts[0] && Norm(lx, ts[1..], "") == ts[1..]
  {
    hide NormTree;
    var rest := Norm(lx, ts[1..], "");
    assert Norm(lx, ts, "") == [NormTree(lx, ts[0])] + rest;
    assert ts == [ts[0]] + ts[1..];
    assert Norm(lx, ts, "")[1..] == rest;
  }

  lemma NormAfterRun(lx: P.Lexicon, ts: seq<Tree>, v: string)
    requires !Blank(lx, v) && (ts == [] || !PlainText(ts[0]))
    ensures Norm(lx, ts, v) == [Text(v, false)] + Norm(lx, ts, "")
  {
    hide NormTree;
    if ts != [] {
      var m, rest := [NormTree(lx, ts[0])], Norm(lx, ts[1..], "");
      assert [Text(v, false)] + m + rest == [Text(v, false)] + ([] + m + rest);
    }
  }

  lemma {:induction false} NormTextHead(lx: P.Lexicon, ts: seq<Tree>)
    requires ts != [] && PlainText(ts[0])
    ensures Norm(lx, ts, "") == ts <==> Normal(lx, ts)
    decreases ts[1..], 1
  {
    hide NormTree;
    var v, rest := ts[0].value, ts[1..];
    assert ts == [ts[0]] + rest;
    assert "" + v == v;
    assert Norm(lx, ts, "") == Norm(lx, rest, v);
    if Blank(lx, v) {
      NormSize(lx, rest, v);
    } else if rest != [] && PlainText(rest[0]) {
      NormSize(lx, rest[1..], v + rest[0].value);
    } else {
      NormAfterRun(lx, rest, v);
      NormFixed(lx, rest);
      assert ([ts[0]] + Norm(lx, rest, ""))[1..] == Norm(lx, rest, "");
    }
  }

  // ----- printable trees -----

  predicate ValidName(lx: P.Lexicon, n: string) {
    n != "" && lx.isNameStart(n[0]) && forall i :: 0 < i < |n| ==> lx.isName(n[i])
  }

  predicate Clean(v: string) {
    Free(v, NUL) && Free(v, CR)
  }

  predicate Contains(v: string, tag: string) {
    exists j :: 0 <= j < |v| && StartsAt(v, j, tag)
  }

  predicate PrintableAttrs(lx: P.Lexicon, attrs: seq<Attribute>) {
    && (forall i :: 0 <= i < |attrs| ==> ValidName(lx, attrs[i].name) && Clean(attrs[i].value))
    && (forall i, j :: 0 <= i < j < |attrs| ==> attrs[i].name != attrs[j].name)
  }

  /** Trees whose markup says what they mean; no restriction on plain text but NUL and CR. */
  predicate Printable(lx: P.Lexicon, t: Tree) {
    match t
    case Element(name, attrs, kids) =>
      && ValidName(lx, name) && PrintableAttrs(lx, attrs)
      && forall i :: 0 <= i < |kids| ==> Printable(lx, kids[i]) && !kids[i].Declaration?
    case Text(v, cdata) => Clean(v) && (cdata ==> !Contains(v, "]]>"))
    case Comment(v) => Clean(v) && !Contains(v, "-->")
    case Declaration(v) => Clean(v) && !Contains(v, "?>")
    case Unknown(v) => Clean(v) && !Contains(v, ">") && !StartsAt(v, 0, "--") && !StartsAt(v, 0, "[CDATA[")
  }

  predicate AllPrintable(lx: P.Lexicon, ts: seq<Tree>) {
    forall i :: 0 <= i < |ts| ==> Printable(lx, ts[i])
  }

  /** Nesting stays below the limit, the children of the document being at depth 1. */
  predicate Fits(lx: P.Lexicon, t: Tree, depth: nat) {
    t.Element? && t.kids != [] ==>
      && depth + 1 != lx.maxDepth
      && forall i :: 0 <= i < |t.kids| ==> Fits(lx, t.kids[i], depth + 1)
  }

  predicate AllFit(lx: P.Lexicon, ts: seq<Tree>, depth: nat) {
    forall i :: 0 <= i < |ts| ==> Fits(lx, ts[i], depth)
  }
}
