/**
  `XMLPrinter`: a state machine that emits markup as nodes are visited and, unless compact, inserts
  line breaks and indentation.  `PrintTree` says what it emits; the class is the machine.
  */
module XmlPrinter {
  import opened Collections
  import opened XmlTree
  import XmlChars
  import Escaping
  import StrPair

  /** `_depth`, `_textDepth` and `_firstElement`. */
  datatype PState = PState(depth: nat, textDepth: int, first: bool)

  datatype Out = Out(text: string, st: PState)

  function Indent(depth: nat): string {
    if depth == 0 then "" else "    " + Indent(depth - 1)
  }

  /** What goes out before a tag. */
  function Lead(compact: bool, st: PState): string {
    if compact then ""
    else if st.first then Indent(st.depth)
    else if st.textDepth < 0 then "\n" + Indent(st.depth)
    else ""
  }

  function Led(compact: bool, st: PState): PState {
    if compact then st else st.(first := false)
  }

  /** What goes out before an end tag at depth `depth`. */
  function CloseLead(compact: bool, textDepth: int, depth: nat): string {
    if textDepth < 0 && !compact then "\n" + Indent(depth) else ""
  }

  /** The state after an element at depth `depth` is closed, and the newline after a root. */
  function Left(st: PState, depth: nat): PState {
    PState(depth, if st.textDepth == depth then -1 else st.textDepth, st.first)
  }

  function Tail(compact: bool, depth: nat): string {
    if depth == 0 && !compact then "\n" else ""
  }

  function PrintAttr(a: Attribute): string {
    " " + a.name + "=\"" + (Escaping.Escape(a.value, true) + "\"")
  }

  function PrintAttrs(attrs: seq<Attribute>): string {
    if attrs == [] then "" else PrintAttr(attrs[0]) + PrintAttrs(attrs[1..])
  }

  function Leaf(t: Tree): string
    requires !t.Element?
  {
    match t
    case Text(v, cdata) => if cdata then "<![CDATA[" + v + "]]>" else Escaping.Escape(v, false)
    case Comment(v) => "<!--" + v + "-->"
    case Declaration(v) => "<?" + v + "?>"
    case Unknown(v) => "<!" + v + ">"
  }

  function StartTag(name: string, attrs: seq<Attribute>): string {
    "<" + name + PrintAttrs(attrs)
  }

  function EndTag(name: string): string {
    "</" + name + ">"
  }

  /** What closes a tag: at once when nothing came after its attributes. */
  function Ending(compact: bool, empty: bool, textDepth: int, depth: nat, name: string): string {
    (if empty then "/>" else CloseLead(compact, textDepth, depth) + EndTag(name)) + Tail(compact, depth)
  }

  function PrintTree(compact: bool, st: PState, t: Tree): (r: Out)
    ensures r.st.depth == st.depth && (!st.first ==> !r.st.first)
    decreases t, 1
  {
    match t
    case Element(name, attrs, kids) =>
      var inside := Led(compact, st).(depth := st.depth + 1);
      var body := PrintAll(compact, inside, kids);
      var seal := if kids == [] then "" else ">";
      Out(Lead(compact, st) + StartTag(name, attrs)
          + (seal + body.text + Ending(compact, kids == [], body.st.textDepth, st.depth, name)),
          Left(body.st, st.depth))
    case Text(_, _) => Out(Leaf(t), st.(textDepth := st.depth - 1))
    case _ => Out(Lead(compact, st) + Leaf(t), Led(compact, st))
  }

  function PrintAll(compact: bool, st: PState, ts: seq<Tree>): (r: Out)
    ensures r.st.depth == st.depth && (!st.first ==> !r.st.first)
    decreases ts, 0
  {
    if ts == [] then Out("", st)
    else
      var head := PrintTree(compact, st, ts[0]);
      var rest := PrintAll(compact, head.st, ts[1..]);
      Out(head.text + rest.text, rest.st)
  }

  lemma {:induction false} PrintAllAppend(compact: bool, st: PState, ts: seq<Tree>, t: Tree)
    ensures var a := PrintAll(compact, st, ts);
            var b := PrintTree(compact, a.st, t);
            PrintAll(compact, st, ts + [t]) == Out(a.text + b.text, b.st)
    decreases ts
  {
    hide PrintTree;
    if ts == [] {
      assert ts + [t] == [t] && [t][1..] == [];
    } else {
      assert (ts + [t])[1..] == ts[1..] + [t];
      PrintAllAppend(compact, PrintTree(compact, st, ts[0]).st, ts[1..], t);
    }
  }

  /** A whole document, printed from nesting depth `depth` on. */
  function PrintDocument(compact: bool, depth: nat, bom: bool, nodes: seq<Tree>): string {
    (if bom then XmlChars.BOM else "") + PrintAll(compact, PState(depth, -1, true), nodes).text
  }

  lemma PrintNone(compact: bool, st: PState)
    ensures PrintAll(compact, st, []) == Out("", st)
  {
  }

  lemma {:induction false} PrintAttrsAppend(attrs: seq<Attribute>, a: Attribute)
    ensures PrintAttrs(attrs + [a]) == PrintAttrs(attrs) + PrintAttr(a)
  {
    hide PrintAttr;
    if attrs == [] {
      assert attrs + [a] == [a] && [a][1..] == [];
    } else {
      assert (attrs + [a])[1..] == attrs[1..] + [a];
      PrintAttrsAppend(attrs[1..], a);
    }
  }

  lemma Regroup(a: string, lead: string, open: string, attrs: string, seal: string, body: string, ending: string)
    ensures a + lead + open + attrs + seal + body + ending
         == a + (lead + (open + attrs) + (seal + body + ending))
  {
    Associate(a + lead, open, attrs);
    var head := open + attrs;
    Associate(a + lead + head, seal, body);
    Associate(a + lead + head, seal + body, ending);
    Associate(a + lead, head, seal + body + ending);
    Associate(a, lead, head + (seal + body + ending));
    Associate(lead, head, seal + body + ending);
  }

  /** One more character of a run, or the run and one entity. */
  lemma EscapeNext(out: string, s: string, p: nat, q: nat, was: string, full: bool)
    requires p <= q < |s| && out + s[p..q] == was + Escaping.Escape(s[..q], full)
    ensures var e := Escaping.EscapeChar(s[q], full);
            && out + s[p..q] + e == was + Escaping.Escape(s[..q + 1], full)
            && (e == [s[q]] ==> out + s[p..q + 1] == was + Escaping.Escape(s[..q + 1], full))
  {
    hide Escaping.Escape, Escaping.EscapeChar;
    var e := Escaping.EscapeChar(s[q], full);
    assert s[..q + 1] == s[..q] + [s[q]];
    Escaping.EscapeConcat(s[..q], [s[q]], full);
    Escaping.EscapeSingle(s[q], full);
    Associate(was, Escaping.Escape(s[..q], full), e);
    Associate(out, s[p..q], [s[q]]);
    assert s[p..q] + [s[q]] == s[p..q + 1];
  }

  // ----- the machine -----

  class Printer {
    const compact: bool
    var out: string
    var depth: nat
    var textDepth: int
    var firstElement: bool
    var elementJustOpened: bool
    var stack: seq<string>

    function View(): PState
      reads this
    {
      PState(depth, textDepth, firstElement)
    }

    /** The `>` still owed to the last open tag. */
    function Owed(): string
      reads this
    {
      if elementJustOpened then ">" else ""
    }

    constructor (compact: bool, depth: nat)
      ensures this.compact == compact && out == "" && stack == [] && !elementJustOpened
      ensures View() == PState(depth, -1, true)
    {
      this.compact, this.depth := compact, depth;
      out, textDepth, firstElement, elementJustOpened, stack := "", -1, true, false, [];
    }

    method PrintSpace(n: nat)
      modifies this`out
      ensures out == old(out) + Indent(n)
    {
      var i := 0;
      ghost var was := out;
      while i < n
        invariant 0 <= i <= n
        invariant was + Indent(n) == out + Indent(n - i)
      {
        out := out + "    ";
        i := i + 1;
      }
    }

    /** Runs of plain bytes are written at once, between the entities that need replacing. */
    method PrintString(s: string, restricted: bool)
      modifies this`out
      ensures out == old(out) + Escaping.Escape(s, !restricted)
    {
      hide Escaping.Escape;
      var p, q := 0, 0;
      ghost var was := out;
      assert Escaping.Escape(s[..0], !restricted) == "" by { Escaping.EscapeEmpty(!restricted); }
      while q < |s|
        invariant 0 <= p <= q <= |s|
        invariant out + s[p..q] == was + Escaping.Escape(s[..q], !restricted)
      {
        var e := Escaping.EntityFor(s[q], !restricted);
        EscapeNext(out, s, p, q, was, !restricted);
        if e < 5 {
          out := out + s[p..q];
          out := out + ("&" + StrPair.ENTITIES[e].0 + ";");
          p := q + 1;
        }
        q := q + 1;
      }
      assert s[..q] == s;
      out := out + s[p..q];
    }

    method SealElementIfJustOpened()
      modifies this`out, this`elementJustOpened
      ensures out == old(out) + old(Owed()) && !elementJustOpened
    {
      if elementJustOpened {
        elementJustOpened := false;
        out := out + ">";
      }
    }

    method PrepareForNewNode()
      modifies this`out, this`elementJustOpened, this`firstElement
      ensures out == old(out) + old(Owed()) + Lead(compact, old(View())) && !elementJustOpened
      ensures View() == Led(compact, old(View()))
    {
      SealElementIfJustOpened();
      if compact { return; }
      if firstElement {
        PrintSpace(depth);
      } else if textDepth < 0 {
        out := out + "\n";
        PrintSpace(depth);
      }
      firstElement := false;
    }

    method OpenElement(name: string)
      modifies this
      ensures out == old(out) + old(Owed()) + Lead(compact, old(View())) + ("<" + name)
      ensures elementJustOpened && stack == old(stack) + [name]
      ensures View() == Led(compact, old(View())).(depth := old(depth) + 1)
    {
      PrepareForNewNode();
      stack := stack + [name];
      out := out + ("<" + name);
      elementJustOpened := true;
      depth := depth + 1;
    }

    method PushAttribute(a: Attribute)
      requires elementJustOpened
      modifies this`out
      ensures out == old(out) + PrintAttr(a)
    {
      hide Escaping.Escape;
      ghost var open, value := " " + a.name + "=\"", Escaping.Escape(a.value, true);
      Associate(out + open, value, "\"");
      Associate(out, open, value + "\"");
      out := out + (" " + a.name + "=\"");
      PrintString(a.value, false);
      out := out + "\"";
    }

    method CloseElement()
      requires depth > 0 && stack != []
      modifies this
      ensures var name, d := old(stack)[|old(stack)| - 1], old(depth) - 1;
              && out == old(out) + Ending(compact, old(elementJustOpened), old(textDepth), d, name)
              && View() == Left(old(View()), d)
      ensures !elementJustOpened && stack == old(stack)[..|old(stack)| - 1]
    {
      hide Indent;
      depth := depth - 1;
      var name := stack[|stack| - 1];
      stack := stack[..|stack| - 1];
      ghost var was := out;
      if elementJustOpened {
        out := out + "/>";
      } else {
        PrintCloseLead();
        Associate(was, CloseLead(compact, textDepth, depth), EndTag(name));
        out := out + EndTag(name);
      }
      ghost var shut := if elementJustOpened then "/>" else CloseLead(compact, textDepth, depth) + EndTag(name);
      if textDepth == depth {
        textDepth := -1;
      }
      Associate(was, shut, Tail(compact, depth));
      if depth == 0 && !compact {
        out := out + "\n";
      }
      elementJustOpened := false;
    }

    method PrintCloseLead()
      modifies this`out
      ensures out == old(out) + CloseLead(compact, textDepth, depth)
    {
      if textDepth < 0 && !compact {
        Associate(out, "\n", Indent(depth));
        out := out + "\n";
        PrintSpace(depth);
      }
    }

    method PushText(text: string, cdata: bool)
      modifies this`out, this`elementJustOpened, this`textDepth
      ensures out == old(out) + old(Owed()) + Leaf(Text(text, cdata)) && !elementJustOpened
      ensures View() == old(View()).(textDepth := depth - 1)
    {
      textDepth := depth - 1;
      SealElementIfJustOpened();
      if cdata {
        out := out + ("<![CDATA[" + text + "]]>");
      } else {
        PrintString(text, true);
      }
    }

    method PushMarkup(t: Tree)
      requires !t.Element? && !t.Text?
      modifies this`out, this`elementJustOpened, this`firstElement
      ensures out == old(out) + old(Owed()) + (Lead(compact, old(View())) + Leaf(t)) && !elementJustOpened
      ensures View() == Led(compact, old(View()))
    {
      hide Indent;
      Associate(out + Owed(), Lead(compact, View()), Leaf(t));
      PrepareForNewNode();
      match t
      case Comment(v) => out := out + ("<!--" + v + "-->");
      case Declaration(v) => out := out + ("<?" + v + "?>");
      case Unknown(v) => out := out + ("<!" + v + ">");
    }

    /** `Accept`: visiting a node prints it and leaves the stack as it was. */
    method Accept(t: Tree)
      modifies this
      ensures var r := PrintTree(compact, old(View()), t);
              out == old(out) + old(Owed()) + r.text && View() == r.st
      ensures !elementJustOpened && stack == old(stack)
      decreases t, 1
    {
      match t
      case Element(name, attrs, kids) =>
        AcceptElement(name, attrs, kids);
      case Text(v, cdata) => PushText(v, cdata);
      case _ => PushMarkup(t);
    }

    method AcceptElement(name: string, attrs: seq<Attribute>, kids: seq<Tree>)
      modifies this
      ensures var r := PrintTree(compact, old(View()), Element(name, attrs, kids));
              out == old(out) + old(Owed()) + r.text && View() == r.st
      ensures !elementJustOpened && stack == old(stack)
      decreases kids, 2
    {
      hide Lead, Ending, PrintAttrs, PrintAll;
      ghost var st := View();
      ghost var a, lead := out + Owed(), Lead(compact, st);
      ghost var inside := Led(compact, st).(depth := st.depth + 1);
      ghost var body := PrintAll(compact, inside, kids);
      ghost var ending := Ending(compact, kids == [], body.st.textDepth, st.depth, name);
      OpenElement(name);
      PushAttributes(attrs);
      AcceptAll(kids);
      CloseElement();
      assert body.st.depth == inside.depth;
      Regroup(a, lead, "<" + name, PrintAttrs(attrs), if kids == [] then "" else ">", body.text, ending);
    }

    method PushAttributes(attrs: seq<Attribute>)
      requires elementJustOpened
      modifies this`out
      ensures out == old(out) + PrintAttrs(attrs)
    {
      var i := 0;
      ghost var was := out;
      hide PrintAttr;
      while i < |attrs|
        invariant 0 <= i <= |attrs|
        invariant out == was + PrintAttrs(attrs[..i])
      {
        Associate(was, PrintAttrs(attrs[..i]), PrintAttr(attrs[i]));
        assert attrs[..i + 1] == attrs[..i] + [attrs[i]];
        PrintAttrsAppend(attrs[..i], attrs[i]);
        PushAttribute(attrs[i]);
        i := i + 1;
      }
      assert attrs[..i] == attrs;
    }

    method AcceptAll(ts: seq<Tree>)
      modifies this
      ensures var r := PrintAll(compact, old(View()), ts);
              out == old(out) + (if ts == [] then "" else old(Owed())) + r.text && View() == r.st
      ensures stack == old(stack) && elementJustOpened == (ts == [] && old(elementJustOpened))
      decreases ts, 0
    {
      var i := 0;
      hide PrintTree, PrintAll;
      ghost var was, owed, st := out, Owed(), View();
      assert ts[..0] == [];
      PrintNone(compact, st);
      while i < |ts|
        invariant 0 <= i <= |ts|
        invariant var r := PrintAll(compact, st, ts[..i]);
                  out == was + (if i == 0 then "" else owed) + r.text && View() == r.st
        invariant stack == old(stack) && elementJustOpened == (i == 0 && old(elementJustOpened))
      {
        ghost var r := PrintAll(compact, st, ts[..i]);
        assert ts[..i + 1] == ts[..i] + [ts[i]];
        PrintAllAppend(compact, st, ts[..i], ts[i]);
        assert i == 0 ==> r.text == "" by { assert ts[..0] == []; PrintNone(compact, st); }
        Associate(was + owed, r.text, PrintTree(compact, r.st, ts[i]).text);
        Accept(ts[i]);
        i := i + 1;
      }
      assert ts[..i] == ts;
    }

    /** `XMLDocument::Accept` on a fresh printer. */
    method AcceptDocument(bom: bool, nodes: seq<Tree>)
      requires out == "" && !elementJustOpened && View() == PState(depth, -1, true)
      modifies this
      ensures out == PrintDocument(compact, old(depth), bom, nodes)
    {
      hide PrintAll;
      if bom {
        out := out + XmlChars.BOM;
      }
      ghost var head := out;
      AcceptAll(nodes);
      assert out == head + PrintAll(compact, PState(old(depth), -1, true), nodes).text;
    }
  }
}
