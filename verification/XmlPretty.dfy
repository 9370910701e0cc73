/**
  The layout of printed documents, said without the printer's counters.  A compact document is its markup and
  nothing else.  Otherwise every tag begins a line of its own, four spaces for each level deep, except where
  text keeps it on the line.
  */
module XmlPretty {
  import opened XmlTree
  import opened XmlPrinter
  import opened XmlChars
  import Collections
  import Escaping

  // ----- compact -----

  function Flat(t: Tree): string
    decreases t, 1
  {
    match t
    case Element(name, attrs, kids) =>
      "<" + name + PrintAttrs(attrs) + if kids == [] then "/>" else ">" + FlatAll(kids) + ("</" + name + ">")
    case Text(v, cdata) => if cdata then "<![CDATA[" + v + "]]>" else Escaping.Escape(v, false)
    case Comment(v) => "<!--" + v + "-->"
    case Declaration(v) => "<?" + v + "?>"
    case Unknown(v) => "<!" + v + ">"
  }

  function FlatAll(ts: seq<Tree>): string
    decreases ts, 0
  {
    if ts == [] then "" else Flat(ts[0]) + FlatAll(ts[1..])
  }

  lemma {:induction false} CompactIsFlat(st: PState, t: Tree)
    ensures PrintTree(true, st, t).text == Flat(t)
    decreases t, 1
  {
    hide PrintAttrs, Escaping.Escape;
    if t.Element? {
      var inside := st.(depth := st.depth + 1);
      CompactAllIsFlat(inside, t.kids);
      hide PrintAll, FlatAll;
      assert t.kids == [] ==> PrintAll(true, inside, t.kids).text == "" by { PrintNone(true, inside); }
    }
  }

  lemma {:induction false} CompactAllIsFlat(st: PState, ts: seq<Tree>)
    ensures PrintAll(true, st, ts).text == FlatAll(ts)
    decreases ts, 0
  {
    hide PrintTree, Flat;
    if ts == [] {
    } else {
      CompactIsFlat(st, ts[0]);
      CompactAllIsFlat(PrintTree(true, st, ts[0]).st, ts[1..]);
    }
  }

  /** A compact document: the byte order mark if asked for, and the markup without a byte between. */
  lemma CompactDocument(depth: nat, bom: bool, ts: seq<Tree>)
    ensures PrintDocument(true, depth, bom, ts) == (if bom then BOM else "") + FlatAll(ts)
  {
    CompactAllIsFlat(PState(depth, -1, true), ts);
  }

  // ----- indented -----

  /** Whether the next tag goes on a new line: yes, or no because of text around or text beside it. */
  datatype Ink = Clear | Around | Beside

  function Inside(ink: Ink): Ink {
    if ink == Clear then Clear else Around
  }

  /**
    What a node leaves to those behind it.  Text keeps them on the line; an element that holds text itself
    starts them on a new one; anything else changes nothing.
    */
  function After(ink: Ink, depth: nat, t: Tree): Ink
    decreases t, 1
  {
    match t
    case Element(_, _, kids) => if AfterAll(Inside(ink), depth + 1, kids) == Around then ink else Clear
    case Text(_, _) => if depth == 0 then Clear else Beside
    case _ => ink
  }

  function AfterAll(ink: Ink, depth: nat, ts: seq<Tree>): Ink
    decreases ts, 0
  {
    if ts == [] then ink else AfterAll(After(ink, depth, ts[0]), depth, ts[1..])
  }

  function Margin(depth: nat): string {
    seq(4 * depth, _ => ' ')
  }

  function NewLine(ink: Ink, depth: nat): string {
    if ink == Clear then "\n" + Margin(depth) else ""
  }

  /** Only the very first tag has a margin and no line break before it. */
  function Before(ink: Ink, depth: nat, first: bool): string {
    if first then Margin(depth) else NewLine(ink, depth)
  }

  function Pretty(ink: Ink, depth: nat, first: bool, t: Tree): string
    decreases t, 1
  {
    match t
    case Element(name, attrs, kids) =>
      var end := if depth == 0 then "\n" else "";
      Before(ink, depth, first) + ("<" + name + PrintAttrs(attrs))
      + if kids == [] then "/>" + end
        else ">" + PrettyAll(Inside(ink), depth + 1, false, kids)
             + (NewLine(AfterAll(Inside(ink), depth + 1, kids), depth) + ("</" + name + ">") + end)
    case Text(_, _) => Flat(t)
    case _ => Before(ink, depth, first) + Flat(t)
  }

  function PrettyAll(ink: Ink, depth: nat, first: bool, ts: seq<Tree>): string
    decreases ts, 0
  {
    if ts == [] then ""
    else Pretty(ink, depth, first, ts[0])
         + PrettyAll(After(ink, depth, ts[0]), depth, first && ts[0].Text?, ts[1..])
  }

  // ----- the printer's counters -----

  predicate Counted(st: PState) {
    -1 <= st.textDepth && (st.textDepth < st.depth || st.textDepth == -1)
  }

  function InkOf(st: PState): Ink {
    if st.textDepth < 0 then Clear else if st.textDepth == st.depth - 1 then Beside else Around
  }

  lemma {:induction false} MarginIs(depth: nat)
    ensures Indent(depth) == Margin(depth)
  {
    if depth == 0 {
    } else {
      MarginIs(depth - 1);
      assert Margin(depth) == "    " + Margin(depth - 1);
    }
  }

  lemma {:induction false} PrettyIs(st: PState, t: Tree)
    requires Counted(st)
    ensures var r := PrintTree(false, st, t);
            && r.text == Pretty(InkOf(st), st.depth, st.first, t)
            && Counted(r.st) && InkOf(r.st) == After(InkOf(st), st.depth, t)
            && r.st.first == (st.first && t.Text?)
            && (InkOf(r.st) == Around ==> r.st.textDepth == st.textDepth)
    decreases t, 1
  {
    hide PrintAttrs, Escaping.Escape, Indent, Margin;
    MarginIs(st.depth);
    if t.Element? {
      var inside := Led(false, st).(depth := st.depth + 1);
      PrettyAllIs(inside, t.kids);
      ElementText(st, t);
      ElementState(st, t);
    }
  }

  /** An element, once its children are known to be printed so. */
  lemma ElementText(st: PState, t: Tree)
    requires Counted(st) && t.Element?
    requires var inside := Led(false, st).(depth := st.depth + 1);
             var r := PrintAll(false, inside, t.kids);
             && r.text == PrettyAll(Inside(InkOf(st)), st.depth + 1, false, t.kids)
             && InkOf(r.st) == AfterAll(Inside(InkOf(st)), st.depth + 1, t.kids)
    ensures PrintTree(false, st, t).text == Pretty(InkOf(st), st.depth, st.first, t)
  {
    hide PrintAttrs, Indent, Margin, PrettyAll, AfterAll;
    MarginIs(st.depth);
    var inside := Led(false, st).(depth := st.depth + 1);
    if t.kids == [] {
      PrintNone(false, inside);
      hide PrintAll, InkOf, Lead, Before;
      assert Lead(false, st) == Before(InkOf(st), st.depth, st.first) by { LeadIs(st); }
      var close := Ending(false, true, inside.textDepth, st.depth, t.name);
      assert "" + "" + close == close;
    } else {
      hide PrintAll;
    }
  }

  lemma LeadIs(st: PState)
    ensures Lead(false, st) == Before(InkOf(st), st.depth, st.first)
  {
    MarginIs(st.depth);
    hide Indent, Margin;
  }

  lemma ElementState(st: PState, t: Tree)
    requires Counted(st) && t.Element?
    requires var inside := Led(false, st).(depth := st.depth + 1);
             var r := PrintAll(false, inside, t.kids);
             && Counted(r.st) && InkOf(r.st) == AfterAll(Inside(InkOf(st)), st.depth + 1, t.kids)
             && (InkOf(r.st) == Around ==> r.st.textDepth == inside.textDepth)
    ensures var r := PrintTree(false, st, t);
            && Counted(r.st) && InkOf(r.st) == After(InkOf(st), st.depth, t)
            && r.st.first == (st.first && t.Text?)
            && (InkOf(r.st) == Around ==> r.st.textDepth == st.textDepth)
  {
    hide PrintAttrs, PrintAll, AfterAll, Ending, Lead;
  }

  lemma {:induction false} PrettyAllIs(st: PState, ts: seq<Tree>)
    requires Counted(st)
    ensures var r := PrintAll(false, st, ts);
            && r.text == PrettyAll(InkOf(st), st.depth, st.first, ts)
            && Counted(r.st) && InkOf(r.st) == AfterAll(InkOf(st), st.depth, ts)
            && (InkOf(r.st) == Around ==> r.st.textDepth == st.textDepth)
    decreases ts, 0
  {
    hide PrintTree, Pretty, After;
    if ts == [] {
    } else {
      PrettyIs(st, ts[0]);
      PrettyAllIs(PrintTree(false, st, ts[0]).st, ts[1..]);
    }
  }

  /** An indented document, printed from any depth. */
  lemma IndentedDocument(depth: nat, bom: bool, ts: seq<Tree>)
    ensures PrintDocument(false, depth, bom, ts) == (if bom then BOM else "") + PrettyAll(Clear, depth, true, ts)
  {
    PrettyAllIs(PState(depth, -1, true), ts);
  }
}
