/**
  Line ends.  Decoding turns each of them into a single LF: texts that are lines with ends of any kind
  between them decode to the same lines with LFs between them.
  */
module LineEnds {
  import opened Collections
  import opened XmlChars
  import opened StrPair
  import opened Escaping

  /** What ends a line. */
  predicate IsEnd(e: string) {
    e == "\r\n" || e == "\n\r" || e == "\r" || e == "\n"
  }

  predicate IsLine(l: string) {
    Free(l, CR) && Free(l, LF)
  }

  /** CR directly before LF, or the other way round, is one line end and not two. */
  predicate Apart(e: string, rest: string) {
    (e == "\r" ==> At(rest, 0) != LF) && (e == "\n" ==> At(rest, 0) != CR)
  }

  function Spell(lines: seq<string>, ends: seq<string>): string
    requires |lines| == |ends| + 1
  {
    if ends == [] then lines[0] else lines[0] + (ends[0] + Spell(lines[1..], ends[1..]))
  }

  function Join(lines: seq<string>): string
    requires lines != []
  {
    if |lines| == 1 then lines[0] else lines[0] + ([LF] + Join(lines[1..]))
  }

  /** Lines with their ends, none of which could be read as one with the next. */
  predicate IsText(lines: seq<string>, ends: seq<string>) {
    && |lines| == |ends| + 1 && IsLine(lines[0])
    && (ends != [] ==>
          && IsEnd(ends[0]) && Apart(ends[0], Spell(lines[1..], ends[1..]))
          && IsText(lines[1..], ends[1..]))
  }

  /** What decoding makes of line ends, character by character. */
  function Normalize(s: string): string {
    if s == "" then ""
    else if StartsAt(s, 0, "\r\n") || StartsAt(s, 0, "\n\r") then [LF] + Normalize(s[2..])
    else if s[0] == CR then [LF] + Normalize(s[1..])
    else [s[0]] + Normalize(s[1..])
  }

  lemma {:induction false} NormalizeLine(l: string, rest: string)
    requires IsLine(l)
    ensures Normalize(l + rest) == l + Normalize(rest)
  {
    hide Normalize;
    if l == "" {
      assert l + rest == rest;
    } else {
      var s := l + rest;
      assert s[0] == l[0] && s[1..] == l[1..] + rest;
      NormalizeChar(s);
      NormalizeLine(l[1..], rest);
      assert l == [l[0]] + l[1..];
    }
  }

  lemma NormalizeChar(s: string)
    requires s != "" && s[0] != CR && s[0] != LF
    ensures Normalize(s) == [s[0]] + Normalize(s[1..])
  {
    if |s| >= 2 {
      assert s[0..2][0] == s[0];
    }
  }

  lemma NormalizeEnd(e: string, rest: string)
    requires IsEnd(e) && Apart(e, rest)
    ensures Normalize(e + rest) == [LF] + Normalize(rest)
  {
    var s := e + rest;
    if |e| == 2 {
      assert s[0..2] == e && s[2..] == rest;
    } else {
      assert s[0] == e[0] && s[1..] == rest;
      if |s| >= 2 {
        assert s[0..2][0] == e[0] && s[0..2][1] == rest[0];
      }
    }
  }

  lemma {:induction false} NormalizeText(lines: seq<string>, ends: seq<string>)
    requires IsText(lines, ends)
    ensures Normalize(Spell(lines, ends)) == Join(lines)
    decreases |ends|
  {
    hide Normalize, IsEnd, IsLine;
    if ends == [] {
      NormalizeLine(lines[0], "");
      assert lines[0] + "" == lines[0] && Normalize("") == "" by { NormalizeNone(); }
    } else {
      var rest := Spell(lines[1..], ends[1..]);
      NormalizeText(lines[1..], ends[1..]);
      NormalizeEnd(ends[0], rest);
      NormalizeLine(lines[0], ends[0] + rest);
    }
  }

  lemma NormalizeNone()
    ensures Normalize("") == ""
  {
  }

  /** Every string is such a text. */
  lemma {:induction false} EveryText(s: string) returns (lines: seq<string>, ends: seq<string>)
    ensures IsText(lines, ends) && Spell(lines, ends) == s
    decreases |s|
  {
    if s == "" {
      lines, ends := [""], [];
    } else {
      var e := EndAt(s);
      if e != "" {
        var ls, es := EveryText(s[|e|..]);
        lines, ends := [""] + ls, [e] + es;
        assert lines[1..] == ls && ends[1..] == es && s == e + s[|e|..];
      } else {
        var ls, es := EveryText(s[1..]);
        lines, ends := FirstLonger(s[0], s[1..], ls, es);
      }
    }
  }

  /** The line end a string starts with. */
  function EndAt(s: string): (e: string)
    requires s != ""
    ensures e != "" ==> IsEnd(e) && |e| <= |s| && s[..|e|] == e && Apart(e, s[|e|..])
    ensures e == "" ==> s[0] != CR && s[0] != LF
  {
    if |s| >= 2 && (s[..2] == "\r\n" || s[..2] == "\n\r") then s[..2]
    else if s[0] == CR || s[0] == LF then
      assert s[..1] == [s[0]];
      assert |s| >= 2 ==> s[..2] == [s[0], s[1]];
      [s[0]]
    else ""
  }

  lemma FirstLonger(c: char, rest: string, ls: seq<string>, es: seq<string>)
    returns (lines: seq<string>, ends: seq<string>)
    requires IsText(ls, es) && Spell(ls, es) == rest && c != CR && c != LF
    ensures IsText(lines, ends) && Spell(lines, ends) == [c] + rest
  {
    lines, ends := [[c] + ls[0]] + ls[1..], es;
    assert lines[1..] == ls[1..];
    if es != [] {
      Associate([c], ls[0], es[0] + Spell(ls[1..], es[1..]));
    }
  }

  // ----- decoding -----

  /** Nothing in `s` is an entity under `f`. */
  predicate NoEntities(s: string, f: Flags) {
    !f.entities || Free(s, '&')
  }

  lemma {:induction false} DecodeFromNormalizes(s: string, i: nat, out: string, f: Flags)
    requires |out| <= i <= |s| && f.newlines && NoEntities(s, f)
    ensures DecodeFrom(s, i, out, f) == out + Normalize(s[i..])
    decreases |s| - i
  {
    hide CharRef, EntityAt, Normalize;
    if i == |s| {
      assert s[i..] == "";
      NormalizeNone();
    } else {
      var t := TokenAt(s, i, f);
      TokenNormalizes(s, i, f);
      DecodeFromNormalizes(s, t.next, out + t.bytes, f);
      Associate(out, t.bytes, Normalize(s[t.next..]));
    }
  }

  lemma TokenNormalizes(s: string, i: nat, f: Flags)
    requires i < |s| && f.newlines && NoEntities(s, f)
    ensures var t := TokenAt(s, i, f); t.Emit? && Normalize(s[i..]) == t.bytes + Normalize(s[t.next..])
  {
    hide CharRef, EntityAt;
    var r := s[i..];
    assert r[0] == s[i] && r[1..] == s[i + 1..];
    if i + 1 < |s| {
      assert r[0..2] == [s[i], s[i + 1]] && r[2..] == s[i + 2..];
    }
  }

  /** Line by line: whatever the line ends were, decoding leaves single LFs. */
  lemma DecodeLines(lines: seq<string>, ends: seq<string>, f: Flags)
    requires IsText(lines, ends) && f.newlines && NoEntities(Spell(lines, ends), f)
    ensures Decode(Spell(lines, ends), f) == Join(lines)
  {
    var s := Spell(lines, ends);
    DecodeFromNormalizes(s, 0, "", f);
    assert s[0..] == s && "" + Normalize(s) == Normalize(s);
    NormalizeText(lines, ends);
  }

  lemma {:induction false} JoinFree(lines: seq<string>, ends: seq<string>)
    requires IsText(lines, ends)
    ensures Free(Join(lines), CR)
    decreases |ends|
  {
    if ends == [] {
    } else {
      JoinFree(lines[1..], ends[1..]);
    }
  }

  /** No CR is left. */
  lemma DecodedFree(s: string, f: Flags)
    requires f.newlines && NoEntities(s, f)
    ensures Free(Decode(s, f), CR)
  {
    var lines, ends := EveryText(s);
    DecodeLines(lines, ends, f);
    JoinFree(lines, ends);
  }

  // ----- escaped text -----

  /** Line ends are printed as they are. */
  lemma EscapeEnd(t: string, full: bool)
    requires t != "" && (t[0] == CR || t[0] == LF)
    ensures Escape(t, full) == [t[0]] + Escape(t[1..], full)
  {
    hide Escape;
    assert EscapeChar(t[0], full) == [t[0]];
    EscapeFirst(t, full);
  }

  lemma EscapeFirst(t: string, full: bool)
    requires t != ""
    ensures Escape(t, full) == EscapeChar(t[0], full) + Escape(t[1..], full)
  {
    hide EscapeChar;
  }

  lemma FirstIsEnd(t: string, full: bool)
    requires At(Escape(t, full), 0) in {CR, LF}
    ensures t != "" && t[0] == Escape(t, full)[0]
  {
    if t == "" {
      EscapeEmpty(full);
    } else {
      hide Escape;
      EscapeFirst(t, full);
    }
  }

  lemma EscapeEnds(t: string, full: bool)
    requires t != "" && (t[0] == CR || t[0] == LF)
    ensures Escape(t, full) == [t[0]] + Escape(t[1..], full)
    ensures |t| > 1 && (t[1] == CR || t[1] == LF) ==> Escape(t, full) == t[..2] + Escape(t[2..], full)
    ensures At(Escape(t[1..], full), 0) in {CR, LF} ==> |t| > 1 && At(Escape(t[1..], full), 0) == t[1]
  {
    hide Escape;
    EscapeEnd(t, full);
    if |t| > 1 && (t[1] == CR || t[1] == LF) {
      EscapeEnd(t[1..], full);
      assert t[1..][1..] == t[2..] && t[..2] == [t[0]] + [t[1]];
      Associate([t[0]], [t[1]], Escape(t[2..], full));
    }
    if At(Escape(t[1..], full), 0) in {CR, LF} {
      FirstIsEnd(t[1..], full);
    }
  }

  /** How long the line end at the head of `t` is. */
  function EndLength(t: string): nat
    requires t != ""
  {
    if |t| > 1 && ((t[0] == CR && t[1] == LF) || (t[0] == LF && t[1] == CR)) then 2 else 1
  }

  lemma NormalizeHead(t: string)
    requires t != "" && (t[0] == CR || t[0] == LF)
    ensures Normalize(t) == [LF] + Normalize(t[EndLength(t)..])
  {
    if |t| > 1 {
      assert t[0..2] == [t[0], t[1]];
    }
  }

  lemma EscapedEnd(t: string, full: bool)
    requires t != "" && (t[0] == CR || t[0] == LF)
    ensures var e, n := Escape(t, full), EndLength(t);
            && n <= |e| && e[0] == t[0] && (n == 2 <==> EndLength(e) == 2) && e[n..] == Escape(t[n..], full)
  {
    hide Escape;
    EscapeEnds(t, full);
    var e := Escape(t, full);
    assert e[1..] == Escape(t[1..], full);
    assert At(e[1..], 0) == At(e, 1);
    if EndLength(t) == 2 {
      assert e[..2] == t[..2] && e[0] == e[..2][0] && e[1] == e[..2][1];
      assert e[2..] == Escape(t[2..], full);
    }
  }

  lemma EndToken(s: string, i: nat, t: string, full: bool)
    requires i <= |s| && s[i..] == Escape(t, full) && t != "" && (t[0] == CR || t[0] == LF)
    ensures i < |s|
    ensures var k := TokenAt(s, i, TEXT);
            && k.Emit? && k.bytes == [LF] && 1 <= k.next - i <= |t|
            && s[k.next..] == Escape(t[k.next - i..], full) && Normalize(t) == [LF] + Normalize(t[k.next - i..])
  {
    hide Escape, CharRef, EntityAt, Normalize;
    EscapedEnd(t, full);
    NormalizeHead(t);
    var e, n := s[i..], EndLength(t);
    assert s[i] == e[0] && At(s, i + 1) == At(e, 1);
    assert e[n..] == s[i + n..];
  }

  lemma {:induction false} UnescapeLines(s: string, i: nat, k: nat, t: string, full: bool)
    requires k <= i <= |s| && s[i..] == Escape(t, full)
    ensures PlainFrom(s, i, TEXT) == Normalize(t)
    ensures KeepsInPlace(s, i, k, TEXT)
    decreases |t|
  {
    hide TokenAt, EscapeChar, Normalize, PlainFrom, KeepsInPlace;
    if t == "" {
      assert i == |s|;
      NoMore(s, k, TEXT);
      NormalizeNone();
    } else if t[0] == CR || t[0] == LF {
      EndToken(s, i, t, full);
      var tok := TokenAt(s, i, TEXT);
      UnescapeLines(s, tok.next, k + 1, t[tok.next - i..], full);
      EmitStep(s, i, k, TEXT, tok.bytes, tok.next);
    } else {
      var e := EscapeChar(t[0], full);
      assert s[i..][|e|..] == s[i + |e|..] && s[i..i + |e|] == s[i..][..|e|];
      EscapedToken(s, i, t[0], full);
      UnescapeLines(s, i + |e|, k + 1, t[1..], full);
      EmitStep(s, i, k, TEXT, [t[0]], i + |e|);
      NormalizeChar(t);
    }
  }

  /**
    What `PrintString` emits, in either mode and for every string, decodes to the string with its line
    ends normalised.
    */
  lemma DecodeEscapeLines(t: string, full: bool)
    ensures Decode(Escape(t, full), TEXT) == Normalize(t)
  {
    var s := Escape(t, full);
    assert s[0..] == s;
    UnescapeLines(s, 0, 0, t, full);
    DecodeIsPlainIff(s, TEXT);
  }
}
