/**
  Byte-level helpers shared by the XML modules.  A parse buffer is a `string` whose characters
  stand for the bytes of the C buffer; the terminating NUL is implicit (`At` yields NUL past the end).
  */
module XmlChars {
  const NUL: char := '\0'
  const LF: char := '\n'
  const CR: char := '\r'

  /** The UTF-8 byte order mark. */
  const BOM: string := "\U{EF}\U{BB}\U{BF}"

  /** `*(s + i)` on a NUL-terminated buffer. */
  function At(s: string, i: nat): char {
    if i < |s| then s[i] else NUL
  }

  /** `strncmp(s + i, t, |t|) == 0`. */
  predicate StartsAt(s: string, i: nat, t: string) {
    i + |t| <= |s| && s[i..i + |t|] == t
  }

  lemma StartsAtConcat(s: string, i: nat, a: string, b: string)
    ensures StartsAt(s, i, a + b) <==> StartsAt(s, i, a) && StartsAt(s, i + |a|, b)
  {
    if i + |a| + |b| <= |s| {
      var whole := s[i..i + |a + b|];
      assert whole == s[i..i + |a|] + s[i + |a|..i + |a| + |b|];
      assert whole[..|a|] == s[i..i + |a|] && whole[|a|..] == s[i + |a|..i + |a| + |b|];
      assert (a + b)[..|a|] == a && (a + b)[|a|..] == b;
    }
  }

  lemma StartsAtIndex(s: string, i: nat, t: string, k: nat)
    requires StartsAt(s, i, t) && k < |t|
    ensures s[i + k] == t[k] && At(s, i + k) == t[k]
  {
    assert s[i..i + |t|][k] == t[k];
  }

  /** Where `strchr(s + i, c)` stops: the first `c` before any NUL, or `|s|` when there is none. */
  function FindChar(s: string, i: nat, c: char): (k: nat)
    requires i <= |s|
    ensures i <= k <= |s|
    ensures k < |s| ==> s[k] == c
    ensures forall j :: i <= j < k && k < |s| ==> s[j] != c && s[j] != NUL
    decreases |s| - i
  {
    if i == |s| || s[i] == c then i
    else if s[i] == NUL then |s|
    else FindChar(s, i + 1, c)
  }
}
