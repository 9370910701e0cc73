/** Small notions shared by the other modules. */
module Collections {
  datatype Option<T> = None | Some(value: T)

  predicate Distinct<T(==)>(s: seq<T>) {
    forall i, j :: 0 <= i < j < |s| ==> s[i] != s[j]
  }

  function Elems<T(==)>(s: seq<T>): set<T> {
    set x | x in s
  }

  /** A sequence without repetition has as many elements as its set. */
  lemma {:induction false} CountDistinct<T>(s: seq<T>)
    requires Distinct(s)
    ensures |Elems(s)| == |s|
  {
    if s == [] {
    } else {
      CountDistinct(s[1..]);
      assert Elems(s) == Elems(s[1..]) + {s[0]} && s[0] !in Elems(s[1..]);
    }
  }

  lemma CountUnion<T>(a: set<T>, s: seq<T>)
    requires Distinct(s) && a !! Elems(s)
    ensures |a + Elems(s)| == |a| + |s|
  {
    CountDistinct(s);
  }

  lemma HeadAndRest<T>(s: seq<T>)
    requires Distinct(s) && s != []
    ensures Distinct(s[1..]) && Elems(s) == {s[0]} + Elems(s[1..])
  {
    assert s == [s[0]] + s[1..];
  }

  /** What satisfies `p` comes before everything that does not. */
  predicate Leading<T>(s: seq<T>, p: T -> bool) {
    forall i, j :: 0 <= i < j < |s| && p(s[j]) ==> p(s[i])
  }

  lemma Associate<T>(a: seq<T>, b: seq<T>, c: seq<T>)
    ensures a + b + c == a + (b + c)
  {
  }

  lemma SliceTwice<T>(s: seq<T>, a: nat, b: nat, c: nat, d: nat)
    requires a <= b <= |s| && c <= d <= b - a
    ensures s[a..b][c..d] == s[a + c..a + d]
  {
    forall i | 0 <= i < d - c
      ensures s[a..b][c..d][i] == s[a + c..a + d][i]
    {
    }
  }

  lemma PrefixSlice<T>(s: seq<T>, p: nat, a: nat, b: nat)
    requires a <= b <= p <= |s|
    ensures s[..p][a..b] == s[a..b]
  {
    assert s[..p] == s[0..p];
    SliceTwice(s, 0, p, a, b);
  }

  lemma ConcatSlice<T>(s: seq<T>, t: seq<T>, a: nat, b: nat)
    requires a <= b <= |s|
    ensures (s + t)[a..b] == s[a..b]
  {
    forall i | 0 <= i < b - a
      ensures (s + t)[a..b][i] == s[a..b][i]
    {
    }
  }
}
