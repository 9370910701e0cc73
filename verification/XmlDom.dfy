/**
  The linked document tree: nodes with parent, sibling and child pointers, and the document's list
  of nodes that are not in the tree.  `Forest` states what the pointers mean; it is a property of a
  snapshot `h` of all pointer fields, which the methods below keep equal to the fields themselves.
  */
module XmlDom {
  import opened Collections

  class Node {
    var parent: Node?
    var first: Node?
    var last: Node?
    var prev: Node?
    var next: Node?

    constructor ()
      ensures parent == null && first == null && last == null && prev == null && next == null
    {
      parent, first, last, prev, next := null, null, null, null, null;
    }
  }

  /** The pointer fields of one node. */
  datatype Links = Links(parent: Node?, first: Node?, last: Node?, prev: Node?, next: Node?)

  type Store = map<Node, Links>

  const ALONE := Links(null, null, null, null, null)

  function At(ks: seq<Node>, i: int): Node? {
    if 0 <= i < |ks| then ks[i] else null
  }

  predicate In(h: Store, ks: seq<Node>) {
    forall i :: 0 <= i < |ks| ==> ks[i] in h
  }

  /** The children of `p` are exactly `ks`, doubly linked in that order. */
  ghost predicate ListOk(h: Store, p: Node, ks: seq<Node>) {
    && p in h && In(h, ks) && Distinct(ks)
    && h[p].first == At(ks, 0) && h[p].last == At(ks, |ks| - 1)
    && (forall i {:trigger h[ks[i]].parent} :: 0 <= i < |ks| ==> h[ks[i]].parent == p)
    && (forall i {:trigger h[ks[i]].prev} :: 0 <= i < |ks| ==> h[ks[i]].prev == At(ks, i - 1))
    && (forall i {:trigger h[ks[i]].next} :: 0 <= i < |ks| ==> h[ks[i]].next == At(ks, i + 1))
  }

  /** The same pointers seen from the list: only these matter to it. */
  lemma ListFrame(h: Store, h': Store, p: Node, ks: seq<Node>)
    requires ListOk(h, p, ks) && p in h' && In(h', ks)
    requires h'[p].first == h[p].first && h'[p].last == h[p].last
    requires forall k :: k in ks ==> h'[k].parent == h[k].parent && h'[k].prev == h[k].prev && h'[k].next == h[k].next
    ensures ListOk(h', p, ks)
  {
  }

  lemma ListFacts(h: Store, p: Node, ks: seq<Node>)
    requires ListOk(h, p, ks)
    ensures Distinct(ks) && forall k :: k in ks ==> k in h && h[k].parent == p
  {
  }

  /** What a document knows about its nodes besides their pointers. */
  datatype Shape = Shape(root: Node, live: set<Node>, kids: map<Node, seq<Node>>, rank: map<Node, nat>,
                         unlinked: seq<Node>, loose: set<Node>) {
    function Kids(n: Node): seq<Node> {
      if n in kids then kids[n] else []
    }
  }

  /**
    A live node is listed by its parent, which is nearer to a root; or it has no parent and is the
    document, in `unlinked`, or (inside an operation) in `loose` - exactly one of these.
    */
  ghost predicate Placed(h: Store, s: Shape, n: Node)
    requires n in h
  {
    var p := h[n].parent;
    if p == null then
      h[n].prev == null && h[n].next == null && (n == s.root || n in s.unlinked || n in s.loose)
    else
      && n != s.root && n !in s.unlinked && n !in s.loose
      && p in s.live && p in s.kids && n in s.kids[p]
      && n in s.rank && p in s.rank && s.rank[p] < s.rank[n]
  }

  ghost predicate Tidy(s: Shape) {
    && s.root in s.live && s.root !in s.unlinked && s.root !in s.loose && s.loose <= s.live
    && Distinct(s.unlinked) && (forall n :: n in s.unlinked ==> n in s.live && n !in s.loose)
    && s.live <= s.kids.Keys && s.live <= s.rank.Keys
    && (forall n, k :: n in s.live && k in s.kids[n] ==> k in s.live)
  }

  ghost predicate Forest(h: Store, s: Shape) {
    && Tidy(s) && s.live <= h.Keys
    && (forall n :: n in s.live ==> Placed(h, s, n))
    && (forall n :: n in s.live ==> ListOk(h, n, s.kids[n]))
  }

  // ----- taking a node out of its list -----

  /** `ks` without its `i`-th element. */
  function Drop<T>(ks: seq<T>, i: nat): seq<T>
    requires i < |ks|
  {
    ks[..i] + ks[i + 1..]
  }

  lemma DropKeeps(ks: seq<Node>, i: nat)
    requires i < |ks| && Distinct(ks)
    ensures forall k :: k in Drop(ks, i) <==> k in ks && k != ks[i]
  {
    forall k | k in ks && k != ks[i]
      ensures k in Drop(ks, i)
    {
      var j :| 0 <= j < |ks| && ks[j] == k;
      assert k == Drop(ks, i)[if j < i then j else j - 1];
    }
  }

  /** Child pointers change at `p` only, sibling and parent pointers in `ks` only. */
  ghost predicate SameElsewhere(h: Store, h': Store, p: Node, ks: seq<Node>) {
    && h'.Keys == h.Keys
    && (forall n :: n in h && n != p ==> h'[n].first == h[n].first && h'[n].last == h[n].last)
    && (forall n :: n in h && n !in ks ==>
          h'[n].parent == h[n].parent && h'[n].prev == h[n].prev && h'[n].next == h[n].next)
  }

  /** The neighbours of `ks[i]` have been joined. */
  ghost predicate Joined(h: Store, p: Node, ks: seq<Node>, i: nat)
    requires i < |ks|
  {
    && p in h && In(h, ks)
    && h[p].first == (if i == 0 then At(ks, 1) else ks[0])
    && h[p].last == (if i == |ks| - 1 then At(ks, |ks| - 2) else ks[|ks| - 1])
    && (forall j {:trigger h[ks[j]].parent} :: 0 <= j < |ks| && j != i ==> h[ks[j]].parent == p)
    && (forall j {:trigger h[ks[j]].prev} :: 0 <= j < |ks| && j != i ==>
          h[ks[j]].prev == if j == i + 1 then At(ks, i - 1) else At(ks, j - 1))
    && (forall j {:trigger h[ks[j]].next} :: 0 <= j < |ks| && j != i ==>
          h[ks[j]].next == if j == i - 1 then At(ks, i + 1) else At(ks, j + 1))
  }

  lemma JoinedIsDrop(h: Store, p: Node, ks: seq<Node>, i: nat)
    requires i < |ks| && Distinct(ks) && Joined(h, p, ks, i)
    ensures ListOk(h, p, Drop(ks, i))
  {
    var d := Drop(ks, i);
    forall j | 0 <= j < |d|
      ensures d[j] in h && h[d[j]].parent == p && h[d[j]].prev == At(d, j - 1) && h[d[j]].next == At(d, j + 1)
    {
      var o := if j < i then j else j + 1;
      assert d[j] == ks[o];
    }
  }

  function WithoutChild(s: Shape, child: Node, p: Node, i: nat): Shape
    requires p in s.kids && i < |s.kids[p]|
  {
    s.(kids := s.kids[p := Drop(s.kids[p], i)], loose := s.loose + {child})
  }

  lemma UnlinkPlaced(h: Store, h': Store, s: Shape, child: Node, p: Node, i: nat, n: Node)
    requires Forest(h, s) && p in s.live && i < |s.kids[p]| && s.kids[p][i] == child
    requires SameElsewhere(h, h', p, s.kids[p]) && Joined(h', p, s.kids[p], i)
    requires h'[child].parent == null && h'[child].prev == null && h'[child].next == null
    requires n in s.live
    ensures Placed(h', WithoutChild(s, child, p, i), n)
  {
    hide ListOk, Joined, Drop;
    var ks := s.kids[p];
    ListFacts(h, p, ks);
    DropKeeps(ks, i);
    hide Distinct;
    assert Placed(h, s, n) && Placed(h, s, child);
    if n in ks && n != child {
      JoinedParent(h', p, ks, i, n);
    }
  }

  lemma JoinedParent(h: Store, p: Node, ks: seq<Node>, i: nat, n: Node)
    requires i < |ks| && Joined(h, p, ks, i) && n in ks && n != ks[i]
    ensures n in h && h[n].parent == p
  {
    var j :| 0 <= j < |ks| && ks[j] == n;
    assert h[ks[j]].parent == p;
  }

  lemma UnlinkList(h: Store, h': Store, s: Shape, child: Node, p: Node, i: nat, n: Node)
    requires Forest(h, s) && p in s.live && i < |s.kids[p]| && s.kids[p][i] == child
    requires SameElsewhere(h, h', p, s.kids[p]) && Joined(h', p, s.kids[p], i)
    requires n in s.live
    ensures ListOk(h', n, WithoutChild(s, child, p, i).kids[n])
  {
    hide ListOk, Joined;
    var ks := s.kids[p];
    ListFacts(h, p, ks);
    if n == p {
      JoinedIsDrop(h', p, ks, i);
    } else {
      assert ListOk(h, n, s.kids[n]);
      ListFacts(h, n, s.kids[n]);
      assert forall k :: k in s.kids[n] ==> k !in ks;
      ListFrame(h, h', n, s.kids[n]);
    }
  }

  lemma UnlinkForest(h: Store, h': Store, s: Shape, child: Node, p: Node, i: nat)
    requires Forest(h, s) && p in s.live && i < |s.kids[p]| && s.kids[p][i] == child
    requires SameElsewhere(h, h', p, s.kids[p]) && Joined(h', p, s.kids[p], i)
    requires h'[child].parent == null && h'[child].prev == null && h'[child].next == null
    ensures Forest(h', WithoutChild(s, child, p, i))
  {
    hide ListOk, Joined, Placed;
    var s' := WithoutChild(s, child, p, i);
    ListFacts(h, p, s.kids[p]);
    DropKeeps(s.kids[p], i);
    assert Tidy(s') by { ChildIsNotRoot(h, s, child, p); }
    forall n | n in s.live
      ensures Placed(h', s', n) && ListOk(h', n, s'.kids[n])
    {
      UnlinkPlaced(h, h', s, child, p, i, n);
      UnlinkList(h, h', s, child, p, i, n);
    }
  }

  lemma ChildIsNotRoot(h: Store, s: Shape, child: Node, p: Node)
    requires Forest(h, s) && p in s.live && child in s.kids[p]
    ensures child in s.live && child != s.root && child !in s.unlinked && child !in s.loose && child != p
  {
    ListFacts(h, p, s.kids[p]);
    assert Placed(h, s, child);
  }

  // ----- putting a node into a list -----

  function Insert<T>(ks: seq<T>, i: nat, x: T): seq<T>
    requires i <= |ks|
  {
    ks[..i] + [x] + ks[i..]
  }

  lemma InsertAdds(ks: seq<Node>, i: nat, x: Node)
    requires i <= |ks| && Distinct(ks) && x !in ks
    ensures Distinct(Insert(ks, i, x)) && forall k :: k in Insert(ks, i, x) <==> k in ks || k == x
  {
    var r := Insert(ks, i, x);
    forall k | k in ks || k == x
      ensures k in r
    {
      if k == x {
        assert r[i] == x;
      } else {
        var j :| 0 <= j < |ks| && ks[j] == k;
        assert r[if j < i then j else j + 1] == k;
      }
    }
  }

  /** The pointers after `x` has been linked under `p` between `a` and `b`, node by node. */
  ghost function Linked(h: Store, p: Node, x: Node, a: Node?, b: Node?): Store {
    map n | n in h ::
      h[n].(parent := if n == x then p else h[n].parent,
            first := if n == p && a == null then x else h[n].first,
            last := if n == p && b == null then x else h[n].last,
            prev := if n == x then a else if n == b then x else h[n].prev,
            next := if n == x then b else if n == a then x else h[n].next)
  }

  lemma LinkedAt(h: Store, p: Node, ks: seq<Node>, i: nat, x: Node, o: nat)
    requires ListOk(h, p, ks) && i <= |ks| && x in h && x !in ks && p !in ks && p != x && o < |ks|
    ensures var h' := Linked(h, p, x, At(ks, i - 1), At(ks, i));
            && ks[o] in h' && h'[ks[o]].parent == p
            && h'[ks[o]].prev == (if o == i then x else At(ks, o - 1))
            && h'[ks[o]].next == (if o + 1 == i then x else At(ks, o + 1))
  {
    assert h[ks[o]].parent == p && h[ks[o]].prev == At(ks, o - 1) && h[ks[o]].next == At(ks, o + 1);
    assert ks[o] == At(ks, i) <==> o == i;
    assert ks[o] == At(ks, i - 1) <==> o == i - 1;
  }

  lemma LinkedIsInsert(h: Store, p: Node, ks: seq<Node>, i: nat, x: Node)
    requires ListOk(h, p, ks) && i <= |ks| && x in h && x !in ks && p !in ks && p != x
    ensures ListOk(Linked(h, p, x, At(ks, i - 1), At(ks, i)), p, Insert(ks, i, x))
  {
    hide Linked, Insert;
    InsertAdds(ks, i, x);
    LinkedEnds(h, p, ks, i, x);
    LinkedElements(h, p, ks, i, x);
  }

  lemma LinkedEnds(h: Store, p: Node, ks: seq<Node>, i: nat, x: Node)
    requires ListOk(h, p, ks) && i <= |ks| && x in h && x !in ks && p !in ks && p != x
    ensures var h', r := Linked(h, p, x, At(ks, i - 1), At(ks, i)), Insert(ks, i, x);
            p in h' && h'[p].first == At(r, 0) && h'[p].last == At(r, |r| - 1)
  {
  }

  lemma LinkedElements(h: Store, p: Node, ks: seq<Node>, i: nat, x: Node)
    requires ListOk(h, p, ks) && i <= |ks| && x in h && x !in ks && p !in ks && p != x
    ensures var h', r := Linked(h, p, x, At(ks, i - 1), At(ks, i)), Insert(ks, i, x);
            In(h', r) && forall j {:trigger h'[r[j]]} :: 0 <= j < |r| ==>
              h'[r[j]].parent == p && h'[r[j]].prev == At(r, j - 1) && h'[r[j]].next == At(r, j + 1)
  {
    hide ListOk;
    var h', r := Linked(h, p, x, At(ks, i - 1), At(ks, i)), Insert(ks, i, x);
    forall j | 0 <= j < |r|
      ensures r[j] in h' && h'[r[j]].parent == p && h'[r[j]].prev == At(r, j - 1) && h'[r[j]].next == At(r, j + 1)
    {
      if j != i {
        var o := if j < i then j else j - 1;
        assert r[j] == ks[o];
        LinkedAt(h, p, ks, i, x, o);
      }
    }
  }

  // ----- ancestry -----

  /** `n` is `a` or lies below it. */
  ghost predicate Under(h: Store, s: Shape, n: Node, a: Node)
    requires Forest(h, s) && n in s.live
    decreases s.rank[n]
  {
    assert Placed(h, s, n);
    n == a || (h[n].parent != null && Under(h, s, h[n].parent, a))
  }

  ghost function Subtree(h: Store, s: Shape, a: Node): set<Node>
    requires Forest(h, s)
  {
    set n | n in s.live && Under(h, s, n, a)
  }

  /** Ancestry depends on parent pointers only, and not on the one of the ancestor itself. */
  lemma {:induction false} UnderSame(h: Store, s: Shape, h': Store, s': Shape, n: Node, a: Node)
    requires Forest(h, s) && Forest(h', s') && s'.live <= s.live && n in s'.live
    requires forall m :: m in s'.live && m != a ==> h'[m].parent == h[m].parent
    ensures Under(h', s', n, a) == Under(h, s, n, a)
    decreases s.rank[n]
  {
    hide ListOk;
    assert Placed(h, s, n) && Placed(h', s', n);
    if n == a || h[n].parent == null {
    } else {
      UnderSame(h, s, h', s', h[n].parent, a);
    }
  }

  lemma {:induction false} UnderChildless(h: Store, s: Shape, n: Node, a: Node)
    requires Forest(h, s) && n in s.live && a in s.live && s.kids[a] == [] && Under(h, s, n, a)
    ensures n == a
    decreases s.rank[n]
  {
    hide ListOk;
    if n == a {
    } else {
      assert Placed(h, s, n);
      UnderChildless(h, s, h[n].parent, a);
    }
  }

  /** Every node has a root: the document, a node in `unlinked` or one in `loose`. */
  lemma {:induction false} RootOf(h: Store, s: Shape, n: Node) returns (r: Node)
    requires Forest(h, s) && n in s.live
    ensures r in s.live && h[r].parent == null && Under(h, s, n, r)
    decreases s.rank[n]
  {
    hide ListOk;
    assert Placed(h, s, n);
    if h[n].parent == null {
      r := n;
    } else {
      r := RootOf(h, s, h[n].parent);
    }
  }

  function Raised(rank: map<Node, nat>, d: set<Node>, up: nat): map<Node, nat> {
    map n | n in rank :: if n in d then rank[n] + up else rank[n]
  }

  ghost function WithChild(h: Store, s: Shape, x: Node, p: Node, i: nat): Shape
    requires Forest(h, s) && p in s.live && i <= |s.kids[p]|
  {
    s.(kids := s.kids[p := Insert(s.kids[p], i, x)], loose := s.loose - {x},
       rank := Raised(s.rank, Subtree(h, s, x), s.rank[p] + 1))
  }

  ghost predicate CanInsert(h: Store, s: Shape, x: Node, p: Node, i: nat) {
    && Forest(h, s) && x in s.loose && p in s.live && h[x].parent == null && !Under(h, s, p, x)
    && i <= |s.kids[p]|
  }

  lemma InsertPlaced(h: Store, s: Shape, x: Node, p: Node, i: nat, n: Node)
    requires CanInsert(h, s, x, p, i) && n in s.live
    ensures Placed(Linked(h, p, x, At(s.kids[p], i - 1), At(s.kids[p], i)), WithChild(h, s, x, p, i), n)
  {
    hide ListOk, Insert, Distinct;
    var a, b := At(s.kids[p], i - 1), At(s.kids[p], i);
    assert Placed(h, s, n) && Placed(h, s, x);
    ListFacts(h, p, s.kids[p]);
    InsertAdds(s.kids[p], i, x);
    assert a != null ==> h[a].parent == p;
    assert b != null ==> h[b].parent == p;
    assert n != x && h[n].parent != null ==> (Under(h, s, n, x) <==> Under(h, s, h[n].parent, x));
  }

  lemma InsertList(h: Store, s: Shape, x: Node, p: Node, i: nat, n: Node)
    requires CanInsert(h, s, x, p, i) && n in s.live
    ensures ListOk(Linked(h, p, x, At(s.kids[p], i - 1), At(s.kids[p], i)), n, WithChild(h, s, x, p, i).kids[n])
  {
    hide ListOk, Placed;
    var ks := s.kids[p];
    var a, b := At(ks, i - 1), At(ks, i);
    var h' := Linked(h, p, x, a, b);
    ListFacts(h, p, ks);
    assert p !in ks by { if p in ks { ChildIsNotRoot(h, s, p, p); } }
    if n == p {
      LinkedIsInsert(h, p, ks, i, x);
    } else {
      ListFacts(h, n, s.kids[n]);
      assert forall k :: k in s.kids[n] ==> k != x && k != a && k != b;
      ListFrame(h, h', n, s.kids[n]);
    }
  }

  lemma InsertForest(h: Store, s: Shape, x: Node, p: Node, i: nat)
    requires CanInsert(h, s, x, p, i)
    ensures Forest(Linked(h, p, x, At(s.kids[p], i - 1), At(s.kids[p], i)), WithChild(h, s, x, p, i))
  {
    hide ListOk, Placed, Linked;
    var h', s' := Linked(h, p, x, At(s.kids[p], i - 1), At(s.kids[p], i)), WithChild(h, s, x, p, i);
    assert h'.Keys == h.Keys by { LinkedKeys(h, p, x, At(s.kids[p], i - 1), At(s.kids[p], i)); }
    ListFacts(h, p, s.kids[p]);
    InsertAdds(s.kids[p], i, x);
    assert Tidy(s');
    forall n | n in s.live
      ensures Placed(h', s', n) && ListOk(h', n, s'.kids[n])
    {
      InsertPlaced(h, s, x, p, i, n);
      InsertList(h, s, x, p, i, n);
    }
  }

  lemma LinkedKeys(h: Store, p: Node, x: Node, a: Node?, b: Node?)
    ensures Linked(h, p, x, a, b).Keys == h.Keys
  {
  }

  // ----- the list of unlinked nodes, and child lists as values -----

  /** `DynArray::SwapRemove`: the last element takes the place of the `i`-th. */
  function SwapRemove(us: seq<Node>, i: nat): seq<Node>
    requires i < |us|
  {
    us[i := us[|us| - 1]][..|us| - 1]
  }

  lemma SwapRemoves(us: seq<Node>, i: nat)
    requires i < |us| && Distinct(us)
    ensures Distinct(SwapRemove(us, i))
    ensures forall m :: m in SwapRemove(us, i) <==> m in us && m != us[i]
  {
    var r := SwapRemove(us, i);
    forall m | m in us && m != us[i]
      ensures m in r
    {
      var j :| 0 <= j < |us| && us[j] == m;
      assert m == r[if j == |us| - 1 then i else j];
    }
  }

  /** A node that leaves `unlinked` for `loose` leaves the forest as it is. */
  lemma MarkForest(h: Store, s: Shape, n: Node, us: seq<Node>)
    requires Forest(h, s) && n in s.live && h[n].parent == null && n != s.root
    requires Distinct(us) && forall m :: m in us <==> m in s.unlinked && m != n
    ensures Forest(h, s.(unlinked := us, loose := s.loose + {n}))
  {
    hide ListOk;
    var s' := s.(unlinked := us, loose := s.loose + {n});
    forall m | m in s.live
      ensures Placed(h, s', m)
    {
      assert Placed(h, s, m);
    }
  }

  function Without(ks: seq<Node>, x: Node): seq<Node> {
    if ks == [] then [] else (if ks[0] == x then [] else [ks[0]]) + Without(ks[1..], x)
  }

  lemma {:induction false} WithoutAbsent(ks: seq<Node>, x: Node)
    requires x !in ks
    ensures Without(ks, x) == ks
  {
    if ks == [] {
    } else {
      WithoutAbsent(ks[1..], x);
    }
  }

  lemma {:induction false} WithoutIsDrop(ks: seq<Node>, i: nat)
    requires Distinct(ks) && i < |ks|
    ensures Without(ks, ks[i]) == Drop(ks, i)
  {
    if i == 0 {
      WithoutAbsent(ks[1..], ks[0]);
    } else {
      WithoutIsDrop(ks[1..], i - 1);
      assert Drop(ks, i) == [ks[0]] + Drop(ks[1..], i - 1);
    }
  }

  lemma DropEverywhere(h: Store, s: Shape, x: Node, p: Node, i: nat)
    requires Forest(h, s) && p in s.live && i < |s.kids[p]| && s.kids[p][i] == x
    ensures forall n :: n in s.live ==> WithoutChild(s, x, p, i).kids[n] == Without(s.kids[n], x)
  {
    forall n | n in s.live
      ensures WithoutChild(s, x, p, i).kids[n] == Without(s.kids[n], x)
    {
      ListFacts(h, n, s.kids[n]);
      ListFacts(h, p, s.kids[p]);
      if n == p {
        WithoutIsDrop(s.kids[p], i);
      } else {
        WithoutAbsent(s.kids[n], x);
      }
    }
  }

  lemma NobodysChild(h: Store, s: Shape, x: Node)
    requires Forest(h, s) && x in s.live && h[x].parent == null
    ensures forall n :: n in s.live ==> Without(s.kids[n], x) == s.kids[n]
  {
    forall n | n in s.live
      ensures Without(s.kids[n], x) == s.kids[n]
    {
      ListFacts(h, n, s.kids[n]);
      WithoutAbsent(s.kids[n], x);
    }
  }

  /** `ks` with `x` put directly behind `a`. */
  function InsertAfter(ks: seq<Node>, a: Node, x: Node): seq<Node> {
    if ks == [] then [] else if ks[0] == a then [a, x] + ks[1..] else [ks[0]] + InsertAfter(ks[1..], a, x)
  }

  lemma {:induction false} InsertAfterIs(ks: seq<Node>, j: nat, x: Node)
    requires Distinct(ks) && j < |ks|
    ensures InsertAfter(ks, ks[j], x) == Insert(ks, j + 1, x)
  {
    if j == 0 {
    } else {
      InsertAfterIs(ks[1..], j - 1, x);
      assert Insert(ks, j + 1, x) == [ks[0]] + Insert(ks[1..], j, x);
    }
  }

  datatype Outcome = Added | Refused | NullRead

  /** Whether `ks[j]` is the last one once `x` is gone. */
  lemma LastWithout(ks: seq<Node>, j: nat, x: Node)
    requires Distinct(ks) && j < |ks| && ks[j] != x
    ensures var w := Without(ks, x);
            && Distinct(w) && w != [] && ks[j] in w
            && (w[|w| - 1] == ks[j] <==> j + 1 == |ks| || (j + 2 == |ks| && ks[j + 1] == x))
  {
    hide Without;
    if x in ks {
      var i :| 0 <= i < |ks| && ks[i] == x;
      WithoutIsDrop(ks, i);
      var d := Drop(ks, i);
      assert d[|d| - 1] == ks[if i == |ks| - 1 then |ks| - 2 else |ks| - 1];
      assert d[if j < i then j else j - 1] == ks[j];
    } else {
      WithoutAbsent(ks, x);
    }
  }

  lemma InsertAfterLast(w: seq<Node>, x: Node)
    requires Distinct(w) && w != []
    ensures InsertAfter(w, w[|w| - 1], x) == w + [x]
  {
    hide InsertAfter;
    InsertAfterIs(w, |w| - 1, x);
    assert w[..|w|] == w && w[|w|..] == [];
  }

  /** `x` has left the list it was in, whichever that was, and the children of `p` are `ks` now. */
  ghost predicate Adopted(s: Shape, s': Shape, x: Node, p: Node, ks: seq<Node>) {
    && s'.root == s.root && s'.live == s.live && s'.loose == s.loose - {x}
    && Elems(s'.unlinked) == Elems(s.unlinked) - {x}
    && s'.Kids(p) == ks && forall n :: n in s.live && n != p ==> s'.Kids(n) == Without(s.Kids(n), x)
  }

  // ----- creating and deleting -----

  function WithNew(s: Shape, n: Node): Shape {
    s.(unlinked := s.unlinked + [n], live := s.live + {n}, kids := s.kids[n := []], rank := s.rank[n := 0])
  }

  lemma CreateForest(h: Store, s: Shape, n: Node)
    requires Forest(h, s) && n !in s.live
    ensures Forest(h[n := ALONE], WithNew(s, n))
  {
    hide ListOk;
    var h', s' := h[n := ALONE], WithNew(s, n);
    forall m | m in s'.live
      ensures Placed(h', s', m) && ListOk(h', m, s'.kids[m])
    {
      if m != n {
        assert Placed(h, s, m);
        ListFrame(h, h', m, s.kids[m]);
      } else {
        EmptyList(h', n);
      }
    }
  }

  lemma EmptyList(h: Store, n: Node)
    requires n in h && h[n] == ALONE
    ensures ListOk(h, n, [])
  {
  }

  function Freed(s: Shape, n: Node): Shape {
    s.(live := s.live - {n}, loose := s.loose - {n})
  }

  lemma FreeForest(h: Store, s: Shape, n: Node)
    requires Forest(h, s) && n in s.loose && h[n].parent == null && s.kids[n] == []
    ensures Forest(h - {n}, Freed(s, n))
  {
    hide ListOk;
    var h', s' := h - {n}, Freed(s, n);
    forall m | m in s'.live
      ensures Placed(h', s', m) && ListOk(h', m, s'.kids[m]) && n !in s.kids[m]
    {
      assert Placed(h, s, m);
      ListFacts(h, m, s.kids[m]);
      ListFrame(h, h', m, s.kids[m]);
    }
  }

  lemma {:induction false} UnderRank(h: Store, s: Shape, n: Node, a: Node)
    requires Forest(h, s) && n in s.live && a in s.live && Under(h, s, n, a)
    ensures n == a || s.rank[a] < s.rank[n]
    decreases s.rank[n]
  {
    hide ListOk;
    assert Placed(h, s, n);
    if n == a {
    } else {
      UnderRank(h, s, h[n].parent, a);
    }
  }

  lemma {:induction false} UnderParent(h: Store, s: Shape, n: Node, c: Node)
    requires Forest(h, s) && n in s.live && c in s.live && Under(h, s, n, c) && h[c].parent != null
    ensures Under(h, s, n, h[c].parent)
    decreases s.rank[n]
  {
    hide ListOk;
    assert Placed(h, s, n) && Placed(h, s, c);
    if n == c {
    } else {
      UnderParent(h, s, h[n].parent, c);
    }
  }

  /** A child's subtree is a proper part of its parent's. */
  lemma ChildSubtree(h: Store, s: Shape, c: Node, p: Node)
    requires Forest(h, s) && c in s.live && p in s.live && h[c].parent == p
    ensures Subtree(h, s, c) < Subtree(h, s, p) && p !in Subtree(h, s, c) && c in Subtree(h, s, c)
  {
    hide ListOk;
    forall n | n in Subtree(h, s, c)
      ensures n in Subtree(h, s, p) && n != p
    {
      UnderParent(h, s, n, c);
      UnderRank(h, s, n, c);
      assert Placed(h, s, c);
    }
    assert p in Subtree(h, s, p);
  }

  /**
    `s'` has lost the nodes `d`; the nodes outside `d` and `c` are as they were, the parents of all that
    are left too.
    */
  ghost predicate Pruned(h: Store, s: Shape, h': Store, s': Shape, d: set<Node>, c: set<Node>) {
    && s'.root == s.root && s'.live == s.live - d && s.live <= h.Keys && s'.live <= h'.Keys
    && Elems(s'.unlinked) == Elems(s.unlinked) - d && s'.loose == s.loose - d
    && (forall m {:trigger h'[m].parent} :: m in s'.live ==> h'[m].parent == h[m].parent)
    && (forall m {:trigger h'[m]} {:trigger s'.Kids(m)} :: m in s'.live && m !in c ==>
          h'[m] == h[m] && s'.Kids(m) == s.Kids(m))
  }

  lemma PrunedTwice(h: Store, s: Shape, h1: Store, s1: Shape, h2: Store, s2: Shape,
                    d1: set<Node>, d2: set<Node>, c1: set<Node>, c2: set<Node>)
    requires Pruned(h, s, h1, s1, d1, c1) && Pruned(h1, s1, h2, s2, d2, c2)
    ensures Pruned(h, s, h2, s2, d1 + d2, c1 + c2)
  {
  }

  lemma SameSubtree(h: Store, s: Shape, h': Store, s': Shape, a: Node)
    requires Forest(h, s) && Forest(h', s') && s'.live == s.live
    requires forall m :: m in s'.live && m != a ==> h'[m].parent == h[m].parent
    ensures Subtree(h', s', a) == Subtree(h, s, a)
  {
    hide Forest, Under;
    forall n | n in s.live
      ensures Under(h', s', n, a) == Under(h, s, n, a)
    {
      UnderSame(h, s, h', s', n, a);
    }
  }

  lemma ChildLinks(h: Store, s: Shape, c: Node, p: Node, i: nat)
    requires Forest(h, s) && p in s.live && i < |s.kids[p]| && s.kids[p][i] == c
    ensures c in h && p in h && c in s.live && c != p && p in s.kids && s.live <= h.Keys
    ensures h[c].prev == At(s.kids[p], i - 1) && h[c].next == At(s.kids[p], i + 1)
  {
    ChildIsNotRoot(h, s, c, p);
    assert h[s.kids[p][i]].prev == At(s.kids[p], i - 1) && h[s.kids[p][i]].next == At(s.kids[p], i + 1);
  }

  /** Unlinking a child and then deleting it touches its parent and its siblings besides. */
  lemma UnlinkPruned(h: Store, s: Shape, c: Node, p: Node, i: nat, h': Store, s': Shape, d: set<Node>)
    requires Forest(h, s) && p in s.live && i < |s.kids[p]| && s.kids[p][i] == c && c in d && p !in d
    requires c in h && p in h && Pruned(Unlinked(h, c, p), WithoutChild(s, c, p, i), h', s', d, {})
    ensures Pruned(h, s, h', s', d, {p} + Elems(s.Kids(p)))
    ensures s'.live < s.live && p in s'.live && s'.Kids(p) == WithoutChild(s, c, p, i).Kids(p)
  {
    hide Forest;
    ChildLinks(h, s, c, p, i);
    assert c !in s'.live;
  }

  /** What the deletion of a node amounts to, its children being gone. */
  lemma FreePruned(h: Store, s: Shape, us: seq<Node>, h': Store, s': Shape, n: Node, sub: set<Node>)
    requires n in sub && Elems(us) == Elems(s.unlinked) - {n} && n in s.live && n in h && h[n].parent == null
    requires Pruned(h, s.(unlinked := us, loose := s.loose + {n}), h', s', sub - {n}, {n})
    ensures Pruned(h, s, h' - {n}, Freed(s', n), sub, {})
    ensures n in s'.loose && n in s'.live && n in h' && h'[n].parent == null
  {
  }

  lemma SubtreeShrinks(h: Store, s: Shape, h': Store, s': Shape, p: Node, d: set<Node>, c: set<Node>)
    requires Forest(h, s) && Forest(h', s') && Pruned(h, s, h', s', d, c)
    ensures Subtree(h', s', p) <= Subtree(h, s, p)
  {
    hide Forest, Under;
    forall n | n in Subtree(h', s', p)
      ensures n in Subtree(h, s, p)
    {
      UnderSame(h, s, h', s', n, p);
    }
  }

  lemma KidsUnder(h: Store, s: Shape, p: Node)
    requires Forest(h, s) && p in s.live
    ensures {p} + Elems(s.Kids(p)) <= Subtree(h, s, p)
  {
    hide ListOk;
    ListFacts(h, p, s.kids[p]);
    assert Under(h, s, p, p);
  }

  /** One round of deleting the first child. */
  lemma PrunedStep(h: Store, s: Shape, h1: Store, s1: Shape, h2: Store, s2: Shape, p: Node, c: Node)
    requires Forest(h, s) && Forest(h1, s1) && p in s1.live && c in s1.live && h1[c].parent == p
    requires var sub := Subtree(h, s, p);
             s.live - s1.live <= sub - {p} && Pruned(h, s, h1, s1, s.live - s1.live, sub)
    requires Pruned(h1, s1, h2, s2, Subtree(h1, s1, c), {p} + Elems(s1.Kids(p)))
    ensures var sub := Subtree(h, s, p);
            s.live - s2.live <= sub - {p} && Pruned(h, s, h2, s2, s.live - s2.live, sub)
  {
    hide Forest, Subtree;
    var sub, d := Subtree(h, s, p), Subtree(h1, s1, c);
    SubtreeShrinks(h, s, h1, s1, p, s.live - s1.live, sub);
    KidsUnder(h1, s1, p);
    ChildSubtree(h1, s1, c, p);
    SubtreeLive(h1, s1, c);
    PrunedTwice(h, s, h1, s1, h2, s2, s.live - s1.live, d, sub, {p} + Elems(s1.Kids(p)));
    assert s.live - s1.live + d == s.live - s2.live && sub + ({p} + Elems(s1.Kids(p))) == sub;
  }

  lemma SubtreeLive(h: Store, s: Shape, a: Node)
    requires Forest(h, s)
    ensures Subtree(h, s, a) <= s.live
  {
  }

  /** Once the last child is deleted, all that was below `p` is gone. */
  lemma PrunedEnd(h: Store, s: Shape, h': Store, s': Shape, p: Node)
    requires Forest(h, s) && Forest(h', s') && p in s'.live && s'.Kids(p) == []
    requires var sub := Subtree(h, s, p);
             s.live - s'.live <= sub - {p} && Pruned(h, s, h', s', s.live - s'.live, sub)
    ensures Pruned(h, s, h', s', Subtree(h, s, p) - {p}, {p})
  {
    hide Forest, Under;
    var sub := Subtree(h, s, p);
    assert s'.kids[p] == [] by { KidsAre(h', s', p); }
    forall n | n in s'.live && n in sub
      ensures n == p
    {
      UnderSame(h, s, h', s', n, p);
      UnderChildless(h', s', n, p);
    }
    assert s.live - s'.live == sub - {p};
  }

  lemma KidsAre(h: Store, s: Shape, p: Node)
    requires Forest(h, s) && p in s.live
    ensures p in s.kids && s.Kids(p) == s.kids[p]
  {
  }

  lemma SubtreeRoot(h: Store, s: Shape, a: Node)
    requires Forest(h, s) && a in s.live
    ensures a in Subtree(h, s, a)
  {
  }

  lemma PrunedNot(h: Store, s: Shape, c: set<Node>)
    requires Forest(h, s)
    ensures Pruned(h, s, h, s, s.live - s.live, c)
  {
  }

  lemma InLoose(h: Store, s: Shape, n: Node)
    requires Forest(h, s) && n in s.loose
    ensures n in s.live
  {
  }

  lemma NotRoot(h: Store, s: Shape, n: Node)
    requires Forest(h, s) && n in s.live && h[n].parent != null
    ensures n != s.root
  {
    assert Placed(h, s, n);
  }

  /** With no children, no unlinked and no loose nodes, only the document is left. */
  lemma OnlyRoot(h: Store, s: Shape)
    requires Forest(h, s) && s.Kids(s.root) == [] && s.unlinked == [] && s.loose == {}
    ensures s.live == {s.root}
  {
    hide ListOk;
    forall n | n in s.live
      ensures n == s.root
    {
      var r := RootOf(h, s, n);
      assert Placed(h, s, r);
      UnderChildless(h, s, n, s.root);
    }
  }

  /** Deleting a node that is in no child list leaves the document and its children. */
  lemma RootStays(h: Store, s: Shape, h': Store, s': Shape, n: Node)
    requires Forest(h, s) && n in s.unlinked && Pruned(h, s, h', s', Subtree(h, s, n), {})
    ensures s'.live < s.live && s.root in s'.live && s'.Kids(s.root) == s.Kids(s.root)
  {
    hide ListOk;
    assert Placed(h, s, s.root);
    assert n in Subtree(h, s, n);
  }

  lemma RootLive(h: Store, s: Shape)
    requires Forest(h, s)
    ensures s.root in s.live
  {
  }

  lemma UnlinkedFacts(h: Store, s: Shape, n: Node)
    requires Forest(h, s) && n in s.unlinked
    ensures n in s.live && n != s.root && h[n].parent == null
  {
    assert Placed(h, s, n);
  }

  /** The parent, if there is one, and its children. */
  function Family(s: Shape, p: Node?): set<Node> {
    if p == null then {} else {p} + Elems(s.Kids(p))
  }

  lemma EndsOf(h: Store, s: Shape, p: Node)
    requires Forest(h, s) && p in s.live
    ensures p in s.kids && p in h && h[p].first == At(s.kids[p], 0) && h[p].last == At(s.kids[p], |s.kids[p]| - 1)
    ensures forall k :: k in s.kids[p] ==> k in s.live && k in h && h[k].parent == p
    ensures p !in s.kids[p] && Distinct(s.kids[p])
  {
    ListFacts(h, p, s.kids[p]);
    if p in s.kids[p] {
      ChildIsNotRoot(h, s, p, p);
    }
  }

  /** Nobody but perhaps `x` has another parent. */
  ghost predicate SameParents(h: Store, h': Store, live: set<Node>, x: Node) {
    && live <= h.Keys && live <= h'.Keys
    && forall m :: m in live && m != x ==> h'[m].parent == h[m].parent
  }

  lemma KeptParent(h: Store, h': Store, live: set<Node>, x: Node, m: Node)
    requires SameParents(h, h', live, x) && m in live && m != x
    ensures m in h && m in h' && h'[m].parent == h[m].parent
  {
  }

  lemma SameAncestry(h: Store, s: Shape, h': Store, s': Shape, n: Node, x: Node)
    requires Forest(h, s) && Forest(h', s') && s'.live == s.live && n in s.live && SameParents(h, h', s.live, x)
    ensures Under(h', s', n, x) == Under(h, s, n, x)
  {
    hide Forest, Under;
    UnderSame(h, s, h', s', n, x);
  }

  /** `x` got the parent `p`, and no other node another one. */
  ghost predicate Reparented(h: Store, h': Store, live: set<Node>, x: Node, p: Node) {
    SameParents(h, h', live, x) && x in h' && h'[x].parent == p
  }

  lemma ThenReparented(was: Store, h: Store, h': Store, live: set<Node>, x: Node, p: Node)
    requires SameParents(was, h, live, x) && Reparented(h, h', live, x, p)
    ensures Reparented(was, h', live, x, p)
  {
  }

  lemma LiveKeys(h: Store, s: Shape)
    requires Forest(h, s)
    ensures s.live <= h.Keys
  {
  }

  lemma LinkedParents(h: Store, live: set<Node>, x: Node, p: Node, a: Node?, b: Node?)
    requires live <= h.Keys && x in live
    ensures Reparented(h, Linked(h, p, x, a, b), live, x, p)
  {
  }

  /** A node put below itself: whatever else is recorded, the pointers are no forest any more. */
  lemma BelowItself(h: Store, s: Shape, h': Store, s': Shape, x: Node, p: Node)
    requires Forest(h, s) && p in s.live && x in s.live && Under(h, s, p, x)
    requires s'.live == s.live && Reparented(h, h', s.live, x, p)
    ensures !Forest(h', s')
  {
    if Forest(h', s') {
      assert Placed(h', s', x);
      UnderSame(h, s, h', s', p, x);
      UnderRank(h', s', p, x);
    }
  }

  /** Nothing but the document is above the document. */
  lemma RootUnder(h: Store, s: Shape, x: Node)
    requires Forest(h, s) && x != s.root
    ensures s.root in s.live && !Under(h, s, s.root, x)
  {
    assert Placed(h, s, s.root);
  }

  /** Every live node but the document has one parent or is in the list of unlinked nodes, and not both. */
  lemma ExactlyOnePlace(h: Store, s: Shape, n: Node)
    requires Forest(h, s) && s.loose == {} && n in s.live && n != s.root
    ensures (exists p :: p in s.live && n in s.Kids(p)) <==> n !in s.unlinked
    ensures forall p, q :: p in s.live && q in s.live && n in s.Kids(p) && n in s.Kids(q) ==> p == q
  {
    hide ListOk;
    assert Placed(h, s, n);
    if h[n].parent != null {
      assert n in s.Kids(h[n].parent);
    }
    forall p | p in s.live && n in s.Kids(p)
      ensures h[n].parent == p
    {
      ListFacts(h, p, s.kids[p]);
    }
  }

  // ----- the document -----

  class Document {
    const root: Node
    var unlinked: seq<Node>
    ghost var h: Store
    ghost var live: set<Node>
    ghost var kids: map<Node, seq<Node>>
    ghost var rank: map<Node, nat>
    /** Nodes that an operation has taken out of the tree and not put back yet. */
    ghost var loose: set<Node>

    ghost function View(): Shape
      reads this
    {
      Shape(root, live, kids, rank, unlinked, loose)
    }

    static ghost function Fields(n: Node): Links
      reads n
    {
      Links(n.parent, n.first, n.last, n.prev, n.next)
    }

    ghost predicate Synced()
      reads this`h, this`live, live
    {
      h.Keys == live && forall n :: n in live ==> h[n] == Fields(n)
    }

    ghost predicate Valid()
      reads this, live
    {
      Synced() && Forest(h, View())
    }

    constructor ()
      ensures Valid() && fresh(live) && unlinked == [] && loose == {} && live == {root} && kids == map[root := []]
    {
      var r := new Node();
      root, unlinked, loose, live, kids, rank, h := r, [], {}, {r}, map[r := []], map[r := 0], map[r := ALONE];
    }

    /** `XMLNode::Unlink`: `child` was the `i`-th child of its parent. */
    method Unlink(child: Node) returns (ghost i: nat)
      requires Valid() && child in live && child.parent != null
      modifies this`h, this`kids, this`loose, live
      ensures Valid() && child.parent == null
      ensures var p := old(child.parent);
              && p in old(kids) && i < |old(kids)[p]| && old(kids)[p][i] == child
              && View() == WithoutChild(old(View()), child, p, i) && h == Unlinked(old(h), child, p)
    {
      hide Forest, ListOk, Joined, SameElsewhere, Unlinked, Synced;
      var p := child.parent;
      ghost var ks;
      ks, i := ParentList(child);
      UnlinkedJoins(h, p, ks, i);
      UnlinkPointers(child, p);
      UnlinkForest(old(h), h, View(), child, p, i);
      kids, loose := kids[p := Drop(ks, i)], loose + {child};
    }

    lemma ParentList(child: Node) returns (ks: seq<Node>, i: nat)
      requires Valid() && child in live && child.parent != null
      ensures var p := child.parent;
              && p in live && p in kids && ks == kids[p] && i < |ks| && ks[i] == child
              && ListOk(h, p, ks) && p !in ks && h.Keys == live && h[child] == Fields(child)
    {
      var p := child.parent;
      assert Placed(h, View(), child);
      ks := kids[p];
      if p in ks {
        ChildIsNotRoot(h, View(), p, p);
      }
      i :| 0 <= i < |ks| && ks[i] == child;
    }

    /** The pointer surgery of `Unlink`, seen on the snapshot. */
    method UnlinkPointers(child: Node, p: Node)
      requires Synced() && p in live && child in live && p != child && child.prev != child && child.next != child
      requires (child.prev != null ==> child.prev in live) && (child.next != null ==> child.next in live)
      modifies this`h, live
      ensures Synced() && h == Unlinked(old(h), child, p) && child.parent == null
    {
      ghost var a, b := child.prev, child.next;
      JoinNeighbours(p, child, a, b);
      ghost var h' := Unlinked(h, child, p);
      forall n | n in live
        ensures h'[n] == Fields(n)
      {
        assert h[n] == old(Fields(n));
      }
      h := h';
    }

    lemma NodeFacts(n: Node)
      requires Valid() && n in live
      ensures h.Keys == live && live <= kids.Keys && h[n] == Fields(n) && Distinct(unlinked)
      ensures n.parent != null ==> n.parent in live && n !in unlinked
    {
      assert Placed(h, View(), n);
    }

    /** `XMLDocument::MarkInUse`: the node leaves the list of unlinked nodes. */
    method MarkInUse(n: Node)
      requires Valid() && n in live && n.parent == null && n != root
      modifies this`unlinked, this`loose
      ensures Valid() && loose == old(loose) + {n}
      ensures Elems(unlinked) == Elems(old(unlinked)) - {n}
    {
      hide Forest, Synced;
      NodeFacts(n);
      var i := 0;
      while i < |unlinked|
        invariant i <= |unlinked| && n !in unlinked[..i] && unlinked == old(unlinked)
      {
        if n == unlinked[i] {
          SwapRemoves(unlinked, i);
          unlinked := SwapRemove(unlinked, i);
          break;
        }
        i := i + 1;
      }
      MarkForest(h, old(View()), n, unlinked);
      loose := loose + {n};
    }

    /**
      `XMLNode::InsertChildPreamble`: whatever list `x` was in, it is in none afterwards.  The document
      belongs to no memory pool, and for it the code reads through that null pointer.
      */
    method InsertChildPreamble(x: Node) returns (ok: bool)
      requires Valid() && x in live
      modifies this`h, this`kids, this`loose, this`unlinked, live
      ensures Valid() && (ok <==> x != root)
      ensures !ok ==> View() == old(View()) && h == old(h)
      ensures ok ==> loose == old(loose) + {x} && x.parent == null && Elems(unlinked) == Elems(old(unlinked)) - {x}
      ensures ok ==> forall n :: n in live ==> View().Kids(n) == Without(old(View()).Kids(n), x)
      ensures ok ==> SameParents(old(h), h, live, x)
    {
      hide Forest, ListOk, Synced;
      if x == root {
        return false;
      }
      ok := true;
      NodeFacts(x);
      if x.parent != null {
        ghost var i := Unlink(x);
        DropEverywhere(old(h), old(View()), x, old(x.parent), i);
      } else {
        NobodysChild(h, View(), x);
        MarkInUse(x);
      }
    }

    /** The pointer writes of `InsertEndChild`, seen on the snapshot. */
    method PointEnd(p: Node, x: Node)
      requires Synced() && p in live && x in live
      requires p.last != x && (p.last != null ==> p.last in live) && (p.last == null <==> p.first == null)
      modifies this`h, live
      ensures Synced() && h == Linked(old(h), p, x, old(p.last), null)
    {
      ghost var a, b := (p.last), null;
      LinkEnd(p, x, a);
      ghost var h' := Linked(h, p, x, a, b);
      forall n | n in live
        ensures h'[n] == Fields(n)
      {
        assert h[n] == old(Fields(n));
      }
      h := h';
    }

    /** The pointer writes of `InsertFirstChild`, seen on the snapshot. */
    method PointFirst(p: Node, x: Node)
      requires Synced() && p in live && x in live
      requires p.first != x && (p.first != null ==> p.first in live) && (p.last == null <==> p.first == null)
      modifies this`h, live
      ensures Synced() && h == Linked(old(h), p, x, null, old(p.first))
    {
      ghost var a, b := null, (p.first);
      LinkFirst(p, x, b);
      ghost var h' := Linked(h, p, x, a, b);
      forall n | n in live
        ensures h'[n] == Fields(n)
      {
        assert h[n] == old(Fields(n));
      }
      h := h';
    }

    /** The pointer writes of `InsertAfterChild`, seen on the snapshot. */
    method PointAfter(p: Node, after: Node, x: Node)
      requires Synced() && p in live && x in live
      requires after in live && after != x && after.next != null && after.next in live && after.next != x
      modifies this`h, live
      ensures Synced() && h == Linked(old(h), p, x, after, old(after.next))
    {
      ghost var a, b := after, (after.next);
      LinkAfter(p, after, x, b);
      ghost var h' := Linked(h, p, x, a, b);
      forall n | n in live
        ensures h'[n] == Fields(n)
      {
        assert h[n] == old(Fields(n));
      }
      h := h';
    }

    lemma ListEnds(p: Node)
      requires Valid() && p in live
      ensures p in kids && h.Keys == live && p.first == At(kids[p], 0) && p.last == At(kids[p], |kids[p]| - 1)
      ensures (forall k :: k in kids[p] ==> k in live && k.parent == p) && p !in kids[p] && Distinct(kids[p])
    {
      NodeFacts(p);
      hide Forest;
      EndsOf(h, View(), p);
      forall k | k in kids[p]
        ensures k in live && k.parent == p
      {
        NodeFacts(k);
      }
    }

    /** The pointers say that `x` is the `i`-th child of `p`; the ghost state follows. */
    ghost method Adopt(x: Node, p: Node, i: nat, h0: Store)
      requires Synced() && CanInsert(h0, View(), x, p, i)
      requires h == Linked(h0, p, x, At(kids[p], i - 1), At(kids[p], i))
      modifies this`kids, this`loose, this`rank
      ensures Valid() && loose == old(loose) - {x} && kids == old(kids)[p := Insert(old(kids)[p], i, x)]
    {
      hide Forest, Linked, Synced;
      InsertForest(h0, View(), x, p, i);
      var s' := WithChild(h0, View(), x, p, i);
      kids, loose, rank := s'.kids, s'.loose, s'.rank;
    }

    /**
      After the preamble, `x` becomes the `i`-th child of `p`; the pointers already say so.  There is
      nothing to record when `p` is below `x`.
      */
    ghost method Complete(x: Node, p: Node, i: nat, h0: Store, was: Store, s: Shape)
      requires Synced() && Forest(h0, View()) && x in loose && x in live && h0[x].parent == null
      requires p in live && live <= kids.Keys && SameParents(was, h0, live, x)
      requires var ks := View().Kids(p); i <= |ks| && h == Linked(h0, p, x, At(ks, i - 1), At(ks, i))
      requires root == s.root && live == s.live && loose == s.loose + {x} && Elems(unlinked) == Elems(s.unlinked) - {x}
      requires forall n :: n in live ==> View().Kids(n) == Without(s.Kids(n), x)
      modifies this`kids, this`loose, this`rank
      ensures Valid() <==> !Under(h0, old(View()), p, x)
      ensures Valid() ==> Adopted(s, View(), x, p, Insert(Without(s.Kids(p), x), i, x))
      ensures Reparented(was, h, live, x, p)
    {
      hide Forest, Synced, Without, Insert, Under, Linked, SameParents, Reparented;
      ghost var ks := View().Kids(p);
      assert live <= h0.Keys by { LiveKeys(h0, View()); }
      LinkedParents(h0, live, x, p, At(ks, i - 1), At(ks, i));
      ThenReparented(was, h0, h, live, x, p);
      if !Under(h0, View(), p, x) {
        Adopt(x, p, i, h0);
      } else {
        BelowItself(h0, View(), h, View(), x, p);
      }
    }

    /** The preamble, and what it leaves of the list of `p`. */
    method Prepare(p: Node, x: Node) returns (ok: bool)
      requires Valid() && p in live && x in live
      modifies this`h, this`kids, this`loose, this`unlinked, live
      ensures Valid() && (ok <==> x != root)
      ensures !ok ==> View() == old(View()) && h == old(h)
      ensures ok ==> loose == old(loose) + {x} && Elems(unlinked) == Elems(old(unlinked)) - {x}
      ensures ok ==> forall n :: n in live ==> View().Kids(n) == Without(old(View()).Kids(n), x)
      ensures ok ==> SameParents(old(h), h, live, x) && (Under(h, View(), p, x) <==> old(Under(h, View(), p, x)))
      ensures h.Keys == live <= kids.Keys && Distinct(kids[p]) && (ok ==> h[x].parent == null && x !in kids[p])
      ensures p.first == At(kids[p], 0) && p.last == At(kids[p], |kids[p]| - 1)
      ensures forall k :: k in kids[p] ==> k in live
    {
      hide Forest, ListOk, Synced, Without, Under, SameParents;
      ok := InsertChildPreamble(x);
      if !ok {
        ListEnds(p);
        NodeFacts(p);
        return;
      }
      SameAncestry(old(h), old(View()), h, View(), p, x);
      ListEnds(p);
      NodeFacts(x);
    }

    /**
      `XMLNode::InsertEndChild`.  Nothing refuses the document itself as the node to insert, but it
      belongs to no memory pool, and the code reads through that null pointer first.
      */
    method InsertEndChild(p: Node, x: Node) returns (r: Outcome)
      requires Valid() && p in live && x in live
      modifies this`h, this`kids, this`loose, this`unlinked, this`rank, live
      ensures r == if x == root then NullRead else Added
      ensures r == NullRead ==> Valid() && View() == old(View()) && h == old(h)
      ensures r == Added ==> (Valid() <==> !old(Under(h, View(), p, x)))
      ensures r == Added && Valid() ==> Adopted(old(View()), View(), x, p, Without(old(View()).Kids(p), x) + [x])
      ensures r == Added ==> Synced() && live == old(live) && Reparented(old(h), h, live, x, p)
    {
      hide Forest, ListOk, Synced, Linked, Without, Adopted, Under, SameParents, Reparented;
      var ok := Prepare(p, x);
      if !ok {
        return NullRead;
      }
      assert Insert(kids[p], |kids[p]|, x) == kids[p] + [x];
      ghost var h0 := h;
      PointEnd(p, x);
      Complete(x, p, |kids[p]|, h0, old(h), old(View()));
      return Added;
    }

    /** `XMLNode::InsertFirstChild`. */
    method InsertFirstChild(p: Node, x: Node) returns (r: Outcome)
      requires Valid() && p in live && x in live
      modifies this`h, this`kids, this`loose, this`unlinked, this`rank, live
      ensures r == if x == root then NullRead else Added
      ensures r == NullRead ==> Valid() && View() == old(View()) && h == old(h)
      ensures r == Added ==> (Valid() <==> !old(Under(h, View(), p, x)))
      ensures r == Added && Valid() ==> Adopted(old(View()), View(), x, p, [x] + Without(old(View()).Kids(p), x))
      ensures r == Added ==> Synced() && live == old(live) && Reparented(old(h), h, live, x, p)
    {
      hide Forest, ListOk, Synced, Linked, Without, Adopted, Under, SameParents, Reparented;
      var ok := Prepare(p, x);
      if !ok {
        return NullRead;
      }
      assert Insert(kids[p], 0, x) == [x] + kids[p];
      ghost var h0 := h;
      PointFirst(p, x);
      Complete(x, p, 0, h0, old(h), old(View()));
      return Added;
    }

    /**
      `XMLNode::InsertAfterChild`.  When `x` is the last child and directly follows `after`, taking
      it out leaves `after` without a successor, and the code reads through a null pointer; also when
      `x` is the document.
      */
    method InsertAfterChild(p: Node, after: Node, x: Node) returns (r: Outcome)
      requires Valid() && p in live && after in live && x in live
      modifies this`h, this`kids, this`loose, this`unlinked, this`rank, live
      ensures r == Refused <==> old(after.parent) != p
      ensures r == NullRead <==>
                old(after.parent) == p && (x == root || (after != x && old(after.next) == x && old(x.next) == null))
      ensures r == Refused || after == x || x == root ==> Valid() && View() == old(View()) && h == old(h)
      ensures r == Added && after != x ==> (Valid() <==> !old(Under(h, View(), p, x)))
      ensures r == Added && after != x && Valid() ==>
                Adopted(old(View()), View(), x, p, InsertAfter(Without(old(View()).Kids(p), x), after, x))
      ensures r == Added && after != x ==> Synced() && live == old(live) && Reparented(old(h), h, live, x, p)
    {
      hide Forest, ListOk, Synced, Linked, Without, InsertAfter, Adopted, Under, SameParents, Reparented;
      if after.parent != p {
        return Refused;
      }
      NodeFacts(after);
      NotRoot(h, View(), after);
      if after == x {
        return Added;
      }
      ghost var j := Sibling(after);
      LastWithout(kids[p], j, x);
      if after.next == null {
        InsertAfterLast(Without(kids[p], x), x);
        r := InsertEndChild(p, x);
        return;
      }
      if after.next == x {
        ListEnds(p);
        ghost var next := Sibling(x);
      }
      r := InsertBehind(p, after, x);
    }

    /** The same for a child `after` of `p`, which keeps its place. */
    method PrepareBehind(p: Node, after: Node, x: Node) returns (ghost j: nat)
      requires Valid() && p in live && x in live && x != root
      requires after in live && after.parent == p && after != x
      modifies this`h, this`kids, this`loose, this`unlinked, live
      ensures Valid() && loose == old(loose) + {x} && Elems(unlinked) == Elems(old(unlinked)) - {x}
      ensures forall n :: n in live ==> View().Kids(n) == Without(old(View()).Kids(n), x)
      ensures SameParents(old(h), h, live, x) && (Under(h, View(), p, x) <==> old(Under(h, View(), p, x)))
      ensures h.Keys == live <= kids.Keys && h[x].parent == null && x !in kids[p] && Distinct(kids[p])
      ensures j < |kids[p]| && kids[p][j] == after && after.next == At(kids[p], j + 1)
      ensures j + 1 < |kids[p]| ==> kids[p][j + 1] in live && kids[p][j + 1] != x
    {
      hide Forest, ListOk, Synced, Without, Under, SameParents;
      NodeFacts(after);
      var ok := Prepare(p, x);
      KeptParent(old(h), h, live, x, after);
      NodeFacts(after);
      j := Sibling(after);
    }

    /** The rest of `InsertAfterChild`, once `after` is known to have a successor. */
    method InsertBehind(p: Node, after: Node, x: Node) returns (r: Outcome)
      requires Valid() && p in live && after in live && x in live
      requires after.parent == p && after != x
      modifies this`h, this`kids, this`loose, this`unlinked, this`rank, live
      ensures var ks := Without(old(View()).Kids(p), x);
              && after in ks && Distinct(ks)
              && r == (if x == root || ks[|ks| - 1] == after then NullRead else Added)
              && (r == Added && Valid() ==> Adopted(old(View()), View(), x, p, InsertAfter(ks, after, x)))
      ensures r == Added ==> (Valid() <==> !old(Under(h, View(), p, x)))
      ensures r == Added ==> Synced() && live == old(live) && Reparented(old(h), h, live, x, p)
      ensures x == root ==> Valid() && View() == old(View()) && h == old(h)
    {
      hide Forest, ListOk, Synced, Linked, Without, InsertAfter, Under, SameParents, Reparented, Adopted, Insert;
      InChildren(p, after, x);
      if x == root {
        return NullRead;
      }
      ghost var j := PrepareBehind(p, after, x);
      if after.next == null {
        return NullRead;
      }
      ghost var h0 := h;
      PointAfter(p, after, x);
      InsertAfterIs(kids[p], j, x);
      Complete(x, p, j + 1, h0, old(h), old(View()));
      return Added;
    }

    lemma InChildren(p: Node, after: Node, x: Node)
      requires Valid() && p in live && after in live && after.parent == p && after != x
      ensures var ks := Without(View().Kids(p), x); after in ks && Distinct(ks)
    {
      hide Forest, ListOk, Synced, Without;
      var j := Sibling(after);
      LastWithout(kids[p], j, x);
    }

    lemma Sibling(k: Node) returns (j: nat)
      requires Valid() && k in live && k.parent != null
      ensures k.parent in live && k.parent in kids
      ensures j < |kids[k.parent]| && kids[k.parent][j] == k && Distinct(kids[k.parent])
      ensures k.next == At(kids[k.parent], j + 1)
    {
      var ks;
      ks, j := ParentList(k);
      assert h[ks[j]].next == At(ks, j + 1);
    }

    /** `XMLDocument::CreateUnlinkedNode`: a new node, known to the document but not in the tree. */
    method CreateUnlinkedNode() returns (n: Node)
      requires Valid()
      modifies this`h, this`live, this`kids, this`rank, this`unlinked
      ensures Valid() && fresh(n) && live == old(live) + {n} && unlinked == old(unlinked) + [n] && loose == old(loose)
      ensures kids == old(kids)[n := []] && h == old(h)[n := ALONE]
    {
      hide Forest, ListOk;
      n := new Node();
      Fresh(n);
      CreateForest(h, View(), n);
      unlinked, live, kids, rank, h := unlinked + [n], live + {n}, kids[n := []], rank[n := 0], h[n := ALONE];
      assert Synced();
    }

    lemma Fresh(n: Node)
      requires Valid() && n !in live
      ensures n !in h && n !in unlinked
    {
    }

    /** `XMLNode::DeleteNode`, for a node that is in no child list: it and all below it are gone. */
    method DeleteNode(n: Node, ghost sub: set<Node>)
      requires Valid() && n in live && n.parent == null && n != root && sub == Subtree(h, View(), n)
      modifies this`h, this`live, this`kids, this`loose, this`unlinked, live
      ensures Valid() && Pruned(old(h), old(View()), h, View(), sub, {})
      decreases sub, 1
    {
      hide Forest, ListOk, Synced, Without, Pruned, Subtree;
      NodeFacts(n);
      SubtreeRoot(h, View(), n);
      MarkInUse(n);
      SameSubtree(old(h), old(View()), h, View(), n);
      ghost var us := unlinked;
      DeleteChildren(n, sub);
      FreePruned(old(h), old(View()), us, h, View(), n, sub);
      NodeFacts(n);
      Free(n);
    }

    ghost method Free(n: Node)
      requires Valid() && n in loose && n.parent == null && View().Kids(n) == []
      modifies this`h, this`live, this`loose
      ensures Valid() && h == old(h) - {n} && View() == Freed(old(View()), n)
    {
      hide Forest, ListOk;
      InLoose(h, View(), n);
      NodeFacts(n);
      KidsAre(h, View(), n);
      FreeForest(h, View(), n);
      h, live, loose := h - {n}, live - {n}, loose - {n};
    }

    /** `XMLNode::DeleteChild`. */
    method DeleteChild(p: Node, c: Node, ghost sub: set<Node>)
      requires Valid() && c in live && c.parent == p && sub == Subtree(h, View(), c)
      modifies this`h, this`live, this`kids, this`loose, this`unlinked, live
      ensures Valid() && Pruned(old(h), old(View()), h, View(), sub, {p} + Elems(old(View()).Kids(p)))
      ensures View().Kids(p) == Without(old(View()).Kids(p), c) && p in live && live < old(live)
      decreases sub, 2
    {
      hide Forest, ListOk, Synced, Without, Pruned;
      NodeFacts(c);
      ChildSubtree(h, View(), c, p);
      NotRoot(h, View(), c);
      ghost var i := Unlink(c);
      DropEverywhere(old(h), old(View()), c, p, i);
      SameSubtree(old(h), old(View()), h, View(), c);
      DeleteNode(c, sub);
      UnlinkPruned(old(h), old(View()), c, p, i, h, View(), sub);
    }

    /** `XMLNode::DeleteChildren`. */
    method DeleteChildren(p: Node, ghost sub: set<Node>)
      requires Valid() && p in live && sub == Subtree(h, View(), p)
      modifies this`h, this`live, this`kids, this`loose, this`unlinked, live
      ensures Valid() && Pruned(old(h), old(View()), h, View(), sub - {p}, {p}) && View().Kids(p) == []
      decreases sub, 0
    {
      hide Forest, ListOk, Synced, Without, Pruned, Subtree;
      PrunedNot(h, View(), sub);
      while p.first != null
        invariant Valid() && p in live && old(live) - live <= sub - {p}
        invariant Pruned(old(h), old(View()), h, View(), old(live) - live, sub)
        decreases live
      {
        ListEnds(p);
        NodeFacts(p.first);
        ghost var h1, s1, c := h, View(), p.first;
        ChildSubtree(h, View(), c, p);
        SubtreeShrinks(old(h), old(View()), h, View(), p, old(live) - live, sub);
        DeleteChild(p, p.first, Subtree(h, View(), c));
        PrunedStep(old(h), old(View()), h1, s1, h, View(), p, c);
      }
      ListEnds(p);
      PrunedEnd(old(h), old(View()), h, View(), p);
      p.first, p.last := null, null;
    }

    /** `XMLDocument::DeleteNode`: deletes `n` wherever it is; for the document it reads a null pointer. */
    method Delete(n: Node, ghost p: Node?, ghost sub: set<Node>) returns (ok: bool)
      requires Valid() && n in live && n.parent == p && sub == Subtree(h, View(), n)
      modifies this`h, this`live, this`kids, this`loose, this`unlinked, live
      ensures Valid() && (ok <==> n != root)
      ensures !ok ==> View() == old(View()) && h == old(h)
      ensures ok ==> Pruned(old(h), old(View()), h, View(), sub, Family(old(View()), p))
      ensures ok && p != null ==> View().Kids(p) == Without(old(View()).Kids(p), n)
    {
      hide Forest, Pruned, Without;
      ok := true;
      if n.parent != null {
        NodeFacts(n);
        NotRoot(h, View(), n);
        DeleteChild(n.parent, n, sub);
      } else if n == root {
        ok := false;
      } else {
        DeleteNode(n, sub);
      }
    }

    /** `XMLDocument::Clear`: terminates, and only the document itself is left. */
    method Clear()
      requires Valid() && loose == {}
      modifies this`h, this`live, this`kids, this`loose, this`unlinked, live
      ensures Valid() && live == {root} && loose == {} && unlinked == [] && View().Kids(root) == []
    {
      hide Forest, ListOk, Synced, Without, Subtree;
      RootLive(h, View());
      DeleteChildren(root, Subtree(h, View(), root));
      RootLive(h, View());
      while unlinked != []
        invariant Valid() && loose == {} && View().Kids(root) == []
        decreases live
      {
        ghost var h1, s1 := h, View();
        UnlinkedFacts(h, View(), unlinked[0]);
        NodeFacts(unlinked[0]);
        var ok := Delete(unlinked[0], null, Subtree(h, View(), unlinked[0]));
        RootStays(h1, s1, h, View(), s1.unlinked[0]);
      }
      OnlyRoot(h, View());
    }

    /** Walks up from `n`. */
    method IsUnder(n: Node, a: Node) returns (below: bool)
      requires Valid() && n in live
      ensures below == Under(h, View(), n, a)
    {
      hide ListOk;
      var at: Node? := n;
      while at != null
        invariant at != null ==> at in live && Under(h, View(), at, a) == Under(h, View(), n, a)
        invariant at == null ==> !Under(h, View(), n, a)
        decreases if at == null then 0 else rank[at] + 1
      {
        assert Placed(h, View(), at) && h[at] == Fields(at);
        if at == a {
          return true;
        }
        at := at.parent;
      }
      below := false;
    }

    /** Those of `known` that are not below `a`. */
    method Outside(known: seq<Node>, a: Node) returns (rest: seq<Node>)
      requires Valid() && forall k :: k in known ==> k in live
      ensures forall k :: k in rest <==> k in known && !Under(h, View(), k, a)
    {
      hide Forest, Under, Synced;
      rest := [];
      for i := 0 to |known|
        invariant forall k :: k in rest <==> k in known[..i] && !Under(h, View(), k, a)
      {
        var below := IsUnder(known[i], a);
        if !below {
          rest := rest + [known[i]];
        }
      }
    }

    /** A new last child of the document. */
    method AppendNew() returns (n: Node)
      requires Valid()
      modifies this`h, this`live, this`kids, this`loose, this`unlinked, this`rank, live
      ensures Valid() && fresh(n) && live == old(live) + {n} && View().Kids(root) == old(View()).Kids(root) + [n]
    {
      hide Forest, Under, Synced, ListOk, Reparented, Without;
      RootLive(h, View());
      n := CreateUnlinkedNode();
      RootUnder(h, View(), n);
      NobodysChild(h, View(), n);
      WithoutAbsent(View().Kids(root), n);
      var r := InsertEndChild(root, n);
    }

    /** What holds between two operations, of the document and of the nodes its user knows. */
    ghost predicate Between(known: seq<Node>)
      reads this, live
    {
      Valid() && loose == {} && forall k :: k in known ==> k in live
    }

    /** Inserts of any kind, unless it would break the document. */
    method Put(known: seq<Node>, p: Node, x: Node, at: Place) returns (ok: bool)
      requires Between(known) && p in known && x in known
      modifies this`h, this`kids, this`loose, this`unlinked, this`rank, live
      ensures ok <==> !old(Misplaced(h, View(), known, p, x, at))
      ensures !ok ==> Valid() && View() == old(View()) && h == old(h)
      ensures ok ==> Between(known) && live == old(live) && Moved(old(h), old(View()), known, p, x, at, View())
    {
      hide Forest, Under, Synced, Without, ListOk, InsertAfter, Reparented, Adopted;
      NodeFacts(x);
      var below := IsUnder(p, x);
      match at
      case End =>
        ok := x != root && !below;
        if ok {
          var r := InsertEndChild(p, x);
          AdoptedStays(old(View()), View(), x, p, Without(old(View()).Kids(p), x) + [x]);
        }
      case First =>
        ok := x != root && !below;
        if ok {
          var r := InsertFirstChild(p, x);
          AdoptedStays(old(View()), View(), x, p, [x] + Without(old(View()).Kids(p), x));
        }
      case After(i) =>
        ok := true;
        if i < |known| {
          ok := PutAfter(known, p, known[i], x, below);
        }
    }

    method PutAfter(known: seq<Node>, p: Node, after: Node, x: Node, below: bool) returns (ok: bool)
      requires Between(known) && p in known && after in known && x in known && below == Under(h, View(), p, x)
      modifies this`h, this`kids, this`loose, this`unlinked, this`rank, live
      ensures ok <==> !old(MisplacedAfter(h, View(), p, after, x))
      ensures !ok ==> Valid() && View() == old(View()) && h == old(h)
      ensures ok ==> Between(known) && live == old(live) && MovedAfter(old(h), old(View()), p, after, x, View())
    {
      hide Forest, Under, Synced, Without, ListOk, InsertAfter, Reparented, Adopted;
      NodeFacts(x);
      NodeFacts(after);
      ok := !(after.parent == p && (x == root || (after != x && (below || (after.next == x && x.next == null)))));
      if ok {
        var r := InsertAfterChild(p, after, x);
        if r == Added && after != x {
          AdoptedStays(old(View()), View(), x, p, InsertAfter(Without(old(View()).Kids(p), x), after, x));
        }
      }
    }

    /**
      One operation.  Numbers that name no known node make it do nothing; an operation that would break
      the document is not performed.
      */
    method Perform(known: seq<Node>, op: Op) returns (ok: bool, known': seq<Node>)
      requires Between(known)
      modifies this`h, this`live, this`kids, this`loose, this`unlinked, this`rank, live
      ensures Between(known') && fresh(live - old(live))
      ensures ok <==> !old(Breaks(h, View(), known, op))
      ensures !ok ==> known' == known && View() == old(View()) && h == old(h)
      ensures ok ==> Performed(old(h), old(View()), known, op, View(), known')
    {
      hide Forest, Under, Synced, Without, ListOk, Subtree, Misplaced, Moved;
      ok, known' := true, known;
      match op
      case Make =>
        var n := CreateUnlinkedNode();
        known' := known + [n];
      case Move(p, x, at) =>
        if p < |known| && x < |known| {
          ok := Put(known, known[p], known[x], at);
        }
      case Remove(x) =>
        if x < |known| {
          ok := known[x] != root;
          if ok {
            known' := Erase(known, known[x]);
          }
        }
      case Empty(p) =>
        if p < |known| {
          known' := EraseChildren(known, known[p]);
        }
      case Reset =>
        RootLive(h, View());
        Clear();
        known' := [root];
    }

    method Erase(known: seq<Node>, n: Node) returns (known': seq<Node>)
      requires Between(known) && n in known && n != root
      modifies this`h, this`live, this`kids, this`loose, this`unlinked, live
      ensures Between(known') && live == old(live) - Subtree(old(h), old(View()), n)
      ensures Elems(known') == Elems(known) * live && n in old(h)
      ensures var p := old(h)[n].parent;
              && (forall m :: m in live && m !in Family(old(View()), p) ==> View().Kids(m) == old(View()).Kids(m))
              && (p != null ==> View().Kids(p) == Without(old(View()).Kids(p), n))
    {
      hide Forest, Under, Synced, Without, ListOk;
      NodeFacts(n);
      known' := Outside(known, n);
      var ok := Delete(n, n.parent, Subtree(h, View(), n));
    }

    method EraseChildren(known: seq<Node>, p: Node) returns (known': seq<Node>)
      requires Between(known) && p in known
      modifies this`h, this`live, this`kids, this`loose, this`unlinked, live
      ensures Between(known') && live == old(live) - (Subtree(old(h), old(View()), p) - {p})
      ensures Elems(known') == Elems(known) * live
      ensures forall m :: m in live ==> View().Kids(m) == if m == p then [] else old(View()).Kids(m)
    {
      hide Forest, Under, Synced, Without, ListOk;
      known' := Outside(known, p);
      known' := known' + [p];
      DeleteChildren(p, Subtree(h, View(), p));
    }

    /**
      Any sequence of creations, inserts, moves and deletions, from a new document.  The pointers stay a
      forest, with nothing lost between the tree and the list of unlinked nodes, up to exactly the first
      operation that puts a node below itself or reads through a null pointer: `n` of them are performed.
      */
    static method Run(ops: seq<Op>) returns (d: Document, known: seq<Node>, n: nat)
      ensures d.Between(known) && n <= |ops| && (n < |ops| ==> Breaks(d.h, d.View(), known, ops[n]))
    {
      hide Forest, Under, Document.Synced, ListOk, Subtree, Moved, Breaks;
      d := new Document();
      known := [d.root];
      n := 0;
      while n < |ops|
        invariant n <= |ops| && fresh(d) && fresh(d.live) && d.Between(known)
      {
        var ok;
        ok, known := d.Perform(known, ops[n]);
        if !ok {
          return;
        }
        n := n + 1;
      }
    }
  }

  datatype Place = End | First | After(i: nat)

  /** What a user does to a document; nodes are named by their position among those known. */
  datatype Op =
    | Make
    | Move(p: nat, x: nat, at: Place)
    | Remove(x: nat)
    | Empty(p: nat)
    | Reset

  /** Insertion behind `after` reads through a null pointer, or closes a loop. */
  ghost predicate MisplacedAfter(h: Store, s: Shape, p: Node, after: Node, x: Node)
    requires Forest(h, s) && p in s.live && after in s.live && x in s.live
  {
    h[after].parent == p &&
    (x == s.root || (after != x && (Under(h, s, p, x) || (h[after].next == x && h[x].next == null))))
  }

  ghost predicate Misplaced(h: Store, s: Shape, known: seq<Node>, p: Node, x: Node, at: Place)
    requires Forest(h, s) && p in s.live && x in s.live && forall k :: k in known ==> k in s.live
  {
    if at.After? then at.i < |known| && MisplacedAfter(h, s, p, known[at.i], x)
    else x == s.root || Under(h, s, p, x)
  }

  /** The operations after which the document is not a tree, or that read through a null pointer. */
  ghost predicate Breaks(h: Store, s: Shape, known: seq<Node>, op: Op)
    requires Forest(h, s) && forall k :: k in known ==> k in s.live
  {
    match op
    case Move(p, x, at) => p < |known| && x < |known| && Misplaced(h, s, known, known[p], known[x], at)
    case Remove(x) => x < |known| && known[x] == s.root
    case _ => false
  }

  ghost predicate MovedAfter(h: Store, s: Shape, p: Node, after: Node, x: Node, s': Shape)
    requires after in h
  {
    if h[after].parent == p && after != x then Adopted(s, s', x, p, InsertAfter(Without(s.Kids(p), x), after, x))
    else s' == s
  }

  /** Where an insertion puts the node: all other lists only lose it. */
  ghost predicate Moved(h: Store, s: Shape, known: seq<Node>, p: Node, x: Node, at: Place, s': Shape)
    requires forall k :: k in known ==> k in h
  {
    match at
    case End => Adopted(s, s', x, p, Without(s.Kids(p), x) + [x])
    case First => Adopted(s, s', x, p, [x] + Without(s.Kids(p), x))
    case After(i) => if i < |known| then MovedAfter(h, s, p, known[i], x, s') else s' == s
  }

  /** What an operation does: where nodes go, and which are gone. */
  ghost predicate Performed(h: Store, s: Shape, known: seq<Node>, op: Op, s': Shape, known': seq<Node>)
    requires Forest(h, s) && forall k :: k in known ==> k in s.live
  {
    match op
    case Make =>
      && |known'| == |known| + 1 && known' == known + [known'[|known|]] && known'[|known|] !in s.live
      && s'.live == s.live + {known'[|known|]} && s'.unlinked == s.unlinked + [known'[|known|]]
    case Move(p, x, at) =>
      && known' == known && s'.live == s.live
      && if p < |known| && x < |known| then Moved(h, s, known, known[p], known[x], at, s') else s' == s
    case Remove(x) =>
      if x < |known| then
        && s'.live == s.live - Subtree(h, s, known[x]) && Elems(known') == Elems(known) * s'.live
        && var p := h[known[x]].parent;
           && (forall m :: m in s'.live && m !in Family(s, p) ==> s'.Kids(m) == s.Kids(m))
           && (p != null ==> s'.Kids(p) == Without(s.Kids(p), known[x]))
      else s' == s && known' == known
    case Empty(p) =>
      if p < |known| then
        && s'.live == s.live - (Subtree(h, s, known[p]) - {known[p]})
        && Elems(known') == Elems(known) * s'.live
        && forall m :: m in s'.live ==> s'.Kids(m) == if m == known[p] then [] else s.Kids(m)
      else s' == s && known' == known
    case Reset => s'.live == {s.root} && s'.unlinked == [] && known' == [s.root]
  }

  lemma AdoptedStays(s: Shape, s': Shape, x: Node, p: Node, ks: seq<Node>)
    requires Adopted(s, s', x, p, ks)
    ensures s'.live == s.live && s'.loose == s.loose - {x} && s'.root == s.root
  {
  }

  /** Two children, the second put behind the first, where it already is. */
  method NullReadHappens() returns (r: Outcome)
    ensures r == NullRead
  {
    hide Forest, Under, Document.Synced, ListOk, Reparented;
    var d := new Document();
    var a := d.AppendNew();
    var b := d.AppendNew();
    d.ListEnds(d.root);
    ghost var i := d.Sibling(a);
    ghost var j := d.Sibling(b);
    r := d.InsertAfterChild(d.root, a, b);
  }

  /** The document given as the node to insert. */
  method DocumentInserted() returns (r: Outcome)
    ensures r == NullRead
  {
    hide Forest, Under, Document.Synced, ListOk;
    var d := new Document();
    var a := d.CreateUnlinkedNode();
    r := d.InsertEndChild(a, d.root);
  }

  /** A node made a child of itself: nothing refuses it, and the pointers are no forest any more. */
  method LoopHappens() returns (d: Document)
    ensures d.Synced() && !d.Valid()
  {
    hide Forest, Document.Synced, ListOk;
    d := new Document();
    var a := d.CreateUnlinkedNode();
    assert Under(d.h, d.View(), a, a);
    var r := d.InsertEndChild(a, a);
  }

  /** The pointer writes of `InsertEndChild`; `a` is the last child so far. */
  method LinkEnd(p: Node, x: Node, ghost a: Node?)
    requires a == p.last && a != x && (p.last == null <==> p.first == null)
    modifies p`first, p`last, x`parent, x`prev, x`next, If(a)`next
    ensures x.parent == p && x.prev == a && x.next == null && p.last == x
    ensures p.first == (if a == null then x else old(p.first)) && (a != null ==> a.next == x)
  {
    if p.last != null {
      p.last.next := x;
      x.prev := p.last;
      p.last := x;
      x.next := null;
    } else {
      p.first, p.last := x, x;
      x.prev := null;
      x.next := null;
    }
    x.parent := p;
  }

  /** The pointer writes of `InsertFirstChild`; `b` is the first child so far. */
  method LinkFirst(p: Node, x: Node, ghost b: Node?)
    requires b == p.first && b != x && (p.last == null <==> p.first == null)
    modifies p`first, p`last, x`parent, x`prev, x`next, If(b)`prev
    ensures x.parent == p && x.prev == null && x.next == b && p.first == x
    ensures p.last == (if b == null then x else old(p.last)) && (b != null ==> b.prev == x)
  {
    if p.first != null {
      p.first.prev := x;
      x.next := p.first;
      p.first := x;
      x.prev := null;
    } else {
      p.first, p.last := x, x;
      x.prev := null;
      x.next := null;
    }
    x.parent := p;
  }

  /** The pointer writes of `InsertAfterChild`; `b` is the sibling that follows `after` so far. */
  method LinkAfter(p: Node, after: Node, x: Node, ghost b: Node)
    requires b == after.next && after != x && b != x
    modifies x`parent, x`prev, x`next, after`next, b`prev
    ensures x.parent == p && x.prev == after && x.next == b && after.next == x && b.prev == x
  {
    x.prev := after;
    x.next := after.next;
    after.next.prev := x;
    after.next := x;
    x.parent := p;
  }

  function If(n: Node?): set<Node> {
    if n == null then {} else {n}
  }

  /** The pointer writes of `XMLNode::Unlink`; `a` and `b` are the neighbours of `child`. */
  method JoinNeighbours(p: Node, child: Node, ghost a: Node?, ghost b: Node?)
    requires a == child.prev && b == child.next && p != child && a != child && b != child
    modifies p`first, p`last, child`parent, child`prev, child`next, If(a)`next, If(b)`prev
    ensures child.parent == null && child.prev == null && child.next == null
    ensures p.first == (if old(p.first) == child then b else old(p.first))
    ensures p.last == (if old(p.last) == child then a else old(p.last))
    ensures (a != null ==> a.next == b) && (b != null ==> b.prev == a)
  {
    if child == p.first {
      p.first := p.first.next;
    }
    if child == p.last {
      p.last := p.last.prev;
    }
    if child.prev != null {
      child.prev.next := child.next;
    }
    if child.next != null {
      child.next.prev := child.prev;
    }
    child.next, child.prev, child.parent := null, null, null;
  }

  /** The pointers after `Unlink`, node by node. */
  ghost function Unlinked(h: Store, child: Node, p: Node): Store
    requires child in h && p in h
  {
    var c := h[child];
    map n | n in h ::
      if n == child then h[n].(parent := null, prev := null, next := null)
      else h[n].(first := if n == p && h[n].first == child then c.next else h[n].first,
                 last := if n == p && h[n].last == child then c.prev else h[n].last,
                 prev := if n == c.next then c.prev else h[n].prev,
                 next := if n == c.prev then c.next else h[n].next)
  }

  /** The neighbours of `ks[i]`. */
  lemma Neighbours(h: Store, p: Node, ks: seq<Node>, i: nat)
    requires ListOk(h, p, ks) && i < |ks|
    ensures p in h && ks[i] in h
    ensures h[ks[i]].prev == At(ks, i - 1) != ks[i] && h[ks[i]].next == At(ks, i + 1) != ks[i]
    ensures (h[ks[i]].prev != null ==> h[ks[i]].prev in h) && (h[ks[i]].next != null ==> h[ks[i]].next in h)
  {
    assert h[ks[i]].prev == At(ks, i - 1) && h[ks[i]].next == At(ks, i + 1);
  }

  lemma UnlinkedAt(h: Store, p: Node, ks: seq<Node>, i: nat, j: nat)
    requires ListOk(h, p, ks) && i < |ks| && p !in ks && j < |ks| && j != i
    ensures var h' := Unlinked(h, ks[i], p);
            && h'[ks[j]].parent == p
            && h'[ks[j]].prev == (if j == i + 1 then At(ks, i - 1) else At(ks, j - 1))
            && h'[ks[j]].next == (if j == i - 1 then At(ks, i + 1) else At(ks, j + 1))
  {
    Neighbours(h, p, ks, i);
    assert h[ks[j]].parent == p && h[ks[j]].prev == At(ks, j - 1) && h[ks[j]].next == At(ks, j + 1);
  }

  lemma UnlinkedElsewhere(h: Store, p: Node, ks: seq<Node>, i: nat)
    requires ListOk(h, p, ks) && i < |ks| && p !in ks
    ensures var h' := Unlinked(h, ks[i], p);
            && SameElsewhere(h, h', p, ks) && In(h', ks) && p in h'
            && h'[ks[i]].parent == null && h'[ks[i]].prev == null && h'[ks[i]].next == null
            && h'[p].first == (if i == 0 then At(ks, 1) else ks[0])
            && h'[p].last == (if i == |ks| - 1 then At(ks, |ks| - 2) else ks[|ks| - 1])
  {
    Neighbours(h, p, ks, i);
  }

  lemma UnlinkedJoins(h: Store, p: Node, ks: seq<Node>, i: nat)
    requires ListOk(h, p, ks) && i < |ks| && p !in ks
    ensures var c := h[ks[i]];
            && c.prev != ks[i] && c.next != ks[i]
            && (c.prev != null ==> c.prev in h) && (c.next != null ==> c.next in h)
    ensures var h' := Unlinked(h, ks[i], p);
            && SameElsewhere(h, h', p, ks) && Joined(h', p, ks, i)
            && h'[ks[i]].parent == null && h'[ks[i]].prev == null && h'[ks[i]].next == null
  {
    hide SameElsewhere, ListOk, Unlinked, At, Distinct;
    Neighbours(h, p, ks, i);
    UnlinkedElsewhere(h, p, ks, i);
    var h' := Unlinked(h, ks[i], p);
    forall j | 0 <= j < |ks| && j != i
      ensures h'[ks[j]].parent == p
      ensures h'[ks[j]].prev == if j == i + 1 then At(ks, i - 1) else At(ks, j - 1)
      ensures h'[ks[j]].next == if j == i - 1 then At(ks, i + 1) else At(ks, j + 1)
    {
      UnlinkedAt(h, p, ks, i, j);
    }
  }
}
