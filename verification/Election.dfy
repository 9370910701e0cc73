/**
  Leader election among gateways: every gateway keeps an ephemeral, sequentially numbered node under
  the election root, and calls the owner of the lowest number it has seen the leader.
  */
module Election {
  import opened Sessions

  type Name = string

  // ----- node names -----

  function Digit(c: char): nat
    requires '0' <= c <= '9'
  {
    c as nat - '0' as nat
  }

  function Pow10(w: nat): nat
    ensures Pow10(w) > 0
  {
    if w == 0 then 1 else 10 * Pow10(w - 1)
  }

  /** `n` in decimal, padded or cut to `w` digits. */
  function Decimal(n: nat, w: nat): (s: string)
    ensures |s| == w && forall i :: 0 <= i < |s| ==> '0' <= s[i] <= '9'
  {
    if w == 0 then "" else Decimal(n / 10, w - 1) + ['0' + (n % 10) as char]
  }

  /** How the service names the node with sequence number `n`. */
  function NodeName(n: nat): string {
    "n_" + Decimal(n, 10)
  }

  function DigitsEnd(s: string): (k: nat)
    ensures k <= |s| && forall i :: 0 <= i < k ==> '0' <= s[i] <= '9'
    ensures k < |s| ==> !('0' <= s[k] <= '9')
  {
    if s != "" && '0' <= s[0] <= '9' then 1 + DigitsEnd(s[1..]) else 0
  }

  function Value(s: string): nat
    requires forall i :: 0 <= i < |s| ==> '0' <= s[i] <= '9'
  {
    if s == "" then 0 else 10 * Value(s[..|s| - 1]) + Digit(s[|s| - 1])
  }

  /** `atoi` on text that starts with digits. */
  function Atoi(s: string): nat {
    Value(s[..DigitsEnd(s)])
  }

  lemma ValueOfLast(s: string, d: nat)
    requires (forall i :: 0 <= i < |s| ==> '0' <= s[i] <= '9') && d < 10
    ensures Value(s + ['0' + d as char]) == 10 * Value(s) + d
  {
    var t := s + ['0' + d as char];
    assert t[..|t| - 1] == s;
  }

  lemma {:induction false} ValueOfDecimal(n: nat, w: nat)
    requires n < Pow10(w)
    ensures Value(Decimal(n, w)) == n
  {
    if w == 0 {
    } else {
      ValueOfDecimal(n / 10, w - 1);
      ValueOfLast(Decimal(n / 10, w - 1), n % 10);
    }
  }

  lemma {:induction false} AllDigits(s: string)
    requires forall i :: 0 <= i < |s| ==> '0' <= s[i] <= '9'
    ensures DigitsEnd(s) == |s|
  {
    if s == "" {
    } else {
      AllDigits(s[1..]);
    }
  }

  /** The number read back from a node's name is its sequence number. */
  lemma SequenceOfName(n: nat)
    requires n < 0x8000_0000
    ensures |NodeName(n)| >= 2 && Atoi(NodeName(n)[2..]) == n
  {
    var d := Decimal(n, 10);
    AllDigits(d);
    ValueOfDecimal(n, 10);
    assert NodeName(n)[2..] == d && d[..10] == d;
  }

  predicate WellNamed(children: seq<string>) {
    forall i :: 0 <= i < |children| ==> |children[i]| >= 2
  }

  /** The number in the name of the `i`-th child, behind its two leading characters. */
  function Number(children: seq<string>, i: nat): nat
    requires WellNamed(children) && i < |children|
  {
    Atoi(children[i][2..])
  }

  /** What the scan over the listed children settles on. */
  function Scan(children: seq<string>): (j: nat)
    requires WellNamed(children) && children != []
    ensures j < |children|
  {
    var n := |children| - 1;
    if n == 0 then 0
    else
      var j := Scan(children[..n]);
      if Number(children, j) > Number(children, n) then n else j
  }

  /** That is the first child with the lowest number. */
  lemma {:induction false} ScanIsLowest(children: seq<string>)
    requires WellNamed(children) && children != []
    ensures forall i :: 0 <= i < |children| ==> Number(children, Scan(children)) <= Number(children, i)
    ensures forall i :: 0 <= i < Scan(children) ==> Number(children, Scan(children)) < Number(children, i)
  {
    hide Atoi;
    var n := |children| - 1;
    if n == 0 {
    } else {
      var init := children[..n];
      ScanIsLowest(init);
      assert forall i :: 0 <= i < n ==> Number(init, i) == Number(children, i);
    }
  }

  method FindLeader(children: seq<string>) returns (j: nat)
    requires WellNamed(children) && children != []
    ensures j == Scan(children)
  {
    hide Atoi;
    var min := 0;
    j := 0;
    for i := 0 to |children|
      invariant i > 0 ==> j == Scan(children[..i]) && min == Number(children, j)
    {
      var t := Atoi(children[i][2..]);
      assert children[..i + 1][..i] == children[..i];
      if i == 0 || min > t {
        min := t;
        j := i;
      }
    }
    assert children[..|children|] == children;
  }

  // ----- listings of a set of nodes -----

  ghost predicate IsMin(m: nat, ns: set<nat>) {
    m in ns && forall n :: n in ns ==> m <= n
  }

  /** `children` lists the nodes `ns` in some order; the service counts in 32 bits. */
  ghost predicate Lists(children: seq<string>, ns: set<nat>) {
    && (forall n :: n in ns ==> n < 0x8000_0000 && NodeName(n) in children)
    && (forall c :: c in children ==> exists n :: n in ns && c == NodeName(n))
  }

  /** Whatever the order of the listing, the scan finds the lowest sequence number. */
  lemma ElectsLowest(children: seq<string>, ns: set<nat>)
    requires Lists(children, ns) && children != []
    ensures WellNamed(children) && IsMin(Number(children, Scan(children)), ns)
  {
    forall i | 0 <= i < |children|
      ensures exists n :: n in ns && children[i] == NodeName(n)
    {
      assert children[i] in children;
    }
    ScanIsLowest(children);
    var j := Scan(children);
    var m :| m in ns && children[j] == NodeName(m);
    SequenceOfName(m);
    forall n | n in ns
      ensures m <= n
    {
      var i :| 0 <= i < |children| && children[i] == NodeName(n);
      SequenceOfName(n);
      assert Number(children, j) <= Number(children, i);
    }
  }

  lemma {:induction false} AnyListing(ns: set<nat>) returns (children: seq<string>)
    requires forall n :: n in ns ==> n < 0x8000_0000
    ensures Lists(children, ns) && WellNamed(children) && (ns != {} ==> children != [])
  {
    hide Decimal;
    if ns == {} {
      children := [];
    } else {
      var n :| n in ns;
      var rest := AnyListing(ns - {n});
      children := rest + [NodeName(n)];
    }
  }

  // ----- runs -----

  /** One gateway's knowledge: the last nonempty set of nodes it listed and the lowest of them. */
  datatype View = View(seen: set<nat>, lowest: nat, leader: Name, fetched: bool)

  /**
    `born` maps every node ever created to the name stored in it, `live` says which still exist, and
    `next` is the service's sequence counter.
    */
  datatype State = State(next: nat, born: map<nat, Name>, live: set<nat>, views: map<Session, View>)

  datatype Event =
    | Join(name: Name)
    | Leave(nodes: set<nat>)
    | List(g: Session, children: seq<string>)
    | Fetch(g: Session)

  const START := State(0, map[], {}, map[])

  ghost predicate Next(s: State, e: Event, s': State) {
    match e
    case Join(name) =>
      s' == s.(next := s.next + 1, born := s.born[s.next := name], live := s.live + {s.next})
    case Leave(ns) =>
      s' == s.(live := s.live - ns)
    case List(g, children) =>
      // an empty listing leaves the gateway as it was
      && Lists(children, s.live) && WellNamed(children)
      && s' == if children == [] then s else s.(views := s.views[g := Listed(s, g, Number(children, Scan(children)))])
    case Fetch(g) =>
      // the node may be gone by now: reading it then yields the empty name
      && g in s.views && !s.views[g].fetched
      && s' == s.(views := s.views[g := s.views[g].(leader := Data(s, s.views[g].lowest), fetched := true)])
  }

  function Listed(s: State, g: Session, m: nat): View {
    View(s.live, m, if g in s.views then s.views[g].leader else "", false)
  }

  function Data(s: State, n: nat): Name {
    if n in s.live && n in s.born then s.born[n] else ""
  }

  ghost predicate Run(ss: seq<State>, es: seq<Event>) {
    && |ss| == |es| + 1 && ss[0] == START
    && forall i {:trigger es[i]} :: 0 <= i < |es| ==> Next(ss[i], es[i], ss[i + 1])
  }

  /** No live node is below what any gateway calls the lowest; names stay what they were at birth. */
  ghost predicate Inv(s: State) {
    && (forall n :: n in s.live ==> n in s.born) && (forall n :: n in s.born ==> n < s.next)
    && forall g :: g in s.views ==> ViewOk(s, s.views[g])
  }

  ghost predicate ViewOk(s: State, v: View) {
    && v.lowest in s.born && IsMin(v.lowest, v.seen)
    && (forall n :: n in s.live ==> v.lowest <= n)
    && (v.fetched ==> v.leader == "" || v.leader == s.born[v.lowest])
  }

  /** The later state has the same births, and a node that is gone stays gone. */
  ghost predicate Later(s: State, t: State) {
    && s.next <= t.next && s.born.Keys <= t.born.Keys
    && (forall n :: n in s.born ==> t.born[n] == s.born[n])
    && (forall n :: n in t.live ==> n in s.live || n >= s.next)
    && (forall g :: g in s.views ==> g in t.views && s.views[g].lowest <= t.views[g].lowest)
  }

  lemma StepKeeps(s: State, e: Event, s': State)
    requires Inv(s) && Next(s, e, s')
    ensures Inv(s') && Later(s, s')
  {
    hide Scan, Lists;
    if e.List? && e.children != [] {
      ElectsLowest(e.children, s.live);
    }
    forall g | g in s'.views
      ensures ViewOk(s', s'.views[g])
    {
      assert g in s.views ==> ViewOk(s, s.views[g]);
    }
  }

  /** While the counter is in range the nodes can be listed, and the lowest of them is found. */
  lemma ListStep(s: State, g: Session) returns (children: seq<string>, t: State)
    requires Inv(s) && s.next <= 0x8000_0000 && s.live != {}
    ensures Next(s, List(g, children), t) && t == s.(views := t.views)
    ensures g in t.views && !t.views[g].fetched && IsMin(t.views[g].lowest, s.live)
  {
    children := AnyListing(s.live);
    ElectsLowest(children, s.live);
    hide Lists, Scan, WellNamed, Number;
    t := s.(views := s.views[g := Listed(s, g, Number(children, Scan(children)))]);
  }

  lemma {:induction false} Reachable(ss: seq<State>, es: seq<Event>, i: nat)
    requires Run(ss, es) && i < |ss|
    ensures Inv(ss[i])
    decreases i
  {
    if i == 0 {
    } else {
      Reachable(ss, es, i - 1);
      StepKeeps(ss[i - 1], es[i - 1], ss[i]);
    }
  }

  lemma {:induction false} Monotone(ss: seq<State>, es: seq<Event>, i: nat, j: nat)
    requires Run(ss, es) && i <= j < |ss|
    ensures Later(ss[i], ss[j])
    decreases j - i
  {
    if i == j {
    } else {
      Monotone(ss, es, i, j - 1);
      Reachable(ss, es, i);
      Reachable(ss, es, j - 1);
      StepKeeps(ss[j - 1], es[j - 1], ss[j]);
      LaterTrans(ss[i], ss[j - 1], ss[j]);
    }
  }

  lemma LaterTrans(s: State, t: State, u: State)
    requires Later(s, t) && Later(t, u)
    ensures Later(s, u)
  {
  }

  /** In every reachable state the lowest node of a gateway is the minimum of its last listing. */
  lemma LeaderIsMinimum(ss: seq<State>, es: seq<Event>, i: nat, g: Session)
    requires Run(ss, es) && i < |ss| && g in ss[i].views
    ensures var v := ss[i].views[g];
            && IsMin(v.lowest, v.seen) && v.lowest in ss[i].born
            && (v.fetched ==> v.leader == "" || v.leader == ss[i].born[v.lowest])
  {
    Reachable(ss, es, i);
    assert ViewOk(ss[i], ss[i].views[g]);
  }

  /**
    Gateways that listed the same nodes agree on the number, and on the name too unless one of them
    found the node gone when it went back to read the name.
    */
  lemma SameObservationAgrees(ss: seq<State>, es: seq<Event>, i: nat, j: nat, g: Session, g': Session)
    requires Run(ss, es) && i <= j < |ss| && g in ss[i].views && g' in ss[j].views
    requires ss[i].views[g].seen == ss[j].views[g'].seen
    ensures var v, w := ss[i].views[g], ss[j].views[g'];
            && v.lowest == w.lowest
            && (v.fetched && w.fetched && v.leader != "" && w.leader != "" ==> v.leader == w.leader)
  {
    LeaderIsMinimum(ss, es, i, g);
    LeaderIsMinimum(ss, es, j, g');
    Monotone(ss, es, i, j);
  }

  /** The number of the leader one gateway sees never decreases. */
  lemma LeaderNeverDecreases(ss: seq<State>, es: seq<Event>, i: nat, j: nat, g: Session)
    requires Run(ss, es) && i <= j < |ss| && g in ss[i].views
    ensures g in ss[j].views && ss[i].views[g].lowest <= ss[j].views[g].lowest
  {
    Monotone(ss, es, i, j);
  }

  /**
    While a leader's node lives, every gateway that lists the nodes finds that same node, however
    many have joined meanwhile; and no listing ever goes below a number some gateway already holds.
    */
  lemma JoinsNeverDisplace(ss: seq<State>, es: seq<Event>, i: nat, j: nat, g: Session, g': Session)
    requires Run(ss, es) && i <= j < |es| && g in ss[i].views && es[j].List? && es[j].g == g' && es[j].children != []
    ensures g' in ss[j + 1].views && ss[i].views[g].lowest <= ss[j + 1].views[g'].lowest
    ensures ss[i].views[g].lowest in ss[j].live ==> ss[j + 1].views[g'].lowest == ss[i].views[g].lowest
  {
    Reachable(ss, es, i);
    Monotone(ss, es, i, j);
    assert ViewOk(ss[i], ss[i].views[g]);
    assert Next(ss[j], es[j], ss[j + 1]);
    ElectsLowest(es[j].children, ss[j].live);
  }

  /** Two gateways whose leaders' nodes both still live have the same leader, whenever they listed. */
  lemma LiveLeadersAgree(ss: seq<State>, es: seq<Event>, i: nat, j: nat, g: Session, g': Session)
    requires Run(ss, es) && i <= j < |ss| && g in ss[i].views && g' in ss[j].views
    requires ss[i].views[g].lowest in ss[j].live && ss[j].views[g'].lowest in ss[j].live
    ensures ss[i].views[g].lowest == ss[j].views[g'].lowest
  {
    Reachable(ss, es, i);
    Reachable(ss, es, j);
    Monotone(ss, es, i, j);
    assert ViewOk(ss[i], ss[i].views[g]) && ViewOk(ss[j], ss[j].views[g']);
  }

  /** The name read is the leader's unless its node vanished between listing and reading. */
  lemma FetchedName(ss: seq<State>, es: seq<Event>, j: nat, g: Session)
    requires Run(ss, es) && j < |es| && es[j] == Fetch(g)
    ensures g in ss[j + 1].views
    ensures var v := ss[j + 1].views[g];
            && v.lowest in ss[j].born
            && v.leader == (if v.lowest in ss[j].live then ss[j].born[v.lowest] else "")
  {
    assert Next(ss[j], es[j], ss[j + 1]);
    LeaderIsMinimum(ss, es, j, g);
  }
}
