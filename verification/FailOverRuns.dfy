/**
  Two runs of election and checkpoint rounds that show where their guarantees end: a gateway that is
  restarted before its session has ended, and an acknowledgement that arrives after its leader is gone.
  */
module FailOverRuns {
  import opened Collections
  import opened Sessions
  import opened FailOver
  import C = Checkpoint

  // ----- building runs -----

  ghost predicate Reached(t: Cluster, guarded: bool) {
    exists ss, evs :: Run(ss, evs) && ss[|evs|] == t && (guarded ==> Guarded(ss, evs))
  }

  lemma Begins(guarded: bool)
    ensures Reached(START, guarded)
  {
    var ss, evs: seq<Event> := [START], [];
    assert Run(ss, evs) && ss[|evs|] == START && Guarded(ss, evs);
  }

  lemma Then(s: Cluster, ev: Event, t: Cluster, guarded: bool)
    requires Reached(s, guarded) && Next(s, ev, t) && (guarded && ev.Start? ==> Alone(s, ev.g))
    ensures Reached(t, guarded)
  {
    var ss, evs :| Run(ss, evs) && ss[|evs|] == s && (guarded ==> Guarded(ss, evs));
    hide Next, Alone;
    assert GoesOn(ss, evs, ss, evs);
    GoThen(ss, evs, ss, evs, ev, t);
    assert (ss + [t])[|evs + [ev]|] == t;
  }

  lemma IsReachable(s: Cluster, guarded: bool)
    requires Reached(s, guarded)
    ensures Inv(s)
  {
    var ss, evs :| Run(ss, evs) && ss[|evs|] == s;
    hide Run, Inv;
    Reachable(ss, evs, |evs|) by { HasEnd(ss, evs); }
  }

  lemma HasEnd(ss: seq<Cluster>, evs: seq<Event>)
    requires Run(ss, evs)
    ensures |ss| == |evs| + 1
  {
  }

  ghost predicate HasNode(s: Cluster, x: Session) {
    exists n :: n in s.owner && s.owner[n] == x
  }

  /** A session starts and joins the election. */
  lemma Enters(s: Cluster, x: Session, guarded: bool) returns (t: Cluster)
    requires Reached(s, guarded) && x !in s.started && x !in s.c.gone && (guarded ==> Alone(s, x))
    ensures Reached(t, guarded) && t.c == s.c && t.started == s.started + {x} && t.e.next == s.e.next + 1
    ensures HasNode(t, x) && forall y :: HasNode(s, y) ==> HasNode(t, y)
    ensures s.e.live == {} ==> Heads(t, x.gateway)
    ensures forall n :: Heads(s, n) ==> Heads(t, n)
  {
    IsReachable(s, guarded);
    var s1 := s.(started := s.started + {x});
    Then(s, Start(x), s1, guarded);
    hide Reached, Next;
    t := JoinStep(s1, x);
    Then(s1, Join(x), t, guarded);
    EnteredNodes(s1, x, t);
  }

  lemma EnteredNodes(s: Cluster, x: Session, t: Cluster)
    requires s.owner.Keys == s.e.born.Keys && (forall n :: n in s.e.born ==> n < s.e.next) && s.e.live <= s.e.born.Keys
    requires Next(s, Join(x), t)
    ensures HasNode(t, x) && forall y :: HasNode(s, y) ==> HasNode(t, y)
    ensures s.e.live == {} ==> Heads(t, x.gateway)
    ensures forall n :: Heads(s, n) ==> Heads(t, n)
  {
    hide GatewayName;
    var k := s.e.next;
    assert k in t.owner && t.owner[k] == x;
    forall y | HasNode(s, y)
      ensures HasNode(t, y)
    {
      var n :| n in s.owner && s.owner[n] == y;
      assert n in t.owner && t.owner[n] == y;
    }
    if s.e.live == {} {
      assert Bottom(t.e, k);
    }
    forall n | Heads(s, n)
      ensures Heads(t, n)
    {
      var m :| m in s.e.live && Bottom(s.e, m) && m in s.e.born && s.e.born[m] == GatewayName(n);
      assert m in t.e.live && Bottom(t.e, m) && m in t.e.born && t.e.born[m] == GatewayName(n);
    }
  }

  lemma Sees(s: Cluster, x: Session, n: nat, guarded: bool) returns (t: Cluster)
    requires Reached(s, guarded) && Live(s, x) && Heads(s, n) && s.e.next <= 0x8000_0000
    ensures Reached(t, guarded) && SameNodesAs(s, t) && t.c == s.c.(leader := s.c.leader[x := n])
  {
    var ss, evs :| Run(ss, evs) && ss[|evs|] == s && (guarded ==> Guarded(ss, evs));
    hide Heads, Next;
    var ss', evs' := SeesLeader(ss, evs, x, n);
    t := ss'[|evs'|];
  }

  /** An act of a live session; `c` is what it leads to. */
  lemma Acts(s: Cluster, act: C.Event, c: C.State, guarded: bool)
    requires Reached(s, guarded) && Live(s, act.g) && !act.See? && !act.Expire?
    requires C.Enabled(s.c, act) && c == C.Apply(s.c, act)
    ensures Reached(s.(c := c), guarded)
  {
    hide Reached;
    Then(s, Act(act), s.(c := c), guarded);
  }

  lemma Ends(s: Cluster, x: Session, guarded: bool) returns (t: Cluster)
    requires Reached(s, guarded) && Live(s, x)
    ensures Reached(t, guarded) && t.c == C.EndSession(s.c, x) && t.started == s.started && t.e.next == s.e.next
    ensures t.owner == s.owner
  {
    hide Reached;
    t := ExpireStep(s, x);
    Then(s, Expire(x), t, guarded);
  }

  /** The one gateway left heads the election. */
  lemma LastOneHeads(s: Cluster, x: Session, guarded: bool)
    requires Reached(s, guarded) && Live(s, x) && HasNode(s, x) && forall y :: Live(s, y) ==> y == x
    ensures Heads(s, x.gateway)
  {
    IsReachable(s, guarded);
    var n :| n in s.owner && s.owner[n] == x;
    assert NodeOk(s, n);
    OnlyOneGateway(s, x.gateway);
  }

  // ----- steps of the rounds on known states -----

  lemma FireNone(s: C.State, path: C.Name, change: C.Change)
    requires forall w :: w in s.watches ==> w.path != path
    ensures C.Fire(s, path, change) == s
  {
    var s' := C.Fire(s, path, change);
    assert s'.watches == s.watches;
    assert (set w | w in s.watches && w.path == path) == {};
    assert s'.notes == s.notes;
  }

  lemma FireOne(s: C.State, w: C.Watch, change: C.Change)
    requires w in s.watches && forall v :: v in s.watches && v.path == w.path ==> v == w
    ensures C.Fire(s, w.path, change) ==
            s.(watches := s.watches - {w}, notes := s.notes + multiset{C.Note(w.g, w.kind, change)})
  {
    var hit := set v | v in s.watches && v.path == w.path;
    assert hit == {w};
    assert (set v | v in hit :: C.Note(v.g, v.kind, change)) == {C.Note(w.g, w.kind, change)};
  }

  /** The state after `g` has taken the leader branch and created the node `n` of `[n] + rest`. */
  function Led1(s: C.State, g: Session, n: C.Name, rest: seq<C.Name>): C.State {
    s.(tx := s.tx[n := C.Znode(C.Empty, g, s.nextId)], nextId := s.nextId + 1, phase := s.phase[g := C.Creating(rest)],
       watches := if s.View(g) == Some(n) then s.watches else s.watches + {C.Watch(g, C.TxWatcher, n)},
       log := s.log + [C.Created(g, n, s.nextId)])
  }

  lemma Creates(s: Cluster, g: Session, n: C.Name, rest: seq<C.Name>, guarded: bool) returns (t: Cluster)
    requires Reached(s, guarded) && Live(s, g) && s.c.Phase(g) == C.Creating([n] + rest) && n !in s.c.tx
    requires forall w :: w in s.c.watches ==> w.path != n
    ensures t == s.(c := Led1(s.c, g, n, rest)) && Reached(t, guarded)
  {
    hide Reached, C.Fire;
    var z := C.Znode(C.Empty, g, s.c.nextId);
    var c := s.c.(tx := s.c.tx[n := z], nextId := s.c.nextId + 1);
    FireNone(C.Add(c, C.Created(g, n, s.c.nextId)), n, C.NodeCreated);
    assert ([n] + rest)[1..] == rest;
    t := s.(c := Led1(s.c, g, n, rest));
    Acts(s, C.Create(g, true), t.c, guarded);
  }

  lemma Takes(s: Cluster, g: Session, children: seq<C.Name>, guarded: bool) returns (t: Cluster)
    requires Reached(s, guarded) && Live(s, g) && s.c.Phase(g).Idle? && s.c.Leads(g)
    ensures t == s.(c := s.c.(phase := s.c.phase[g := C.Creating(children)], log := s.c.log + [C.Took(g)]))
    ensures Reached(t, guarded)
  {
    hide Reached;
    t := s.(c := s.c.(phase := s.c.phase[g := C.Creating(children)], log := s.c.log + [C.Took(g)]));
    Acts(s, C.Begin(g, children), t.c, guarded);
  }

  lemma Follows(s: Cluster, g: Session, n: C.Name, guarded: bool) returns (t: Cluster)
    requires Reached(s, guarded) && Live(s, g) && s.c.Phase(g).Idle? && s.c.View(g) == Some(n) && n != g.gateway
    ensures t == s.(c := s.c.(watches := s.c.watches + {C.Watch(g, C.LeaderWatcher, n)})) && Reached(t, guarded)
  {
    hide Reached;
    t := s.(c := s.c.(watches := s.c.watches + {C.Watch(g, C.LeaderWatcher, n)}));
    Acts(s, C.Begin(g, []), t.c, guarded);
  }

  /** Marking a node that one session watches. */
  function Marked(s: C.State, g: Session, w: C.Watch): C.State
    requires w.path in s.tx
  {
    s.(tx := s.tx[w.path := s.tx[w.path].(mark := C.Commit)], watches := s.watches - {w},
       notes := s.notes + multiset{C.Note(w.g, w.kind, C.NodeChanged)},
       log := s.log + [C.Set(g, w.path, s.tx[w.path].id)])
  }

  lemma MarksWatched(s: C.State, g: Session, w: C.Watch)
    requires w.path in s.tx && w in s.watches && forall v :: v in s.watches && v.path == w.path ==> v == w
    ensures C.SetCommit(s, g, w.path) == Marked(s, g, w)
  {
    hide C.Fire;
    var z := s.tx[w.path];
    FireOne(C.Add(s.(tx := s.tx[w.path := z.(mark := C.Commit)]), C.Set(g, w.path, z.id)), w, C.NodeChanged);
  }

  lemma MarksUnwatched(s: C.State, g: Session, path: C.Name)
    requires path in s.tx && forall w :: w in s.watches ==> w.path != path
    ensures C.SetCommit(s, g, path) ==
            s.(tx := s.tx[path := s.tx[path].(mark := C.Commit)], log := s.log + [C.Set(g, path, s.tx[path].id)])
  {
    hide C.Fire;
    var z := s.tx[path];
    FireNone(C.Add(s.(tx := s.tx[path := z.(mark := C.Commit)]), C.Set(g, path, z.id)), path, C.NodeChanged);
  }

  /** A round without requests, and the commit on a node that one session watches. */
  lemma Commits(s: Cluster, g: Session, w: C.Watch, guarded: bool) returns (t: Cluster)
    requires Reached(s, guarded) && Live(s, g) && s.c.Phase(g) == C.Creating([]) && g !in s.c.ran
    requires s.c.View(g) == Some(w.path) && w.path in s.c.tx
    requires w in s.c.watches && forall v :: v in s.c.watches && v.path == w.path ==> v == w
    ensures t == s.(c := Marked(C.Add(s.c, C.Done(g, 0)), g, w).(phase := s.c.phase[g := C.Idle], ran := s.c.ran + {g}))
    ensures Reached(t, guarded)
  {
    hide Reached, C.SetCommit;
    assert C.Window(false, 0, 0).open == {} && C.Window(true, 0, 0).open == {};
    var s1 := s.(c := s.c.(ran := s.c.ran + {g}, phase := s.c.phase[g := C.Window(false, 0, 0)]));
    Acts(s, C.Start(g, 0), s1.c, guarded);
    var s2 := s1.(c := s1.c.(phase := s1.c.phase[g := C.Window(true, 0, 0)]));
    Acts(s1, C.NextBatch(g), s2.c, guarded);
    MarksWatched(C.Add(s2.c, C.Done(g, 0)), g, w);
    t := s2.(c := Marked(C.Add(s2.c, C.Done(g, 0)), g, w).(phase := s2.c.phase[g := C.Idle]));
    Acts(s2, C.CommitOwn(g), t.c, guarded);
    assert s2.c.phase[g := C.Idle] == s.c.phase[g := C.Idle];
  }

  /** The end of a session that owns one node, while nobody watches anything. */
  lemma EndsUnwatched(s: C.State, g: Session, n: C.Name)
    requires s.watches == {} && n in s.tx && forall m :: m in s.tx ==> (s.tx[m].owner == g <==> m == n)
    ensures C.EndSession(s, g) == s.(tx := s.tx - {n}, gone := s.gone + {g}, log := s.log + [C.Expired(g)])
  {
    assert (set m | m in s.tx && s.tx[m].owner == g) == {n};
    assert (set w | w in s.watches && w.path in {n}) == {};
    assert C.EndSession(s, g).notes == s.notes;
    assert C.EndSession(s, g).watches == {};
  }

  // ----- an acknowledgement that comes late -----

  const A := Session(0, 0)
  const B := Session(1, 0)

  const FIRST_LEADS := C.START.(
    leader := map[A := 0], tx := map[0 := C.Znode(C.Empty, A, 0)], nextId := 1, phase := map[A := C.Creating([])],
    log := [C.Took(A), C.Created(A, 0, 0)])

  /** Gateway 0 is alone, leads, and creates its node. */
  lemma FirstLeads() returns (t: Cluster)
    ensures Reached(t, true) && t.c == FIRST_LEADS && t.started == {A} && t.e.next == 1 && Heads(t, 0)
  {
    Begins(true);
    hide Reached, Heads, HasNode;
    var t1 := Enters(START, A, true);
    var t2 := Sees(t1, A, 0, true);
    SameHeads(t1, t2, 0);
    var t3 := Takes(t2, A, [0], true);
    assert [0] + [] == [0];
    t := Creates(t3, A, 0, [], true);
    SameHeads(t2, t, 0);
    assert t.c.phase == FIRST_LEADS.phase;
  }

  lemma SameHeads(s: Cluster, t: Cluster, n: nat)
    requires SameNodesAs(s, t)
    ensures Heads(s, n) ==> Heads(t, n)
    ensures forall x :: HasNode(s, x) ==> HasNode(t, x)
  {
    hide GatewayName;
    if Heads(s, n) {
      var m :| m in s.e.live && Bottom(s.e, m) && m in s.e.born && s.e.born[m] == GatewayName(n);
      assert Bottom(t.e, m);
    }
  }

  const FIRST_DONE := FIRST_LEADS.(
    tx := map[0 := C.Znode(C.Commit, A, 0)], leader := map[A := 0, B := 0], phase := map[A := C.Idle], ran := {A},
    notes := multiset{C.Note(B, C.LeaderWatcher, C.NodeChanged)},
    log := [C.Took(A), C.Created(A, 0, 0), C.Done(A, 0), C.Set(A, 0, 0)])

  /** Gateway 1 follows; gateway 0 finishes its round, and gateway 1 does not act on the notice yet. */
  lemma FirstRound(s: Cluster) returns (t: Cluster)
    requires Reached(s, true) && s.c == FIRST_LEADS && s.started == {A} && Heads(s, 0) && s.e.next == 1
    ensures Reached(t, true) && t.c == FIRST_DONE && t.started == {A, B} && t.e.next == 2 && HasNode(t, B)
  {
    hide Reached, Heads, HasNode;
    var s1 := Enters(s, B, true);
    var s2 := Sees(s1, B, 0, true);
    SameHeads(s1, s2, 0);
    var s3 := Follows(s2, B, 0, true);
    t := Commits(s3, A, C.Watch(B, C.LeaderWatcher, 0), true);
    SameHeads(s2, t, 0);
    assert t.c.tx == FIRST_DONE.tx && t.c.phase == FIRST_DONE.phase && t.c.ran == FIRST_DONE.ran;
    assert t.c.watches == {} && t.c.notes == FIRST_DONE.notes && t.c.log == FIRST_DONE.log;
  }

  const SECOND_LEADS := FIRST_DONE.(
    tx := map[1 := C.Znode(C.Empty, B, 1)], nextId := 2, gone := {A}, leader := map[A := 0, B := 1],
    phase := map[A := C.Idle, B := C.Creating([])],
    log := FIRST_DONE.log + [C.Expired(A), C.Took(B), C.Created(B, 1, 1)])

  const SECOND_SEES := FIRST_DONE.(
    tx := map[], gone := {A}, leader := map[A := 0, B := 1], log := FIRST_DONE.log + [C.Expired(A)])

  /** Gateway 0 loses its session, and gateway 1 sees itself in the lead. */
  lemma SecondSees(s: Cluster) returns (t: Cluster)
    requires Reached(s, true) && s.c == FIRST_DONE && s.started == {A, B} && HasNode(s, B) && s.e.next == 2
    ensures Reached(t, true) && t.c == SECOND_SEES && t.started == {A, B}
  {
    hide Reached, Heads;
    var s1 := Ends(s, A, true);
    FirstEnds();
    assert HasNode(s1, B);
    LastOneHeads(s1, B, true);
    t := Sees(s1, B, 1, true);
    assert t.c.leader == SECOND_SEES.leader;
  }

  /** Gateway 1 takes the leader branch and creates its node. */
  lemma SecondLeads(s: Cluster) returns (t: Cluster)
    requires Reached(s, true) && s.c == SECOND_SEES && s.started == {A, B}
    ensures Reached(t, true) && t.c == SECOND_LEADS && t.started == {A, B}
  {
    hide Reached;
    var s1 := Takes(s, B, [1], true);
    assert [1] + [] == [1];
    t := Creates(s1, B, 1, [], true);
    assert t.c.tx == SECOND_LEADS.tx && t.c.phase == SECOND_LEADS.phase && t.c.log == SECOND_LEADS.log;
  }

  lemma FirstEnds()
    ensures C.EndSession(FIRST_DONE, A) ==
            FIRST_DONE.(tx := map[], gone := {A}, log := FIRST_DONE.log + [C.Expired(A)])
  {
    EndsUnwatched(FIRST_DONE, A, 0);
    assert FIRST_DONE.tx - {0} == map[];
  }

  /**
    The condition of `MarkedAfterWriting` is needed: after a fail-over a late notice of the old round
    marks a node of the new leader, which has written nothing yet.
    */
  lemma LateAcknowledgement() returns (t: Cluster)
    ensures Reached(t, true)
    ensures var log := t.c.log;
            && |log| == 9 && log[6] == C.Created(B, 1, 1) && log[8] == C.Set(B, 1, 1)
            && forall d :: 0 <= d < |log| && log[d].Done? ==> log[d].g != B
  {
    hide Reached, HasNode;
    var s := FirstLeads();
    var s1 := FirstRound(s);
    var s2 := SecondSees(s1);
    var s3 := SecondLeads(s2);
    var note := C.Note(B, C.LeaderWatcher, C.NodeChanged);
    var c := C.Add(s3.c.(notes := s3.c.notes - multiset{note}), C.Acked(B));
    MarksUnwatched(c, B, 1);
    t := s3.(c := C.SetCommit(c, B, 1));
    Acts(s3, C.Notice(B, C.LeaderWatcher, C.NodeChanged), t.c, true);
  }

  // ----- a gateway that is restarted too early -----

  /** Gateway 1 before and after its restart, and a follower. */
  const H := Session(1, 0)
  const G := Session(1, 1)
  const F := Session(8, 0)

  const OLD_LEADS := C.START.(
    leader := map[H := 1], tx := map[1 := C.Znode(C.Empty, H, 0)], nextId := 1, phase := map[H := C.Creating([])],
    log := [C.Took(H), C.Created(H, 1, 0)])

  /** The old session is alone, leads, and creates its node. */
  lemma OldLeads() returns (t: Cluster)
    ensures Reached(t, false) && t.c == OLD_LEADS && t.started == {H} && t.e.next == 1 && Heads(t, 1)
  {
    Begins(false);
    hide Reached, Heads, HasNode;
    var t1 := Enters(START, H, false);
    var t2 := Sees(t1, H, 1, false);
    SameHeads(t1, t2, 1);
    var t3 := Takes(t2, H, [1], false);
    assert [1] + [] == [1];
    t := Creates(t3, H, 1, [], false);
    SameHeads(t2, t, 1);
    assert t.c.phase == OLD_LEADS.phase;
  }

  lemma OthersEnter(s: Cluster) returns (t: Cluster)
    requires Reached(s, false) && s.c == OLD_LEADS && s.started == {H} && Heads(s, 1) && s.e.next == 1
    ensures Reached(t, false) && t.c == OLD_LEADS.(leader := map[H := 1, G := 1, F := 1]) && t.started == {H, G, F}
  {
    hide Reached, Heads, HasNode;
    var s1 := Enters(s, G, false);
    var s2 := Sees(s1, G, 1, false);
    SameHeads(s1, s2, 1);
    var s3 := Enters(s2, F, false);
    t := Sees(s3, F, 1, false);
    assert t.c.leader == map[H := 1, G := 1, F := 1];
  }

  const TWO_LEAD := OLD_LEADS.(
    leader := map[H := 1, G := 1, F := 1],
    tx := map[1 := C.Znode(C.Empty, H, 0), 8 := C.Znode(C.Empty, G, 1)], nextId := 2,
    phase := map[H := C.Creating([]), G := C.Creating([1, 1])],
    watches := {C.Watch(G, C.TxWatcher, 8), C.Watch(F, C.LeaderWatcher, 1)},
    log := [C.Took(H), C.Created(H, 1, 0), C.Took(G), C.Created(G, 8, 1)])

  /** The new session reads the old one's name, and takes the leader branch too. */
  lemma TwoLead(s: Cluster) returns (t: Cluster)
    requires Reached(s, false) && s.c == OLD_LEADS.(leader := map[H := 1, G := 1, F := 1]) && s.started == {H, G, F}
    ensures Reached(t, false) && t == s.(c := TWO_LEAD)
  {
    hide Reached;
    var s1 := Takes(s, G, [8, 1, 1], false);
    assert [8] + [1, 1] == [8, 1, 1];
    var s2 := Creates(s1, G, 8, [1, 1], false);
    t := Follows(s2, F, 1, false);
    assert t.c.tx == TWO_LEAD.tx && t.c.phase == TWO_LEAD.phase && t.c.watches == TWO_LEAD.watches;
    assert t.c.log == TWO_LEAD.log;
  }

  const COMMITTED := TWO_LEAD.(
    tx := map[1 := C.Znode(C.Commit, H, 0), 8 := C.Znode(C.Empty, G, 1)],
    phase := map[H := C.Idle, G := C.Creating([1, 1])], ran := {H}, watches := {C.Watch(G, C.TxWatcher, 8)},
    notes := multiset{C.Note(F, C.LeaderWatcher, C.NodeChanged)},
    log := TWO_LEAD.log + [C.Done(H, 0), C.Set(H, 1, 0)])

  lemma OldCommits(s: Cluster) returns (t: Cluster)
    requires Reached(s, false) && s.c == TWO_LEAD && s.started == {H, G, F}
    ensures Reached(t, false) && t == s.(c := COMMITTED)
  {
    hide Reached;
    t := Commits(s, H, C.Watch(F, C.LeaderWatcher, 1), false);
    assert t.c.tx == COMMITTED.tx && t.c.phase == COMMITTED.phase && t.c.watches == COMMITTED.watches;
    assert t.c.ran == COMMITTED.ran && t.c.notes == COMMITTED.notes && t.c.log == COMMITTED.log;
  }

  const TOLD := COMMITTED.(
    tx := map[1 := C.Znode(C.Commit, H, 0), 8 := C.Znode(C.Commit, G, 1)], watches := {},
    notes := multiset{C.Note(G, C.TxWatcher, C.NodeChanged)}, log := COMMITTED.log + [C.Acked(F), C.Set(F, 8, 1)])

  /** The follower acknowledges, and the new session is told. */
  lemma Told(s: Cluster) returns (t: Cluster)
    requires Reached(s, false) && s.c == COMMITTED && s.started == {H, G, F}
    ensures Reached(t, false) && t == s.(c := TOLD)
  {
    hide Reached, C.SetCommit;
    var w := C.Watch(G, C.TxWatcher, 8);
    var c := C.Add(COMMITTED.(notes := multiset{}), C.Acked(F));
    assert COMMITTED.notes - multiset{C.Note(F, C.LeaderWatcher, C.NodeChanged)} == multiset{};
    MarksWatched(c, F, w);
    t := s.(c := Marked(c, F, w));
    Acts(s, C.Notice(F, C.LeaderWatcher, C.NodeChanged), t.c, false);
    assert t.c.tx == TOLD.tx && t.c.watches == TOLD.watches && t.c.notes == TOLD.notes && t.c.log == TOLD.log;
  }

  const ABOUT_TO := TOLD.(notes := multiset{}, scan := map[G := C.Deleting({8}, 1)])

  /** The new session scans, and reads the mark on node 1. */
  lemma AboutTo(s: Cluster) returns (t: Cluster)
    requires Reached(s, false) && s.c == TOLD && s.started == {H, G, F}
    ensures Reached(t, false) && t == s.(c := ABOUT_TO)
  {
    hide Reached;
    assert TOLD.tx.Keys == {1, 8} && 1 in TOLD.tx && TOLD.tx != map[];
    var s1 := s.(c := TOLD.(notes := multiset{}, scan := map[G := C.Scanning({1, 8})]));
    Acts(s, C.Notice(G, C.TxWatcher, C.NodeChanged), s1.c, false);
    t := s.(c := ABOUT_TO);
    assert {1, 8} - {1} == {8} && map[G := C.Scanning({1, 8})][G := C.Deleting({8}, 1)] == ABOUT_TO.scan;
    Acts(s1, C.Look(G, 1), t.c, false);
  }

  const REPLACED := ABOUT_TO.(
    tx := map[8 := C.Znode(C.Commit, G, 1), 1 := C.Znode(C.Empty, G, 2)], nextId := 3, gone := {H},
    phase := map[H := C.Idle, G := C.Creating([1])], log := ABOUT_TO.log + [C.Expired(H), C.Created(G, 1, 2)])

  /** The old session ends, node 1 with it, and the new session creates node 1 again. */
  lemma Replaces(s: Cluster) returns (t: Cluster)
    requires Reached(s, false) && s.c == ABOUT_TO && s.started == {H, G, F}
    ensures Reached(t, false) && t.c == REPLACED && t.started == {H, G, F}
  {
    hide Reached;
    var s1 := Ends(s, H, false);
    OldEnds();
    assert [1] + [1] == [1, 1];
    t := Creates(s1, G, 1, [1], false);
    assert t.c.tx == REPLACED.tx && t.c.phase == REPLACED.phase && t.c.log == REPLACED.log;
  }

  lemma OldEnds()
    ensures C.EndSession(ABOUT_TO, H) ==
            ABOUT_TO.(tx := map[8 := C.Znode(C.Commit, G, 1)], gone := {H}, log := ABOUT_TO.log + [C.Expired(H)])
  {
    EndsUnwatched(ABOUT_TO, H, 1);
    assert ABOUT_TO.tx - {1} == map[8 := C.Znode(C.Commit, G, 1)];
  }

  /**
    A gateway restarted before its first session has ended: both of its sessions lead, and a node is
    removed that was never marked.
    */
  lemma EarlyRestart() returns (t: Cluster)
    ensures Reached(t, false)
    ensures var log := t.c.log;
            && !C.OneAtATime(log) && |log| == 11 && log[10] == C.Removed(G, 1, 2) && !C.SetBefore(log, 10, 1, 2)
  {
    hide Reached;
    var s0 := OldLeads();
    var s := OthersEnter(s0);
    var s1 := TwoLead(s);
    var s2 := OldCommits(s1);
    var s3 := Told(s2);
    var s4 := AboutTo(s3);
    var s5 := Replaces(s4);
    t := s5.(c := C.DoRemove(REPLACED, G));
    Acts(s5, C.Remove(G), t.c, false);
    RemovedLog(t.c.log);
  }

  lemma RemovedLog(log: seq<C.Entry>)
    requires log == REPLACED.log + [C.Removed(G, 1, 2)]
    ensures |log| == 11 && log[10] == C.Removed(G, 1, 2) && !C.SetBefore(log, 10, 1, 2) && !C.OneAtATime(log)
  {
    assert log == [C.Took(H), C.Created(H, 1, 0), C.Took(G), C.Created(G, 8, 1), C.Done(H, 0), C.Set(H, 1, 0),
                   C.Acked(F), C.Set(F, 8, 1), C.Expired(H), C.Created(G, 1, 2), C.Removed(G, 1, 2)];
    assert log[0] == C.Took(H) && log[2] == C.Took(G);
    assert !C.ExpiredBetween(log, 0, 2, H);
  }
}
