/**
  Election and checkpoint rounds together.  A gateway runs in sessions, one after the other or - when
  it is restarted early - overlapping.  What a session believes about the leader is what it has read
  from the election, and a session that ends takes its nodes with it on both sides.
  */
module FailOver {
  import opened Collections
  import opened Sessions
  import E = Election
  import C = Checkpoint

  // ----- gateways and their names -----

  function Numeral(n: nat): (s: string)
    ensures s != "" && forall i :: 0 <= i < |s| ==> '0' <= s[i] <= '9'
  {
    if n < 10 then ['0' + n as char] else Numeral(n / 10) + ['0' + (n % 10) as char]
  }

  lemma {:induction false} ValueOfNumeral(n: nat)
    ensures E.Value(Numeral(n)) == n
  {
    if n < 10 {
      E.ValueOfLast("", n);
      assert "" + ['0' + n as char] == ['0' + n as char];
    } else {
      ValueOfNumeral(n / 10);
      E.ValueOfLast(Numeral(n / 10), n % 10);
    }
  }

  function GatewayName(g: nat): string {
    "gateway_" + Numeral(g)
  }

  /** Different gateways have different names. */
  lemma NamesDiffer(g: nat, h: nat)
    requires GatewayName(g) == GatewayName(h)
    ensures g == h
  {
    assert GatewayName(g)[8..] == Numeral(g) && GatewayName(h)[8..] == Numeral(h);
    ValueOfNumeral(g);
    ValueOfNumeral(h);
  }

  /** The name read for a leader; the empty one when there is none. */
  function Read(leader: Option<nat>): string {
    if leader.Some? then GatewayName(leader.value) else ""
  }

  // ----- runs -----

  /** `owner` says which session created an election node. */
  datatype Cluster = Cluster(e: E.State, c: C.State, owner: map<nat, Session>, started: set<Session>)

  datatype Event =
    | Start(g: Session)
    | Join(g: Session)
    | List(g: Session, children: seq<string>)
    | Fetch(g: Session, leader: Option<nat>)
    | Expire(g: Session)
    | Act(act: C.Event)

  const START := Cluster(E.START, C.START, map[], {})

  predicate Live(s: Cluster, g: Session) {
    g in s.started && g !in s.c.gone
  }

  function Nodes(owner: map<nat, Session>, g: Session): set<nat> {
    set n | n in owner && owner[n] == g
  }

  ghost predicate Next(s: Cluster, ev: Event, t: Cluster) {
    match ev
    case Start(g) => g !in s.started && t == s.(started := s.started + {g})
    case Join(g) =>
      && Live(s, g) && E.Next(s.e, E.Join(GatewayName(g.gateway)), t.e)
      && t == s.(e := t.e, owner := s.owner[s.e.next := g])
    case List(g, children) => Live(s, g) && E.Next(s.e, E.List(g, children), t.e) && t == s.(e := t.e)
    case Fetch(g, leader) =>
      && Live(s, g) && E.Next(s.e, E.Fetch(g), t.e) && g in t.e.views && t.e.views[g].leader == Read(leader)
      && t == s.(e := t.e, c := C.Apply(s.c, C.See(g, leader)))
    case Expire(g) =>
      && Live(s, g) && E.Next(s.e, E.Leave(Nodes(s.owner, g)), t.e)
      && t == s.(e := t.e, c := C.Apply(s.c, C.Expire(g)))
    case Act(act) =>
      && !act.See? && !act.Expire? && Live(s, act.g) && C.Enabled(s.c, act) && t == s.(c := C.Apply(s.c, act))
  }

  ghost predicate Run(ss: seq<Cluster>, evs: seq<Event>) {
    && |ss| == |evs| + 1 && ss[0] == START
    && forall i {:trigger evs[i]} :: 0 <= i < |evs| ==> Next(ss[i], evs[i], ss[i + 1])
  }

  /** No live session belongs to the gateway of `g`. */
  ghost predicate Alone(s: Cluster, g: Session) {
    forall h :: h in s.started && h.gateway == g.gateway ==> h in s.c.gone
  }

  /** No gateway starts a session before its former one has ended. */
  ghost predicate Guarded(ss: seq<Cluster>, evs: seq<Event>)
    requires |ss| == |evs| + 1
  {
    forall i {:trigger evs[i]} :: 0 <= i < |evs| && evs[i].Start? ==> Alone(ss[i], evs[i].g)
  }

  // ----- what every run keeps -----

  /** A live node is one whose session has not ended, and bears its gateway's name. */
  ghost predicate Inv(s: Cluster) {
    && E.Inv(s.e) && s.owner.Keys == s.e.born.Keys && s.c.gone <= s.started && s.c.phase.Keys <= s.started
    && forall n :: n in s.owner ==> NodeOk(s, n)
  }

  ghost predicate NodeOk(s: Cluster, n: nat)
    requires n in s.owner
  {
    && s.owner[n] in s.started && (n in s.e.live <==> s.owner[n] !in s.c.gone)
    && n in s.e.born && s.e.born[n] == GatewayName(s.owner[n].gateway)
  }

  lemma StepKeeps(s: Cluster, ev: Event, t: Cluster)
    requires Inv(s) && Next(s, ev, t)
    ensures Inv(t)
  {
    hide E.Lists, E.Scan, C.Apply, GatewayName;
    match ev
    case Start(g) => SameNodes(s, t);
    case Join(g) =>
      E.StepKeeps(s.e, E.Join(GatewayName(g.gateway)), t.e);
      JoinNodes(s, g, t);
    case List(g, children) =>
      E.StepKeeps(s.e, E.List(g, children), t.e);
      SameNodes(s, t);
    case Fetch(g, leader) =>
      E.StepKeeps(s.e, E.Fetch(g), t.e);
      C.SeeStays(s.c, g, leader);
      SameNodes(s, t);
    case Expire(g) =>
      E.StepKeeps(s.e, E.Leave(Nodes(s.owner, g)), t.e);
      C.ExpireEnds(s.c, g);
      ExpireNodes(s, g, t);
    case Act(act) =>
      C.ActStays(s.c, act);
      SameNodes(s, t);
  }

  lemma SameNodes(s: Cluster, t: Cluster)
    requires Inv(s) && t.owner == s.owner && t.e.born == s.e.born && t.e.live == s.e.live
    requires s.started <= t.started && t.c.gone == s.c.gone
    ensures forall n :: n in t.owner ==> NodeOk(t, n)
  {
    forall n | n in t.owner
      ensures NodeOk(t, n)
    {
      assert NodeOk(s, n);
    }
  }

  lemma JoinNodes(s: Cluster, g: Session, t: Cluster)
    requires Inv(s) && Next(s, Join(g), t)
    ensures forall n :: n in t.owner ==> NodeOk(t, n)
  {
    hide GatewayName;
    forall n | n in t.owner
      ensures NodeOk(t, n)
    {
      assert n in s.owner ==> NodeOk(s, n);
    }
  }

  lemma ExpireNodes(s: Cluster, g: Session, t: Cluster)
    requires Inv(s) && Next(s, Expire(g), t) && t.c.gone == s.c.gone + {g}
    ensures forall n :: n in t.owner ==> NodeOk(t, n)
  {
    hide C.Apply;
    forall n | n in t.owner
      ensures NodeOk(t, n)
    {
      assert NodeOk(s, n);
    }
  }

  lemma {:induction false} Reachable(ss: seq<Cluster>, evs: seq<Event>, i: nat)
    requires Run(ss, evs) && i < |ss|
    ensures Inv(ss[i])
  {
    if i == 0 {
    } else {
      hide Inv, Next;
      Reachable(ss, evs, i - 1);
      StepKeeps(ss[i - 1], evs[i - 1], ss[i]);
    }
  }

  // ----- what guarded runs keep -----

  ghost predicate Bottom(e: E.State, n: nat) {
    forall k :: k in e.live ==> n <= k
  }

  /** `g` has owned a node that no live node is below. */
  ghost predicate Led(s: Cluster, g: Session) {
    exists n :: n in s.owner && s.owner[n] == g && Bottom(s.e, n)
  }

  /** A gateway has one live session, and takes itself for the leader only when it has led. */
  ghost predicate Orderly(s: Cluster) {
    && (forall g, h :: Live(s, g) && Live(s, h) && g.gateway == h.gateway ==> g == h)
    && (forall g :: s.c.Leads(g) ==> Led(s, g))
    && LogOk(s)
  }

  ghost predicate LogOk(s: Cluster) {
    var log := s.c.log;
    && (forall a :: 0 <= a < |log| && log[a].Took? ==> Led(s, log[a].g))
    && (forall a :: 0 <= a < |log| && log[a].Took? && log[a].g in s.c.gone ==>
          C.ExpiredBetween(log, a, |log|, log[a].g))
    && C.OneAtATime(log)
  }

  /** Two sessions that have led and have not ended are one. */
  lemma OneLedAlive(s: Cluster, g: Session, h: Session)
    requires Inv(s) && Led(s, g) && Led(s, h) && g !in s.c.gone && h !in s.c.gone
    ensures g == h
  {
    var n :| n in s.owner && s.owner[n] == g && Bottom(s.e, n);
    var m :| m in s.owner && s.owner[m] == h && Bottom(s.e, m);
    assert NodeOk(s, n) && NodeOk(s, m);
  }

  /** Whoever has led stays so. */
  lemma LedStays(s: Cluster, ev: Event, t: Cluster)
    requires Inv(s) && Next(s, ev, t)
    ensures forall g :: Led(s, g) ==> Led(t, g)
  {
    hide C.Apply, C.Enabled, GatewayName, E.Scan, E.Lists;
    forall g | Led(s, g)
      ensures Led(t, g)
    {
      var n :| n in s.owner && s.owner[n] == g && Bottom(s.e, n);
      assert n < s.e.next && n in t.owner && t.owner[n] == g && Bottom(t.e, n);
    }
  }

  lemma LogStays(s: Cluster, t: Cluster)
    requires LogOk(s) && C.Extends(s.c.log, t.c.log) && t.c.gone == s.c.gone
    requires forall k :: |s.c.log| <= k < |t.c.log| ==> !t.c.log[k].Took?
    requires forall g :: Led(s, g) ==> Led(t, g)
    ensures LogOk(t)
  {
    hide Led;
    var log, log' := s.c.log, t.c.log;
    forall a, b | 0 <= a < b < |log'| && log'[a].Took? && log'[b].Took? && log'[a].g != log'[b].g
      ensures C.ExpiredBetween(log', a, b, log'[a].g)
    {
      assert C.ExpiredBetween(log, a, b, log[a].g);
    }
    forall a | 0 <= a < |log'| && log'[a].Took? && log'[a].g in t.c.gone
      ensures C.ExpiredBetween(log', a, |log'|, log'[a].g)
    {
      assert C.ExpiredBetween(log, a, |log|, log[a].g);
    }
  }

  lemma TakeKeeps(s: Cluster, g: Session, t: Cluster)
    requires Inv(s) && LogOk(s) && Led(s, g) && g !in s.c.gone
    requires t.c.log == s.c.log + [C.Took(g)] && t.c.gone == s.c.gone && forall h :: Led(s, h) ==> Led(t, h)
    ensures LogOk(t)
  {
    hide Led;
    var log, log' := s.c.log, t.c.log;
    forall a | 0 <= a < |log'| && log'[a].Took? && (log'[a].g in s.c.gone || log'[a].g != g)
      ensures C.ExpiredBetween(log', a, |log|, log'[a].g)
    {
      if log[a].g !in s.c.gone {
        OneLedAlive(s, log[a].g, g);
      }
      var m :| a < m < |log| && log[m] == C.Expired(log[a].g);
      assert log'[m] == log[m];
    }
    forall a, b | 0 <= a < b < |log'| && log'[a].Took? && log'[b].Took? && log'[a].g != log'[b].g
      ensures C.ExpiredBetween(log', a, b, log'[a].g)
    {
      if b < |log| {
        var m :| a < m < b && log[m] == C.Expired(log[a].g);
        assert log'[m] == log[m];
      }
    }
  }

  lemma EndKeeps(s: Cluster, g: Session, t: Cluster)
    requires LogOk(s) && t.c.log == s.c.log + [C.Expired(g)] && t.c.gone == s.c.gone + {g}
    requires forall h :: Led(s, h) ==> Led(t, h)
    ensures LogOk(t)
  {
    hide Led;
    var log' := t.c.log;
    var s1 := t.(c := t.c.(gone := s.c.gone));
    assert forall h :: Led(t, h) ==> Led(s1, h) by { SameLed(t, s1); }
    LogStays(s, s1);
    forall a | 0 <= a < |log'| && log'[a].Took? && log'[a].g == g
      ensures C.ExpiredBetween(log', a, |log'|, g)
    {
      assert log'[|s.c.log|] == C.Expired(g);
    }
    assert forall h :: Led(s1, h) ==> Led(t, h) by { SameLed(s1, t); }
  }

  lemma SameLed(s: Cluster, t: Cluster)
    requires t.owner == s.owner && t.e == s.e
    ensures forall h :: Led(s, h) ==> Led(t, h)
  {
    forall h | Led(s, h)
      ensures Led(t, h)
    {
      var n :| n in s.owner && s.owner[n] == h && Bottom(s.e, n);
      assert Bottom(t.e, n);
    }
  }

  /** A session that reads its own gateway's name has read it from its own node. */
  lemma FetchLeads(s: Cluster, g: Session, t: Cluster)
    requires Inv(s) && Orderly(s) && Next(s, Fetch(g, Some(g.gateway)), t)
    ensures Led(t, g)
  {
    hide C.Apply, GatewayName;
    E.StepKeeps(s.e, E.Fetch(g), t.e);
    var n := t.e.views[g].lowest;
    assert E.ViewOk(t.e, t.e.views[g]) && E.ViewOk(s.e, s.e.views[g]);
    NotEmpty(g.gateway);
    assert NodeOk(s, n);
    NamesDiffer(s.owner[n].gateway, g.gateway);
    assert t.owner[n] == g && Bottom(t.e, n);
  }

  lemma NotEmpty(g: nat)
    ensures GatewayName(g) != ""
  {
  }

  lemma FetchKeeps(s: Cluster, g: Session, leader: Option<nat>, t: Cluster)
    requires Inv(s) && Orderly(s) && Next(s, Fetch(g, leader), t)
    ensures Orderly(t)
  {
    hide Led, E.Next, C.Apply, Inv, GatewayName;
    LedStays(s, Fetch(g, leader), t);
    if leader == Some(g.gateway) {
      FetchLeads(s, g, t);
    }
    C.SeeStays(s.c, g, leader);
    LogStays(s, t);
  }

  lemma ActKeeps(s: Cluster, act: C.Event, t: Cluster)
    requires Inv(s) && Orderly(s) && Next(s, Act(act), t)
    ensures Orderly(t)
  {
    hide Led;
    LedStays(s, Act(act), t);
    if act.Begin? && s.c.Leads(act.g) {
      TakeKeeps(s, act.g, t);
    } else {
      C.QuietStep(s.c, act);
      hide C.Apply, C.Enabled;
      LogStays(s, t);
    }
  }

  lemma OrderStays(s: Cluster, ev: Event, t: Cluster)
    requires Inv(s) && Orderly(s) && Next(s, ev, t) && (ev.Start? ==> Alone(s, ev.g))
    ensures Orderly(t)
  {
    hide Inv, Led, LogOk, E.Next, C.Apply, C.Enabled;
    match ev
    case Fetch(g, leader) => FetchKeeps(s, g, leader, t);
    case Act(act) => ActKeeps(s, act, t);
    case Expire(g) =>
      LedStays(s, ev, t);
      C.ExpireEnds(s.c, g);
      EndKeeps(s, g, t);
    case _ =>
      LedStays(s, ev, t);
      LogStays(s, t);
  }

  lemma {:induction false} StaysOrderly(ss: seq<Cluster>, evs: seq<Event>, i: nat)
    requires Run(ss, evs) && Guarded(ss, evs) && i < |ss|
    ensures Orderly(ss[i])
  {
    if i == 0 {
    } else {
      hide Inv, Next, Orderly, Alone;
      StaysOrderly(ss, evs, i - 1);
      Reachable(ss, evs, i - 1);
      OrderStays(ss[i - 1], evs[i - 1], ss[i]);
    }
  }

  /** What the sessions do in the rounds is a run of the rounds. */
  lemma {:induction false} Rounds(ss: seq<Cluster>, evs: seq<Event>, i: nat) returns (es: seq<C.Event>)
    requires Run(ss, evs) && i < |ss|
    ensures C.Runs(C.START, es, ss[i].c)
  {
    if i == 0 {
      es := [];
    } else {
      es := Rounds(ss, evs, i - 1);
      var s, ev := ss[i - 1], evs[i - 1];
      assert Next(s, ev, ss[i]);
      hide C.Runs, C.Apply;
      if ev.Fetch? || ev.Expire? || ev.Act? {
        var e := if ev.Fetch? then C.See(ev.g, ev.leader) else if ev.Expire? then C.Expire(ev.g) else ev.act;
        C.RunsThen(C.START, es, s.c, e);
        es := es + [e];
      }
    }
  }

  /** Leaders follow one another: a second session enters the leader branch only when the first has ended. */
  lemma LeadersFollowOneAnother(ss: seq<Cluster>, evs: seq<Event>, i: nat)
    requires Run(ss, evs) && Guarded(ss, evs) && i < |ss|
    ensures C.OneAtATime(ss[i].c.log)
  {
    StaysOrderly(ss, evs, i);
  }

  /** Across any number of fail-overs and returns, every node a scan removes had been marked. */
  lemma RemovedWereMarked(ss: seq<Cluster>, evs: seq<Event>, i: nat, k: nat)
    requires Run(ss, evs) && Guarded(ss, evs) && i < |ss| && k < |ss[i].c.log| && ss[i].c.log[k].Removed?
    ensures var log := ss[i].c.log; C.SetBefore(log, k, log[k].path, log[k].id)
  {
    var es := Rounds(ss, evs, i);
    LeadersFollowOneAnother(ss, evs, i);
    C.RemovedWereMarked(es, ss[i].c, k);
  }

  /**
    When a leader sees no transaction nodes, each one created before and not lost with its creator's
    session had been marked as committed: that very node.
    */
  lemma EmptyMeansCommitted(ss: seq<Cluster>, evs: seq<Event>, i: nat, j: nat, k: nat)
    requires Run(ss, evs) && Guarded(ss, evs) && i < |ss| && j < k < |ss[i].c.log|
    requires ss[i].c.log[j].Created? && ss[i].c.log[k].SawEmpty?
    requires forall m :: j < m < k ==> ss[i].c.log[m] != C.Expired(ss[i].c.log[j].g)
    ensures var log := ss[i].c.log; C.SetBefore(log, k, log[j].path, log[j].id)
  {
    var es := Rounds(ss, evs, i);
    LeadersFollowOneAnother(ss, evs, i);
    C.EmptyMeansCommitted(es, ss[i].c, j, k);
  }

  /** Until a leader loses its session, a node is marked only after its creator has written everything. */
  lemma MarkedAfterWriting(ss: seq<Cluster>, evs: seq<Event>, i: nat, j: nat, k: nat)
    requires Run(ss, evs) && Guarded(ss, evs) && i < |ss| && j < k < |ss[i].c.log|
    requires ss[i].c.log[j].Created? && ss[i].c.log[k].Set? && C.NoLeaderLost(ss[i].c.log, k)
    ensures var log := ss[i].c.log;
            exists a, d :: 0 <= a < d < k && log[d].Done? && C.WroteAll(log, a, d, log[j].g, log[d].total)
  {
    var es := Rounds(ss, evs, i);
    LeadersFollowOneAnother(ss, evs, i);
    C.MarkedAfterWriting(es, ss[i].c, j, k);
  }

  // ----- a session that starts too early -----

  lemma RunThen(ss: seq<Cluster>, evs: seq<Event>, ev: Event, t: Cluster)
    requires Run(ss, evs) && Next(ss[|evs|], ev, t)
    ensures Run(ss + [t], evs + [ev])
  {
    hide Next;
    var ss', evs' := ss + [t], evs + [ev];
    forall i | 0 <= i < |evs'|
      ensures Next(ss'[i], evs'[i], ss'[i + 1])
    {
      if i < |evs| {
        assert Next(ss[i], evs[i], ss[i + 1]);
      }
    }
  }

  /** A run that goes on from another one. */
  ghost predicate GoesOn(ss: seq<Cluster>, evs: seq<Event>, ss': seq<Cluster>, evs': seq<Event>) {
    Run(ss, evs) && Run(ss', evs') && ss <= ss' && evs <= evs'
  }

  /** The lowest live node bears the name of gateway `n`. */
  ghost predicate Heads(s: Cluster, n: nat) {
    exists m :: m in s.e.live && Bottom(s.e, m) && m in s.e.born && s.e.born[m] == GatewayName(n)
  }

  lemma GoThen(ss: seq<Cluster>, evs: seq<Event>, ss': seq<Cluster>, evs': seq<Event>, ev: Event, t: Cluster)
    requires GoesOn(ss, evs, ss', evs') && Next(ss'[|evs'|], ev, t)
    ensures GoesOn(ss, evs, ss' + [t], evs' + [ev])
    ensures Guarded(ss', evs') && (ev.Start? ==> Alone(ss'[|evs'|], ev.g)) ==> Guarded(ss' + [t], evs' + [ev])
  {
    hide Next, Alone;
    RunThen(ss', evs', ev, t);
  }

  /** Everything but the election's views and the rounds. */
  predicate SameNodesAs(s: Cluster, t: Cluster) {
    && t.started == s.started && t.owner == s.owner && t.c.gone == s.c.gone
    && t.e.next == s.e.next && t.e.live == s.e.live && t.e.born == s.e.born
  }

  lemma ListStep(s: Cluster, x: Session, n: nat) returns (children: seq<string>, t: Cluster)
    requires Inv(s) && Live(s, x) && Heads(s, n) && s.e.next <= 0x8000_0000
    ensures Next(s, List(x, children), t) && SameNodesAs(s, t) && t.c == s.c
    ensures x in t.e.views && !t.e.views[x].fetched && E.Data(t.e, t.e.views[x].lowest) == GatewayName(n)
  {
    hide E.Next, GatewayName;
    var e;
    children, e := E.ListStep(s.e, x);
    t := s.(e := e);
  }

  lemma FetchStep(s: Cluster, x: Session, n: nat) returns (t: Cluster)
    requires Live(s, x) && x in s.e.views && !s.e.views[x].fetched && E.Data(s.e, s.e.views[x].lowest) == GatewayName(n)
    ensures Next(s, Fetch(x, Some(n)), t) && SameNodesAs(s, t) && t.c == s.c.(leader := s.c.leader[x := n])
  {
    hide GatewayName;
    var v := s.e.views[x].(leader := GatewayName(n), fetched := true);
    t := s.(e := s.e.(views := s.e.views[x := v]), c := C.Apply(s.c, C.See(x, Some(n))));
  }

  /** A session finds out who heads the election. */
  lemma SeesLeader(ss: seq<Cluster>, evs: seq<Event>, x: Session, n: nat)
    returns (ss': seq<Cluster>, evs': seq<Event>)
    requires Run(ss, evs) && Live(ss[|evs|], x) && Heads(ss[|evs|], n) && ss[|evs|].e.next <= 0x8000_0000
    ensures GoesOn(ss, evs, ss', evs') && (Guarded(ss, evs) ==> Guarded(ss', evs'))
    ensures var s, t := ss[|evs|], ss'[|evs'|];
            SameNodesAs(s, t) && t.c == s.c.(leader := s.c.leader[x := n])
  {
    Reachable(ss, evs, |evs|);
    hide Inv, Next, Run, GatewayName, Heads;
    var s := ss[|evs|];
    assert GoesOn(ss, evs, ss, evs);
    hide GoesOn, Guarded;
    var children, s1 := ListStep(s, x, n);
    GoThen(ss, evs, ss, evs, List(x, children), s1);
    var s2 := FetchStep(s1, x, n);
    GoThen(ss, evs, ss + [s1], evs + [List(x, children)], Fetch(x, Some(n)), s2);
    ss', evs' := ss + [s1] + [s2], evs + [List(x, children)] + [Fetch(x, Some(n))];
  }

  /** A session that sees its own gateway's name takes the leader branch. */
  lemma TakesLead(ss: seq<Cluster>, evs: seq<Event>, x: Session) returns (ss': seq<Cluster>, evs': seq<Event>)
    requires Run(ss, evs) && Live(ss[|evs|], x) && Heads(ss[|evs|], x.gateway) && ss[|evs|].c.Phase(x).Idle?
    requires ss[|evs|].e.next <= 0x8000_0000
    ensures GoesOn(ss, evs, ss', evs')
    ensures var s, t := ss[|evs|], ss'[|evs'|];
            && SameNodesAs(s, t) && t.c.log == s.c.log + [C.Took(x)]
            && forall y :: y != x ==> t.c.Phase(y) == s.c.Phase(y)
  {
    hide Heads;
    ss', evs' := SeesLeader(ss, evs, x, x.gateway);
    var s := ss'[|evs'|];
    var t := s.(c := C.Apply(s.c, C.Begin(x, [])));
    GoThen(ss, evs, ss', evs', Act(C.Begin(x, [])), t);
    ss', evs' := ss' + [t], evs' + [Act(C.Begin(x, []))];
  }

  lemma ExpireStep(s: Cluster, x: Session) returns (t: Cluster)
    requires Live(s, x)
    ensures Next(s, Expire(x), t) && t.started == s.started && t.e.next == s.e.next
    ensures t.c.gone == s.c.gone + {x} && t.c.phase == s.c.phase
  {
    hide C.Apply;
    C.ExpireEnds(s.c, x);
    t := s.(e := s.e.(live := s.e.live - Nodes(s.owner, x)), c := C.Apply(s.c, C.Expire(x)));
  }

  lemma {:induction false} OthersEnd(ss: seq<Cluster>, evs: seq<Event>, others: set<Session>)
    returns (ss': seq<Cluster>, evs': seq<Event>)
    requires Run(ss, evs) && forall x :: x in others ==> Live(ss[|evs|], x)
    ensures GoesOn(ss, evs, ss', evs')
    ensures var s, t := ss[|evs|], ss'[|evs'|];
            && t.started == s.started && t.e.next == s.e.next
            && t.c.gone == s.c.gone + others && t.c.phase == s.c.phase
    decreases others
  {
    hide Next;
    if others == {} {
      ss', evs' := ss, evs;
    } else {
      var x :| x in others;
      var t := ExpireStep(ss[|evs|], x);
      RunThen(ss, evs, Expire(x), t);
      ss', evs' := OthersEnd(ss + [t], evs + [Expire(x)], others - {x});
    }
  }

  lemma JoinStep(s: Cluster, x: Session) returns (t: Cluster)
    requires Live(s, x)
    ensures Next(s, Join(x), t) && t.started == s.started && t.c == s.c && t.e.next == s.e.next + 1 && t.e.live != {}
  {
    hide GatewayName;
    var name := GatewayName(x.gateway);
    var e := s.e.(next := s.e.next + 1, born := s.e.born[s.e.next := name], live := s.e.live + {s.e.next});
    t := s.(e := e, owner := s.owner[s.e.next := x]);
    assert s.e.next in t.e.live;
  }

  lemma {:induction false} Lowest(ns: set<nat>) returns (m: nat)
    requires ns != {}
    ensures m in ns && forall k :: k in ns ==> m <= k
  {
    var n :| n in ns;
    m := n;
    if ns != {n} {
      var k := Lowest(ns - {n});
      m := if k < n then k else n;
      assert forall x :: x in ns ==> x == n || x in ns - {n};
    }
  }

  /** When only sessions of one gateway live, it heads the election. */
  lemma OnlyOneGateway(s: Cluster, n: nat)
    requires Inv(s) && s.e.live != {} && forall x :: Live(s, x) ==> x.gateway == n
    ensures Heads(s, n)
  {
    hide GatewayName;
    var m := Lowest(s.e.live);
    assert NodeOk(s, m) && Live(s, s.owner[m]) && Bottom(s.e, m);
  }

  /** Everybody but `g` and `h` goes, and `h` has a node in the election. */
  lemma LeftAlone(ss: seq<Cluster>, evs: seq<Event>, g: Session, h: Session)
    returns (ss': seq<Cluster>, evs': seq<Event>)
    requires Run(ss, evs) && Live(ss[|evs|], g) && Live(ss[|evs|], h) && h.gateway == g.gateway
    ensures GoesOn(ss, evs, ss', evs')
    ensures var s, t := ss[|evs|], ss'[|evs'|];
            && Live(t, g) && Live(t, h) && Heads(t, g.gateway)
            && t.e.next == s.e.next + 1 && t.c.phase == s.c.phase
  {
    hide Next, Heads, Inv;
    var s := ss[|evs|];
    var ss1, evs1 := OthersEnd(ss, evs, s.started - s.c.gone - {g, h});
    var t := JoinStep(ss1[|evs1|], h);
    GoThen(ss, evs, ss1, evs1, Join(h), t);
    ss', evs' := ss1 + [t], evs1 + [Join(h)];
    Reachable(ss', evs', |evs'|);
    OnlyOneGateway(t, g.gateway);
  }

  /**
    The guard cannot be dropped.  From any run, when a session starts while `h`, of the same gateway,
    has not ended, the run can go on so that both take the leader branch; leaders then do not follow
    one another.
    */
  lemma EarlyStartBreaks(ss: seq<Cluster>, evs: seq<Event>, g: Session, h: Session)
    returns (ss': seq<Cluster>, evs': seq<Event>)
    requires Run(ss, evs) && g !in ss[|evs|].started && Live(ss[|evs|], h) && h.gateway == g.gateway
    requires ss[|evs|].e.next < 0x8000_0000
    ensures GoesOn(ss, evs, ss', evs') && |evs| < |evs'| && evs'[|evs|] == Start(g)
    ensures !C.OneAtATime(ss'[|evs'|].c.log)
  {
    var s := ss[|evs|];
    Reachable(ss, evs, |evs|);
    var t := s.(started := s.started + {g});
    RunThen(ss, evs, Start(g), t);
    hide Next, Heads, Inv;
    var ss1, evs1 := LeftAlone(ss + [t], evs + [Start(g)], g, h);
    var ss2, evs2 := TakesLead(ss1, evs1, g);
    ss', evs' := BothLead(ss2, evs2, g, h);
  }

  lemma BothLead(ss: seq<Cluster>, evs: seq<Event>, g: Session, h: Session)
    returns (ss': seq<Cluster>, evs': seq<Event>)
    requires Run(ss, evs) && Live(ss[|evs|], g) && Live(ss[|evs|], h) && Heads(ss[|evs|], h.gateway) && g != h
    requires ss[|evs|].e.next <= 0x8000_0000 && C.Took(g) in ss[|evs|].c.log
    ensures GoesOn(ss, evs, ss', evs') && !C.OneAtATime(ss'[|evs'|].c.log)
  {
    hide Next, Heads, C.Runs, C.OneAtATime;
    ss', evs' := ss, evs;
    if ss[|evs|].c.Phase(h).Idle? {
      ss', evs' := TakesLead(ss, evs, h);
    }
    var t := ss'[|evs'|];
    var es := Rounds(ss', evs', |evs'|);
    if !ss[|evs|].c.Phase(h).Idle? {
      C.BusyTook(es, t.c, h);
    }
    assert C.Took(h) in t.c.log;
    C.TwoLeaders(es, t.c, g, h);
  }
}
