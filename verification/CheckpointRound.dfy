/**
  A round that nothing disturbs.  From the moment the leader has created its nodes and every follower watches
  the leader's, and as long as no session ends and nobody changes its mind about the leader, the steps left
  may come in any order: each brings the round nearer to its end, and when none is left every node has been
  marked and removed.
  */
module CheckpointRound {
  import opened Collections
  import opened Sessions
  import opened Checkpoint

  /** A leader and its followers. */
  datatype Team = Team(leader: Session, followers: set<Session>) {
    ghost predicate Valid() {
      && (forall f :: f in followers ==> f.gateway != leader.gateway)
      && (forall f, h :: f in followers && h in followers && f != h ==> f.gateway != h.gateway)
    }

    function Names(): set<Name> {
      {leader.gateway} + (set f | f in followers :: f.gateway)
    }
  }

  /** The steps of a round: everything but changes of view, new rounds, new nodes and lost sessions. */
  predicate Working(e: Event) {
    !e.See? && !e.Begin? && !e.Create? && !e.Expire?
  }

  ghost predicate Over(s: State) {
    forall e :: Working(e) ==> !Enabled(s, e)
  }

  function Told(f: Session): Note {
    Note(f, LeaderWatcher, NodeChanged)
  }

  function Called(t: Team): Note {
    Note(t.leader, TxWatcher, NodeChanged)
  }

  predicate Unmarked(s: State, n: Name) {
    n in s.tx && s.tx[n].mark == Empty
  }

  /** The leader watches the nodes of those who have not marked theirs. */
  function Awaited(s: State, t: Team): set<Watch> {
    set f | f in t.followers && Unmarked(s, f.gateway) :: Watch(t.leader, TxWatcher, f.gateway)
  }

  function Watching(t: Team): set<Watch> {
    set f | f in t.followers :: Watch(f, LeaderWatcher, t.leader.gateway)
  }

  ghost predicate WasMarked(log: seq<Entry>, n: Name, id: nat) {
    exists g :: Set(g, n, id) in log
  }

  /** Nodes that are marked or gone were marked, and those that are gone the leader removed. */
  ghost predicate Recorded(s: State, t: Team, ids: map<Name, nat>) {
    forall n :: n in ids ==>
      && (!Unmarked(s, n) ==> WasMarked(s.log, n, ids[n]))
      && (n !in s.tx ==> Removed(t.leader, n, ids[n]) in s.log)
  }

  /** What holds all along: `ids` are the nodes the round is about. */
  ghost predicate Steady(s: State, t: Team, ids: map<Name, nat>) {
    && t.Valid() && ids.Keys == t.Names() && s.Leads(t.leader)
    && t.leader !in s.gone && t.followers !! s.gone
    && s.tx.Keys <= t.Names() && (forall n :: n in s.tx ==> s.tx[n].id == ids[n])
    && (forall g :: g != t.leader ==> s.Phase(g).Idle? && s.Scan(g).Resting?)
    && Recorded(s, t, ids)
  }

  predicate AtWork(p: Phase) {
    p.Working? && p.end <= p.total
  }

  /** The leader has not committed yet. */
  ghost predicate Ahead(s: State, t: Team) {
    && ((s.Phase(t.leader) == Creating([]) && t.leader !in s.ran) || AtWork(s.Phase(t.leader)))
    && s.Scan(t.leader).Resting? && s.notes == multiset{}
    && s.tx.Keys == t.Names() && (forall n :: n in s.tx ==> s.tx[n].mark == Empty)
    && s.watches == Watching(t) + Awaited(s, t)
  }

  /** The leader is going to look at node `n`, or is about to remove it. */
  predicate Due(s: State, t: Team, n: Name) {
    || Called(t) in s.notes
    || (s.Scan(t.leader).Scanning? && n in s.Scan(t.leader).todo)
    || (s.Scan(t.leader).Deleting? && (n in s.Scan(t.leader).todo || n == s.Scan(t.leader).path))
  }

  ghost predicate Pending(s: State, t: Team) {
    exists f :: f in t.followers && Told(f) in s.notes
  }

  /** Only followers are told, and only the leader is called. */
  ghost predicate OnlyThese(s: State, t: Team) {
    forall note :: note in s.notes ==> note == Called(t) || (note.g in t.followers && note == Told(note.g))
  }

  /** The leader has committed: who has not marked its node has been told to, and what is marked is due. */
  ghost predicate Behind(s: State, t: Team) {
    && s.Phase(t.leader).Idle? && s.watches == Awaited(s, t) && (exists total :: Done(t.leader, total) in s.log)
    && OnlyThese(s, t)
    && (forall f :: f in t.followers ==> s.notes[Told(f)] == if Unmarked(s, f.gateway) then 1 else 0)
    && (forall n :: n in s.tx && n != t.leader.gateway && s.tx[n].mark != Empty ==> Due(s, t, n))
    && (t.leader.gateway in s.tx ==>
          && s.tx[t.leader.gateway].mark != Empty
          && (t.followers != {} ==> Due(s, t, t.leader.gateway) || Pending(s, t)))
    && (s.Scan(t.leader).Deleting? ==> !Unmarked(s, s.Scan(t.leader).path))
  }

  ghost predicate InRound(s: State, t: Team, ids: map<Name, nat>) {
    Steady(s, t, ids) && (Ahead(s, t) || Behind(s, t))
  }

  // ----- when nothing is left to do -----

  /** Only the leader's node of a team without followers outlives the round. */
  lemma WhatIsLeft(s: State, t: Team, ids: map<Name, nat>)
    requires InRound(s, t, ids) && Over(s)
    ensures s.tx.Keys == (if t.followers == {} && t.leader.gateway in s.tx then {t.leader.gateway} else {})
    ensures Behind(s, t)
  {
    NotAhead(s, t);
    NoNotes(s, t, ids);
    forall f | f in t.followers
      ensures f.gateway !in s.tx
    {
      assert s.notes[Told(f)] == 0 && !Due(s, t, f.gateway);
    }
    assert !Due(s, t, t.leader.gateway) && !Pending(s, t);
  }

  lemma NotAhead(s: State, t: Team)
    requires Over(s) && t.leader !in s.gone
    ensures !s.Phase(t.leader).Working? && s.Phase(t.leader) != Creating([])
  {
    var p := s.Phase(t.leader);
    assert !Enabled(s, Start(t.leader, 0)) && !Enabled(s, NextBatch(t.leader)) && !Enabled(s, CommitOwn(t.leader));
    if p.Working? && p.open != {} {
      var i :| i in p.open;
      assert Enabled(s, Complete(t.leader, i));
    }
  }

  lemma NoNotes(s: State, t: Team, ids: map<Name, nat>)
    requires Steady(s, t, ids) && Behind(s, t) && Over(s)
    ensures s.notes == multiset{} && s.Scan(t.leader).Resting?
  {
    var c := s.Scan(t.leader);
    assert !Enabled(s, Remove(t.leader)) && !Enabled(s, EndScan(t.leader));
    if c.Scanning? && c.todo != {} {
      var n :| n in c.todo;
      assert Enabled(s, Look(t.leader, n));
    }
    if s.notes != multiset{} {
      var note :| note in s.notes;
      assert Enabled(s, Notice(note.g, note.kind, note.change));
    }
  }

  // ----- every step stays in the round -----

  lemma WorkStep(s: State, t: Team, ids: map<Name, nat>, e: Event)
    requires Steady(s, t, ids) && Ahead(s, t) && Enabled(s, e) && (e.Start? || e.Complete? || e.NextBatch?)
    ensures Steady(Apply(s, e), t, ids) && Ahead(Apply(s, e), t)
  {
    assert e.g == t.leader;
    var u := Apply(s, e);
    assert u.tx == s.tx && u.watches == s.watches && u.notes == s.notes && u.leader == s.leader && u.gone == s.gone;
    assert Awaited(u, t) == Awaited(s, t);
    assert forall g :: g != t.leader ==> u.Phase(g) == s.Phase(g) && u.Scan(g) == s.Scan(g);
  }

  /** Views, sessions and everybody's phase and scan but the leader's are as they were. */
  ghost predicate Framed(s: State, u: State, t: Team) {
    && u.leader == s.leader && u.gone == s.gone && s.log <= u.log
    && forall g :: g != t.leader ==> u.Phase(g) == s.Phase(g) && u.Scan(g) == s.Scan(g)
  }

  /** Those who watch node `n` are told of the change. */
  function Heard(s: State, n: Name): set<Note> {
    set w | w in s.watches && w.path == n :: Note(w.g, w.kind, NodeChanged)
  }

  function Deaf(s: State, n: Name): set<Watch> {
    set w | w in s.watches && w.path != n
  }

  lemma SetCommitIs(s: State, g: Session, n: Name)
    requires n in s.tx
    ensures var u := SetCommit(s, g, n);
            && u == s.(tx := s.tx[n := s.tx[n].(mark := Commit)], watches := Deaf(s, n),
                       notes := s.notes + multiset(Heard(s, n)), log := s.log + [Set(g, n, s.tx[n].id)])
  {
    var hit := set w | w in s.watches && w.path == n;
    assert (set w | w in hit :: Note(w.g, w.kind, NodeChanged)) == Heard(s, n);
    assert s.watches - hit == Deaf(s, n);
  }

  lemma CommitIs(s: State, t: Team)
    requires Enabled(s, CommitOwn(t.leader)) && s.Leads(t.leader) && t.leader.gateway in s.tx
    ensures var n, u := t.leader.gateway, Apply(s, CommitOwn(t.leader));
            && u.tx == s.tx[n := s.tx[n].(mark := Commit)] && u.watches == Deaf(s, n)
            && u.notes == s.notes + multiset(Heard(s, n)) && u.Phase(t.leader).Idle?
            && u.Scan(t.leader) == s.Scan(t.leader) && Framed(s, u, t)
            && u.log == s.log + [Done(t.leader, s.Phase(t.leader).total), Set(t.leader, n, s.tx[n].id)]
  {
    hide SetCommit;
    var s1 := Add(s, Done(t.leader, s.Phase(t.leader).total));
    SetCommitIs(s1, t.leader, t.leader.gateway);
    assert Deaf(s1, t.leader.gateway) == Deaf(s, t.leader.gateway);
    assert Heard(s1, t.leader.gateway) == Heard(s, t.leader.gateway);
  }

  lemma SteadyStays(s: State, u: State, t: Team, ids: map<Name, nat>)
    requires Steady(s, t, ids) && Framed(s, u, t) && u.tx.Keys <= s.tx.Keys
    requires forall n :: n in u.tx ==> u.tx[n].id == s.tx[n].id
    requires forall n :: n in s.tx && Unmarked(s, n) && !Unmarked(u, n) ==> WasMarked(u.log, n, s.tx[n].id)
    requires forall n :: n in s.tx && n !in u.tx ==> Removed(t.leader, n, s.tx[n].id) in u.log
    ensures Steady(u, t, ids)
  {
    assert Recorded(u, t, ids) by {
      forall n | n in ids
        ensures !Unmarked(u, n) ==> WasMarked(u.log, n, ids[n])
        ensures n !in u.tx ==> Removed(t.leader, n, ids[n]) in u.log
      {
        RecordStays(s.log, u.log, t, n, ids[n]);
      }
    }
  }

  lemma RecordStays(log: seq<Entry>, log': seq<Entry>, t: Team, n: Name, id: nat)
    requires log <= log'
    ensures WasMarked(log, n, id) ==> WasMarked(log', n, id)
    ensures Removed(t.leader, n, id) in log ==> Removed(t.leader, n, id) in log'
    ensures forall e :: e in log ==> e in log'
  {
    assert forall k :: 0 <= k < |log| ==> log'[k] == log[k];
    if WasMarked(log, n, id) {
      var g :| Set(g, n, id) in log;
      assert Set(g, n, id) in log';
    }
  }

  lemma AllTold(s: State, u: State, t: Team)
    requires t.Valid() && s.tx.Keys == t.Names() && (forall n :: n in s.tx ==> s.tx[n].mark == Empty)
    requires u.tx == s.tx[t.leader.gateway := s.tx[t.leader.gateway].(mark := Commit)] && u.watches == Awaited(s, t)
    requires u.notes == multiset(set f | f in t.followers :: Told(f))
    requires u.Phase(t.leader).Idle? && u.Scan(t.leader).Resting? && exists total :: Done(t.leader, total) in u.log
    ensures Behind(u, t)
  {
    OnlyLeaderMarked(s, u, t);
    EachToldOnce(t);
    hide Unmarked, Awaited, Due, Told;
    if t.followers != {} {
      var f :| f in t.followers;
      assert Told(f) in u.notes;
    }
  }

  lemma OnlyLeaderMarked(s: State, u: State, t: Team)
    requires t.Valid() && s.tx.Keys == t.Names() && (forall n :: n in s.tx ==> s.tx[n].mark == Empty)
    requires u.tx == s.tx[t.leader.gateway := s.tx[t.leader.gateway].(mark := Commit)]
    ensures forall f :: f in t.followers ==> Unmarked(u, f.gateway)
    ensures Awaited(u, t) == Awaited(s, t)
    ensures forall n :: n in u.tx ==> (u.tx[n].mark == Empty <==> n != t.leader.gateway)
  {
    assert forall f :: f in t.followers ==> f.gateway in t.Names() && Unmarked(u, f.gateway) && Unmarked(s, f.gateway);
  }

  lemma EachToldOnce(t: Team)
    ensures var notes := multiset(set f | f in t.followers :: Told(f));
            && (forall f :: f in t.followers ==> notes[Told(f)] == 1)
            && (forall note :: note in notes ==> note.g in t.followers && note == Told(note.g))
  {
  }

  /** The commit tells every follower. */
  lemma CommitStep(s: State, t: Team, ids: map<Name, nat>)
    requires Steady(s, t, ids) && Ahead(s, t) && Enabled(s, CommitOwn(t.leader))
    ensures Steady(Apply(s, CommitOwn(t.leader)), t, ids) && Behind(Apply(s, CommitOwn(t.leader)), t)
  {
    CommitIs(s, t);
    WatchersOfLeader(s, t);
    hide Enabled, Apply, Heard, Deaf, Behind, Awaited, Framed;
    var u := Apply(s, CommitOwn(t.leader));
    assert u.log[|s.log|] == Done(t.leader, s.Phase(t.leader).total);
    assert u.log[|s.log| + 1] == Set(t.leader, t.leader.gateway, s.tx[t.leader.gateway].id);
    SteadyStays(s, u, t, ids);
    assert s.notes + multiset(Heard(s, t.leader.gateway)) == multiset(Heard(s, t.leader.gateway));
    AllTold(s, u, t);
  }

  lemma WatchersOfLeader(s: State, t: Team)
    requires t.Valid() && s.watches == Watching(t) + Awaited(s, t)
    ensures Heard(s, t.leader.gateway) == (set f | f in t.followers :: Told(f))
    ensures Deaf(s, t.leader.gateway) == Awaited(s, t)
  {
    forall f | f in t.followers
      ensures Told(f) in Heard(s, t.leader.gateway)
    {
      assert Watch(f, LeaderWatcher, t.leader.gateway) in s.watches;
    }
  }

  /** Only the leader waits for a follower's mark. */
  lemma WatchersOfFollower(s: State, t: Team, f: Session)
    requires t.Valid() && s.watches == Awaited(s, t) && f in t.followers && Unmarked(s, f.gateway)
    ensures Heard(s, f.gateway) == {Called(t)}
    ensures Deaf(s, f.gateway) == set h | h in t.followers && h != f && Unmarked(s, h.gateway)
                                      :: Watch(t.leader, TxWatcher, h.gateway)
  {
    assert Watch(t.leader, TxWatcher, f.gateway) in s.watches;
  }

  lemma AckIs(s: State, t: Team, f: Session)
    requires f.gateway in s.tx && Enabled(s, Notice(f, LeaderWatcher, NodeChanged))
    ensures var n, u := f.gateway, Apply(s, Notice(f, LeaderWatcher, NodeChanged));
            && u.tx == s.tx[n := s.tx[n].(mark := Commit)] && u.watches == Deaf(s, n)
            && u.notes == s.notes - multiset{Told(f)} + multiset(Heard(s, n))
            && u.Phase(t.leader) == s.Phase(t.leader) && u.Scan(t.leader) == s.Scan(t.leader) && Framed(s, u, t)
            && u.log == s.log + [Acked(f), Set(f, n, s.tx[n].id)]
  {
    hide SetCommit;
    var s1 := Add(s.(notes := s.notes - multiset{Told(f)}), Acked(f));
    SetCommitIs(s1, f, f.gateway);
    assert Deaf(s1, f.gateway) == Deaf(s, f.gateway);
    assert Heard(s1, f.gateway) == Heard(s, f.gateway);
  }

  lemma AwaitedLess(s: State, u: State, t: Team, f: Session)
    requires t.Valid() && f in t.followers && f.gateway in s.tx
    requires u.tx == s.tx[f.gateway := s.tx[f.gateway].(mark := Commit)]
    ensures forall h :: h in t.followers ==> (Unmarked(u, h.gateway) <==> h != f && Unmarked(s, h.gateway))
    ensures Awaited(u, t) == set h | h in t.followers && h != f && Unmarked(s, h.gateway)
                                 :: Watch(t.leader, TxWatcher, h.gateway)
  {
    assert forall h :: h in t.followers ==> (Unmarked(u, h.gateway) <==> h != f && Unmarked(s, h.gateway));
  }

  lemma AckNotes(s: State, u: State, t: Team, f: Session)
    requires OnlyThese(s, t) && s.notes[Told(f)] == 1
    requires u.notes == s.notes - multiset{Told(f)} + multiset{Called(t)}
    ensures OnlyThese(u, t) && u.notes[Told(f)] == 0 && Called(t) in u.notes
    ensures forall h :: h != f ==> u.notes[Told(h)] == s.notes[Told(h)]
  {
  }

  lemma Acknowledged(s: State, u: State, t: Team, f: Session)
    requires t.Valid() && Behind(s, t) && f in t.followers && Unmarked(s, f.gateway)
    requires u.tx == s.tx[f.gateway := s.tx[f.gateway].(mark := Commit)]
    requires u.notes == s.notes - multiset{Told(f)} + multiset{Called(t)}
    requires u.watches == set h | h in t.followers && h != f && Unmarked(s, h.gateway)
                              :: Watch(t.leader, TxWatcher, h.gateway)
    requires u.Phase(t.leader) == s.Phase(t.leader) && u.Scan(t.leader) == s.Scan(t.leader) && s.log <= u.log
    ensures Behind(u, t)
  {
    DoneStays(s, u, t);
    AwaitedLess(s, u, t, f);
    assert forall n :: Unmarked(u, n) ==> Unmarked(s, n);
    hide Unmarked, Awaited, Due, Told, Called;
    AckNotes(s, u, t, f);
    AllDue(u, t);
  }

  lemma AllDue(s: State, t: Team)
    requires Called(t) in s.notes
    ensures forall n :: Due(s, t, n)
  {
  }

  /** A follower that is told marks its node, which the leader hears of. */
  lemma AckStep(s: State, t: Team, ids: map<Name, nat>, f: Session)
    requires Steady(s, t, ids) && Behind(s, t) && f in t.followers && Told(f) in s.notes
    requires Enabled(s, Notice(f, LeaderWatcher, NodeChanged))
    ensures var u := Apply(s, Notice(f, LeaderWatcher, NodeChanged));
            Steady(u, t, ids) && Behind(u, t)
  {
    hide Enabled, Apply, Heard, Deaf, Awaited, Framed;
    AckIs(s, t, f);
    WatchersOfFollower(s, t, f);
    var u := Apply(s, Notice(f, LeaderWatcher, NodeChanged));
    assert multiset({Called(t)}) == multiset{Called(t)};
    assert u.log[|s.log| + 1] == Set(f, f.gateway, s.tx[f.gateway].id) && s.log <= u.log;
    SteadyStays(s, u, t, ids);
    Acknowledged(s, u, t, f);
  }

  lemma DoneStays(s: State, u: State, t: Team)
    requires s.log <= u.log && exists total :: Done(t.leader, total) in s.log
    ensures exists total :: Done(t.leader, total) in u.log
  {
    RecordStays(s.log, u.log, t, 0, 0);
  }

  /** No mark and no watch changes, and what was due still is. */
  lemma BehindStays(s: State, u: State, t: Team)
    requires Behind(s, t) && u.Phase(t.leader) == s.Phase(t.leader) && u.watches == s.watches
    requires u.tx.Keys <= s.tx.Keys && (forall n :: n in u.tx ==> u.tx[n].mark == s.tx[n].mark)
    requires forall f :: f in t.followers ==>
               (Unmarked(u, f.gateway) <==> Unmarked(s, f.gateway)) && u.notes[Told(f)] == s.notes[Told(f)]
    requires u.notes <= s.notes
    requires forall n :: n in u.tx && u.tx[n].mark != Empty && Due(s, t, n) ==> Due(u, t, n)
    requires u.Scan(t.leader).Deleting? ==> !Unmarked(u, u.Scan(t.leader).path)
    requires s.log <= u.log
    ensures Behind(u, t)
  {
    hide Due;
    DoneStays(s, u, t);
    assert Awaited(u, t) == Awaited(s, t);
    if Pending(s, t) {
      var f :| f in t.followers && Told(f) in s.notes;
      assert Told(f) in u.notes;
    }
  }

  /** The leader, when called, sets out to look at every node. */
  lemma CallIs(s: State, t: Team)
    requires Enabled(s, Notice(t.leader, TxWatcher, NodeChanged))
    ensures var u := Apply(s, Notice(t.leader, TxWatcher, NodeChanged));
            && u.tx == s.tx && u.watches == s.watches && u.notes == s.notes - multiset{Called(t)}
            && u.Phase(t.leader) == s.Phase(t.leader) && Framed(s, u, t) && s.log <= u.log
            && u.Scan(t.leader) == if s.tx == map[] then Resting else Scanning(s.tx.Keys)
  {
  }

  lemma CallStep(s: State, t: Team, ids: map<Name, nat>)
    requires Steady(s, t, ids) && Behind(s, t) && Enabled(s, Notice(t.leader, TxWatcher, NodeChanged))
    ensures var u := Apply(s, Notice(t.leader, TxWatcher, NodeChanged));
            Steady(u, t, ids) && Behind(u, t)
  {
    hide Enabled, Apply, Behind, Framed;
    CallIs(s, t);
    var u := Apply(s, Notice(t.leader, TxWatcher, NodeChanged));
    SteadyStays(s, u, t, ids);
    BehindStays(s, u, t);
  }

  lemma LookIs(s: State, t: Team, n: Name)
    requires Enabled(s, Look(t.leader, n))
    ensures var u, todo := Apply(s, Look(t.leader, n)), s.Scan(t.leader).todo - {n};
            && u.tx == s.tx && u.watches == s.watches && u.notes == s.notes && u.log == s.log
            && u.Phase(t.leader) == s.Phase(t.leader) && Framed(s, u, t)
            && u.Scan(t.leader) ==
                 if n in s.tx && s.tx[n].mark != Empty then Deleting(todo, n) else Scanning(todo)
  {
  }

  lemma LookStep(s: State, t: Team, ids: map<Name, nat>, n: Name)
    requires Steady(s, t, ids) && Behind(s, t) && Enabled(s, Look(t.leader, n))
    ensures Steady(Apply(s, Look(t.leader, n)), t, ids) && Behind(Apply(s, Look(t.leader, n)), t)
  {
    assert s.Scan(t.leader).Scanning?;
    hide Enabled, Apply, Behind, Framed;
    LookIs(s, t, n);
    var u := Apply(s, Look(t.leader, n));
    SteadyStays(s, u, t, ids);
    LookedDue(s, u, t, n);
    hide Due;
    BehindStays(s, u, t);
  }

  lemma LookedDue(s: State, u: State, t: Team, n: Name)
    requires s.Scan(t.leader).Scanning? && u.notes == s.notes && u.tx == s.tx
    requires u.Scan(t.leader) == (if n in s.tx && s.tx[n].mark != Empty then Deleting(s.Scan(t.leader).todo - {n}, n)
                                  else Scanning(s.Scan(t.leader).todo - {n}))
    ensures forall m :: m in u.tx && u.tx[m].mark != Empty && Due(s, t, m) ==> Due(u, t, m)
  {
  }

  lemma EndScanStep(s: State, t: Team, ids: map<Name, nat>)
    requires Steady(s, t, ids) && Behind(s, t) && Enabled(s, EndScan(t.leader))
    ensures Steady(Apply(s, EndScan(t.leader)), t, ids) && Behind(Apply(s, EndScan(t.leader)), t)
  {
    hide Behind;
    var u := Apply(s, EndScan(t.leader));
    assert Framed(s, u, t);
    hide Framed;
    SteadyStays(s, u, t, ids);
    BehindStays(s, u, t);
  }

  /** A change that nobody watches for only happens. */
  lemma Unheard(s: State, n: Name, change: Change)
    requires forall w :: w in s.watches ==> w.path != n
    ensures Fire(s, n, change) == s
  {
    var hit := set w | w in s.watches && w.path == n;
    assert hit == {};
    assert (set w | w in hit :: Note(w.g, w.kind, change)) == {};
    assert s.notes + multiset({}) == s.notes;
  }

  lemma RemoveIs(s: State, t: Team)
    requires Enabled(s, Remove(t.leader)) && forall w :: w in s.watches ==> w.path != s.Scan(t.leader).path
    ensures var u, c := Apply(s, Remove(t.leader)), s.Scan(t.leader);
            && s.log <= u.log && (c.path in s.tx ==> Removed(t.leader, c.path, s.tx[c.path].id) in u.log)
            && u.tx == s.tx - {c.path} && u.watches == s.watches && u.notes == s.notes
            && u.Phase(t.leader) == s.Phase(t.leader) && Framed(s, u, t) && u.Scan(t.leader) == Scanning(c.todo)
  {
    var n := s.Scan(t.leader).path;
    if n in s.tx {
      Unheard(Add(s.(tx := s.tx - {n}), Removed(t.leader, n, s.tx[n].id)), n, NodeDeleted);
      hide Fire;
      assert Apply(s, Remove(t.leader)).log[|s.log|] == Removed(t.leader, n, s.tx[n].id);
    }
  }

  lemma RemoveStep(s: State, t: Team, ids: map<Name, nat>)
    requires Steady(s, t, ids) && Behind(s, t) && Enabled(s, Remove(t.leader))
    ensures Steady(Apply(s, Remove(t.leader)), t, ids) && Behind(Apply(s, Remove(t.leader)), t)
  {
    hide Apply, Behind, Framed, Due, Recorded;
    Unwatched(s, t);
    RemoveIs(s, t);
    hide Enabled;
    var u := Apply(s, Remove(t.leader));
    SteadyStays(s, u, t, ids);
    StillDue(s, u, t);
    BehindStays(s, u, t);
  }

  /** Nobody watches a node that is about to be removed. */
  lemma Unwatched(s: State, t: Team)
    requires Behind(s, t) && s.Scan(t.leader).Deleting?
    ensures !Unmarked(s, s.Scan(t.leader).path)
    ensures forall w :: w in s.watches ==> w.path != s.Scan(t.leader).path
  {
  }

  lemma StillDue(s: State, u: State, t: Team)
    requires s.Scan(t.leader).Deleting? && u.Scan(t.leader) == Scanning(s.Scan(t.leader).todo) && u.notes == s.notes
    requires s.Scan(t.leader).path !in u.tx
    ensures forall n :: n in u.tx && Due(s, t, n) ==> Due(u, t, n)
  {
  }

  /** Every step that is possible in a round stays in the round. */
  lemma RoundStep(s: State, t: Team, ids: map<Name, nat>, e: Event)
    requires InRound(s, t, ids) && Enabled(s, e) && Working(e)
    ensures InRound(Apply(s, e), t, ids)
  {
    hide Apply, Behind, Awaited;
    assert e.Notice? ==> Note(e.g, e.kind, e.change) in s.notes;
    if e.Start? || e.Complete? || e.NextBatch? {
      assert Ahead(s, t) by { Busy(s, t, e); }
      WorkStep(s, t, ids, e);
    } else if e.CommitOwn? {
      assert Ahead(s, t) by { Busy(s, t, e); }
      CommitStep(s, t, ids);
    } else if e.Remove? {
      RemoveStep(s, t, ids);
    } else if e.Look? {
      LookStep(s, t, ids, e.path);
    } else if e.EndScan? {
      EndScanStep(s, t, ids);
    } else {
      NoticeStep(s, t, ids, e);
    }
  }

  lemma Busy(s: State, t: Team, e: Event)
    requires Enabled(s, e) && (e.Start? || e.Complete? || e.NextBatch? || e.CommitOwn?)
    ensures Behind(s, t) ==> e.g != t.leader
  {
  }

  lemma NoticeStep(s: State, t: Team, ids: map<Name, nat>, e: Event)
    requires InRound(s, t, ids) && Enabled(s, e) && e.Notice?
    ensures InRound(Apply(s, e), t, ids)
  {
    assert Note(e.g, e.kind, e.change) in s.notes && Behind(s, t);
    hide Apply, Awaited;
    if e.g == t.leader {
      CallStep(s, t, ids);
    } else {
      AckStep(s, t, ids, e.g);
    }
  }

  lemma {:induction false} StaysInRound(s: State, t: Team, ids: map<Name, nat>, es: seq<Event>, u: State)
    requires InRound(s, t, ids) && Runs(s, es, u) && forall e :: e in es ==> Working(e)
    ensures InRound(u, t, ids)
    decreases |es|
  {
    hide InRound, Enabled, Apply, Working;
    if es == [] {
    } else {
      RoundStep(s, t, ids, es[0]);
      StaysInRound(Apply(s, es[0]), t, ids, es[1..], u);
    }
  }

  /**
    Whatever the order of the steps, when none is left the leader has finished its work and every node has been
    marked and then removed; with no follower the leader's own node stays, because nobody calls for a scan.
    */
  lemma RoundCompletes(s: State, t: Team, ids: map<Name, nat>, es: seq<Event>, u: State)
    requires Steady(s, t, ids) && Ahead(s, t) && Runs(s, es, u) && (forall e :: e in es ==> Working(e)) && Over(u)
    ensures exists total :: Done(t.leader, total) in u.log
    ensures forall n :: n in ids && (n != t.leader.gateway || t.followers != {}) ==>
              n !in u.tx && WasMarked(u.log, n, ids[n]) && Removed(t.leader, n, ids[n]) in u.log
    ensures t.followers != {} ==> u.tx == map[]
  {
    StaysInRound(s, t, ids, es, u);
    WhatIsLeft(u, t, ids);
  }

  // ----- every step brings the end nearer -----

  /** Requests to read and write, and windows to open. */
  function WorkLeft(w: Phase): nat
    requires AtWork(w)
  {
    (if w.writing then 0 else 2 * w.total + 2) + 2 * (w.total - w.end) + |w.open| + 1
  }

  function ScanLeft(c: Scan): nat {
    match c
    case Resting => 0
    case Scanning(todo) => 2 * |todo| + 1
    case Deleting(todo, _) => 2 * |todo| + 2
  }

  function Unacked(s: State, t: Team): set<Session> {
    set f | f in t.followers && Unmarked(s, f.gateway)
  }

  /** Marks to be made, calls to be answered, and nodes to look at, of `size` nodes in all. */
  function Sum(acks: nat, calls: nat, scan: nat, size: nat): nat {
    acks * (2 * size + 4) + calls * (2 * size + 3) + scan
  }

  lemma AckForCall(acks: nat, calls: nat, scan: nat, size: nat)
    requires acks > 0
    ensures Sum(acks - 1, calls + 1, scan, size) < Sum(acks, calls, scan, size)
  {
    OneLess(acks, 2 * size + 4);
    OneLess(calls + 1, 2 * size + 3);
  }

  lemma CallForScan(acks: nat, calls: nat, scan: nat, size: nat)
    requires calls > 0 && scan <= 2 * size + 1
    ensures Sum(acks, calls - 1, scan, size) < Sum(acks, calls, 0, size)
  {
    OneLess(calls, 2 * size + 3);
  }

  function CallsLeft(s: State, t: Team): nat {
    Sum(|Unacked(s, t)|, s.notes[Called(t)], ScanLeft(s.Scan(t.leader)), |t.Names()|)
  }

  function Stage(s: State, t: Team): nat {
    match s.Phase(t.leader)
    case Creating(_) => 2
    case Working(_, _, _, _, _) => 1
    case Idle => 0
  }

  function Left(s: State, t: Team): nat {
    var p := s.Phase(t.leader);
    if p.Idle? then CallsLeft(s, t) else if AtWork(p) then WorkLeft(p) else 0
  }

  ghost predicate Nearer(s: State, u: State, t: Team) {
    Stage(u, t) < Stage(s, t) || (Stage(u, t) == Stage(s, t) && Left(u, t) < Left(s, t))
  }

  lemma WindowLeft(writing: bool, start: nat, total: nat)
    requires start <= total
    ensures AtWork(Window(writing, start, total))
    ensures var w := Window(writing, start, total);
            WorkLeft(w) <= (if writing then 0 else 2 * total + 2) + 2 * (total - start) + 1 - (w.end - start)
    ensures start < total ==> Window(writing, start, total).end > start
  {
    var w := Window(writing, start, total);
    CardBound(w.open, start, w.end);
  }

  lemma WorkNearer(s: State, t: Team, e: Event)
    requires AtWork(s.Phase(t.leader)) && Enabled(s, e) && e.g == t.leader && (e.Complete? || e.NextBatch?)
    ensures Nearer(s, Apply(s, e), t)
  {
    var w := s.Phase(t.leader);
    if e.NextBatch? {
      WindowLeft(w.writing, w.end, w.total);
      WindowLeft(true, 0, w.total);
      hide Window;
      assert Apply(s, e).Phase(t.leader) ==
        if w.end < w.total then Window(w.writing, w.end, w.total) else Window(true, 0, w.total);
    } else {
      assert Apply(s, e).Phase(t.leader) == w.(open := w.open - {e.i});
    }
  }

  lemma OneLess(n: nat, m: nat)
    requires n > 0
    ensures n * m == (n - 1) * m + m
  {
  }

  lemma AckNearer(s: State, t: Team, f: Session)
    requires t.Valid() && s.watches == Awaited(s, t) && s.Phase(t.leader).Idle? && f in t.followers
    requires f.gateway in s.tx && Unmarked(s, f.gateway) && Enabled(s, Notice(f, LeaderWatcher, NodeChanged))
    ensures Nearer(s, Apply(s, Notice(f, LeaderWatcher, NodeChanged)), t)
  {
    hide Apply, Enabled, Awaited, Heard, Deaf, Unmarked, Sum, Framed;
    AckIs(s, t, f);
    WatchersOfFollower(s, t, f);
    var u := Apply(s, Notice(f, LeaderWatcher, NodeChanged));
    AwaitedLess(s, u, t, f);
    assert Unacked(u, t) == Unacked(s, t) - {f} && f in Unacked(s, t);
    assert u.notes[Called(t)] == s.notes[Called(t)] + 1;
    AckForCall(|Unacked(s, t)|, s.notes[Called(t)], ScanLeft(s.Scan(t.leader)), |t.Names()|);
  }

  lemma CallNearer(s: State, t: Team)
    requires s.tx.Keys <= t.Names() && s.Phase(t.leader).Idle?
    requires Enabled(s, Notice(t.leader, TxWatcher, NodeChanged))
    ensures Nearer(s, Apply(s, Notice(t.leader, TxWatcher, NodeChanged)), t)
  {
    assert Called(t) in s.notes && s.Scan(t.leader).Resting?;
    hide Apply, Enabled, Sum, Framed;
    CallIs(s, t);
    var u := Apply(s, Notice(t.leader, TxWatcher, NodeChanged));
    assert Unacked(u, t) == Unacked(s, t);
    Fewer(s.tx.Keys, t.Names());
    CallForScan(|Unacked(s, t)|, s.notes[Called(t)], ScanLeft(u.Scan(t.leader)), |t.Names()|);
  }

  lemma {:induction false} Fewer<T>(a: set<T>, b: set<T>)
    requires a <= b
    ensures |a| <= |b|
  {
    assert b == a + (b - a);
  }

  lemma ScanNearer(s: State, u: State, t: Team)
    requires s.Phase(t.leader).Idle? && u.Phase(t.leader).Idle? && u.notes == s.notes
    requires Unacked(u, t) == Unacked(s, t) && ScanLeft(u.Scan(t.leader)) < ScanLeft(s.Scan(t.leader))
    ensures Nearer(s, u, t)
  {
    hide Unacked, ScanLeft;
  }

  lemma LookNearer(s: State, t: Team, n: Name)
    requires s.Phase(t.leader).Idle? && Enabled(s, Look(t.leader, n))
    ensures Nearer(s, Apply(s, Look(t.leader, n)), t)
  {
    assert s.Scan(t.leader).Scanning? && n in s.Scan(t.leader).todo;
    hide Enabled, Apply, Nearer, Framed;
    LookIs(s, t, n);
    var u := Apply(s, Look(t.leader, n));
    assert Unacked(u, t) == Unacked(s, t);
    ScanNearer(s, u, t);
  }

  lemma EndScanNearer(s: State, t: Team)
    requires s.Phase(t.leader).Idle? && Enabled(s, EndScan(t.leader))
    ensures Nearer(s, Apply(s, EndScan(t.leader)), t)
  {
    hide Nearer;
    var u := Apply(s, EndScan(t.leader));
    assert Unacked(u, t) == Unacked(s, t);
    ScanNearer(s, u, t);
  }

  lemma RemoveNearer(s: State, t: Team)
    requires s.Phase(t.leader).Idle? && Enabled(s, Remove(t.leader)) && !Unmarked(s, s.Scan(t.leader).path)
    requires forall w :: w in s.watches ==> w.path != s.Scan(t.leader).path
    ensures Nearer(s, Apply(s, Remove(t.leader)), t)
  {
    assert s.Scan(t.leader).Deleting?;
    hide Enabled, Apply, Nearer, Framed;
    RemoveIs(s, t);
    var u := Apply(s, Remove(t.leader));
    assert Unacked(u, t) == Unacked(s, t);
    ScanNearer(s, u, t);
  }

  /** No order of steps goes on for ever. */
  lemma StepNearer(s: State, t: Team, ids: map<Name, nat>, e: Event)
    requires InRound(s, t, ids) && Enabled(s, e) && Working(e)
    ensures Nearer(s, Apply(s, e), t)
  {
    if e.Start? {
      assert Apply(s, e).Phase(t.leader).Working?;
    } else if e.CommitOwn? {
      assert Apply(s, e).Phase(t.leader).Idle?;
    } else if e.Complete? || e.NextBatch? {
      WorkNearer(s, t, e);
    } else {
      hide Left, Apply;
      if e.Look? {
        LookNearer(s, t, e.path);
      } else if e.EndScan? {
        EndScanNearer(s, t);
      } else if e.Remove? {
        Unwatched(s, t);
        RemoveNearer(s, t);
      } else if e.g == t.leader {
        CallNearer(s, t);
      } else {
        assert Note(e.g, e.kind, e.change) in s.notes;
        AckNearer(s, t, e.g);
      }
    }
  }

  // ----- getting there -----

  lemma Cons(s: State, e: Event, es: seq<Event>, u: State)
    requires Enabled(s, e) && Runs(Apply(s, e), es, u)
    ensures Runs(s, [e] + es, u)
  {
    hide Enabled, Apply;
    assert ([e] + es)[1..] == es;
  }

  lemma {:induction false} Append(s: State, es: seq<Event>, m: State, es': seq<Event>, u: State)
    requires Runs(s, es, m) && Runs(m, es', u)
    ensures Runs(s, es + es', u)
    decreases |es|
  {
    hide Enabled, Apply;
    if es == [] {
      assert es + es' == es';
    } else {
      Append(Apply(s, es[0]), es[1..], m, es', u);
      assert (es + es')[1..] == es[1..] + es';
    }
  }

  /** Nobody has done anything yet but look up who leads. */
  ghost predicate Looked(s: State, t: Team, seen: set<Session>) {
    && s == START.(leader := s.leader)
    && forall g :: g in seen ==> s.View(g) == Some(t.leader.gateway)
  }

  lemma LookUp(s: State, t: Team, seen: set<Session>, g: Session)
    requires Looked(s, t, seen)
    ensures Enabled(s, See(g, Some(t.leader.gateway)))
    ensures Looked(Apply(s, See(g, Some(t.leader.gateway))), t, seen + {g})
  {
  }

  lemma {:induction false} AllLook(s: State, t: Team, seen: set<Session>, gs: seq<Session>)
    returns (es: seq<Event>, u: State)
    requires Looked(s, t, seen)
    ensures Runs(s, es, u) && Looked(u, t, seen + Elems(gs))
    decreases |gs|
  {
    hide Looked, Enabled, Apply;
    if gs == [] {
      es, u := [], s;
      assert seen + Elems(gs) == seen;
    } else {
      var e := See(gs[0], Some(t.leader.gateway));
      LookUp(s, t, seen, gs[0]);
      es, u := AllLook(Apply(s, e), t, seen + {gs[0]}, gs[1..]);
      Cons(s, e, es, u);
      es := [e] + es;
      assert seen + {gs[0]} + Elems(gs[1..]) == seen + Elems(gs) by { assert gs == [gs[0]] + gs[1..]; }
    }
  }

  /** The leader has created nodes under the names `done` and is to create those under `todo`. */
  ghost predicate Making(s: State, t: Team, done: set<Name>, todo: seq<Name>) {
    && s.Leads(t.leader) && s.Phase(t.leader) == Creating(todo) && (forall f :: f in t.followers ==> Follows(s, t, f))
    && s.tx.Keys == done && (forall n :: n in s.tx ==> s.tx[n].mark == Empty)
    && s.watches == Calling(t, done) && s.notes == multiset{} && s.gone == {} && s.ran == {}
    && forall g :: s.Scan(g).Resting? && (g != t.leader ==> s.Phase(g).Idle?)
  }

  function Calling(t: Team, names: set<Name>): set<Watch> {
    set n | n in names && n != t.leader.gateway :: Watch(t.leader, TxWatcher, n)
  }

  predicate Follows(s: State, t: Team, f: Session) {
    s.View(f) == Some(t.leader.gateway)
  }

  lemma DoCreateIs(s: State, t: Team, n: Name, rest: seq<Name>)
    requires s.Phase(t.leader) == Creating([n] + rest) && s.Leads(t.leader) && t.leader !in s.gone && n !in s.tx
    ensures Enabled(s, Create(t.leader, true))
    ensures var u := CreateNode(s, t.leader, n);
            Apply(s, Create(t.leader, true)) ==
            To(if n == t.leader.gateway then u else u.(watches := u.watches + {Watch(t.leader, TxWatcher, n)}),
               t.leader, Creating(rest))
  {
    hide CreateNode, Fire;
    assert ([n] + rest)[1..] == rest;
  }

  lemma CreateIs(s: State, t: Team, done: set<Name>, n: Name, rest: seq<Name>)
    requires s.Phase(t.leader) == Creating([n] + rest) && s.Leads(t.leader) && t.leader !in s.gone
    requires n !in s.tx && s.watches == Calling(t, done) && n !in done
    ensures Enabled(s, Create(t.leader, true))
    ensures var u := Apply(s, Create(t.leader, true));
            && u.tx == s.tx[n := Znode(Empty, t.leader, s.nextId)] && u.watches == Calling(t, done + {n})
            && u.notes == s.notes && u.Phase(t.leader) == Creating(rest) && u.gone == s.gone && u.ran == s.ran
            && u.leader == s.leader && u.scan == s.scan && forall g :: g != t.leader ==> u.Phase(g) == s.Phase(g)
  {
    assert forall w :: w in s.watches ==> w.path in done;
    CallingMore(t, done, n);
    hide Enabled, Apply, CreateNode, Calling;
    DoCreateIs(s, t, n, rest);
    MakesNode(s, t.leader, n);
  }

  lemma MakesNode(s: State, g: Session, n: Name)
    requires forall w :: w in s.watches ==> w.path != n
    ensures CreateNode(s, g, n) == s.(tx := s.tx[n := Znode(Empty, g, s.nextId)], nextId := s.nextId + 1,
                                      log := s.log + [Created(g, n, s.nextId)])
  {
    hide Fire;
    Unheard(Add(s.(tx := s.tx[n := Znode(Empty, g, s.nextId)], nextId := s.nextId + 1), Created(g, n, s.nextId)),
            n, NodeCreated);
  }

  lemma CallingMore(t: Team, done: set<Name>, n: Name)
    ensures Calling(t, done + {n}) ==
            Calling(t, done) + if n == t.leader.gateway then {} else {Watch(t.leader, TxWatcher, n)}
  {
  }

  lemma CreateStep(s: State, t: Team, done: set<Name>, n: Name, rest: seq<Name>)
    requires Making(s, t, done, [n] + rest) && n !in done
    ensures Enabled(s, Create(t.leader, true)) && Making(Apply(s, Create(t.leader, true)), t, done + {n}, rest)
  {
    hide Enabled, Apply, Calling;
    CreateIs(s, t, done, n, rest);
    var u := Apply(s, Create(t.leader, true));
    assert forall g :: u.View(g) == s.View(g) && u.Scan(g) == s.Scan(g);
    assert forall f :: f in t.followers ==> Follows(s, t, f);
  }

  lemma {:induction false} CreateAll(s: State, t: Team, done: set<Name>, todo: seq<Name>)
    returns (es: seq<Event>, u: State)
    requires Making(s, t, done, todo) && Distinct(todo) && done !! Elems(todo)
    ensures Runs(s, es, u) && Making(u, t, done + Elems(todo), [])
    decreases |todo|
  {
    hide Making, Enabled, Apply, Distinct;
    if todo == [] {
      es, u := [], s;
      assert done + Elems(todo) == done;
    } else {
      var n, rest := todo[0], todo[1..];
      HeadAndRest(todo);
      assert n !in Elems(rest) by { assert Distinct(todo); HeadOnce(todo); }
      assert todo == [n] + rest;
      CreateStep(s, t, done, n, rest);
      es, u := CreateAll(Apply(s, Create(t.leader, true)), t, done + {n}, rest);
      Cons(s, Create(t.leader, true), es, u);
      es := [Create(t.leader, true)] + es;
      assert done + {n} + Elems(rest) == done + Elems(todo);
    }
  }

  lemma HeadOnce(ns: seq<Name>)
    requires ns != [] && Distinct(ns)
    ensures ns[0] !in Elems(ns[1..])
  {
  }

  /** All nodes are there, and the followers in `joined` watch the leader's. */
  ghost predicate Joining(s: State, t: Team, joined: set<Session>) {
    && s.Leads(t.leader) && s.Phase(t.leader) == Creating([]) && (forall f :: f in t.followers ==> Follows(s, t, f))
    && s.tx.Keys == t.Names() && (forall n :: n in s.tx ==> s.tx[n].mark == Empty)
    && s.watches == (set f | f in joined :: Watch(f, LeaderWatcher, t.leader.gateway)) + Awaited(s, t)
    && s.notes == multiset{} && s.gone == {} && s.ran == {}
    && forall g :: s.Scan(g).Resting? && (g != t.leader ==> s.Phase(g).Idle?)
  }

  lemma JoinIs(s: State, t: Team, joined: set<Session>, f: Session)
    requires t.Valid() && Joining(s, t, joined) && f in t.followers
    ensures Enabled(s, Begin(f, [])) && Joining(Apply(s, Begin(f, [])), t, joined + {f})
  {
    var u := Apply(s, Begin(f, []));
    assert u == s.(watches := s.watches + {Watch(f, LeaderWatcher, t.leader.gateway)});
    assert Awaited(u, t) == Awaited(s, t);
    assert forall g :: u.Phase(g) == s.Phase(g) && u.Scan(g) == s.Scan(g) && u.View(g) == s.View(g);
    assert (set h | h in joined + {f} :: Watch(h, LeaderWatcher, t.leader.gateway))
        == (set h | h in joined :: Watch(h, LeaderWatcher, t.leader.gateway))
           + {Watch(f, LeaderWatcher, t.leader.gateway)};
  }

  lemma {:induction false} JoinAll(s: State, t: Team, joined: set<Session>, fs: seq<Session>)
    returns (es: seq<Event>, u: State)
    requires t.Valid() && Joining(s, t, joined) && forall f :: f in fs ==> f in t.followers
    ensures Runs(s, es, u) && Joining(u, t, joined + Elems(fs))
    decreases |fs|
  {
    hide Joining, Enabled, Apply;
    if fs == [] {
      es, u := [], s;
      assert joined + Elems(fs) == joined;
    } else {
      JoinIs(s, t, joined, fs[0]);
      es, u := JoinAll(Apply(s, Begin(fs[0], [])), t, joined + {fs[0]}, fs[1..]);
      Cons(s, Begin(fs[0], []), es, u);
      es := [Begin(fs[0], [])] + es;
      assert joined + {fs[0]} + Elems(fs[1..]) == joined + Elems(fs) by { assert fs == [fs[0]] + fs[1..]; }
    }
  }

  lemma BeginIs(s: State, t: Team, names: seq<Name>)
    requires Looked(s, t, {t.leader} + t.followers)
    ensures Enabled(s, Begin(t.leader, names)) && Making(Apply(s, Begin(t.leader, names)), t, {}, names)
  {
    var u := Apply(s, Begin(t.leader, names));
    assert s.Leads(t.leader) && u.leader == s.leader;
    assert forall g :: u.Scan(g).Resting? && (g != t.leader ==> u.Phase(g).Idle?);
  }

  lemma MadeIsJoining(s: State, t: Team)
    requires t.Valid() && Making(s, t, t.Names(), [])
    ensures Joining(s, t, {})
  {
    assert Awaited(s, t) == Calling(t, t.Names()) by {
      forall n | n in t.Names() && n != t.leader.gateway
        ensures Watch(t.leader, TxWatcher, n) in Awaited(s, t)
      {
        var f :| f in t.followers && f.gateway == n;
        assert Unmarked(s, f.gateway);
      }
      assert forall f :: f in t.followers ==> f.gateway in t.Names();
    }
  }

  lemma JoinedIsAhead(s: State, t: Team) returns (ids: map<Name, nat>)
    requires t.Valid() && Joining(s, t, t.followers)
    ensures Steady(s, t, ids) && Ahead(s, t)
  {
    ids := map n | n in s.tx :: s.tx[n].id;
    assert Recorded(s, t, ids);
  }

  /** From the very beginning any leader and any followers, listed in any order, can get to where a round begins. */
  lemma RoundBegins(t: Team, names: seq<Name>, fs: seq<Session>) returns (es: seq<Event>, s: State, ids: map<Name, nat>)
    requires t.Valid() && Distinct(names) && Elems(names) == t.Names() && Elems(fs) == t.followers
    ensures Runs(START, es, s) && Steady(s, t, ids) && Ahead(s, t)
  {
    hide Enabled, Apply, Looked, Making, Joining, Steady, Ahead, Runs;
    assert Looked(START, t, {}) by { NobodyLooked(t); }
    var es1, s1 := AllLook(START, t, {}, [t.leader] + fs);
    assert {} + Elems([t.leader] + fs) == {t.leader} + t.followers;
    BeginIs(s1, t, names);
    var e := Begin(t.leader, names);
    var es2, s2 := CreateAll(Apply(s1, e), t, {}, names);
    Cons(s1, e, es2, s2);
    assert {} + Elems(names) == t.Names();
    MadeIsJoining(s2, t);
    var es3;
    es3, s := JoinAll(s2, t, {}, fs);
    assert {} + Elems(fs) == t.followers;
    ids := JoinedIsAhead(s, t);
    Append(START, es1, s1, [e] + es2, s2);
    Append(START, es1 + ([e] + es2), s2, es3, s);
    es := es1 + ([e] + es2) + es3;
  }

  lemma NobodyLooked(t: Team)
    ensures Looked(START, t, {})
  {
  }
}
