/**
  The checkpoint rounds: a gateway that takes itself for the leader creates one transaction node per
  gateway, writes its data in batches, and marks the leader's node; followers that watch that node
  mark their own; a leader that is told of a change removes the marked nodes.  Steps of different
  gateways interleave in any order, and every gateway may hold any view of who leads.
  */
module Checkpoint {
  import opened Collections
  import opened Sessions

  /** A gateway's number names its transaction node. */
  type Name = nat

  datatype Mark = Empty | Commit | Abort

  /** `id` tells apart nodes created one after the other under the same name. */
  datatype Znode = Znode(mark: Mark, owner: Session, id: nat)

  datatype Kind = LeaderWatcher | TxWatcher

  datatype Change = NodeCreated | NodeDeleted | NodeChanged

  datatype Watch = Watch(g: Session, kind: Kind, path: Name)

  datatype Note = Note(g: Session, kind: Kind, change: Change)

  /** Where a gateway is in its leader branch; `open` are the requests of the batch in flight. */
  datatype Phase =
    | Idle
    | Creating(todo: seq<Name>)
    | Working(writing: bool, start: nat, end: nat, open: set<nat>, total: nat)

  /** Where a gateway is in its scan of the transaction nodes. */
  datatype Scan =
    | Resting
    | Scanning(todo: set<Name>)
    | Deleting(todo: set<Name>, path: Name)

  /** What happened, in order. */
  datatype Entry =
    | Took(g: Session)
    | Fetched(g: Session, i: nat)
    | Appended(g: Session, i: nat)
    | Done(g: Session, total: nat)
    | Acked(g: Session)
    | Set(g: Session, path: Name, id: nat)
    | Created(g: Session, path: Name, id: nat)
    | Removed(g: Session, path: Name, id: nat)
    | SawEmpty(g: Session)
    | Expired(g: Session)

  datatype State = State(
    tx: map<Name, Znode>, nextId: nat, leader: map<Session, Name>, phase: map<Session, Phase>, scan: map<Session, Scan>,
    ran: set<Session>, gone: set<Session>, watches: set<Watch>, notes: multiset<Note>, log: seq<Entry>)
  {
    function Phase(g: Session): Phase {
      if g in phase then phase[g] else Idle
    }

    function Scan(g: Session): Scan {
      if g in scan then scan[g] else Resting
    }

    /** Whom `g` takes for the leader; nobody, when the name it has read is empty. */
    function View(g: Session): Option<Name> {
      if g in leader then Some(leader[g]) else None
    }

    predicate Leads(g: Session) {
      View(g) == Some(g.gateway)
    }
  }

  const START := State(map[], 0, map[], map[], map[], {}, {}, {}, multiset{}, [])

  const MAX_CONCURRENCY := 256

  function Min(a: nat, b: nat): nat {
    if a < b then a else b
  }

  // ----- the service -----

  function Add(s: State, e: Entry): State {
    s.(log := s.log + [e])
  }

  /** A change to a node fires the watches on it, each once. */
  function Fire(s: State, path: Name, change: Change): State {
    var hit := set w | w in s.watches && w.path == path;
    s.(watches := s.watches - hit, notes := s.notes + multiset(set w | w in hit :: Note(w.g, w.kind, change)))
  }

  /** Marks a node as committed; on a node that does not exist this is an error and does nothing. */
  function SetCommit(s: State, g: Session, path: Name): State {
    if path !in s.tx then s
    else
      var z := s.tx[path];
      Fire(Add(s.(tx := s.tx[path := z.(mark := Commit)]), Set(g, path, z.id)), path, NodeChanged)
  }

  function CreateNode(s: State, g: Session, path: Name): State {
    Fire(Add(s.(tx := s.tx[path := Znode(Empty, g, s.nextId)], nextId := s.nextId + 1),
             Created(g, path, s.nextId)), path, NodeCreated)
  }

  function DeleteNode(s: State, g: Session, path: Name): State {
    if path !in s.tx then s
    else Fire(Add(s.(tx := s.tx - {path}), Removed(g, path, s.tx[path].id)), path, NodeDeleted)
  }

  /** The session of `g` ends: its nodes vanish, and so do its watches. */
  function EndSession(s: State, g: Session): State {
    var lost := set n | n in s.tx && s.tx[n].owner == g;
    var hit := set w | w in s.watches && w.path in lost;
    s.(tx := s.tx - lost, gone := s.gone + {g}, watches := (set w | w in s.watches - hit && w.g != g),
       notes := s.notes + multiset(set w | w in hit :: Note(w.g, w.kind, NodeDeleted)), log := s.log + [Expired(g)])
  }

  /** Exactly the nodes and watches of that session vanish, and those who watched its nodes are told. */
  lemma SessionEnds(s: State, g: Session)
    ensures var u := EndSession(s, g);
            && (forall n :: n in u.tx <==> n in s.tx && s.tx[n].owner != g)
            && (forall n :: n in u.tx ==> u.tx[n] == s.tx[n])
            && (forall w :: w in u.watches <==> w in s.watches && w.g != g && (w.path in s.tx ==> w.path in u.tx))
            && (forall w :: w in s.watches && w.path in s.tx && w.path !in u.tx ==>
                  Note(w.g, w.kind, NodeDeleted) in u.notes)
  {
  }

  // ----- the gateways -----

  datatype Event =
    | See(g: Session, name: Option<Name>)
    | Begin(g: Session, children: seq<Name>)
    | Create(g: Session, ok: bool)
    | Start(g: Session, total: nat)
    | Complete(g: Session, i: nat)
    | NextBatch(g: Session)
    | CommitOwn(g: Session)
    | Notice(g: Session, kind: Kind, change: Change)
    | Look(g: Session, path: Name)
    | Remove(g: Session)
    | EndScan(g: Session)
    | Expire(g: Session)

  predicate From(start: nat, i: nat) {
    start <= i
  }

  function Window(writing: bool, start: nat, total: nat): Phase
    requires start <= total
  {
    var end := Min(start + MAX_CONCURRENCY, total);
    Working(writing, start, end, (set i: nat | i < end && From(start, i)), total)
  }

  predicate Enabled(s: State, e: Event) {
    e.g !in s.gone &&
    match e
    case See(g, name) => true
    case Begin(g, children) => s.Phase(g).Idle?
    case Create(g, ok) => s.Phase(g).Creating? && s.Phase(g).todo != []
    case Start(g, total) => s.Phase(g).Creating? && s.Phase(g).todo == []
    case Complete(g, i) => s.Phase(g).Working? && i in s.Phase(g).open
    case NextBatch(g) => s.Phase(g).Working? && s.Phase(g).open == {} &&
                         (s.Phase(g).end < s.Phase(g).total || !s.Phase(g).writing)
    case CommitOwn(g) => s.Phase(g).Working? && s.Phase(g).open == {} && s.Phase(g).writing &&
                         s.Phase(g).end >= s.Phase(g).total
    case Notice(g, kind, change) => s.Scan(g).Resting? && Note(g, kind, change) in s.notes
    case Look(g, path) => s.Scan(g).Scanning? && path in s.Scan(g).todo
    case Remove(g) => s.Scan(g).Deleting?
    case EndScan(g) => s.Scan(g).Scanning? && s.Scan(g).todo == {}
    case Expire(g) => true
  }

  function To(s: State, g: Session, p: Phase): State {
    s.(phase := s.phase[g := p])
  }

  function ScanTo(s: State, g: Session, c: Scan): State {
    s.(scan := s.scan[g := c])
  }

  /** The leader branch is taken on the gateway's own view at that moment; the view may change later. */
  function DoBegin(s: State, g: Session, children: seq<Name>): State {
    if s.Leads(g) then To(Add(s, Took(g)), g, Creating(children))
    else if s.View(g).Some? then s.(watches := s.watches + {Watch(g, LeaderWatcher, s.leader[g])})
    else s
  }

  function DoCreate(s: State, g: Session, ok: bool): State
    requires s.Phase(g).Creating? && s.Phase(g).todo != []
  {
    var n, rest := s.Phase(g).todo[0], s.Phase(g).todo[1..];
    if n in s.tx then To(s, g, Creating(rest))
    else
      var s1 := if ok then CreateNode(s, g, n) else s;
      var s2 := if s.View(g) != Some(n) then s1.(watches := s1.watches + {Watch(g, TxWatcher, n)}) else s1;
      To(s2, g, Creating(rest))
  }

  function DoStart(s: State, g: Session, total: nat): State {
    if g in s.ran then To(s, g, Idle)
    else To(s.(ran := s.ran + {g}), g, Window(false, 0, total))
  }

  function DoComplete(s: State, g: Session, i: nat): State
    requires s.Phase(g).Working?
  {
    var w := s.Phase(g);
    To(Add(s, if w.writing then Appended(g, i) else Fetched(g, i)), g, w.(open := w.open - {i}))
  }

  function DoNextBatch(s: State, g: Session): State
    requires s.Phase(g).Working?
  {
    var w := s.Phase(g);
    To(s, g, if w.end < w.total then Window(w.writing, w.end, w.total) else Window(true, 0, w.total))
  }

  function DoCommit(s: State, g: Session): State
    requires s.Phase(g).Working?
  {
    var s1 := Add(s, Done(g, s.Phase(g).total));
    To(if s.View(g).Some? then SetCommit(s1, g, s.leader[g]) else s1, g, Idle)
  }

  function DoNotice(s: State, g: Session, kind: Kind, change: Change): State {
    var s1 := s.(notes := s.notes - multiset{Note(g, kind, change)});
    if change != NodeChanged then s1
    else
      match kind
      case LeaderWatcher => SetCommit(Add(s1, Acked(g)), g, g.gateway)
      case TxWatcher => if s1.tx == map[] then Add(s1, SawEmpty(g)) else ScanTo(s1, g, Scanning(s1.tx.Keys))
  }

  function DoLook(s: State, g: Session, path: Name): State
    requires s.Scan(g).Scanning?
  {
    var todo := s.Scan(g).todo - {path};
    ScanTo(s, g, if path in s.tx && s.tx[path].mark != Empty then Deleting(todo, path) else Scanning(todo))
  }

  function DoRemove(s: State, g: Session): State
    requires s.Scan(g).Deleting?
  {
    ScanTo(DeleteNode(s, g, s.Scan(g).path), g, Scanning(s.Scan(g).todo))
  }

  function Apply(s: State, e: Event): State
    requires Enabled(s, e)
  {
    match e
    case See(g, name) => s.(leader := if name.Some? then s.leader[g := name.value] else s.leader - {g})
    case Begin(g, children) => DoBegin(s, g, children)
    case Create(g, ok) => DoCreate(s, g, ok)
    case Start(g, total) => DoStart(s, g, total)
    case Complete(g, i) => DoComplete(s, g, i)
    case NextBatch(g) => DoNextBatch(s, g)
    case CommitOwn(g) => DoCommit(s, g)
    case Notice(g, kind, change) => DoNotice(s, g, kind, change)
    case Look(g, path) => DoLook(s, g, path)
    case Remove(g) => DoRemove(s, g)
    case EndScan(g) => ScanTo(s, g, Resting)
    case Expire(g) => EndSession(s, g)
  }

  /** The events of a run are taken one after the other, each when it is possible. */
  ghost predicate Runs(s: State, es: seq<Event>, t: State)
    decreases |es|
  {
    if es == [] then t == s
    else Enabled(s, es[0]) && Runs(Apply(s, es[0]), es[1..], t)
  }

  // ----- every commit goes back to a leader that finished writing -----

  ghost predicate Extends(log: seq<Entry>, log': seq<Entry>) {
    && |log| <= |log'|
    && forall k {:trigger log[k]} {:trigger log'[k]} :: 0 <= k < |log| ==> log'[k] == log[k]
  }

  ghost predicate HasDone(log: seq<Entry>, k: nat) {
    exists j :: 0 <= j < k && j < |log| && log[j].Done?
  }

  /** One of the entries from `lo` up to `hi` says that request `x` of `g` was read. */
  ghost predicate ReadIn(log: seq<Entry>, lo: nat, hi: nat, g: Session, x: nat) {
    exists m :: lo <= m < hi && m < |log| && log[m] == Fetched(g, x)
  }

  ghost predicate WroteIn(log: seq<Entry>, lo: nat, hi: nat, g: Session, x: nat) {
    exists m :: lo <= m < hi && m < |log| && log[m] == Appended(g, x)
  }

  /** Entry `i` is where `g` took the leader branch, and not again before entry `k`. */
  ghost predicate TookAt(log: seq<Entry>, i: nat, k: nat, g: Session) {
    i < k <= |log| && log[i] == Took(g) && forall m :: i < m < k ==> log[m] != Took(g)
  }

  /**
    In the leader branch taken at entry `i`, `g` read all its requests up to entry `h`, and then wrote
    them all before entry `k`.
    */
  ghost predicate ReadThenWrote(log: seq<Entry>, i: nat, h: nat, k: nat, g: Session, total: nat) {
    && TookAt(log, i, k, g) && i < h <= k
    && (forall x {:trigger ReadIn(log, i, h, g, x)} :: 0 <= x < total ==> ReadIn(log, i, h, g, x))
    && (forall x {:trigger WroteIn(log, h, k, g, x)} :: 0 <= x < total ==> WroteIn(log, h, k, g, x))
  }

  ghost predicate WroteAll(log: seq<Entry>, i: nat, k: nat, g: Session, total: nat) {
    exists h :: ReadThenWrote(log, i, h, k, g, total)
  }

  /** In its round, the request of entry `k` is read or written for the first time, and read before it is written. */
  ghost predicate OnceInRound(log: seq<Entry>, i: nat, k: nat)
    requires k < |log| && (log[k].Fetched? || log[k].Appended?)
  {
    && TookAt(log, i, k, log[k].g) && !WroteIn(log, i, k, log[k].g, log[k].i)
    && (log[k].Appended? <==> ReadIn(log, i, k, log[k].g, log[k].i))
  }

  ghost predicate EntryOk(log: seq<Entry>, k: nat)
    requires k < |log|
  {
    && (log[k].Done? ==> exists i :: WroteAll(log, i, k, log[k].g, log[k].total))
    && (log[k].Fetched? || log[k].Appended? ==> exists i :: OnceInRound(log, i, k))
    && (log[k].Set? || log[k].Acked? ==> HasDone(log, k))
  }

  /** What the round that `g` began at entry `i` has done so far; it went over to writing at entry `h`. */
  ghost predicate Sound(log: seq<Entry>, g: Session, i: nat, h: nat, w: Phase)
    requires w.Working?
  {
    && TookAt(log, i, |log|, g) && i < h <= |log|
    && (forall x: nat {:trigger ReadIn(log, i, |log|, g, x)} ::
          ReadIn(log, i, |log|, g, x) <==> x < (if w.writing then w.total else w.end) && (w.writing || x !in w.open))
    && (forall x: nat {:trigger WroteIn(log, i, |log|, g, x)} ::
          WroteIn(log, i, |log|, g, x) <==> w.writing && x < w.end && x !in w.open)
    && (w.writing ==> forall x {:trigger ReadIn(log, i, h, g, x)} :: 0 <= x < w.total ==> ReadIn(log, i, h, g, x))
    && (w.writing ==> forall x {:trigger WroteIn(log, h, |log|, g, x)} ::
          0 <= x < w.end && x !in w.open ==> WroteIn(log, h, |log|, g, x))
  }

  /** Since `g` took the leader branch at entry `i` it has neither read nor written. */
  ghost predicate JustTook(log: seq<Entry>, g: Session, i: nat) {
    && TookAt(log, i, |log|, g)
    && forall x: nat :: !ReadIn(log, i, |log|, g, x) && !WroteIn(log, i, |log|, g, x)
  }

  ghost predicate PhaseOk(log: seq<Entry>, g: Session, p: Phase) {
    match p
    case Idle => true
    case Creating(_) => exists i :: JustTook(log, g, i)
    case Working(_, start, end, open, total) =>
      && start <= end <= total && end - start <= MAX_CONCURRENCY && (forall x :: x in open ==> start <= x < end)
      && exists i, h :: Sound(log, g, i, h, p)
  }

  ghost predicate Proven(log: seq<Entry>, notes: multiset<Note>, phase: map<Session, Phase>) {
    && (forall k {:trigger EntryOk(log, k)} :: 0 <= k < |log| ==> EntryOk(log, k))
    && (forall n :: n in notes && n.change == NodeChanged ==> HasDone(log, |log|))
    && (forall g :: g in phase ==> PhaseOk(log, g, phase[g]))
  }

  ghost predicate ProvenState(s: State) {
    Proven(s.log, s.notes, s.phase)
  }

  /** An entry that is none of `g`'s reads, writes or rounds changes nothing of what `g` has done. */
  lemma SameIn(log: seq<Entry>, log': seq<Entry>, lo: nat, hi: nat, g: Session, x: nat)
    requires Extends(log, log') && hi <= |log|
    ensures ReadIn(log', lo, hi, g, x) <==> ReadIn(log, lo, hi, g, x)
    ensures WroteIn(log', lo, hi, g, x) <==> WroteIn(log, lo, hi, g, x)
  {
    if ReadIn(log, lo, hi, g, x) {
      var m :| lo <= m < hi && m < |log| && log[m] == Fetched(g, x);
      assert log'[m] == log[m];
    }
    if WroteIn(log, lo, hi, g, x) {
      var m :| lo <= m < hi && m < |log| && log[m] == Appended(g, x);
      assert log'[m] == log[m];
    }
  }

  lemma OneMore(log: seq<Entry>, e: Entry, lo: nat, g: Session, x: nat)
    requires lo <= |log|
    ensures ReadIn(log + [e], lo, |log| + 1, g, x) <==> ReadIn(log, lo, |log|, g, x) || e == Fetched(g, x)
    ensures WroteIn(log + [e], lo, |log| + 1, g, x) <==> WroteIn(log, lo, |log|, g, x) || e == Appended(g, x)
  {
    var log' := log + [e];
    assert log'[|log|] == e && Extends(log, log');
    SameIn(log, log', lo, |log|, g, x);
    assert ReadIn(log', lo, |log|, g, x) ==> ReadIn(log', lo, |log| + 1, g, x);
    assert WroteIn(log', lo, |log|, g, x) ==> WroteIn(log', lo, |log| + 1, g, x);
  }

  lemma RoundGrows(log: seq<Entry>, log': seq<Entry>, i: nat, h: nat, k: nat, g: Session, total: nat)
    requires Extends(log, log') && k <= |log| && ReadThenWrote(log, i, h, k, g, total)
    ensures ReadThenWrote(log', i, h, k, g, total)
  {
    hide ReadIn, WroteIn;
    forall x | 0 <= x < total
      ensures ReadIn(log', i, h, g, x) && WroteIn(log', h, k, g, x)
    {
      SameIn(log, log', i, h, g, x);
      SameIn(log, log', h, k, g, x);
    }
  }

  lemma EntryGrows(log: seq<Entry>, log': seq<Entry>, k: nat)
    requires Extends(log, log') && k < |log| && EntryOk(log, k)
    ensures EntryOk(log', k)
  {
    hide ReadIn, WroteIn, ReadThenWrote;
    if log[k].Done? {
      var i :| WroteAll(log, i, k, log[k].g, log[k].total);
      var h :| ReadThenWrote(log, i, h, k, log[k].g, log[k].total);
      RoundGrows(log, log', i, h, k, log[k].g, log[k].total);
      assert WroteAll(log', i, k, log[k].g, log[k].total);
    }
    if log[k].Fetched? || log[k].Appended? {
      var i :| OnceInRound(log, i, k);
      SameIn(log, log', i, k, log[k].g, log[k].i);
      assert OnceInRound(log', i, k);
    }
  }

  lemma SoundGrows(log: seq<Entry>, e: Entry, g: Session, i: nat, h: nat, w: Phase)
    requires w.Working? && Sound(log, g, i, h, w)
    requires e != Took(g) && !(e.Fetched? && e.g == g) && !(e.Appended? && e.g == g)
    ensures Sound(log + [e], g, i, h, w)
  {
    hide ReadIn, WroteIn;
    var log' := log + [e];
    forall x: nat
      ensures ReadIn(log', i, |log'|, g, x) <==> ReadIn(log, i, |log|, g, x)
      ensures WroteIn(log', i, |log'|, g, x) <==> WroteIn(log, i, |log|, g, x)
      ensures WroteIn(log', h, |log'|, g, x) <==> WroteIn(log, h, |log|, g, x)
      ensures ReadIn(log', i, h, g, x) <==> ReadIn(log, i, h, g, x)
    {
      OneMore(log, e, i, g, x);
      OneMore(log, e, h, g, x);
      SameIn(log, log', i, h, g, x);
    }
  }

  lemma JustTookGrows(log: seq<Entry>, e: Entry, g: Session, i: nat)
    requires JustTook(log, g, i) && !(e.g == g && (e.Took? || e.Fetched? || e.Appended?))
    ensures JustTook(log + [e], g, i)
  {
    hide ReadIn, WroteIn;
    forall x: nat
      ensures !ReadIn(log + [e], i, |log + [e]|, g, x) && !WroteIn(log + [e], i, |log + [e]|, g, x)
    {
      OneMore(log, e, i, g, x);
    }
  }

  /** Whoever takes the leader branch is in no round. */
  ghost predicate Mine(e: Entry, g: Session, p: Phase) {
    !p.Idle? && e.g == g && (e.Took? || e.Fetched? || e.Appended?)
  }

  lemma PhaseGrows(log: seq<Entry>, e: Entry, g: Session, p: Phase)
    requires PhaseOk(log, g, p) && !Mine(e, g, p)
    ensures PhaseOk(log + [e], g, p)
  {
    hide Sound, JustTook;
    match p
    case Idle =>
    case Creating(_) =>
      var i :| JustTook(log, g, i);
      JustTookGrows(log, e, g, i);
    case Working(_, _, _, _, _) =>
      var i, h :| Sound(log, g, i, h, p);
      SoundGrows(log, e, g, i, h, p);
  }

  lemma AddProven(s: State, e: Entry)
    requires ProvenState(s) && EntryOk(s.log + [e], |s.log|) && !Mine(e, e.g, s.Phase(e.g))
    ensures ProvenState(Add(s, e))
  {
    hide EntryOk, PhaseOk;
    var log' := s.log + [e];
    EntriesGrow(s, e);
    forall g | g in s.phase
      ensures PhaseOk(log', g, s.phase[g])
    {
      PhaseGrows(s.log, e, g, s.phase[g]);
    }
  }

  lemma EntriesGrow(s: State, e: Entry)
    requires ProvenState(s) && EntryOk(s.log + [e], |s.log|)
    ensures var log' := s.log + [e];
            && (forall k {:trigger EntryOk(log', k)} :: 0 <= k < |log'| ==> EntryOk(log', k))
            && (HasDone(s.log, |s.log|) ==> HasDone(log', |log'|))
  {
    hide EntryOk, PhaseOk;
    var log' := s.log + [e];
    forall k | 0 <= k < |log'|
      ensures EntryOk(log', k)
    {
      if k < |s.log| {
        EntryGrows(s.log, log', k);
      }
    }
    if HasDone(s.log, |s.log|) {
      var j :| 0 <= j < |s.log| && s.log[j].Done?;
      assert log'[j].Done?;
    }
  }

  lemma FireProven(s: State, path: Name, change: Change)
    requires ProvenState(s) && (change == NodeChanged ==> HasDone(s.log, |s.log|))
    ensures ProvenState(Fire(s, path, change))
  {
    hide EntryOk, PhaseOk, HasDone;
  }

  lemma SetProven(s: State, g: Session, path: Name)
    requires ProvenState(s) && HasDone(s.log, |s.log|)
    ensures ProvenState(SetCommit(s, g, path))
  {
    if path in s.tx {
      var z := s.tx[path];
      var s1 := s.(tx := s.tx[path := z.(mark := Commit)]);
      var j :| 0 <= j < |s.log| && s.log[j].Done?;
      var e := Set(g, path, z.id);
      assert (s.log + [e])[j].Done?;
      AddProven(s1, e);
      FireProven(Add(s1, e), path, NodeChanged);
    }
  }

  lemma CommitProven(s: State, g: Session)
    requires ProvenState(s) && Enabled(s, CommitOwn(g))
    ensures ProvenState(DoCommit(s, g))
  {
    hide Sound, ReadThenWrote;
    var w := s.Phase(g);
    assert PhaseOk(s.log, g, w);
    var e := Done(g, w.total);
    var log' := s.log + [e];
    var i, h :| Sound(s.log, g, i, h, w);
    SoundIsDone(s.log, g, i, h, w);
    RoundGrows(s.log, log', i, h, |s.log|, g, w.total);
    assert WroteAll(log', i, |s.log|, g, w.total);
    AddProven(s, e);
    assert log'[|s.log|].Done?;
    var s1 := Add(s, e);
    if s.View(g).Some? {
      SetProven(s1, g, s.leader[g]);
      ServiceStays(s1, g, s.leader[g]);
      s1 := SetCommit(s1, g, s.leader[g]);
    }
    ToProven(s1, g, Idle);
  }

  lemma SoundIsDone(log: seq<Entry>, g: Session, i: nat, h: nat, w: Phase)
    requires w.Working? && Sound(log, g, i, h, w) && w.writing && w.open == {} && w.end >= w.total
    ensures ReadThenWrote(log, i, h, |log|, g, w.total)
  {
    hide ReadIn, WroteIn;
  }

  /** A request of the window completes. */
  lemma SoundStep(log: seq<Entry>, g: Session, i: nat, h: nat, w: Phase, x: nat)
    requires w.Working? && Sound(log, g, i, h, w) && x in w.open && x < w.end <= w.total
    ensures var e := if w.writing then Appended(g, x) else Fetched(g, x);
            OnceInRound(log + [e], i, |log|) && Sound(log + [e], g, i, h, w.(open := w.open - {x}))
  {
    hide ReadIn, WroteIn;
    var e := if w.writing then Appended(g, x) else Fetched(g, x);
    var log' := log + [e];
    SameIn(log, log', i, |log|, g, x);
    forall y: nat
      ensures ReadIn(log', i, |log'|, g, y) <==> ReadIn(log, i, |log|, g, y) || (!w.writing && y == x)
      ensures WroteIn(log', i, |log'|, g, y) <==> WroteIn(log, i, |log|, g, y) || (w.writing && y == x)
      ensures WroteIn(log', h, |log'|, g, y) <==> WroteIn(log, h, |log|, g, y) || (w.writing && y == x)
      ensures ReadIn(log', i, h, g, y) <==> ReadIn(log, i, h, g, y)
    {
      OneMore(log, e, i, g, y);
      OneMore(log, e, h, g, y);
      SameIn(log, log', i, h, g, y);
    }
  }

  lemma CompleteProven(s: State, g: Session, x: nat)
    requires ProvenState(s) && Enabled(s, Complete(g, x))
    ensures ProvenState(DoComplete(s, g, x))
  {
    hide Sound, OnceInRound;
    var w := s.Phase(g);
    assert PhaseOk(s.log, g, w);
    var e := if w.writing then Appended(g, x) else Fetched(g, x);
    var i, h :| Sound(s.log, g, i, h, w);
    SoundStep(s.log, g, i, h, w, x);
    EntriesGrow(s, e);
    OthersGrow(s, e);
    hide EntryOk, HasDone;
    var s' := DoComplete(s, g, x);
    assert PhaseOk(s'.log, g, s'.phase[g]);
  }

  lemma OthersGrow(s: State, e: Entry)
    requires ProvenState(s)
    ensures forall g :: g in s.phase && g != e.g ==> PhaseOk(s.log + [e], g, s.phase[g])
  {
    hide EntryOk, PhaseOk, HasDone;
    forall g | g in s.phase && g != e.g
      ensures PhaseOk(s.log + [e], g, s.phase[g])
    {
      PhaseGrows(s.log, e, g, s.phase[g]);
    }
  }

  /** The next window, and the hand-over when everything has been read. */
  lemma SoundNext(log: seq<Entry>, g: Session, i: nat, h: nat, w: Phase) returns (h': nat)
    requires w.Working? && Sound(log, g, i, h, w) && w.open == {} && w.start <= w.end <= w.total
    requires w.end < w.total || !w.writing
    ensures Sound(log, g, i, h',
                  if w.end < w.total then Window(w.writing, w.end, w.total) else Window(true, 0, w.total))
  {
    hide ReadIn, WroteIn;
    h' := if w.writing then h else |log|;
    NothingIn(log, |log|, g);
  }

  lemma NothingIn(log: seq<Entry>, lo: nat, g: Session)
    ensures forall x: nat :: !ReadIn(log, lo, lo, g, x) && !WroteIn(log, lo, lo, g, x)
  {
  }

  lemma NextBatchProven(s: State, g: Session)
    requires ProvenState(s) && Enabled(s, NextBatch(g))
    ensures ProvenState(DoNextBatch(s, g))
  {
    hide Sound, EntryOk, HasDone;
    var w := s.Phase(g);
    assert PhaseOk(s.log, g, w);
    var i, h :| Sound(s.log, g, i, h, w);
    var h' := SoundNext(s.log, g, i, h, w);
    var w' := DoNextBatch(s, g).phase[g];
    assert PhaseOk(s.log, g, w');
  }

  lemma StartProven(s: State, g: Session, total: nat)
    requires ProvenState(s) && Enabled(s, Start(g, total))
    ensures ProvenState(DoStart(s, g, total))
  {
    hide ProvenState, PhaseOk;
    InPhase(s, g);
    StartOk(s.log, g, s.Phase(g).todo, total);
    if g in s.ran {
      ToProven(s, g, Idle);
    } else {
      var s1 := s.(ran := s.ran + {g});
      SameProven(s, s1);
      ToProven(s1, g, Window(false, 0, total));
    }
  }

  lemma StartOk(log: seq<Entry>, g: Session, todo: seq<Name>, total: nat)
    requires PhaseOk(log, g, Creating(todo))
    ensures PhaseOk(log, g, Window(false, 0, total)) && PhaseOk(log, g, Idle)
  {
    hide ReadIn, WroteIn;
    var i :| JustTook(log, g, i);
    assert Sound(log, g, i, |log|, Window(false, 0, total));
  }

  lemma InPhase(s: State, g: Session)
    requires ProvenState(s)
    ensures PhaseOk(s.log, g, s.Phase(g))
  {
    hide EntryOk, HasDone;
  }

  lemma ToProven(s: State, g: Session, p: Phase)
    requires ProvenState(s) && PhaseOk(s.log, g, p)
    ensures ProvenState(To(s, g, p))
  {
    hide EntryOk, PhaseOk, HasDone;
  }

  lemma NoticeProven(s: State, g: Session, kind: Kind, change: Change)
    requires ProvenState(s) && Enabled(s, Notice(g, kind, change))
    ensures ProvenState(DoNotice(s, g, kind, change))
  {
    var s1 := s.(notes := s.notes - multiset{Note(g, kind, change)});
    assert ProvenState(s1) by { hide EntryOk, PhaseOk, HasDone; }
    if change == NodeChanged {
      var j :| 0 <= j < |s.log| && s.log[j].Done?;
      if kind == LeaderWatcher {
        assert (s.log + [Acked(g)])[j].Done?;
        AddProven(s1, Acked(g));
        SetProven(Add(s1, Acked(g)), g, g.gateway);
      } else if s1.tx == map[] {
        AddProven(s1, SawEmpty(g));
      }
    }
  }

  lemma NothingRead(log: seq<Entry>, g: Session)
    ensures JustTook(log + [Took(g)], g, |log|)
  {
  }

  lemma BeginProven(s: State, g: Session, children: seq<Name>)
    requires ProvenState(s) && Enabled(s, Begin(g, children))
    ensures ProvenState(DoBegin(s, g, children))
  {
    if s.Leads(g) {
      AddProven(s, Took(g));
      NothingRead(s.log, g);
      ToProven(Add(s, Took(g)), g, Creating(children));
    }
  }

  lemma CreateNodeProven(s: State, g: Session, n: Name)
    requires ProvenState(s)
    ensures ProvenState(CreateNode(s, g, n))
  {
    var s1 := s.(tx := s.tx[n := Znode(Empty, g, s.nextId)], nextId := s.nextId + 1);
    var e := Created(g, n, s.nextId);
    AddProven(s1, e);
    FireProven(Add(s1, e), n, NodeCreated);
  }

  lemma CreateProven(s: State, g: Session, ok: bool)
    requires ProvenState(s) && Enabled(s, Create(g, ok))
    ensures ProvenState(DoCreate(s, g, ok))
  {
    hide CreateNode, ProvenState, PhaseOk;
    var n, rest := s.Phase(g).todo[0], s.Phase(g).todo[1..];
    var s1 := s;
    if n !in s.tx && ok {
      CreateNodeProven(s, g, n);
      CreateNodePhase(s, g, n);
      s1 := CreateNode(s, g, n);
    }
    InPhase(s1, g);
    FewerToCreate(s1.log, g, s.Phase(g).todo);
    var s2 := s1.(watches := s1.watches + {Watch(g, TxWatcher, n)});
    SameProven(s1, s2);
    ToProven(s1, g, Creating(rest));
    ToProven(s2, g, Creating(rest));
  }

  lemma FewerToCreate(log: seq<Entry>, g: Session, todo: seq<Name>)
    requires PhaseOk(log, g, Creating(todo)) && todo != []
    ensures PhaseOk(log, g, Creating(todo[1..]))
  {
  }

  lemma SameProven(s: State, s': State)
    requires ProvenState(s) && s'.log == s.log && s'.notes == s.notes && s'.phase == s.phase
    ensures ProvenState(s')
  {
    hide Proven;
  }

  lemma CreateNodePhase(s: State, g: Session, n: Name)
    ensures CreateNode(s, g, n).phase == s.phase && CreateNode(s, g, n).leader == s.leader
  {
  }

  lemma RemoveProven(s: State, g: Session)
    requires ProvenState(s) && Enabled(s, Remove(g))
    ensures ProvenState(DoRemove(s, g))
  {
    var path := s.Scan(g).path;
    if path in s.tx {
      var s1 := s.(tx := s.tx - {path});
      var e := Removed(g, path, s.tx[path].id);
      AddProven(s1, e);
      FireProven(Add(s1, e), path, NodeDeleted);
    }
  }

  lemma ExpireProven(s: State, g: Session)
    requires ProvenState(s)
    ensures ProvenState(EndSession(s, g))
  {
    AddProven(s, Expired(g));
    hide EntryOk, PhaseOk, HasDone;
  }

  lemma StepProven(s: State, e: Event)
    requires ProvenState(s) && Enabled(s, e)
    ensures ProvenState(Apply(s, e))
  {
    hide Proven;
    match e
    case See(_, _) =>
    case Begin(g, children) => BeginProven(s, g, children);
    case Create(g, ok) => CreateProven(s, g, ok);
    case Start(g, total) => StartProven(s, g, total);
    case Complete(g, i) => CompleteProven(s, g, i);
    case NextBatch(g) => NextBatchProven(s, g);
    case CommitOwn(g) => CommitProven(s, g);
    case Notice(g, kind, change) => NoticeProven(s, g, kind, change);
    case Look(_, _) =>
    case Remove(g) => RemoveProven(s, g);
    case EndScan(_) =>
    case Expire(g) => ExpireProven(s, g);
  }

  // ----- what an empty transaction directory means -----

  /** Before entry `k`, the node `id` called `path` was marked as committed. */
  ghost predicate SetBefore(log: seq<Entry>, k: nat, path: Name, id: nat) {
    exists j :: 0 <= j < k && j < |log| && log[j].Set? && log[j].path == path && log[j].id == id
  }

  ghost predicate SomeSetBefore(log: seq<Entry>, k: nat, path: Name) {
    exists j :: 0 <= j < k && j < |log| && log[j].Set? && log[j].path == path
  }

  /** Between the creation at `j` and entry `k` the node was removed, or its creator's session ended. */
  ghost predicate GoneBy(log: seq<Entry>, j: nat, k: nat)
    requires j < |log| && log[j].Created?
  {
    exists m :: j < m < k && m < |log| &&
      ((log[m].Removed? && log[m].path == log[j].path && log[m].id == log[j].id) || log[m] == Expired(log[j].g))
  }

  ghost predicate ExpiredBetween(log: seq<Entry>, a: nat, b: nat, g: Session) {
    exists m :: a < m < b && m < |log| && log[m] == Expired(g)
  }

  /** A gateway takes the leader branch after another one only when that one's session has ended. */
  ghost predicate OneAtATime(log: seq<Entry>) {
    forall a, b :: 0 <= a < b < |log| && log[a].Took? && log[b].Took? && log[a].g != log[b].g ==>
      ExpiredBetween(log, a, b, log[a].g)
  }

  ghost predicate NodeOk(log: seq<Entry>, nextId: nat, n: Name, z: Znode) {
    && z.id < nextId && z.mark != Abort && Took(z.owner) in log
    && (z.mark == Commit ==> SetBefore(log, |log|, n, z.id))
  }

  /** Before entry `k`, `g` took the leader branch. */
  ghost predicate TookBefore(log: seq<Entry>, k: nat, g: Session) {
    exists i :: 0 <= i < k && i < |log| && log[i] == Took(g)
  }

  ghost predicate Present(tx: map<Name, Znode>, e: Entry)
    requires e.Created?
  {
    e.path in tx && tx[e.path].id == e.id && tx[e.path].owner == e.g
  }

  ghost predicate HistoryOk(log: seq<Entry>, tx: map<Name, Znode>, k: nat)
    requires k < |log|
  {
    && (log[k].Created? ==> TookBefore(log, k, log[k].g) && (Present(tx, log[k]) || GoneBy(log, k, |log|)))
    && (log[k].SawEmpty? ==> forall j {:trigger log[j]} :: 0 <= j < k && log[j].Created? ==> GoneBy(log, j, k))
    && (log[k].Removed? ==> SomeSetBefore(log, k, log[k].path))
    && (log[k].Removed? && OneAtATime(log) ==> SetBefore(log, k, log[k].path, log[k].id))
  }

  ghost predicate ScanOk(s: State, g: Session, c: Scan) {
    && (!c.Resting? ==> Took(g) in s.log)
    && (c.Deleting? ==> SomeSetBefore(s.log, |s.log|, c.path))
    && (c.Deleting? && OneAtATime(s.log) && g !in s.gone ==> c.path in s.tx && s.tx[c.path].mark == Commit)
  }

  ghost predicate Kept(s: State) {
    && (forall n :: n in s.tx ==> NodeOk(s.log, s.nextId, n, s.tx[n]))
    && (forall k {:trigger HistoryOk(s.log, s.tx, k)} :: 0 <= k < |s.log| ==> HistoryOk(s.log, s.tx, k))
    && (forall g :: g in s.scan ==> ScanOk(s, g, s.scan[g]))
    && (forall w :: w in s.watches && w.kind == TxWatcher ==> Took(w.g) in s.log)
    && (forall n :: n in s.notes && n.kind == TxWatcher ==> Took(n.g) in s.log)
    && (forall g :: g in s.phase && s.phase[g].Creating? ==> Took(g) in s.log)
    && (forall g :: Expired(g) in s.log ==> g in s.gone)
  }

  lemma PrefixOneAtATime(log: seq<Entry>, log': seq<Entry>)
    requires Extends(log, log') && OneAtATime(log')
    ensures OneAtATime(log)
  {
    forall a, b | 0 <= a < b < |log| && log[a].Took? && log[b].Took? && log[a].g != log[b].g
      ensures ExpiredBetween(log, a, b, log[a].g)
    {
      assert log'[a] == log[a] && log'[b] == log[b];
      var m :| a < m < b && log'[m] == Expired(log'[a].g);
      assert log[m] == log'[m];
    }
  }

  lemma HistoryGrows(log: seq<Entry>, log': seq<Entry>, tx: map<Name, Znode>, k: nat)
    requires Extends(log, log') && k < |log| && HistoryOk(log, tx, k)
    ensures HistoryOk(log', tx, k)
  {
    hide OneAtATime;
    if OneAtATime(log') { PrefixOneAtATime(log, log'); }
    assert forall j :: 0 <= j < |log| && log[j].Created? && GoneBy(log, j, |log|) ==> GoneBy(log', j, |log'|);
    assert forall j :: 0 <= j < |log| && log[j].Created? && GoneBy(log, j, k) ==> GoneBy(log', j, k);
  }

  /** Any entry may be added whose own history is in order. */
  lemma AddKept(s: State, e: Entry)
    requires Kept(s) && HistoryOk(s.log + [e], s.tx, |s.log|) && (e.Expired? ==> e.g in s.gone)
    ensures Kept(Add(s, e))
  {
    hide HistoryOk, GoneBy, OneAtATime;
    var s' := Add(s, e);
    forall k | 0 <= k < |s'.log|
      ensures HistoryOk(s'.log, s'.tx, k)
    {
      if k < |s.log| {
        HistoryGrows(s.log, s'.log, s.tx, k);
      }
    }
    assert Extends(s.log, s'.log);
    if OneAtATime(s'.log) { PrefixOneAtATime(s.log, s'.log); }
    forall n | n in s.tx
      ensures NodeOk(s'.log, s.nextId, n, s.tx[n])
    {
      assert NodeOk(s.log, s.nextId, n, s.tx[n]);
    }
    forall g | g in s.scan
      ensures ScanOk(s', g, s.scan[g])
    {
      assert ScanOk(s, g, s.scan[g]);
    }
  }

  lemma FireKept(s: State, path: Name, change: Change)
    requires Kept(s)
    ensures Kept(Fire(s, path, change))
  {
    hide HistoryOk, NodeOk;
    var s' := Fire(s, path, change);
    forall g | g in s.scan
      ensures ScanOk(s', g, s.scan[g])
    {
      assert ScanOk(s, g, s.scan[g]);
    }
  }

  /** The node `path` gets its mark, the log already saying so. */
  lemma MarkKept(s: State, path: Name)
    requires Kept(s) && path in s.tx && SetBefore(s.log, |s.log|, path, s.tx[path].id)
    ensures Kept(s.(tx := s.tx[path := s.tx[path].(mark := Commit)]))
  {
    hide GoneBy, SetBefore, SomeSetBefore, OneAtATime;
    var s' := s.(tx := s.tx[path := s.tx[path].(mark := Commit)]);
    assert NodeOk(s.log, s.nextId, path, s.tx[path]);
    forall k | 0 <= k < |s.log|
      ensures HistoryOk(s.log, s'.tx, k)
    {
      assert HistoryOk(s.log, s.tx, k);
    }
    forall g | g in s.scan
      ensures ScanOk(s', g, s.scan[g])
    {
      assert ScanOk(s, g, s.scan[g]);
    }
  }

  lemma SetKept(s: State, g: Session, path: Name)
    requires Kept(s)
    ensures Kept(SetCommit(s, g, path))
  {
    if path in s.tx {
      var z := s.tx[path];
      var e := Set(g, path, z.id);
      AddKept(s, e);
      var s1 := Add(s, e);
      assert s1.log[|s.log|] == e;
      MarkKept(s1, path);
      FireKept(s1.(tx := s.tx[path := z.(mark := Commit)]), path, NodeChanged);
    }
  }

  lemma NewNodeKept(s: State, g: Session, n: Name)
    requires Kept(s) && n !in s.tx && Took(g) in s.log
    ensures Kept(s.(tx := s.tx[n := Znode(Empty, g, s.nextId)], nextId := s.nextId + 1))
  {
    hide GoneBy, SetBefore, SomeSetBefore, OneAtATime;
    var s' := s.(tx := s.tx[n := Znode(Empty, g, s.nextId)], nextId := s.nextId + 1);
    forall m | m in s'.tx
      ensures NodeOk(s.log, s'.nextId, m, s'.tx[m])
    {
      assert m != n ==> NodeOk(s.log, s.nextId, m, s.tx[m]);
    }
    forall k | 0 <= k < |s.log|
      ensures HistoryOk(s.log, s'.tx, k)
    {
      assert HistoryOk(s.log, s.tx, k);
    }
    forall h | h in s.scan
      ensures ScanOk(s', h, s.scan[h])
    {
      assert ScanOk(s, h, s.scan[h]);
    }
  }

  lemma CreateNodeKept(s: State, g: Session, n: Name)
    requires Kept(s) && n !in s.tx && Took(g) in s.log
    ensures Kept(CreateNode(s, g, n)) && Took(g) in CreateNode(s, g, n).log
  {
    hide Kept;
    NewNodeKept(s, g, n);
    var s1 := s.(tx := s.tx[n := Znode(Empty, g, s.nextId)], nextId := s.nextId + 1);
    var e := Created(g, n, s.nextId);
    var i :| 0 <= i < |s.log| && s.log[i] == Took(g);
    assert (s.log + [e])[i] == Took(g);
    AddKept(s1, e);
    FireKept(Add(s1, e), n, NodeCreated);
  }

  /** Whoever watches a transaction node or creates some has taken the leader branch. */
  lemma OwnersTook(s: State)
    requires Kept(s)
    ensures forall w :: w in s.watches && w.kind == TxWatcher ==> Took(w.g) in s.log
    ensures forall n :: n in s.notes && n.kind == TxWatcher ==> Took(n.g) in s.log
    ensures forall g :: g in s.phase && s.phase[g].Creating? ==> Took(g) in s.log
  {
    hide NodeOk, HistoryOk, ScanOk;
  }

  lemma CreateKept(s: State, g: Session, ok: bool)
    requires Kept(s) && Enabled(s, Create(g, ok))
    ensures Kept(DoCreate(s, g, ok))
  {
    hide CreateNode, Kept;
    var n := s.Phase(g).todo[0];
    OwnersTook(s);
    var s1 := s;
    if n !in s.tx && ok {
      CreateNodeKept(s, g, n);
      CreateNodePhase(s, g, n);
      s1 := CreateNode(s, g, n);
    }
    WatchKept(s1, g, n);
    var s2 := s1.(watches := s1.watches + {Watch(g, TxWatcher, n)});
    ToKept(s1, g, Creating(s.Phase(g).todo[1..]));
    ToKept(s2, g, Creating(s.Phase(g).todo[1..]));
  }

  lemma WatchKept(s: State, g: Session, n: Name)
    requires Kept(s) && Took(g) in s.log
    ensures Kept(s.(watches := s.watches + {Watch(g, TxWatcher, n)}))
  {
    OwnersTook(s);
    hide Kept;
    OtherKept(s, s.(watches := s.watches + {Watch(g, TxWatcher, n)}));
  }

  lemma ToKept(s: State, g: Session, p: Phase)
    requires Kept(s) && Took(g) in s.log
    ensures Kept(To(s, g, p))
  {
    OwnersTook(s);
    hide Kept;
    OtherKept(s, To(s, g, p));
  }

  /** Nodes may vanish when the log accounts for each of them. */
  lemma DropKept(s: State, lost: set<Name>)
    requires Kept(s)
    requires forall k {:trigger HistoryOk(s.log, s.tx, k)} :: 0 <= k < |s.log| ==>
               (s.log[k].Created? && s.log[k].path in lost && Present(s.tx, s.log[k]) ==> GoneBy(s.log, k, |s.log|))
    requires forall g :: g in s.scan && s.scan[g].Deleting? && s.scan[g].path in lost ==>
               !OneAtATime(s.log) || g in s.gone
    ensures Kept(s.(tx := s.tx - lost))
  {
    hide GoneBy, SetBefore, SomeSetBefore, OneAtATime;
    var s' := s.(tx := s.tx - lost);
    forall k | 0 <= k < |s.log|
      ensures HistoryOk(s.log, s'.tx, k)
    {
      assert HistoryOk(s.log, s.tx, k);
    }
    forall g | g in s.scan
      ensures ScanOk(s', g, s.scan[g])
    {
      assert ScanOk(s, g, s.scan[g]);
    }
  }

  /** Of gateways that took the leader branch one after the other, only one still has its session. */
  lemma SameLeader(log: seq<Entry>, gone: set<Session>, g: Session, h: Session)
    requires OneAtATime(log) && Took(g) in log && Took(h) in log && g !in gone && h !in gone
    requires forall x :: Expired(x) in log ==> x in gone
    ensures g == h
  {
    var a :| 0 <= a < |log| && log[a] == Took(g);
    var b :| 0 <= b < |log| && log[b] == Took(h);
  }

  lemma RemoveKept(s: State, g: Session)
    requires Kept(s) && Enabled(s, Remove(g))
    ensures Kept(DoRemove(s, g))
  {
    hide Fire, NodeOk, HistoryOk;
    var c := s.Scan(g);
    assert ScanOk(s, g, c);
    var s1 := ScanTo(s, g, Scanning(c.todo));
    assert Kept(s1) by { ScanKept(s, g, Scanning(c.todo)); }
    if c.path in s.tx {
      var e := Removed(g, c.path, s.tx[c.path].id);
      RemovedEntry(s, g);
      AddKept(s1, e);
      var s2 := Add(s1, e);
      forall k | 0 <= k < |s2.log| && s2.log[k].Created? && s2.log[k].path in {c.path} && Present(s2.tx, s2.log[k])
        ensures GoneBy(s2.log, k, |s2.log|)
      {
        assert s2.log[|s.log|] == e;
      }
      forall h | h in s2.scan && s2.scan[h].Deleting?
        ensures !OneAtATime(s2.log) || h in s2.gone
      {
        assert ScanOk(s2, h, s2.scan[h]);
        if OneAtATime(s2.log) && h !in s2.gone {
          SameLeader(s2.log, s2.gone, g, h);
        }
      }
      DropKept(s2, {c.path});
      FireKept(s2.(tx := s2.tx - {c.path}), c.path, NodeDeleted);
      FireScan(s2.(tx := s2.tx - {c.path}), c.path, NodeDeleted, g, Scanning(c.todo));
      FireScan(Add(s.(tx := s.tx - {c.path}), e), c.path, NodeDeleted, g, Scanning(c.todo));
    }
  }

  /** Firing watches and moving on in a scan are independent. */
  lemma FireScan(s: State, path: Name, change: Change, g: Session, c: Scan)
    ensures ScanTo(Fire(s, path, change), g, c) == Fire(ScanTo(s, g, c), path, change)
  {
  }

  lemma ScanKept(s: State, g: Session, c: Scan)
    requires Kept(s) && ScanOk(s, g, c)
    ensures Kept(ScanTo(s, g, c))
  {
    hide HistoryOk, NodeOk;
    var s' := ScanTo(s, g, c);
    forall h | h in s'.scan
      ensures ScanOk(s', h, s'.scan[h])
    {
      assert h != g ==> ScanOk(s, h, s.scan[h]);
    }
  }

  lemma RemovedEntry(s: State, g: Session)
    requires Kept(s) && Enabled(s, Remove(g)) && s.Scan(g).path in s.tx
    ensures var p := s.Scan(g).path; HistoryOk(s.log + [Removed(g, p, s.tx[p].id)], s.tx, |s.log|)
  {
    var c := s.Scan(g);
    var log' := s.log + [Removed(g, c.path, s.tx[c.path].id)];
    assert ScanOk(s, g, c) && NodeOk(s.log, s.nextId, c.path, s.tx[c.path]);
    assert Extends(s.log, log');
    hide OneAtATime;
    if OneAtATime(log') { PrefixOneAtATime(s.log, log'); }
  }

  /** Nobody else is about to delete a node whose owner still has its session. */
  lemma LostScans(s: State, g: Session, lost: set<Name>)
    requires Kept(s) && g !in s.gone && forall n :: n in lost ==> n in s.tx && s.tx[n].owner == g
    ensures forall h :: h in s.scan && s.scan[h].Deleting? && s.scan[h].path in lost ==>
              !OneAtATime(s.log) || h in s.gone + {g}
  {
    hide NodeOk, HistoryOk;
    forall h | h in s.scan && s.scan[h].Deleting? && s.scan[h].path in lost
      ensures !OneAtATime(s.log) || h in s.gone + {g}
    {
      assert ScanOk(s, h, s.scan[h]);
      OwnerTook(s, s.scan[h].path);
      if OneAtATime(s.log) && h !in s.gone {
        SameLeader(s.log, s.gone, g, h);
      }
    }
  }

  lemma ExpireKept(s: State, g: Session)
    requires Kept(s) && g !in s.gone
    ensures Kept(EndSession(s, g))
  {
    hide NodeOk, HistoryOk, ScanOk, OneAtATime;
    var e := Expired(g);
    var lost := set n | n in s.tx && s.tx[n].owner == g;
    LostScans(s, g, lost);
    GoneKept(s, g);
    var s0 := s.(gone := s.gone + {g});
    Harmless(s.log, s.tx, e);
    AddKept(s0, e);
    var s1 := Add(s0, e);
    assert Extends(s.log, s1.log);
    if OneAtATime(s1.log) { PrefixOneAtATime(s.log, s1.log); }
    forall k | 0 <= k < |s1.log| && s1.log[k].Created? && s1.log[k].path in lost && Present(s1.tx, s1.log[k])
      ensures GoneBy(s1.log, k, |s1.log|)
    {
      assert s1.log[|s.log|] == e;
    }
    DropKept(s1, lost);
    OtherKept(s1.(tx := s1.tx - lost), EndSession(s, g));
  }

  lemma OwnerTook(s: State, n: Name)
    requires Kept(s) && n in s.tx
    ensures Took(s.tx[n].owner) in s.log
  {
    assert NodeOk(s.log, s.nextId, n, s.tx[n]);
  }

  lemma Harmless(log: seq<Entry>, tx: map<Name, Znode>, e: Entry)
    requires !e.Created? && !e.SawEmpty? && !e.Removed?
    ensures HistoryOk(log + [e], tx, |log|)
  {
  }

  lemma GoneKept(s: State, g: Session)
    requires Kept(s)
    ensures Kept(s.(gone := s.gone + {g}))
  {
    hide NodeOk, HistoryOk;
    var s' := s.(gone := s.gone + {g});
    forall h | h in s.scan
      ensures ScanOk(s', h, s.scan[h])
    {
      assert ScanOk(s, h, s.scan[h]);
    }
  }

  /** Changes to views, phases (with their log entry), watches of followers and notes do not matter. */
  lemma OtherKept(s: State, s': State)
    requires Kept(s) && s'.tx == s.tx && s'.log == s.log && s'.nextId == s.nextId
    requires s'.scan == s.scan && s'.gone == s.gone
    requires forall w :: w in s'.watches && w.kind == TxWatcher ==> Took(w.g) in s.log
    requires forall n :: n in s'.notes && n.kind == TxWatcher ==> Took(n.g) in s.log
    requires forall g :: g in s'.phase && s'.phase[g].Creating? ==> Took(g) in s.log
    ensures Kept(s')
  {
    hide NodeOk, HistoryOk;
    forall h | h in s.scan
      ensures ScanOk(s', h, s.scan[h])
    {
      assert ScanOk(s, h, s.scan[h]);
    }
  }

  lemma NoticeKept(s: State, g: Session, kind: Kind, change: Change)
    requires Kept(s) && Enabled(s, Notice(g, kind, change))
    ensures Kept(DoNotice(s, g, kind, change))
  {
    hide NodeOk, HistoryOk, ScanOk;
    var s1 := s.(notes := s.notes - multiset{Note(g, kind, change)});
    OtherKept(s, s1);
    if change == NodeChanged {
      if kind == LeaderWatcher {
        Harmless(s.log, s.tx, Acked(g));
        AddKept(s1, Acked(g));
        SetKept(Add(s1, Acked(g)), g, g.gateway);
      } else if s1.tx == map[] {
        EmptyEntry(s1, g);
        AddKept(s1, SawEmpty(g));
      } else {
        ScanStarts(s1, g);
        ScanKept(s1, g, Scanning(s1.tx.Keys));
      }
    }
  }

  lemma ScanStarts(s: State, g: Session)
    requires Took(g) in s.log
    ensures ScanOk(s, g, Scanning(s.tx.Keys))
  {
  }

  lemma EmptyEntry(s: State, g: Session)
    requires Kept(s) && s.tx == map[]
    ensures HistoryOk(s.log + [SawEmpty(g)], s.tx, |s.log|)
  {
    var log' := s.log + [SawEmpty(g)];
    assert Extends(s.log, log');
    forall j | 0 <= j < |s.log| && log'[j].Created?
      ensures GoneBy(log', j, |s.log|)
    {
      assert HistoryOk(s.log, s.tx, j);
      assert GoneBy(s.log, j, |s.log|);
    }
  }

  lemma LookKept(s: State, g: Session, path: Name)
    requires Kept(s) && Enabled(s, Look(g, path))
    ensures Kept(DoLook(s, g, path))
  {
    hide HistoryOk;
    assert ScanOk(s, g, s.Scan(g));
    if path in s.tx {
      assert NodeOk(s.log, s.nextId, path, s.tx[path]);
    }
    ScanKept(s, g, DoLook(s, g, path).scan[g]);
  }

  lemma BeginKept(s: State, g: Session, children: seq<Name>)
    requires Kept(s) && Enabled(s, Begin(g, children))
    ensures Kept(DoBegin(s, g, children))
  {
    hide NodeOk, HistoryOk, ScanOk;
    if s.Leads(g) {
      Harmless(s.log, s.tx, Took(g));
      AddKept(s, Took(g));
      OtherKept(Add(s, Took(g)), DoBegin(s, g, children));
    } else {
      OtherKept(s, DoBegin(s, g, children));
    }
  }

  lemma CompleteKept(s: State, g: Session, i: nat)
    requires Kept(s) && Enabled(s, Complete(g, i))
    ensures Kept(DoComplete(s, g, i))
  {
    hide NodeOk, HistoryOk, ScanOk;
    var e := if s.Phase(g).writing then Appended(g, i) else Fetched(g, i);
    Harmless(s.log, s.tx, e);
    AddKept(s, e);
    OtherKept(Add(s, e), DoComplete(s, g, i));
  }

  lemma CommitKept(s: State, g: Session)
    requires Kept(s) && Enabled(s, CommitOwn(g))
    ensures Kept(DoCommit(s, g))
  {
    hide NodeOk, HistoryOk, ScanOk;
    var e := Done(g, s.Phase(g).total);
    Harmless(s.log, s.tx, e);
    AddKept(s, e);
    var s1 := Add(s, e);
    if s.View(g).Some? {
      SetKept(s1, g, s.leader[g]);
      s1 := SetCommit(s1, g, s.leader[g]);
    }
    OtherKept(s1, DoCommit(s, g));
  }

  lemma PhaseKept(s: State, e: Event)
    requires Kept(s) && Enabled(s, e) && (e.See? || e.Start? || e.NextBatch?)
    ensures Kept(Apply(s, e))
  {
    hide HistoryOk, NodeOk, ScanOk;
    OtherKept(s, Apply(s, e));
  }

  lemma EndScanKept(s: State, g: Session)
    requires Kept(s)
    ensures Kept(ScanTo(s, g, Resting))
  {
    ScanKept(s, g, Resting);
  }

  lemma StepKept(s: State, e: Event)
    requires Kept(s) && Enabled(s, e)
    ensures Kept(Apply(s, e))
  {
    hide Kept;
    match e
    case Create(g, ok) => CreateKept(s, g, ok);
    case CommitOwn(g) => CommitKept(s, g);
    case Notice(g, kind, change) => NoticeKept(s, g, kind, change);
    case Look(g, path) => LookKept(s, g, path);
    case Remove(g) => RemoveKept(s, g);
    case EndScan(g) => EndScanKept(s, g);
    case Expire(g) => ExpireKept(s, g);
    case Begin(g, children) => BeginKept(s, g, children);
    case Complete(g, i) => CompleteKept(s, g, i);
    case _ => PhaseKept(s, e);
  }

  // ----- every run -----

  lemma {:induction false} RunsThen(s: State, es: seq<Event>, t: State, e: Event)
    requires Runs(s, es, t) && Enabled(t, e)
    ensures Runs(s, es + [e], Apply(t, e))
    decreases |es|
  {
    hide Enabled, Apply;
    if es == [] {
      assert Runs(Apply(s, e), [], Apply(s, e));
      assert [e][1..] == [];
    } else {
      RunsThen(Apply(s, es[0]), es[1..], t, e);
      assert (es + [e])[1..] == es[1..] + [e];
    }
  }

  /** Nothing changes in sessions and views, and nobody enters the leader branch. */
  ghost predicate Quiet(s: State, t: State) {
    && Extends(s.log, t.log) && t.gone == s.gone && t.leader == s.leader
    && forall k :: |s.log| <= k < |t.log| ==> !t.log[k].Took?
  }

  lemma ServiceQuiet(s: State, g: Session, path: Name)
    ensures Quiet(s, SetCommit(s, g, path)) && Quiet(s, CreateNode(s, g, path)) && Quiet(s, DeleteNode(s, g, path))
  {
  }

  lemma SameQuiet(s: State, t: State)
    requires t.log == s.log && t.gone == s.gone && t.leader == s.leader
    ensures Quiet(s, t)
  {
  }

  lemma AddQuiet(s: State, t: State, e: Entry)
    requires t.log == s.log + [e] && t.gone == s.gone && t.leader == s.leader && !e.Took?
    ensures Quiet(s, t)
  {
  }

  /** Only a gateway that takes itself for the leader enters the leader branch. */
  lemma QuietStep(s: State, e: Event)
    requires Enabled(s, e) && !e.See? && !e.Expire? && !(e.Begin? && s.Leads(e.g))
    ensures Quiet(s, Apply(s, e))
  {
    hide Quiet, SetCommit, CreateNode, DeleteNode, Window;
    var t := Apply(s, e);
    match e
    case Create(g, ok) => QuietCreate(s, g, ok);
    case CommitOwn(g) => QuietCommit(s, g);
    case Notice(g, kind, change) => QuietNotice(s, g, kind, change);
    case Remove(g) =>
      ServiceQuiet(s, g, s.Scan(g).path);
      SameQuiet(DeleteNode(s, g, s.Scan(g).path), t);
      QuietThen(s, DeleteNode(s, g, s.Scan(g).path), t);
    case Complete(g, i) => AddQuiet(s, t, if s.Phase(g).writing then Appended(g, i) else Fetched(g, i));
    case _ => SameQuiet(s, t);
  }

  lemma SeeStays(s: State, g: Session, name: Option<Name>)
    requires g !in s.gone
    ensures var t := Apply(s, See(g, name)); t == s.(leader := t.leader) && t.View(g) == name
    ensures forall h :: h != g ==> Apply(s, See(g, name)).View(h) == s.View(h)
  {
  }

  lemma ExpireEnds(s: State, g: Session)
    requires g !in s.gone
    ensures var t := Apply(s, Expire(g));
            t.log == s.log + [Expired(g)] && t.gone == s.gone + {g} && t.leader == s.leader && t.phase == s.phase
  {
  }

  /** Sessions end only by expiring, and only who acts gets into a phase. */
  lemma ActStays(s: State, e: Event)
    requires Enabled(s, e) && !e.See? && !e.Expire?
    ensures Apply(s, e).gone == s.gone && Apply(s, e).phase.Keys <= s.phase.Keys + {e.g}
  {
    hide SetCommit, CreateNode, DeleteNode, Window;
    match e
    case Create(g, ok) => ServiceStays(s, g, s.Phase(g).todo[0]);
    case CommitOwn(g) => CommitStays(s, g);
    case Notice(g, kind, change) => NoticeStays(s, g, kind, change);
    case Remove(g) => ServiceStays(s, g, s.Scan(g).path);
    case _ =>
  }

  lemma CommitStays(s: State, g: Session)
    requires s.Phase(g).Working?
    ensures DoCommit(s, g).gone == s.gone && DoCommit(s, g).phase.Keys <= s.phase.Keys + {g}
  {
    hide SetCommit;
    if s.View(g).Some? {
      ServiceStays(Add(s, Done(g, s.Phase(g).total)), g, s.leader[g]);
    }
  }

  lemma NoticeStays(s: State, g: Session, kind: Kind, change: Change)
    ensures DoNotice(s, g, kind, change).gone == s.gone && DoNotice(s, g, kind, change).phase == s.phase
  {
    hide SetCommit;
    ServiceStays(Add(s.(notes := s.notes - multiset{Note(g, kind, change)}), Acked(g)), g, g.gateway);
  }

  lemma ServiceStays(s: State, g: Session, path: Name)
    ensures SetCommit(s, g, path).gone == s.gone && SetCommit(s, g, path).phase == s.phase
    ensures CreateNode(s, g, path).gone == s.gone && CreateNode(s, g, path).phase == s.phase
    ensures DeleteNode(s, g, path).gone == s.gone && DeleteNode(s, g, path).phase == s.phase
  {
  }

  lemma QuietCreate(s: State, g: Session, ok: bool)
    requires Enabled(s, Create(g, ok))
    ensures Quiet(s, DoCreate(s, g, ok))
  {
    hide Quiet, CreateNode;
    var n, t := s.Phase(g).todo[0], DoCreate(s, g, ok);
    if n !in s.tx && ok {
      ServiceQuiet(s, g, n);
      SameQuiet(CreateNode(s, g, n), t);
      QuietThen(s, CreateNode(s, g, n), t);
    } else {
      SameQuiet(s, t);
    }
  }

  lemma QuietCommit(s: State, g: Session)
    requires Enabled(s, CommitOwn(g))
    ensures Quiet(s, DoCommit(s, g))
  {
    hide Quiet, SetCommit;
    var e, t := Done(g, s.Phase(g).total), DoCommit(s, g);
    var s1 := Add(s, e);
    if s.View(g).Some? {
      var s2 := SetCommit(s1, g, s.leader[g]);
      AddQuiet(s, s1, e);
      ServiceQuiet(s1, g, s.leader[g]);
      QuietThen(s, s1, s2);
      SameQuiet(s2, t);
      QuietThen(s, s2, t);
    } else {
      AddQuiet(s, t, e);
    }
  }

  lemma QuietNotice(s: State, g: Session, kind: Kind, change: Change)
    ensures Quiet(s, DoNotice(s, g, kind, change))
  {
    hide Quiet, SetCommit;
    var s1, t := s.(notes := s.notes - multiset{Note(g, kind, change)}), DoNotice(s, g, kind, change);
    if change == NodeChanged && kind == LeaderWatcher {
      AddQuiet(s, Add(s1, Acked(g)), Acked(g));
      ServiceQuiet(Add(s1, Acked(g)), g, g.gateway);
      QuietThen(s, Add(s1, Acked(g)), t);
    } else if change == NodeChanged && s1.tx == map[] {
      AddQuiet(s, t, SawEmpty(g));
    } else {
      SameQuiet(s, t);
    }
  }

  lemma QuietThen(s: State, t: State, u: State)
    requires Quiet(s, t) && Quiet(t, u)
    ensures Quiet(s, u)
  {
  }

  lemma {:induction false} RunKeeps(s: State, es: seq<Event>, t: State)
    requires Runs(s, es, t) && ProvenState(s) && Kept(s)
    ensures ProvenState(t) && Kept(t)
    decreases |es|
  {
    hide ProvenState, Kept;
    if es == [] {
    } else {
      StepProven(s, es[0]);
      StepKept(s, es[0]);
      RunKeeps(Apply(s, es[0]), es[1..], t);
    }
  }

  /**
    Whoever marks a node as committed, and whatever the gateways believe about the leader: before
    that, some gateway took the leader branch, wrote every one of its requests, and then committed.
    */
  lemma CommitsAreJustified(es: seq<Event>, t: State, k: nat)
    requires Runs(START, es, t) && k < |t.log| && (t.log[k].Set? || t.log[k].Acked?)
    ensures exists i, j :: 0 <= i < j < k && t.log[j].Done? && WroteAll(t.log, i, j, t.log[j].g, t.log[j].total)
  {
    RunKeeps(START, es, t);
    assert EntryOk(t.log, k);
    var j :| 0 <= j < k && t.log[j].Done?;
    assert EntryOk(t.log, j);
    var i :| WroteAll(t.log, i, j, t.log[j].g, t.log[j].total);
  }

  /** In every round a request is read once and then written once. */
  lemma EachRequestOnce(es: seq<Event>, t: State, k: nat)
    requires Runs(START, es, t) && k < |t.log| && (t.log[k].Fetched? || t.log[k].Appended?)
    ensures exists i :: OnceInRound(t.log, i, k)
  {
    RunKeeps(START, es, t);
    assert EntryOk(t.log, k);
  }

  /** A finished round has read all its requests, then gone over to writing, and written them all. */
  lemma DoneMeansAll(es: seq<Event>, t: State, k: nat)
    requires Runs(START, es, t) && k < |t.log| && t.log[k].Done?
    ensures exists i, h :: ReadThenWrote(t.log, i, h, k, t.log[k].g, t.log[k].total)
  {
    RunKeeps(START, es, t);
    assert EntryOk(t.log, k);
    var i :| WroteAll(t.log, i, k, t.log[k].g, t.log[k].total);
  }

  /** Nobody who had taken the leader branch lost the session before entry `k`. */
  ghost predicate NoLeaderLost(log: seq<Entry>, k: nat) {
    forall m :: 0 <= m < k && m < |log| && log[m].Expired? ==> !TookBefore(log, m, log[m].g)
  }

  /**
    While no leader has lost its session and leaders follow one another, a node is marked only after
    its own creator has written every one of its requests.
    */
  lemma MarkedAfterWriting(es: seq<Event>, t: State, j: nat, k: nat)
    requires Runs(START, es, t) && j < k < |t.log| && t.log[j].Created? && t.log[k].Set?
    requires OneAtATime(t.log) && NoLeaderLost(t.log, k)
    ensures exists i, d :: 0 <= i < d < k && t.log[d].Done? && WroteAll(t.log, i, d, t.log[j].g, t.log[d].total)
  {
    RunKeeps(START, es, t);
    assert HistoryOk(t.log, t.tx, j) && EntryOk(t.log, k);
    var d :| 0 <= d < k && t.log[d].Done?;
    assert EntryOk(t.log, d);
    hide Runs, ProvenState, Kept, ReadIn, WroteIn, HistoryOk, EntryOk;
    var i :| WroteAll(t.log, i, d, t.log[d].g, t.log[d].total);
    assert TookBefore(t.log, j, t.log[j].g);
    var a :| 0 <= a < j && t.log[a] == Took(t.log[j].g);
    SoleLeader(t.log, k, a, i);
  }

  /** Before the first leader loses its session there is only that one. */
  lemma SoleLeader(log: seq<Entry>, k: nat, a: nat, b: nat)
    requires OneAtATime(log) && NoLeaderLost(log, k) && a < k <= |log| && b < k && log[a].Took? && log[b].Took?
    ensures log[a].g == log[b].g
  {
  }

  /** A node that carries the mark got it in an entry of the log. */
  lemma MarkedNodes(es: seq<Event>, t: State, n: Name)
    requires Runs(START, es, t) && n in t.tx
    ensures t.tx[n].mark != Abort
    ensures t.tx[n].mark == Commit ==> SetBefore(t.log, |t.log|, n, t.tx[n].id)
  {
    RunKeeps(START, es, t);
    assert NodeOk(t.log, t.nextId, n, t.tx[n]);
  }

  /** Two live sessions that have both taken the leader branch: leaders do not follow one another. */
  lemma TwoLeaders(es: seq<Event>, t: State, g: Session, h: Session)
    requires Runs(START, es, t) && g != h && g !in t.gone && h !in t.gone && Took(g) in t.log && Took(h) in t.log
    ensures !OneAtATime(t.log)
  {
    RunKeeps(START, es, t);
    if OneAtATime(t.log) {
      SameLeader(t.log, t.gone, g, h);
    }
  }

  lemma BusyTook(es: seq<Event>, t: State, g: Session)
    requires Runs(START, es, t) && !t.Phase(g).Idle?
    ensures Took(g) in t.log
  {
    RunKeeps(START, es, t);
    hide Runs, Kept, ProvenState, PhaseOk;
    InPhase(t, g);
    PhaseTook(t.log, g, t.Phase(g));
  }

  lemma PhaseTook(log: seq<Entry>, g: Session, p: Phase)
    requires PhaseOk(log, g, p) && !p.Idle?
    ensures Took(g) in log
  {
    if p.Working? {
      var i: nat, h: nat :| Sound(log, g, i, h, p);
      assert log[i] in log;
    } else {
      var i: nat :| JustTook(log, g, i);
      assert log[i] in log;
    }
  }

  /** Every node a scan has removed had been marked, when leaders follow one another. */
  lemma RemovedWereMarked(es: seq<Event>, t: State, k: nat)
    requires Runs(START, es, t) && k < |t.log| && t.log[k].Removed?
    ensures SomeSetBefore(t.log, k, t.log[k].path)
    ensures OneAtATime(t.log) ==> SetBefore(t.log, k, t.log[k].path, t.log[k].id)
  {
    RunKeeps(START, es, t);
    assert HistoryOk(t.log, t.tx, k);
  }

  /**
    When a leader sees no transaction nodes, each one created before and not lost with its creator's
    session had been marked as committed - under that name whatever the gateways believe, and that
    very node when leaders follow one another.
    */
  lemma EmptyMeansCommitted(es: seq<Event>, t: State, j: nat, k: nat)
    requires Runs(START, es, t) && j < k < |t.log| && t.log[j].Created? && t.log[k].SawEmpty?
    requires forall m :: j < m < k ==> t.log[m] != Expired(t.log[j].g)
    ensures SomeSetBefore(t.log, k, t.log[j].path)
    ensures OneAtATime(t.log) ==> SetBefore(t.log, k, t.log[j].path, t.log[j].id)
  {
    RunKeeps(START, es, t);
    assert HistoryOk(t.log, t.tx, k);
    assert GoneBy(t.log, j, k);
    var m :| j < m < k && m < |t.log| &&
      t.log[m].Removed? && t.log[m].path == t.log[j].path && t.log[m].id == t.log[j].id;
    assert HistoryOk(t.log, t.tx, m);
  }

  lemma {:induction false} CardBound(open: set<nat>, start: nat, end: nat)
    requires start <= end && forall x :: x in open ==> start <= x < end
    ensures |open| <= end - start
    decreases end - start
  {
    if start < end {
      var rest := open - {end - 1};
      CardBound(rest, start, end - 1);
      assert |open| <= |rest| + 1;
    } else {
      assert open == {};
    }
  }

  /** Never more than `MAX_CONCURRENCY` requests of one gateway are in flight, all of one window. */
  lemma BatchesAreBounded(es: seq<Event>, t: State, g: Session)
    requires Runs(START, es, t) && t.Phase(g).Working?
    ensures var w := t.Phase(g);
            && |w.open| <= MAX_CONCURRENCY && w.start <= w.end <= w.total
            && (forall x :: x in w.open ==> w.start <= x < w.end)
  {
    RunKeeps(START, es, t);
    assert PhaseOk(t.log, g, t.Phase(g));
    CardBound(t.Phase(g).open, t.Phase(g).start, t.Phase(g).end);
  }
}
