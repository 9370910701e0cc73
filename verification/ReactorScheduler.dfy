/**
  Reactors, one per core, each with a ring of lightweight threads.  New and migrating threads are put
  on the next reactor in turn whose core the thread accepts.
  */
module ReactorScheduler {
  import opened Collections

  type Thread = nat

  /** How many threads a ring holds. */
  const RING_CAPACITY := 1024

  // ----- where the threads are -----

  function Total(rings: seq<seq<Thread>>): multiset<Thread> {
    if rings == [] then multiset{} else Total(rings[..|rings| - 1]) + multiset(rings[|rings| - 1])
  }

  function InHand(o: Option<Thread>): seq<Thread> {
    if o.Some? then [o.value] else []
  }

  function Hands(held: seq<Option<Thread>>): seq<seq<Thread>> {
    seq(|held|, i requires 0 <= i < |held| => InHand(held[i]))
  }

  lemma {:induction false} TotalUpdate(rings: seq<seq<Thread>>, r: nat, ring: seq<Thread>)
    requires r < |rings|
    ensures multiset(rings[r]) <= Total(rings)
    ensures Total(rings[r := ring]) == Total(rings) - multiset(rings[r]) + multiset(ring)
  {
    var n := |rings| - 1;
    if r < n {
      TotalUpdate(rings[..n], r, ring);
      assert rings[r := ring][..n] == rings[..n][r := ring];
      Exchange(Total(rings[..n]), multiset(rings[r]), multiset(ring), multiset(rings[n]));
    } else {
      assert rings[r := ring][..n] == rings[..n];
    }
  }

  lemma Exchange(a: multiset<Thread>, b: multiset<Thread>, c: multiset<Thread>, d: multiset<Thread>)
    requires b <= a
    ensures b <= a + d && a - b + c + d == a + d - b + c
  {
  }

  lemma HandsUpdate(held: seq<Option<Thread>>, r: nat, o: Option<Thread>)
    requires r < |held|
    ensures Hands(held[r := o]) == Hands(held)[r := InHand(o)]
  {
  }

  lemma {:induction false} TotalEmpty(rings: seq<seq<Thread>>)
    requires forall r :: 0 <= r < |rings| ==> rings[r] == []
    ensures Total(rings) == multiset{}
  {
    if rings == [] {
    } else {
      TotalEmpty(rings[..|rings| - 1]);
    }
  }

  lemma RingGrows(rings: seq<seq<Thread>>, r: nat, t: Thread)
    requires r < |rings|
    ensures Total(rings[r := rings[r] + [t]]) == Total(rings) + multiset{t}
  {
    TotalUpdate(rings, r, rings[r] + [t]);
  }

  lemma RingShrinks(rings: seq<seq<Thread>>, r: nat)
    requires r < |rings| && rings[r] != []
    ensures Total(rings[r := rings[r][1..]]) + multiset{rings[r][0]} == Total(rings)
  {
    TotalUpdate(rings, r, rings[r][1..]);
    assert rings[r] == [rings[r][0]] + rings[r][1..];
  }

  lemma Plus(s: set<Thread>, t: Thread)
    requires t !in s
    ensures multiset(s) + multiset{t} == multiset(s + {t})
  {
  }

  lemma Fewer(live: set<Thread>, lost: set<Thread>, t: Thread)
    requires t in live
    ensures |live - lost - {t}| < |live|
  {
    Subset(live - lost - {t}, live - {t});
  }

  lemma {:induction false} Subset(a: set<Thread>, b: set<Thread>)
    requires a <= b
    ensures |a| <= |b|
    decreases b
  {
    if a == {} {
    } else {
      var x :| x in a;
      Subset(a - {x}, b - {x});
    }
  }

  lemma {:induction false} Submultiset(a: multiset<Thread>, b: multiset<Thread>)
    requires a <= b
    ensures |a| <= |b|
  {
    assert b == a + (b - a);
  }

  /** No ring is longer than the number of threads there are. */
  lemma RingBound(rings: seq<seq<Thread>>, others: multiset<Thread>, s: set<Thread>, r: nat)
    requires r < |rings| && Total(rings) + others == multiset(s)
    ensures |rings[r]| <= |s|
  {
    TotalUpdate(rings, r, []);
    Submultiset(multiset(rings[r]), multiset(s));
  }

  lemma HandTaken(held: seq<Option<Thread>>, r: nat, t: Thread)
    requires r < |held| && held[r].None?
    ensures Total(Hands(held[r := Some(t)])) == Total(Hands(held)) + multiset{t}
  {
    HandsUpdate(held, r, Some(t));
    TotalUpdate(Hands(held), r, [t]);
  }

  lemma HandFreed(held: seq<Option<Thread>>, r: nat)
    requires r < |held| && held[r].Some?
    ensures Total(Hands(held[r := None])) + multiset{held[r].value} == Total(Hands(held))
  {
    HandsUpdate(held, r, None);
    TotalUpdate(Hands(held), r, []);
  }

  lemma Moves(a: multiset<Thread>, a': multiset<Thread>, b: multiset<Thread>, t: Thread)
    requires a' + multiset{t} == a
    ensures a' + (b + multiset{t}) == a + b
  {
  }

  /** A thread that goes from the ring into the hand is placed as before. */
  lemma Taken(rings: seq<seq<Thread>>, held: seq<Option<Thread>>, r: nat)
    requires r < |rings| == |held| && rings[r] != [] && held[r].None?
    ensures Total(rings[r := rings[r][1..]]) + Total(Hands(held[r := Some(rings[r][0])]))
         == Total(rings) + Total(Hands(held))
  {
    hide Total, Hands;
    RingShrinks(rings, r);
    HandTaken(held, r, rings[r][0]);
    Moves(Total(rings), Total(rings[r := rings[r][1..]]), Total(Hands(held)), rings[r][0]);
  }

  lemma One(s: set<Thread>, t: Thread, rest: multiset<Thread>)
    requires t in s && rest + multiset{t} == multiset(s)
    ensures rest == multiset(s - {t})
  {
    assert rest == multiset(s) - multiset{t};
  }

  // ----- the round robin -----

  /** The reactor visited in round `k` of a search that starts at `next`; past the end it wraps around. */
  function Visited(next: nat, k: nat, n: nat): (r: nat)
    requires next <= n && k < n
    ensures r < n
  {
    var start := if next == n then 0 else next;
    if start + k < n then start + k else start + k - n
  }

  /** The `n` rounds of a search visit every reactor once. */
  lemma VisitsEachOnce(next: nat, n: nat, r: nat) returns (k: nat)
    requires next <= n && r < n
    ensures k < n && Visited(next, k, n) == r
    ensures forall l :: 0 <= l < n && Visited(next, l, n) == r ==> l == k
  {
    k := Round(next, r, n);
  }

  /** In which round of a search from `next` reactor `r` is visited. */
  function Round(next: nat, r: nat, n: nat): (k: nat)
    requires next <= n && r < n
    ensures k < n && Visited(next, k, n) == r
  {
    var start := if next == n then 0 else next;
    if r >= start then r - start else r - start + n
  }

  lemma RoundBounds(next: nat, n: nat)
    requires next <= n
    ensures forall r :: 0 <= r < n ==> 0 <= Round(next, r, n) < n
    ensures n > 0 ==> Visited(next, 0, n) == if next == n then 0 else next
  {
  }

  /** The reactor of round `part`, and whose turn it is after that one. */
  lemma InTurn(start: nat, part: nat, n: nat)
    requires start <= n && part < n
    ensures forall r :: 0 <= r < n ==> (Round(start, r, n) == part <==> r == Visited(start, part, n))
    ensures Visited(Visited(start, part, n) + 1, 0, n) == Visited(start, if part + 1 == n then 0 else part + 1, n)
  {
  }

  class Reactors {
    const cores: seq<nat>
    var next: nat
    var rings: seq<seq<Thread>>
    var held: seq<Option<Thread>>
    var mask: map<Thread, set<nat>>
    ghost var live: set<Thread>
    /** Threads that could not be put on any ring. */
    ghost var lost: set<Thread>

    ghost predicate Shape()
      reads this
    {
      && cores != [] && Distinct(cores) && |rings| == |held| == |cores| && next <= |cores|
      && live <= mask.Keys && lost <= live
    }

    ghost function Placed(): multiset<Thread>
      reads this
    {
      Total(rings) + Total(Hands(held))
    }

    /** Every live thread that is not lost is in exactly one ring or with exactly one reactor. */
    ghost predicate Valid()
      reads this
    {
      Shape() && Placed() == multiset(live - lost)
    }

    constructor (cores: seq<nat>)
      requires cores != [] && Distinct(cores)
      ensures Valid() && this.cores == cores && live == {} && lost == {} && mask == map[] && next == 0
      ensures |rings| == |cores| && forall r :: 0 <= r < |rings| ==> rings[r] == []
    {
      this.cores := cores;
      next, rings, held := 0, seq(|cores|, _ => []), seq(|cores|, _ => None);
      mask, live, lost := map[], {}, {};
      new;
      TotalEmpty(rings);
      TotalEmpty(Hands(held));
    }

    ghost predicate Accepts(t: Thread, r: nat)
      reads `mask
      requires t in mask && r < |cores|
    {
      cores[r] in mask[t]
    }

    ghost predicate Satisfiable(t: Thread)
      reads `mask
      requires t in mask
    {
      exists r :: 0 <= r < |cores| && Accepts(t, r)
    }

    /** `r` is the first reactor in turn that the thread accepts, found in round `k`. */
    ghost predicate FirstInTurn(t: Thread, from: nat, k: nat, r: nat)
      reads `mask
      requires t in mask
    {
      && from <= |cores| && k < |cores| && r == Visited(from, k, |cores|) && Accepts(t, r)
      && forall l :: 0 <= l < k ==> !Accepts(t, Visited(from, l, |cores|))
    }

    /**
      `nvmf_schedule_spdk_thread`: succeeds exactly when some reactor's core is acceptable, and then
      takes the first in turn.  A full ring does not take the thread, and the caller is not told.
      */
    method Schedule(t: Thread) returns (ok: bool, ghost k: nat, r: nat)
      requires Shape() && t in mask
      modifies `next, `rings
      ensures Shape() && r < |cores|
      ensures ok <==> Satisfiable(t)
      ensures ok ==> FirstInTurn(t, old(next), k, r) && next == r + 1
      ensures rings == if ok && |old(rings)[r]| < RING_CAPACITY then old(rings)[r := old(rings)[r] + [t]]
                       else old(rings)
    {
      var i := 0;
      r, k := 0, 0;
      while i < |cores|
        invariant i <= |cores| && r < |cores| && next <= |cores| && rings == old(rings)
        invariant i == 0 ==> next == old(next)
        invariant i > 0 ==> next == Visited(old(next), i - 1, |cores|) + 1
        invariant forall l :: 0 <= l < i ==> !Accepts(t, Visited(old(next), l, |cores|))
      {
        if next == |cores| {
          next := 0;
        }
        r := next;
        next := next + 1;
        assert r == Visited(old(next), i, |cores|);
        if cores[r] in mask[t] {
          assert Accepts(t, r);
          if |rings[r]| < RING_CAPACITY {
            rings := rings[r := rings[r] + [t]];
          }
          k := i;
          return true, k, r;
        }
        i := i + 1;
      }
      forall q | 0 <= q < |cores|
        ensures !Accepts(t, q)
      {
        var l := VisitsEachOnce(old(next), |cores|, q);
      }
      ok := false;
    }

    /** The rings after an enqueue on ring `r`, which a full ring ignores. */
    static function Enqueued(rings: seq<seq<Thread>>, r: nat, t: Thread): seq<seq<Thread>>
      requires r < |rings|
    {
      if |rings[r]| < RING_CAPACITY then rings[r := rings[r] + [t]] else rings
    }

    /**
      Puts a live thread that is nowhere back on a ring.  It is lost exactly when no reactor is
      acceptable or the ring of the first in turn is full.
      */
    method Place(t: Thread) returns (ok: bool, ghost k: nat, r: nat)
      requires Shape() && t in live && t !in lost && Placed() == multiset(live - lost - {t})
      modifies `next, `rings, `lost
      ensures Valid() && (ok <==> Satisfiable(t)) && r < |old(rings)| && (ok ==> FirstInTurn(t, old(next), k, r))
      ensures rings == if ok then Enqueued(old(rings), r, t) else old(rings)
      ensures lost == if !ok || |old(rings)[r]| >= RING_CAPACITY then old(lost) + {t} else old(lost)
      ensures |live| <= RING_CAPACITY ==> (t in lost <==> !ok)
    {
      hide Total;
      ok, k, r := Schedule(t);
      RingBound(old(rings), Total(Hands(held)), live - lost - {t}, r);
      Fewer(live, lost, t);
      if !ok || |old(rings)[r]| >= RING_CAPACITY {
        lost := lost + {t};
        assert live - lost == live - old(lost) - {t};
      } else {
        RingGrows(old(rings), r, t);
        Plus(live - lost - {t}, t);
        assert live - lost - {t} + {t} == live - lost;
      }
    }

    /** A new thread, with the cores it accepts. */
    method NewThread(t: Thread, cpus: set<nat>) returns (ok: bool, ghost k: nat, r: nat)
      requires Valid() && t !in live
      modifies `next, `rings, `lost, `mask, `live
      ensures Valid() && live == old(live) + {t} && mask == old(mask)[t := cpus]
      ensures ok <==> LeavesACore(cores, cpus)
      ensures r < |old(rings)| && (ok ==> FirstInTurn(t, old(next), k, r))
      ensures rings == if ok then Enqueued(old(rings), r, t) else old(rings)
      ensures lost == if !ok || |old(rings)[r]| >= RING_CAPACITY then old(lost) + {t} else old(lost)
      ensures |live| <= RING_CAPACITY ==> (t in lost <==> !ok)
    {
      mask := mask[t := cpus];
      live := live + {t};
      assert live - lost - {t} == old(live) - lost;
      ok, k, r := Place(t);
      assert forall q :: 0 <= q < |cores| ==> (Accepts(t, q) <==> cores[q] in cpus);
    }

    /** A reactor takes the oldest thread of its ring in hand. */
    method Dequeue(r: nat)
      requires Valid() && r < |cores| && held[r].None?
      modifies `rings, `held
      ensures Valid()
      ensures old(rings)[r] == [] ==> rings == old(rings) && held == old(held)
      ensures old(rings)[r] != [] ==>
                rings == old(rings)[r := old(rings)[r][1..]] && held == old(held)[r := Some(old(rings)[r][0])]
    {
      hide Total, Hands, Distinct;
      if rings[r] != [] {
        TakeFirst(r);
      }
    }

    method TakeFirst(r: nat)
      requires Valid() && r < |cores| && held[r].None? && rings[r] != []
      modifies `rings, `held
      ensures Valid()
      ensures rings == old(rings)[r := old(rings)[r][1..]] && held == old(held)[r := Some(old(rings)[r][0])]
    {
      hide Total, Hands, Distinct;
      var t := rings[r][0];
      Taken(rings, held, r);
      rings := rings[r := rings[r][1..]];
      held := held[r := Some(t)];
    }

    /** While it runs, a thread may change the cores it accepts. */
    method SetCpumask(r: nat, cpus: set<nat>)
      requires Valid() && r < |cores| && held[r].Some?
      modifies `mask
      ensures Valid() && mask == old(mask)[held[r].value := cpus]
    {
      mask := mask[held[r].value := cpus];
    }

    /**
      After a poll the thread is destroyed, scheduled anew, or put back at the end of the ring.  `q` is
      the ring it is put on; it is lost exactly when that ring is full, or there is none.
      */
    method AfterPoll(r: nat, finished: bool, resched: bool) returns (ghost k: nat, q: nat)
      requires Valid() && r < |cores| && held[r].Some?
      modifies `next, `rings, `held, `live, `lost
      ensures Valid() && held == old(held)[r := None] && q < |old(rings)| && old(held)[r].value in mask
      ensures var t := old(held)[r].value;
              && live == (if finished then old(live) - {t} else old(live))
              && (!finished && resched && Satisfiable(t) ==> FirstInTurn(t, old(next), k, q))
              && (!finished && !resched ==> q == r)
              && (rings == if finished || (resched && !Satisfiable(t)) then old(rings) else Enqueued(old(rings), q, t))
              && (lost == if !finished && ((resched && !Satisfiable(t)) || |old(rings)[q]| >= RING_CAPACITY)
                          then old(lost) + {t} else old(lost))
              && (|old(live)| <= RING_CAPACITY ==> (t in lost <==> !finished && resched && !Satisfiable(t)))
    {
      hide Total;
      var t := held[r].value;
      HandFreed(held, r);
      HeldIsLive(r);
      held := held[r := None];
      One(live - lost, t, Placed());
      k, q := 0, r;
      if finished {
        live := live - {t};
        assert live - lost == old(live) - lost - {t};
      } else if resched {
        var ok;
        ok, k, q := Place(t);
      } else {
        Requeue(t, r);
      }
    }

    /** Back to the end of the same ring; the thread is lost exactly when that is full. */
    method Requeue(t: Thread, r: nat)
      requires Shape() && r < |cores| && t in live && t !in lost && Placed() == multiset(live - lost - {t})
      modifies `rings, `lost
      ensures Valid() && rings == Enqueued(old(rings), r, t)
      ensures lost == if |old(rings)[r]| >= RING_CAPACITY then old(lost) + {t} else old(lost)
      ensures |live| <= RING_CAPACITY ==> t !in lost
    {
      hide Total;
      RingBound(rings, Total(Hands(held)), live - lost - {t}, r);
      Fewer(live, lost, t);
      if |rings[r]| < RING_CAPACITY {
        RingGrows(rings, r, t);
        Plus(live - lost - {t}, t);
        assert live - lost - {t} + {t} == live - lost;
        rings := rings[r := rings[r] + [t]];
      } else {
        lost := lost + {t};
        assert live - lost == live - old(lost) - {t};
      }
    }

    lemma HeldIsLive(r: nat)
      requires Valid() && r < |cores| && held[r].Some?
      ensures held[r].value in live && held[r].value !in lost && held[r].value in mask
    {
      HandFreed(held, r);
      assert held[r].value in Placed();
    }

    lemma Facts()
      requires Valid()
      ensures |rings| == |held| == |cores| && live <= mask.Keys
    {
    }

    /** No thread is lost, and every one accepts a core that has a reactor. */
    ghost predicate Calm()
      reads `mask, `lost
    {
      lost == {} && forall t :: t in mask ==> LeavesACore(cores, mask[t])
    }

    ghost function View(): Snapshot
      reads this
    {
      Snapshot(next, rings, held, mask, live, lost)
    }

    /** One operation; those that are not possible do nothing. */
    method Perform(op: Op)
      requires Valid()
      modifies this
      ensures Valid() && mask.Keys == old(mask).Keys + Creates(op) && Did(op, old(View()), View())
      ensures old(Calm()) && Acceptable(cores, op) && |live| <= RING_CAPACITY ==> Calm()
    {
      Facts();
      hide LeavesACore, Reactors.Valid, Reactors.Shape, Reactors.Calm;
      match op
      case New(t, cpus) =>
        if t !in mask {
          PerformNew(t, cpus);
        }
      case Take(r) =>
        if r < |cores| && held[r].None? {
          PerformTake(r);
        }
      case Remask(r, cpus) =>
        if r < |cores| && held[r].Some? {
          PerformRemask(r, cpus);
        }
      case Polled(r, finished, resched) =>
        if r < |cores| && held[r].Some? {
          PerformPolled(r, finished, resched);
        }
    }

    method PerformTake(r: nat)
      requires Valid() && r < |cores| && held[r].None?
      modifies this
      ensures Valid() && mask == old(mask) && Did(Take(r), old(View()), View()) && (old(Calm()) ==> Calm())
    {
      Facts();
      hide LeavesACore, Reactors.Valid;
      Dequeue(r);
    }

    method PerformRemask(r: nat, cpus: set<nat>)
      requires Valid() && r < |cores| && held[r].Some?
      modifies this
      ensures Valid() && mask.Keys == old(mask).Keys && Did(Remask(r, cpus), old(View()), View())
      ensures old(Calm()) && LeavesACore(cores, cpus) ==> Calm()
    {
      Facts();
      HeldIsLive(r);
      hide LeavesACore, Reactors.Valid;
      SetCpumask(r, cpus);
    }

    method PerformNew(t: Thread, cpus: set<nat>)
      requires Valid() && t !in mask
      modifies this
      ensures Valid() && mask == old(mask)[t := cpus] && Did(New(t, cpus), old(View()), View())
      ensures old(Calm()) && LeavesACore(cores, cpus) && |live| <= RING_CAPACITY ==> Calm()
    {
      Facts();
      hide Total, Hands, Distinct, Reactors.Placed, LeavesACore, Reactors.FirstInTurn, Enqueued;
      ghost var k;
      var ok, r;
      ok, k, r := NewThread(t, cpus);
    }

    method PerformPolled(r: nat, finished: bool, resched: bool)
      requires Valid() && r < |cores| && held[r].Some?
      modifies this
      ensures Valid() && mask == old(mask) && Did(Polled(r, finished, resched), old(View()), View())
      ensures old(Calm()) && |live| <= RING_CAPACITY ==> Calm()
    {
      Facts();
      hide Total, Hands, Distinct, Reactors.Placed, LeavesACore, Reactors.FirstInTurn, Reactors.Satisfiable, Enqueued;
      ghost var t := held[r].value;
      ghost var k;
      var q;
      k, q := AfterPoll(r, finished, resched);
      SatisfiableIs(t);
    }

    lemma SatisfiableIs(t: Thread)
      requires t in mask
      ensures Satisfiable(t) <==> LeavesACore(cores, mask[t])
    {
      assert forall r :: 0 <= r < |cores| ==> (Accepts(t, r) <==> cores[r] in mask[t]);
    }

    /** A thread that accepts every core goes to the reactor whose turn it is. */
    method ScheduleAnywhere(t: Thread) returns (r: nat)
      requires Shape() && t in mask && forall r :: 0 <= r < |cores| ==> Accepts(t, r)
      requires |rings[Visited(next, 0, |cores|)]| < RING_CAPACITY
      modifies `next, `rings
      ensures Shape() && r == Visited(old(next), 0, |cores|) && next == r + 1
      ensures rings == old(rings)[r := old(rings)[r] + [t]]
    {
      assert Accepts(t, Visited(next, 0, |cores|));
      var ok;
      ghost var k;
      ok, k, r := Schedule(t);
    }

    /**
      Threads that accept every core, scheduled one after the other: no reactor gets more than one
      thread more than any other.
      */
    method SpreadEvenly(ts: seq<Thread>)
      requires Shape() && forall t :: t in ts ==> t in mask && forall r :: 0 <= r < |cores| ==> Accepts(t, r)
      requires forall r :: 0 <= r < |rings| ==> |rings[r]| + |ts| <= RING_CAPACITY
      modifies `next, `rings
      ensures Shape()
      ensures forall r :: 0 <= r < |cores| ==> |old(rings)[r]| <= |rings[r]|
      ensures forall r, q :: 0 <= r < |cores| && 0 <= q < |cores| ==>
                |rings[r]| - |old(rings)[r]| <= |rings[q]| - |old(rings)[q]| + 1
    {
      ghost var n, start, full, part := |cores|, next, 0, 0;
      RoundBounds(start, n);
      for i := 0 to |ts|
        invariant Shape() && part < n && full <= i && Visited(next, 0, n) == Visited(start, part, n)
        invariant forall r :: 0 <= r < n ==>
                    |rings[r]| == |old(rings)[r]| + full + if Round(start, r, n) < part then 1 else 0
      {
        InTurn(start, part, n);
        hide Round, Visited;
        var r := ScheduleAnywhere(ts[i]);
        part := part + 1;
        if part == n {
          part, full := 0, full + 1;
        }
      }
    }
  }

  datatype Op =
    | New(t: Thread, cpus: set<nat>)
    | Take(r: nat)
    | Remask(r: nat, cpus: set<nat>)
    | Polled(r: nat, finished: bool, resched: bool)

  /** The fields of the reactors at one moment. */
  datatype Snapshot = Snapshot(next: nat, rings: seq<seq<Thread>>, held: seq<Option<Thread>>,
                               mask: map<Thread, set<nat>>, live: set<Thread>, lost: set<Thread>)

  /** What an operation does: a thread comes up, is taken in hand, changes its cores, or is put down. */
  predicate Did(op: Op, a: Snapshot, b: Snapshot) {
    match op
    case New(t, cpus) =>
      if t in a.mask then b == a
      else b.mask == a.mask[t := cpus] && b.live == a.live + {t} && b.held == a.held
    case Take(r) =>
      if r < |a.held| && r < |a.rings| && a.held[r].None? && a.rings[r] != [] then
        b == a.(rings := a.rings[r := a.rings[r][1..]], held := a.held[r := Some(a.rings[r][0])])
      else b == a
    case Remask(r, cpus) =>
      if r < |a.held| && a.held[r].Some? then b == a.(mask := a.mask[a.held[r].value := cpus]) else b == a
    case Polled(r, finished, resched) =>
      if r < |a.held| && r < |a.rings| && a.held[r].Some? then
        var t := a.held[r].value;
        && b.mask == a.mask && b.held == a.held[r := None]
        && (if finished then b.live == a.live - {t} && b.rings == a.rings && b.lost == a.lost else b.live == a.live)
        && (!finished && !resched ==> b.rings == Reactors.Enqueued(a.rings, r, t))
      else b == a
  }

  function Creates(op: Op): set<Thread> {
    if op.New? then {op.t} else {}
  }

  /** The threads created by a sequence of operations. */
  function Created(ops: seq<Op>): set<Thread> {
    if ops == [] then {} else Created(ops[..|ops| - 1]) + Creates(ops[|ops| - 1])
  }

  predicate LeavesACore(cores: seq<nat>, cpus: set<nat>) {
    exists r :: 0 <= r < |cores| && cores[r] in cpus
  }

  /** The cores an operation names for a thread include one that has a reactor. */
  predicate Acceptable(cores: seq<nat>, op: Op) {
    op.New? || op.Remask? ==> LeavesACore(cores, op.cpus)
  }

  predicate AllAcceptable(cores: seq<nat>, ops: seq<Op>) {
    ops != [] ==> AllAcceptable(cores, ops[..|ops| - 1]) && Acceptable(cores, ops[|ops| - 1])
  }

  lemma NothingYet(rs: Reactors)
    requires rs.lost == {} && rs.mask == map[]
    ensures rs.Calm()
  {
  }

  /**
    Any sequence of thread creations, polls and changes of masks.  No thread is lost as long as there
    are never more threads than a ring holds, and every mask leaves a core; `most` is the largest
    number of threads there ever were.
    */
  method Run(cores: seq<nat>, ops: seq<Op>) returns (rs: Reactors, ghost most: nat)
    requires cores != [] && Distinct(cores)
    ensures rs.Valid() && rs.cores == cores && rs.mask.Keys == Created(ops)
    ensures most <= RING_CAPACITY && AllAcceptable(cores, ops) ==> rs.lost == {}
  {
    hide Distinct, Acceptable, Creates, Reactors.Valid, Reactors.Calm;
    rs := new Reactors(cores);
    assert rs.Calm() by { NothingYet(rs); }
    most := 0;
    for i := 0 to |ops|
      invariant fresh(rs) && rs.Valid() && rs.cores == cores && |rs.live| <= most
      invariant rs.mask.Keys == Created(ops[..i])
      invariant most <= RING_CAPACITY && AllAcceptable(cores, ops[..i]) ==> rs.Calm()
    {
      assert ops[..i + 1][..i] == ops[..i];
      rs.Perform(ops[i]);
      most := if most < |rs.live| then |rs.live| else most;
    }
    assert ops[..|ops|] == ops;
    if rs.Calm() {
      NothingLost(rs);
    }
  }

  lemma NothingLost(rs: Reactors)
    requires rs.Calm()
    ensures rs.lost == {}
  {
  }

  /** A new thread for the only reactor. */
  method AddTo(rs: Reactors, t: Thread)
    requires rs.Valid() && rs.cores == [0] && |rs.rings| == 1 && t !in rs.live
    modifies rs
    ensures rs.Valid() && rs.live == old(rs.live) + {t} && rs.mask == old(rs.mask)[t := {0}] && |rs.rings| == 1
    ensures var n := |old(rs.rings)[0]|;
            if n < RING_CAPACITY then |rs.rings[0]| == n + 1 && rs.lost == old(rs.lost)
            else |rs.rings[0]| == n && rs.lost == old(rs.lost) + {t}
  {
    assert LeavesACore([0], {0}) by { assert [0][0] in {0}; }
    hide Total, Hands, Distinct, LeavesACore, Reactors.Placed, Reactors.FirstInTurn;
    ghost var k;
    var ok, r;
    ok, k, r := rs.NewThread(t, {0});
  }

  /** One reactor and one thread more than its ring holds: the last is accepted, and lost. */
  method LosesAThread() returns (rs: Reactors)
    ensures fresh(rs) && rs.Valid() && rs.lost == {RING_CAPACITY} && rs.lost <= rs.live
    ensures RING_CAPACITY in rs.mask && rs.mask[RING_CAPACITY] == {0} && rs.cores == [0]
  {
    hide Reactors.Valid, Reactors.Shape;
    rs := new Reactors([0]);
    for t := 0 to RING_CAPACITY
      invariant fresh(rs) && rs.Valid() && rs.cores == [0] && |rs.rings| == 1 && |rs.rings[0]| == t && rs.lost == {}
      invariant forall x :: x in rs.live <==> 0 <= x < t
    {
      AddTo(rs, t);
    }
    AddTo(rs, RING_CAPACITY);
    assert RING_CAPACITY in rs.live;
  }
}
