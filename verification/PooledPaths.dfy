/**
  The request handlers of `RequestPaths` on the pool of `ContextPool`: context number `k` is the object
  `named[k]`, the preallocated ones first and heap contexts as they are made.
  */
module PooledPaths {
  import opened Collections
  import opened ContextPool
  import opened RequestPaths

  ghost function Held(named: seq<Context>, s: State): set<Context> {
    set k | 0 <= k < |named| && HeldBySome(s, k) :: named[k]
  }

  /** The pool is in the state `s`. */
  ghost predicate Matches(pool: Pool, named: seq<Context>, s: State)
    reads pool
  {
    && pool.Valid() && Distinct(named) && |named| == s.heap
    && s.capacity == |pool.contexts| <= |named| && named[..s.capacity] == pool.contexts
    && |pool.free| == |s.free|
    && (forall i :: 0 <= i < |s.free| ==> s.free[i] < |named| && pool.free[i] == named[s.free[i]])
    && pool.held == Held(named, s)
  }

  /** Who holds what after `id` has acquired the context `k`. */
  lemma HeldGrows(named: seq<Context>, named': seq<Context>, s: State, s': State, id: nat, k: nat)
    requires Distinct(named') && named <= named' && k < |named'| && Gains(s, s', id, k)
    requires forall d: Ctx :: HeldBySome(s, d) ==> d < |named|
    ensures Held(named', s') == Held(named, s) + {named'[k]}
  {
    hide Holds;
    forall d: Ctx
      ensures HeldBySome(s', d) <==> HeldBySome(s, d) || d == k
    {
      if d == k {
        assert Holds(s', id, k);
      }
      if HeldBySome(s, d) {
        var a :| Holds(s, a, d);
        assert Holds(s', a, d);
      }
      if HeldBySome(s', d) && d != k {
        var a :| Holds(s', a, d);
        assert Holds(s, a, d);
      }
    }
    hide HeldBySome;
    forall c | c in Held(named, s)
      ensures c in Held(named', s')
    {
      var j :| 0 <= j < |named| && HeldBySome(s, j) && named[j] == c;
      assert HeldBySome(s', j) && named'[j] == c;
    }
  }

  lemma HeldShrinks(named: seq<Context>, s: State, s': State, id: nat, k: nat)
    requires Distinct(named) && k < |named| && Loses(s, s', id, k)
    requires forall a: nat :: Holds(s, a, k) ==> a == id
    ensures Held(named, s') == Held(named, s) - {named[k]}
  {
    hide Holds;
    forall d: Ctx
      ensures HeldBySome(s', d) <==> HeldBySome(s, d) && d != k
    {
      if HeldBySome(s, d) && d != k {
        var a :| Holds(s, a, d);
        assert Holds(s', a, d);
      }
      if HeldBySome(s', d) {
        var a :| Holds(s', a, d);
        assert Holds(s, a, d);
      }
    }
    hide HeldBySome;
    forall c | c in Held(named, s) && c != named[k]
      ensures c in Held(named, s')
    {
      var j :| 0 <= j < |named| && HeldBySome(s, j) && named[j] == c;
      assert HeldBySome(s', j);
    }
  }

  lemma HeldBelow(s: State)
    requires Inv(s)
    ensures forall d: Ctx :: HeldBySome(s, d) ==> d < s.heap
  {
  }

  method Acquires(pool: Pool, named: seq<Context>, s: State, id: nat) returns (named': seq<Context>)
    requires Matches(pool, named, s) && Inv(s)
    requires id in s.handlers && s.handlers[id].todo != [] && s.handlers[id].todo[0] == Acquire
    modifies pool`free, pool`held, pool.contexts
    ensures Matches(pool, named', DoAcquire(s, id)) && fresh(pool.held - old(pool.held) - Elems(pool.contexts))
  {
    var s' := DoAcquire(s, id);
    AcquireGains(s, id);
    HeldBelow(s);
    hide Inv, Holds, Gains, HeldBySome, Held;
    var c := pool.Get(true);
    if s.free != [] {
      named' := named;
      HeldGrows(named, named', s, s', id, s.free[|s.free| - 1]);
    } else {
      named' := named + [c];
      HeldGrows(named, named', s, s', id, s.heap);
    }
  }

  method Releases(pool: Pool, named: seq<Context>, s: State, id: nat)
    requires Matches(pool, named, s) && Inv(s) && Enabled(s, Step(id)) && s.handlers[id].todo[0] == Release
    modifies pool`free, pool`held, pool.held
    ensures Matches(pool, named, DoRelease(s, id)) && pool.held <= old(pool.held)
  {
    var k := s.handlers[id].held[0];
    ReleaseHandlers(s, id);
    ReleaseLoses(s, id);
    assert HeldBySome(s, k) && k < |named| && named[k] in Held(named, s);
    assert forall a: nat :: Holds(s, a, k) ==> a == id;
    HeldShrinks(named, s, DoRelease(s, id), id, k);
    hide Inv, Holds, Loses, HeldBySome, Held, HandlerOk;
    named[k].Clear();
    pool.Return(named[k]);
  }

  /** Those of the events that are possible when they come. */
  function Feasible(s: State, es: seq<Event>): seq<Event>
    decreases |es|
  {
    if es == [] then []
    else if Enabled(s, es[0]) then [es[0]] + Feasible(Apply(s, es[0]), es[1..])
    else Feasible(s, es[1..])
  }

  /** One event on the pool. */
  method Handle(pool: Pool, named: seq<Context>, s: State, e: Event) returns (named': seq<Context>)
    requires Matches(pool, named, s) && Inv(s) && Enabled(s, e)
    modifies pool`free, pool`held, pool.contexts, pool.held
    ensures Matches(pool, named', Apply(s, e)) && fresh(pool.held - old(pool.held) - Elems(pool.contexts))
  {
    hide Inv;
    named' := named;
    match e
    case Arrive(id, r) => SameHeld(named, s, Apply(s, e));
    case Step(id) =>
      if s.handlers[id].todo[0] == Acquire {
        named' := Acquires(pool, named, s, id);
      } else {
        Releases(pool, named, s, id);
      }
  }

  lemma SameHeld(named: seq<Context>, s: State, s': State)
    requires forall id: nat, c: Ctx :: Holds(s', id, c) <==> Holds(s, id, c)
    ensures Held(named, s') == Held(named, s)
  {
    hide Holds;
    assert forall c: Ctx :: HeldBySome(s', c) <==> HeldBySome(s, c);
  }

  lemma NobodyHolds(named: seq<Context>, capacity: nat)
    ensures Held(named, Init(capacity)) == {}
  {
  }

  /**
    The handlers run on the pool: whatever the events, the pool goes through the states of a run of
    `RequestPaths`, and when all handlers have finished it has all its contexts back.
    */
  method Serve(capacity: nat, size: nat, es: seq<Event>) returns (pool: Pool, named: seq<Context>, s: State)
    ensures Matches(pool, named, s) && |pool.contexts| == capacity
    ensures Runs(Init(capacity), Feasible(Init(capacity), es), s)
    ensures (forall id :: id in s.handlers ==> s.handlers[id].todo == []) ==> |pool.free| == capacity && pool.held == {}
  {
    hide Inv, Runs, Feasible, Apply, Enabled, Held;
    InitInv(capacity);
    pool := new Pool(capacity, size);
    named, s := pool.contexts, Init(capacity);
    NobodyHolds(named, capacity);
    assert named[..capacity] == named;
    ghost var done: seq<Event> := [];
    assert Runs(Init(capacity), done, s) by { RunsNothing(s); }
    for i := 0 to |es|
      invariant fresh(pool) && fresh(pool.contexts) && fresh(pool.held) && |pool.contexts| == capacity
      invariant Matches(pool, named, s) && Inv(s) && Runs(Init(capacity), done, s)
      invariant done + Feasible(s, es[i..]) == Feasible(Init(capacity), es)
    {
      FeasibleStep(s, es, i);
      if Enabled(s, es[i]) {
        named := Handle(pool, named, s, es[i]);
        StepInv(s, es[i]);
        RunsThen(Init(capacity), done, s, es[i]);
        Associate(done, [es[i]], Feasible(Apply(s, es[i]), es[i + 1..]));
        done := done + [es[i]];
        s := Apply(s, es[i]);
      }
    }
    NoneFeasible(s, es);
    assert done + [] == done;
    if forall id :: id in s.handlers ==> s.handlers[id].todo == [] {
      AllReturned(capacity, done, s);
      NoneHeld(capacity, done, s, named);
    }
  }

  lemma RunsNothing(s: State)
    ensures Runs(s, [], s)
  {
  }

  lemma FeasibleStep(s: State, es: seq<Event>, i: nat)
    requires i < |es|
    ensures Feasible(s, es[i..]) == if Enabled(s, es[i]) then [es[i]] + Feasible(Apply(s, es[i]), es[i + 1..])
                                    else Feasible(s, es[i + 1..])
  {
    assert es[i..][1..] == es[i + 1..];
  }

  lemma NoneFeasible(s: State, es: seq<Event>)
    ensures Feasible(s, es[|es|..]) == []
  {
  }

  lemma NoneHeld(capacity: nat, es: seq<Event>, s: State, named: seq<Context>)
    requires Runs(Init(capacity), es, s) && forall id :: id in s.handlers ==> s.handlers[id].todo == []
    ensures Held(named, s) == {}
  {
    hide Runs;
    forall id | id in s.handlers
      ensures s.handlers[id].held == []
    {
      CompletedPathsHoldNothing(capacity, es, s, id);
    }
  }
}
