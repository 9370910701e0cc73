/**
  Request handlers that run concurrently and draw on one pool of contexts.  A handler is the sequence
  of acquires and releases on its path; the steps of different handlers interleave in any order.
  Contexts below `capacity` are the preallocated ones, all others come from the heap.
  */
module RequestPaths {
  import opened Collections

  type Ctx = nat

  datatype Act = Acquire | Release

  /** The paths through the handler, with the number of chunks of a large object. */
  datatype Request =
    | NotFound
    | GetSmall
    | GetLarge(chunks: nat)
    | PutSmall
    | PutLarge(chunks: nat)
    | Delete
    | Collect(moves: nat)

  function Repeat(acts: seq<Act>, n: nat): seq<Act> {
    if n == 0 then [] else acts + Repeat(acts, n - 1)
  }

  /** A release gives back the context acquired first among those still held, as the loops do. */
  function Path(r: Request): seq<Act> {
    match r
    case NotFound => []
    case Delete => []
    case GetSmall => [Acquire, Release]
    case GetLarge(n) => [Acquire, Release] + (Repeat([Acquire], n) + Repeat([Release], n))
    case PutSmall => Repeat([Acquire], 3) + Repeat([Release], 3)
    case PutLarge(n) =>
      (Repeat([Acquire], 3 * n) + Repeat([Release], 3 * n)) + (Repeat([Acquire], 3) + Repeat([Release], 3))
    case Collect(n) => (Repeat([Acquire], n) + Repeat([Acquire, Release], n)) + Repeat([Release], n)
  }

  /** What is left to do for a handler that holds `held` contexts: never release nothing, end with none. */
  predicate Safe(held: nat, todo: seq<Act>)
    decreases |todo|
  {
    if todo == [] then held == 0
    else if todo[0] == Acquire then Safe(held + 1, todo[1..])
    else held > 0 && Safe(held - 1, todo[1..])
  }

  /** Running `acts` takes a handler from `held` contexts to `held'` without underflow. */
  predicate Takes(held: nat, acts: seq<Act>, held': nat)
    decreases |acts|
  {
    if acts == [] then held == held'
    else if acts[0] == Acquire then Takes(held + 1, acts[1..], held')
    else held > 0 && Takes(held - 1, acts[1..], held')
  }

  lemma {:induction false} TakesThen(a: nat, s: seq<Act>, b: nat, t: seq<Act>, c: nat)
    requires Takes(a, s, b) && Takes(b, t, c)
    ensures Takes(a, s + t, c)
    decreases |s|
  {
    if s == [] {
      assert s + t == t;
    } else {
      TakesThen(if s[0] == Acquire then a + 1 else a - 1, s[1..], b, t, c);
      assert (s + t)[1..] == s[1..] + t;
    }
  }

  lemma {:induction false} TakesRepeat(a: nat, n: nat)
    ensures Takes(a, Repeat([Acquire], n), a + n) && Takes(a + n, Repeat([Release], n), a)
    decreases n
  {
    if n == 0 {
    } else {
      TakesRepeat(a + 1, n - 1);
      TakesRepeat(a, n - 1);
      assert ([Acquire] + Repeat([Acquire], n - 1))[1..] == Repeat([Acquire], n - 1);
      assert ([Release] + Repeat([Release], n - 1))[1..] == Repeat([Release], n - 1);
    }
  }

  lemma {:induction false} TakesSwap(a: nat, n: nat)
    ensures Takes(a, Repeat([Acquire, Release], n), a)
    decreases n
  {
    if n == 0 {
    } else {
      TakesSwap(a, n - 1);
      assert [Acquire, Release][1..] == [Release] && [Release][1..] == [];
      assert Takes(a, [Acquire, Release], a);
      TakesThen(a, [Acquire, Release], a, Repeat([Acquire, Release], n - 1), a);
    }
  }

  lemma {:induction false} TakesAll(a: nat, s: seq<Act>)
    requires Takes(a, s, 0)
    ensures Safe(a, s)
    decreases |s|
  {
    if s == [] {
    } else {
      TakesAll(if s[0] == Acquire then a + 1 else a - 1, s[1..]);
    }
  }

  lemma TakesBlock(n: nat)
    ensures Takes(0, Repeat([Acquire], n) + Repeat([Release], n), 0)
  {
    TakesRepeat(0, n);
    TakesThen(0, Repeat([Acquire], n), n, Repeat([Release], n), 0);
  }

  /** Every path returns exactly what it acquired, and never returns what it does not hold. */
  lemma PathsBalance(r: Request)
    ensures Safe(0, Path(r))
  {
    hide Repeat;
    assert [Acquire, Release][1..] == [Release] && [Release][1..] == [];
    match r
    case NotFound =>
    case Delete =>
    case GetSmall => TakesAll(0, Path(r));
    case GetLarge(n) =>
      TakesBlock(n);
      TakesThen(0, [Acquire, Release], 0, Repeat([Acquire], n) + Repeat([Release], n), 0);
      TakesAll(0, Path(r));
    case PutSmall =>
      TakesBlock(3);
      TakesAll(0, Path(r));
    case PutLarge(n) =>
      TakesBlock(3 * n);
      TakesBlock(3);
      TakesThen(0, Repeat([Acquire], 3 * n) + Repeat([Release], 3 * n), 0,
                Repeat([Acquire], 3) + Repeat([Release], 3), 0);
      TakesAll(0, Path(r));
    case Collect(n) =>
      TakesRepeat(0, n);
      TakesSwap(n, n);
      TakesThen(0, Repeat([Acquire], n), n, Repeat([Acquire, Release], n), n);
      TakesThen(0, Repeat([Acquire], n) + Repeat([Acquire, Release], n), n, Repeat([Release], n), 0);
      TakesAll(0, Path(r));
  }

  function Count(acts: seq<Act>, a: Act): nat {
    if acts == [] then 0 else (if acts[0] == a then 1 else 0) + Count(acts[1..], a)
  }

  lemma {:induction false} CountConcat(s: seq<Act>, t: seq<Act>, a: Act)
    ensures Count(s + t, a) == Count(s, a) + Count(t, a)
  {
    if s == [] {
      assert s + t == t;
    } else {
      CountConcat(s[1..], t, a);
      assert (s + t)[1..] == s[1..] + t;
    }
  }

  lemma {:induction false} CountRepeat(s: seq<Act>, n: nat, a: Act)
    ensures Count(Repeat(s, n), a) == n * Count(s, a)
  {
    if n == 0 {
    } else {
      CountRepeat(s, n - 1, a);
      CountConcat(s, Repeat(s, n - 1), a);
      assert n * Count(s, a) == (n - 1) * Count(s, a) + Count(s, a);
    }
  }

  /** One context per block moved: a read takes one, a write one for each of three replicas. */
  function Blocks(r: Request): nat {
    match r
    case NotFound => 0
    case Delete => 0
    case GetSmall => 1
    case GetLarge(n) => 1 + n
    case PutSmall => 3
    case PutLarge(n) => 3 * (n + 1)
    case Collect(n) => 2 * n
  }

  lemma BlockCount(n: nat, a: Act)
    ensures Count(Repeat([Acquire], n) + Repeat([Release], n), a) == n
  {
    hide Repeat;
    CountSingles();
    CountRepeat([Acquire], n, a);
    CountRepeat([Release], n, a);
    CountConcat(Repeat([Acquire], n), Repeat([Release], n), a);
  }

  lemma PathsTake(r: Request, a: Act)
    ensures Count(Path(r), a) == Blocks(r)
  {
    hide Repeat;
    CountSingles();
    hide Count;
    match r
    case NotFound => CountNone(a);
    case Delete => CountNone(a);
    case GetSmall =>
    case GetLarge(n) =>
      BlockCount(n, a);
      CountConcat([Acquire, Release], Repeat([Acquire], n) + Repeat([Release], n), a);
    case PutSmall => BlockCount(3, a);
    case PutLarge(n) =>
      BlockCount(3 * n, a);
      BlockCount(3, a);
      CountConcat(Repeat([Acquire], 3 * n) + Repeat([Release], 3 * n), Repeat([Acquire], 3) + Repeat([Release], 3), a);
    case Collect(n) => CollectCount(n, a);
  }

  /** The most contexts held at once on the way. */
  function Peak(held: int, acts: seq<Act>): int
    decreases |acts|
  {
    if acts == [] then held
    else Max(held, Peak(if acts[0] == Acquire then held + 1 else held - 1, acts[1..]))
  }

  function Max(a: int, b: int): int {
    if a < b then b else a
  }

  lemma {:induction false} PeakThen(a: nat, s: seq<Act>, b: nat, t: seq<Act>, c: nat)
    requires Takes(a, s, b) && Takes(b, t, c)
    ensures Takes(a, s + t, c) && Peak(a, s + t) == Max(Peak(a, s), Peak(b, t))
    decreases |s|
  {
    TakesThen(a, s, b, t, c);
    if s == [] {
      assert s + t == t;
    } else {
      var a' := if s[0] == Acquire then a + 1 else a - 1;
      PeakThen(a', s[1..], b, t, c);
      assert (s + t)[1..] == s[1..] + t;
    }
  }

  lemma {:induction false} PeakRepeat(a: nat, n: nat)
    ensures Takes(a, Repeat([Acquire], n), a + n) && Peak(a, Repeat([Acquire], n)) == a + n
    ensures Takes(a + n, Repeat([Release], n), a) && Peak(a + n, Repeat([Release], n)) == a + n
    decreases n
  {
    TakesRepeat(a, n);
    if n == 0 {
    } else {
      PeakRepeat(a + 1, n - 1);
      PeakRepeat(a, n - 1);
      assert ([Acquire] + Repeat([Acquire], n - 1))[1..] == Repeat([Acquire], n - 1);
      assert ([Release] + Repeat([Release], n - 1))[1..] == Repeat([Release], n - 1);
    }
  }

  lemma {:induction false} PeakSwap(a: nat, n: nat)
    ensures Takes(a, Repeat([Acquire, Release], n), a)
    ensures Peak(a, Repeat([Acquire, Release], n)) == if n == 0 then a else a + 1
    decreases n
  {
    TakesSwap(a, n);
    if n == 0 {
    } else {
      PeakSwap(a, n - 1);
      assert [Acquire, Release][1..] == [Release] && [Release][1..] == [];
      assert Takes(a, [Acquire, Release], a);
      PeakThen(a, [Acquire, Release], a, Repeat([Acquire, Release], n - 1), a);
    }
  }

  lemma PeakBlock(n: nat)
    ensures Takes(0, Repeat([Acquire], n) + Repeat([Release], n), 0)
    ensures Peak(0, Repeat([Acquire], n) + Repeat([Release], n)) == n
  {
    PeakRepeat(0, n);
    PeakThen(0, Repeat([Acquire], n), n, Repeat([Release], n), 0);
  }

  /** How many contexts a request needs at once. */
  function Needs(r: Request): int {
    match r
    case NotFound => 0
    case Delete => 0
    case GetSmall => 1
    case GetLarge(n) => Max(1, n)
    case PutSmall => 3
    case PutLarge(n) => Max(3, 3 * n)
    case Collect(n) => if n == 0 then 0 else n + 1
  }

  /** All chunks of a large object are in flight together; a collection copies one block at a time. */
  lemma PathsPeak(r: Request)
    ensures Takes(0, Path(r), 0) && Peak(0, Path(r)) == Needs(r)
  {
    hide Repeat;
    assert [Acquire, Release][1..] == [Release] && [Release][1..] == [];
    match r
    case NotFound =>
    case Delete =>
    case GetSmall => assert Takes(0, Path(r), 0);
    case GetLarge(n) =>
      PeakBlock(n);
      assert Takes(0, [Acquire, Release], 0);
      PeakThen(0, [Acquire, Release], 0, Repeat([Acquire], n) + Repeat([Release], n), 0);
    case PutSmall => PeakBlock(3);
    case PutLarge(n) =>
      PeakBlock(3 * n);
      PeakBlock(3);
      PeakThen(0, Repeat([Acquire], 3 * n) + Repeat([Release], 3 * n), 0,
               Repeat([Acquire], 3) + Repeat([Release], 3), 0);
    case Collect(n) => PeakCollect(n);
  }

  lemma PeakCollect(n: nat)
    ensures Takes(0, Path(Collect(n)), 0) && Peak(0, Path(Collect(n))) == Needs(Collect(n))
  {
    hide Repeat, Takes, Peak;
    PeakRepeat(0, n);
    PeakSwap(n, n);
    PeakThen(0, Repeat([Acquire], n), n, Repeat([Acquire, Release], n), n);
    PeakThen(0, Repeat([Acquire], n) + Repeat([Acquire, Release], n), n, Repeat([Release], n), 0);
  }

  lemma CollectCount(n: nat, a: Act)
    ensures Count(Path(Collect(n)), a) == 2 * n
  {
    hide Repeat;
    CountSingles();
    CountRepeat([Acquire], n, a);
    CountRepeat([Release], n, a);
    CountRepeat([Acquire, Release], n, a);
    CountConcat(Repeat([Acquire], n), Repeat([Acquire, Release], n), a);
    CountConcat(Repeat([Acquire], n) + Repeat([Acquire, Release], n), Repeat([Release], n), a);
  }

  lemma CountNone(a: Act)
    ensures Count([], a) == 0
  {
  }

  lemma CountSingles()
    ensures Count([Acquire], Acquire) == 1 == Count([Release], Release)
    ensures Count([Acquire], Release) == 0 == Count([Release], Acquire)
    ensures Count([Acquire, Release], Acquire) == 1 == Count([Acquire, Release], Release)
  {
    assert [Acquire, Release][1..] == [Release] && [Release][1..] == [] && [Acquire][1..] == [];
  }

  // ----- the machine -----

  datatype Handler = Handler(held: seq<Ctx>, todo: seq<Act>)

  datatype State = State(capacity: nat, free: seq<Ctx>, heap: nat, handlers: map<nat, Handler>)

  datatype Event = Arrive(id: nat, request: Request) | Step(id: nat)

  function Init(capacity: nat): State {
    State(capacity, seq(capacity, i => i), capacity, map[])
  }

  predicate Enabled(s: State, e: Event) {
    match e
    case Arrive(id, _) => id !in s.handlers
    case Step(id) =>
      && id in s.handlers && s.handlers[id].todo != []
      && (s.handlers[id].todo[0] == Release ==> s.handlers[id].held != [])
  }

  /** Every acquire on a request path insists, so an empty free list gives a new heap context. */
  function DoAcquire(s: State, id: nat): State
    requires id in s.handlers && s.handlers[id].todo != []
  {
    var h := s.handlers[id];
    if s.free != [] then
      s.(free := s.free[..|s.free| - 1],
         handlers := s.handlers[id := Handler(h.held + [s.free[|s.free| - 1]], h.todo[1..])])
    else
      s.(heap := s.heap + 1, handlers := s.handlers[id := Handler(h.held + [s.heap], h.todo[1..])])
  }

  /** A heap context is deleted, a preallocated one becomes free again. */
  function DoRelease(s: State, id: nat): State
    requires id in s.handlers && s.handlers[id].todo != [] && s.handlers[id].held != []
  {
    var h := s.handlers[id];
    s.(free := if h.held[0] < s.capacity then s.free + [h.held[0]] else s.free,
       handlers := s.handlers[id := Handler(h.held[1..], h.todo[1..])])
  }

  function Apply(s: State, e: Event): State
    requires Enabled(s, e)
  {
    match e
    case Arrive(id, r) => s.(handlers := s.handlers[id := Handler([], Path(r))])
    case Step(id) => if s.handlers[id].todo[0] == Acquire then DoAcquire(s, id) else DoRelease(s, id)
  }

  ghost predicate Runs(s: State, es: seq<Event>, t: State)
    decreases |es|
  {
    if es == [] then t == s
    else Enabled(s, es[0]) && Runs(Apply(s, es[0]), es[1..], t)
  }

  ghost predicate Holds(s: State, id: nat, c: Ctx) {
    id in s.handlers && c in s.handlers[id].held
  }

  ghost predicate HeldBySome(s: State, c: Ctx) {
    exists id :: Holds(s, id, c)
  }

  predicate HandlerOk(h: Handler) {
    Distinct(h.held) && Safe(|h.held|, h.todo)
  }

  ghost predicate Inv(s: State) {
    && Distinct(s.free) && s.capacity <= s.heap
    && (forall c :: c in s.free ==> c < s.capacity && !HeldBySome(s, c))
    && (forall c: Ctx :: c < s.capacity ==> c in s.free || HeldBySome(s, c))
    && (forall id :: id in s.handlers ==> HandlerOk(s.handlers[id]))
    && (forall id: nat, c: Ctx :: Holds(s, id, c) ==> c < s.heap)
    && (forall a: nat, b: nat, c: Ctx :: Holds(s, a, c) && Holds(s, b, c) ==> a == b)
  }

  lemma InitInv(capacity: nat)
    ensures Inv(Init(capacity))
  {
    var s := Init(capacity);
    forall c | 0 <= c < capacity
      ensures c in s.free
    {
      assert s.free[c] == c;
    }
  }

  /** `s'` differs from `s` in that `id` also holds `c`. */
  ghost predicate Gains(s: State, s': State, id: nat, c: Ctx) {
    forall a: nat, d: Ctx :: Holds(s', a, d) <==> Holds(s, a, d) || (a == id && d == c)
  }

  ghost predicate Loses(s: State, s': State, id: nat, c: Ctx) {
    forall a: nat, d: Ctx :: Holds(s', a, d) <==> Holds(s, a, d) && !(a == id && d == c)
  }

  lemma AcquireGains(s: State, id: nat)
    requires id in s.handlers && s.handlers[id].todo != []
    ensures Gains(s, DoAcquire(s, id), id, if s.free != [] then s.free[|s.free| - 1] else s.heap)
  {
  }

  lemma ReleaseLoses(s: State, id: nat)
    requires id in s.handlers && s.handlers[id].todo != [] && s.handlers[id].held != [] && Distinct(s.handlers[id].held)
    ensures Loses(s, DoRelease(s, id), id, s.handlers[id].held[0])
  {
    var h := s.handlers[id].held;
    assert forall d :: d in h[1..] <==> d in h && d != h[0] by {
      forall d | d in h && d != h[0]
        ensures d in h[1..]
      {
        var i :| 0 <= i < |h| && h[i] == d;
        assert h[1..][i - 1] == d;
      }
    }
  }

  lemma AcquireHandlers(s: State, id: nat)
    requires Inv(s) && id in s.handlers && s.handlers[id].todo != [] && s.handlers[id].todo[0] == Acquire
    ensures HandlerOk(DoAcquire(s, id).handlers[id])
  {
    var c := if s.free != [] then s.free[|s.free| - 1] else s.heap;
    assert c in s.free || c == s.heap;
    if c in s.handlers[id].held {
      assert Holds(s, id, c);
    }
  }

  lemma AcquireInv(s: State, id: nat)
    requires Inv(s) && id in s.handlers && s.handlers[id].todo != [] && s.handlers[id].todo[0] == Acquire
    ensures Inv(DoAcquire(s, id))
  {
    var s' := DoAcquire(s, id);
    var c := if s.free != [] then s.free[|s.free| - 1] else s.heap;
    AcquireHandlers(s, id);
    AcquireGains(s, id);
    hide Holds, HandlerOk;
    assert c in s.free || c == s.heap;
    forall d | HeldBySome(s, d)
      ensures HeldBySome(s', d)
    {
      var a :| Holds(s, a, d);
      assert Holds(s', a, d);
    }
    assert Holds(s', id, c);
    assert forall d :: d in s.free ==> d in s'.free || d == c;
    assert forall d :: d in s'.free ==> d in s.free && d != c;
  }

  lemma ReleaseHandlers(s: State, id: nat)
    requires Inv(s) && Enabled(s, Step(id)) && s.handlers[id].todo[0] == Release
    ensures HandlerOk(DoRelease(s, id).handlers[id]) && Holds(s, id, s.handlers[id].held[0])
    ensures Distinct(s.handlers[id].held)
  {
    assert HandlerOk(s.handlers[id]);
  }

  lemma ReleaseInv(s: State, id: nat)
    requires Inv(s) && Enabled(s, Step(id)) && s.handlers[id].todo[0] == Release
    ensures Inv(DoRelease(s, id))
  {
    var s' := DoRelease(s, id);
    var c := s.handlers[id].held[0];
    ReleaseHandlers(s, id);
    ReleaseLoses(s, id);
    hide Holds, HandlerOk;
    forall d | HeldBySome(s, d) && d != c
      ensures HeldBySome(s', d)
    {
      var a :| Holds(s, a, d);
      assert Holds(s', a, d);
    }
    assert !HeldBySome(s', c);
    assert HeldBySome(s, c);
  }

  lemma ArriveInv(s: State, id: nat, r: Request)
    requires Inv(s) && id !in s.handlers
    ensures Inv(Apply(s, Arrive(id, r)))
  {
    PathsBalance(r);
    var s' := Apply(s, Arrive(id, r));
    assert forall a: nat, d: Ctx :: Holds(s', a, d) <==> Holds(s, a, d);
    hide Holds;
    assert HandlerOk(s'.handlers[id]);
    hide HandlerOk;
    forall d | HeldBySome(s, d)
      ensures HeldBySome(s', d)
    {
      var a :| Holds(s, a, d);
      assert Holds(s', a, d);
    }
  }

  lemma StepInv(s: State, e: Event)
    requires Inv(s) && Enabled(s, e)
    ensures Inv(Apply(s, e))
  {
    hide Inv;
    if e.Arrive? {
      ArriveInv(s, e.id, e.request);
    } else if s.handlers[e.id].todo[0] == Acquire {
      AcquireInv(s, e.id);
    } else {
      ReleaseInv(s, e.id);
    }
  }

  lemma {:induction false} RunsThen(s: State, es: seq<Event>, t: State, e: Event)
    requires Runs(s, es, t) && Enabled(t, e)
    ensures Runs(s, es + [e], Apply(t, e))
    decreases |es|
  {
    hide Enabled, Apply;
    if es == [] {
      assert Runs(Apply(s, e), [], Apply(s, e));
      assert [e][1..] == [];
    } else {
      RunsThen(Apply(s, es[0]), es[1..], t, e);
      assert (es + [e])[1..] == es[1..] + [e];
    }
  }

  lemma {:induction false} RunInv(s: State, es: seq<Event>, t: State)
    requires Runs(s, es, t) && Inv(s)
    ensures Inv(t) && t.capacity == s.capacity
    decreases |es|
  {
    hide Inv;
    if es == [] {
    } else {
      StepInv(s, es[0]);
      RunInv(Apply(s, es[0]), es[1..], t);
    }
  }

  // ----- every run -----

  /** No context is held by two requests, nor twice by one, nor held and free. */
  lemma NeverShared(capacity: nat, es: seq<Event>, t: State, a: nat, b: nat, i: nat, j: nat)
    requires Runs(Init(capacity), es, t) && a in t.handlers && b in t.handlers
    requires i < |t.handlers[a].held| && j < |t.handlers[b].held| && t.handlers[a].held[i] == t.handlers[b].held[j]
    ensures a == b && i == j && t.handlers[a].held[i] !in t.free
  {
    InitInv(capacity);
    RunInv(Init(capacity), es, t);
    var c := t.handlers[a].held[i];
    assert Holds(t, a, c) && Holds(t, b, c);
    assert HandlerOk(t.handlers[a]);
  }

  /** A handler that has nothing left to do holds nothing, and one that is to release holds something. */
  lemma CompletedPathsHoldNothing(capacity: nat, es: seq<Event>, t: State, id: nat)
    requires Runs(Init(capacity), es, t) && id in t.handlers
    ensures var h := t.handlers[id];
            && (h.todo == [] ==> h.held == [])
            && (h.todo != [] && h.todo[0] == Release ==> h.held != [])
  {
    InitInv(capacity);
    RunInv(Init(capacity), es, t);
    assert HandlerOk(t.handlers[id]);
  }

  ghost function HeldPreallocated(s: State): set<Ctx> {
    set c: Ctx | c < s.capacity && HeldBySome(s, c)
  }

  lemma {:induction false} CountBelow(n: nat, a: set<Ctx>)
    requires forall c: Ctx :: c in a <==> c < n
    ensures |a| == n
  {
    if n > 0 {
      CountBelow(n - 1, a - {n - 1});
    } else {
      assert a == {};
    }
  }

  /**
    The free list is a duplicate-free part of the preallocated contexts, no heap context ever enters
    it, and free plus held preallocated contexts make up the capacity.
    */
  lemma CapacityIsConserved(capacity: nat, es: seq<Event>, t: State)
    requires Runs(Init(capacity), es, t)
    ensures Distinct(t.free) && (forall c :: c in t.free ==> c < capacity)
    ensures |t.free| + |HeldPreallocated(t)| == capacity
  {
    InitInv(capacity);
    RunInv(Init(capacity), es, t);
    var f, h := Elems(t.free), HeldPreallocated(t);
    CountDistinct(t.free);
    CountBelow(capacity, f + h);
    assert f !! h && |f + h| == |f| + |h|;
  }

  /** When every handler has finished, all preallocated contexts are free again. */
  lemma AllReturned(capacity: nat, es: seq<Event>, t: State)
    requires Runs(Init(capacity), es, t) && forall id :: id in t.handlers ==> t.handlers[id].todo == []
    ensures |t.free| == capacity && forall c: Ctx :: c < capacity ==> c in t.free
  {
    CapacityIsConserved(capacity, es, t);
    InitInv(capacity);
    RunInv(Init(capacity), es, t);
    forall id | id in t.handlers
      ensures t.handlers[id].held == []
    {
      CompletedPathsHoldNothing(capacity, es, t, id);
    }
    assert HeldPreallocated(t) == {};
  }
}
