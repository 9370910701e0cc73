/**
  The life of the NVMe-oF target: a state that is advanced by entry actions and by the callbacks of
  asynchronous operations.  Operations that succeed report back by a message, which is delivered
  later and in any order; what foreign calls answer is fixed in `Env`.
  */
module NvmfTarget {
  import opened Collections

  const INIT_SUBSYSTEM := 0
  const INIT_TARGET := 1
  const INIT_POLL_GROUPS := 2
  const INIT_START_SUBSYSTEMS := 3
  const RUNNING := 4
  const FINI_STOP_SUBSYSTEMS := 5
  const FINI_POLL_GROUPS := 6
  const FINI_TARGET := 7
  const FINI_SUBSYSTEM := 8

  /**
    The cores in the order they are walked, and whether each foreign call succeeds: creating the
    target and its discovery subsystem, the RPC server, starting and stopping each subsystem.
    */
  datatype Env = Env(cores: seq<nat>, createTarget: bool, createDiscovery: bool, rpc: bool,
                     startOk: seq<bool>, stopOk: seq<bool>)
  {
    ghost predicate Valid() {
      cores != [] && Distinct(cores)
    }

    /** There are subsystems, and every call to stop one fails at once. */
    predicate AllStopsFail() {
      stopOk != [] && forall i :: 0 <= i < |stopOk| ==> !stopOk[i]
    }
  }

  /** The messages under way. */
  datatype Msg =
    | InitDone
    | CreateGroup(core: nat, ok: bool)
    | GroupCreated(core: nat)
    | StartNext(i: nat)
    | StopNext(i: nat)
    | DestroyGroup(core: nat)
    | GroupDestroyed
    | TargetDestroyed
    | FiniDone
    | Shutdown
    | Signal

  /** Message `m` is offered at `k` or later. */
  ghost predicate Offered(sched: nat -> Msg, m: Msg, k: nat) {
    exists j: nat :: j >= k && sched(j) == m
  }

  /** A schedule that offers every message again and again, whether or not it is under way. */
  ghost predicate Fair(sched: nat -> Msg) {
    forall m, k: nat :: Offered(sched, m, k)
  }

  /** Entry actions run in increasing order of state; only that of `FINI_POLL_GROUPS` may repeat. */
  ghost predicate Ordered(log: seq<nat>) {
    forall i, j :: 0 <= i < j < |log| ==>
      log[i] < log[j] || (log[i] == FINI_POLL_GROUPS == log[j] && j == i + 1)
  }

  ghost predicate Twice(log: seq<nat>) {
    exists i :: 0 <= i < |log| - 1 && log[i] == FINI_POLL_GROUPS == log[i + 1]
  }

  lemma PushHigher(log: seq<nat>, e: nat)
    requires Ordered(log) && forall d :: d in log ==> d < e
    ensures Ordered(log + [e]) && (Twice(log + [e]) <==> Twice(log))
  {
    var log' := log + [e];
    forall i | 0 <= i < |log|
      ensures log'[i] < e
    {
      assert log[i] in log;
    }
    forall i | 0 <= i < |log'| - 1 && log'[i] == FINI_POLL_GROUPS == log'[i + 1]
      ensures Twice(log)
    {
      assert log'[i] in log;
      assert log[i] == FINI_POLL_GROUPS == log[i + 1];
    }
    if Twice(log) {
      var i :| 0 <= i < |log| - 1 && log[i] == FINI_POLL_GROUPS == log[i + 1];
      assert log'[i] == FINI_POLL_GROUPS == log'[i + 1];
    }
  }

  lemma PushAgain(log: seq<nat>)
    requires Ordered(log) && !Twice(log) && log != [] && log[|log| - 1] == FINI_POLL_GROUPS
    ensures Ordered(log + [FINI_POLL_GROUPS]) && Twice(log + [FINI_POLL_GROUPS])
  {
    var log' := log + [FINI_POLL_GROUPS];
    assert log'[|log| - 1] == FINI_POLL_GROUPS == log'[|log| - 1 + 1];
    forall i | 0 <= i < |log| - 1
      ensures log[i] < FINI_POLL_GROUPS
    {
      if i + 1 < |log| - 1 {
        assert log[i] < log[|log| - 1];
      } else {
        assert log[i + 1] == log[|log| - 1];
      }
    }
  }

  /** The state the entry action of `s` leads to; `tgt` says whether there is a target to destroy. */
  function Follow(env: Env, tgt: bool, s: nat): nat {
    if s == INIT_TARGET then if env.createTarget && env.createDiscovery then INIT_POLL_GROUPS else FINI_TARGET
    else if s == INIT_START_SUBSYSTEMS then
      if env.startOk == [] then RUNNING else if env.startOk[0] then s else FINI_STOP_SUBSYSTEMS
    else if s == FINI_STOP_SUBSYSTEMS then if env.stopOk == [] || env.AllStopsFail() then FINI_POLL_GROUPS else s
    else if s == FINI_TARGET then if tgt then s else FINI_SUBSYSTEM
    else s
  }

  /** Where the target comes to rest once it has been told to enter `s`. */
  function Rest(env: Env, tgt: bool, s: nat): nat
    decreases 9 - s
  {
    var t := Follow(env, tgt, s);
    if t <= s then s else Rest(env, if s == INIT_TARGET then env.createTarget else tgt, t)
  }

  class Target {
    const env: Env
    var state: nat
    var tgt: bool
    var num: nat
    var groups: seq<nat>
    var exit: bool
    /** The messages under way, by kind. */
    var initDone: bool
    var toCreate: set<nat>
    var toAdd: set<nat>
    var toDestroy: set<nat>
    var toCount: nat
    var startNext: Option<nat>
    var stopNext: Option<nat>
    var targetDestroyed: bool
    var finiDone: bool
    var shutdown: bool
    var interrupted: bool
    /** The states whose entry action has run, in order. */
    ghost var log: seq<nat>
    /** How many poll groups could not be created. */
    ghost var failed: nat
    /** The target has been destroyed. */
    ghost var destroyed: bool

    /** The first `n` subsystems could be started. */
    ghost predicate Started(n: nat)
      reads this
    {
      n <= |env.startOk| && forall i :: 0 <= i < n ==> env.startOk[i]
    }

    /**
      Poll groups take a target and its discovery subsystem, running takes every subsystem started, and a target
      that was created is destroyed before the last state.
      */
    ghost predicate Honest()
      reads this
    {
      && (RUNNING in log || state == RUNNING ==> Started(|env.startOk|))
      && (state != INIT_TARGET ==> (tgt <==> state > INIT_TARGET && env.createTarget))
      && (INIT_POLL_GROUPS <= state <= FINI_POLL_GROUPS ==> env.createTarget && env.createDiscovery)
      && (destroyed <==> state == FINI_SUBSYSTEM && tgt)
    }

    ghost predicate Quiet()
      reads this
    {
      && !initDone && toCreate == {} && toAdd == {} && toDestroy == {} && toCount == 0
      && startNext.None? && stopNext.None? && !targetDestroyed && !finiDone && !exit && failed == 0
    }

    ghost predicate Empty()
      reads this
    {
      num == 0 && groups == [] && toDestroy == {} && toCount == 0
    }

    ghost predicate Full()
      reads this
    {
      num == |groups| == |env.cores| && Distinct(groups)
    }

    /** `state` has just been written and its entry action has not run. */
    ghost predicate Entering()
      reads this
    {
      && env.Valid() && Honest() && Quiet() && state <= FINI_SUBSYSTEM && Ordered(log)
      && (forall e :: e in log ==> e < state)
      && (state < INIT_START_SUBSYSTEMS || state > FINI_POLL_GROUPS ==> Empty())
      && (INIT_START_SUBSYSTEMS <= state <= FINI_POLL_GROUPS ==> Full())
      && (state == FINI_POLL_GROUPS ==> FINI_STOP_SUBSYSTEMS in log)
    }

    /** What may be under way in each state, and what the poll groups are then. */
    ghost predicate Waiting()
      reads this
    {
      match state
      case 0 =>
        && Empty() && toCreate == {} && toAdd == {} && (initDone || !env.rpc) && failed == 0
        && startNext.None? && stopNext.None? && !targetDestroyed && !finiDone && !exit
      case 2 =>
        && num == |groups| < |env.cores| && Distinct(groups)
        && toCreate !! toAdd && toCreate !! Elems(groups) && toAdd !! Elems(groups)
        && |toCreate| + |toAdd| + |groups| + failed == |env.cores|
        && !initDone && toDestroy == {} && toCount == 0
        && startNext.None? && stopNext.None? && !targetDestroyed && !finiDone && !exit
      case 3 =>
        && Full() && startNext.Some? && Started(startNext.value + 1)
        && failed == 0 && !initDone && toCreate == {} && toAdd == {} && toDestroy == {} && toCount == 0
        && stopNext.None? && !targetDestroyed && !finiDone && !exit
      case 4 => Full() && Quiet()
      case 5 =>
        && Full() && stopNext.Some? && stopNext.value < |env.stopOk| && env.stopOk[stopNext.value]
        && failed == 0 && !initDone && toCreate == {} && toAdd == {} && toDestroy == {} && toCount == 0
        && startNext.None? && !targetDestroyed && !finiDone && !exit
      case 6 =>
        && groups == [] && num == |toDestroy| + toCount && 0 < num <= |env.cores|
        && failed == 0 && !initDone && toCreate == {} && toAdd == {}
        && startNext.None? && stopNext.None? && !targetDestroyed && !finiDone && !exit
      case 7 =>
        && Empty() && targetDestroyed && tgt && failed == 0
        && !initDone && toCreate == {} && toAdd == {} && startNext.None? && stopNext.None? && !finiDone && !exit
      case 8 =>
        && Empty() && (finiDone <==> !exit) && failed == 0
        && !initDone && toCreate == {} && toAdd == {} && startNext.None? && stopNext.None? && !targetDestroyed
      case _ => false
    }

    /** Between two messages. */
    ghost predicate Resting()
      reads this
    {
      && env.Valid() && Honest() && Waiting() && Ordered(log) && log != [] && log[|log| - 1] == state
      && (forall e :: e in log ==> e <= state)
    }

    /**
      The entry action of `FINI_POLL_GROUPS` has run twice exactly when all stops failed at once; a signal
      is waiting to be acted on, or has been.
      */
    ghost predicate Settled()
      reads this
    {
      (interrupted ==> shutdown || state > RUNNING) && SettledLog()
    }

    ghost predicate SettledLog()
      reads this
    {
      Twice(log) <==> state >= FINI_POLL_GROUPS && FINI_STOP_SUBSYSTEMS in log && env.AllStopsFail()
    }

    /** The message is waiting to be delivered. */
    ghost predicate UnderWay(m: Msg)
      reads this
    {
      match m
      case InitDone => initDone
      case CreateGroup(core, _) => core in toCreate
      case GroupCreated(core) => core in toAdd
      case StartNext(i) => startNext == Some(i)
      case StopNext(i) => stopNext == Some(i)
      case DestroyGroup(core) => core in toDestroy
      case GroupDestroyed => toCount > 0
      case TargetDestroyed => targetDestroyed
      case FiniDone => finiDone
      case Shutdown => shutdown
      case Signal => false
    }

    /** Delivering this message moves the target on. */
    ghost predicate Useful(m: Msg)
      reads this
    {
      UnderWay(m) && (m == Shutdown ==> state >= RUNNING)
    }

    /** No more deliveries than this are made from state `s` on. */
    ghost function Most(s: nat): nat {
      if s == FINI_SUBSYSTEM then 1
      else if s == FINI_TARGET then 2
      else if s == FINI_POLL_GROUPS then 2 * |env.cores| + 2
      else if s == FINI_STOP_SUBSYSTEMS then |env.stopOk| + 2 * |env.cores| + 2
      else if s == RUNNING then |env.stopOk| + 2 * |env.cores| + 3
      else if s == INIT_START_SUBSYSTEMS then |env.startOk| + |env.stopOk| + 2 * |env.cores| + 3
      else |env.startOk| + |env.stopOk| + 4 * |env.cores| + 4 + if s == INIT_SUBSYSTEM then 1 else 0
    }

    lemma MostFalls(s: nat, t: nat)
      requires s <= t <= FINI_SUBSYSTEM
      ensures Most(t) <= Most(s)
    {
    }

    /** Bounds the deliveries still to come, leaving out a shutdown that is sent again. */
    ghost function Left(): (n: nat)
      requires Resting()
      reads this
      ensures n <= Most(state) + if shutdown then 1 else 0
      ensures state < FINI_SUBSYSTEM && (state == INIT_SUBSYSTEM ==> initDone) ==>
                n > Most(state + 1) + if shutdown then 1 else 0
    {
      (if shutdown then 1 else 0) +
      match state
      case 0 => if initDone then Most(INIT_SUBSYSTEM) else 0
      case 2 => Most(INIT_START_SUBSYSTEMS) + 1 + 2 * |toCreate| + |toAdd|
      case 3 => Most(RUNNING) + |env.startOk| - startNext.value
      case 5 => Most(FINI_POLL_GROUPS) + |env.stopOk| - stopNext.value
      case 6 => Most(FINI_TARGET) + 2 * |toDestroy| + toCount
      case 8 => if exit then 0 else 1
      case _ => Most(state)
    }

    /** A later state has less to do. */
    twostate lemma Nearer()
      requires old(Resting()) && Resting() && state > old(state) && (shutdown ==> old(shutdown))
      requires old(state) == INIT_SUBSYSTEM ==> old(initDone)
      ensures Left() < old(Left())
    {
      assert old(Left()) > Most(old(state) + 1) + if shutdown then 1 else 0;
      MostFalls(old(state) + 1, state);
    }

    /** Every write of the state goes through here: it strictly increases. */
    method SetState(next: nat)
      requires next > state
      modifies this`state
      ensures state == next
    {
      state := next;
    }

    method CreateTarget()
      requires state == INIT_TARGET
      modifies this`state, this`tgt
      ensures state == (if env.createTarget && env.createDiscovery then INIT_POLL_GROUPS else FINI_TARGET)
      ensures tgt == env.createTarget
    {
      tgt := env.createTarget;
      if !tgt {
        SetState(FINI_TARGET);
        return;
      }
      if !env.createDiscovery {
        SetState(FINI_TARGET);
        return;
      }
      SetState(INIT_POLL_GROUPS);
    }

    /** One thread and one message per core. */
    method CreatePollGroups()
      requires toCreate == {} && Distinct(env.cores)
      modifies this`toCreate
      ensures toCreate == Elems(env.cores) && |toCreate| == |env.cores|
    {
      for i := 0 to |env.cores|
        invariant toCreate == Elems(env.cores[..i])
      {
        assert env.cores[..i + 1] == env.cores[..i] + [env.cores[i]];
        toCreate := toCreate + {env.cores[i]};
      }
      assert env.cores[..|env.cores|] == env.cores;
      CountDistinct(env.cores);
    }

    method StartSubsystems()
      requires state == INIT_START_SUBSYSTEMS
      modifies this`state, this`startNext
      ensures if |env.startOk| > 0 && env.startOk[0] then state == old(state) && startNext == Some(0)
              else startNext == old(startNext) && state == if |env.startOk| > 0 then FINI_STOP_SUBSYSTEMS else RUNNING
    {
      if |env.startOk| > 0 {
        if env.startOk[0] {
          startNext := Some(0);
        } else {
          SetState(FINI_STOP_SUBSYSTEMS);
        }
      } else {
        SetState(RUNNING);
      }
    }

    /** Every group leaves the list and gets a message to destroy itself. */
    method DestroyPollGroups()
      requires Distinct(groups) && toDestroy !! Elems(groups)
      modifies this`groups, this`toDestroy
      ensures groups == [] && toDestroy == old(toDestroy) + Elems(old(groups))
      ensures |toDestroy| == |old(toDestroy)| + |old(groups)|
    {
      ghost var all := groups;
      CountUnion(toDestroy, all);
      while groups != []
        invariant Distinct(groups) && toDestroy + Elems(groups) == old(toDestroy) + Elems(all)
        decreases |groups|
      {
        hide Distinct, Elems;
        var pg := groups[0];
        HeadAndRest(groups);
        groups := groups[1..];
        toDestroy := toDestroy + {pg};
      }
    }

    method DestroyTarget()
      requires state == FINI_TARGET
      modifies this`state, this`targetDestroyed
      ensures if tgt then state == old(state) && targetDestroyed
              else state == FINI_SUBSYSTEM && targetDestroyed == old(targetDestroyed)
    {
      if tgt {
        targetDestroyed := true;
      } else {
        SetState(FINI_SUBSYSTEM);
      }
    }

    /** The second round at `FINI_POLL_GROUPS`, after a nested advance has run its entry action. */
    ghost predicate Again()
      reads this
    {
      && state == FINI_POLL_GROUPS && Resting() && groups == []
      && env.AllStopsFail() && FINI_STOP_SUBSYSTEMS in log && !Twice(log)
    }

    /** In `FINI_STOP_SUBSYSTEMS` with its entry action begun, and nothing under way. */
    ghost predicate Stopping()
      reads this
    {
      && env.Valid() && Honest() && state == FINI_STOP_SUBSYSTEMS && Full() && Quiet() && Ordered(log)
      && log != [] && log[|log| - 1] == FINI_STOP_SUBSYSTEMS && forall e :: e in log ==> e <= FINI_STOP_SUBSYSTEMS
    }

    /** Some subsystem from `i` on can be stopped, and reports back later. */
    ghost predicate SomeStops(i: nat)
      reads this
    {
      exists j :: i <= j < |env.stopOk| && env.stopOk[j]
    }

    /** Subsystem `j` is the first from `i` on that can be stopped. */
    ghost predicate FirstStop(i: nat, j: nat)
      reads this
    {
      i <= j < |env.stopOk| && env.stopOk[j] && forall k :: i <= k < j ==> !env.stopOk[k]
    }

    /** The stop chain behind subsystem `i`: it goes on at once past every subsystem that cannot be stopped. */
    method StopAfter(i: nat)
      requires Stopping() && i < |env.stopOk|
      modifies this
      ensures unchanged(`shutdown, `interrupted) && unchanged(`tgt)
      ensures SomeStops(i + 1) ==> Resting() && state == FINI_STOP_SUBSYSTEMS && log == old(log)
      ensures SomeStops(i + 1) ==> stopNext.Some? && FirstStop(i + 1, stopNext.value)
      ensures !SomeStops(i + 1) ==> Resting() && state == FINI_POLL_GROUPS && log == old(log) + [FINI_POLL_GROUPS]
      decreases 9 - state, 0, |env.stopOk| - i
    {
      var next := i + 1;
      if next < |env.stopOk| {
        if env.stopOk[next] {
          stopNext := Some(next);
        } else {
          StopAfter(next);
        }
        return;
      }
      SetState(FINI_POLL_GROUPS);
      AdvanceState();
    }

    method StopSubsystems()
      requires Stopping()
      modifies this
      ensures unchanged(`shutdown, `interrupted) && unchanged(`tgt)
      ensures SomeStops(0) ==> Resting() && state == FINI_STOP_SUBSYSTEMS && log == old(log)
      ensures SomeStops(0) ==> stopNext.Some? && FirstStop(0, stopNext.value)
      ensures env.AllStopsFail() ==> Again() && log == old(log) + [FINI_POLL_GROUPS]
      ensures env.stopOk == [] ==> Entering() && state == FINI_POLL_GROUPS && log == old(log)
      decreases 9 - state, 1
    {
      if |env.stopOk| > 0 {
        if env.stopOk[0] {
          stopNext := Some(0);
        } else {
          PushHigher(log, FINI_POLL_GROUPS);
          NotYetTwice(log);
          StopAfter(0);
        }
      } else {
        SetState(FINI_POLL_GROUPS);
      }
    }

    lemma NotYetTwice(l: seq<nat>)
      requires forall e :: e in l ==> e < FINI_POLL_GROUPS
      ensures !Twice(l)
    {
      forall i | 0 <= i < |l| - 1
        ensures l[i] != FINI_POLL_GROUPS
      {
        assert l[i] in l;
      }
    }

    /** The entry action of `state` has begun: it is logged and nothing is under way. */
    ghost predicate Begun()
      reads this
    {
      && env.Valid() && Honest() && Quiet() && state <= FINI_SUBSYSTEM
      && Ordered(log) && log != [] && log[|log| - 1] == state && (forall e :: e in log ==> e <= state)
      && (state < INIT_START_SUBSYSTEMS || state > FINI_POLL_GROUPS ==> Empty())
      && (INIT_START_SUBSYSTEMS <= state <= FINI_POLL_GROUPS ==> Full())
    }

    ghost method Log()
      requires Entering() || Again()
      modifies `log
      ensures log == old(log) + [state]
      ensures old(Again()) ==> Resting() && groups == []
      ensures !old(Again()) ==> Begun()
      ensures Twice(log) <==> old(Twice(log)) || old(Again())
    {
      if Again() {
        PushAgain(log);
      } else {
        PushHigher(log, state);
      }
      log := log + [state];
    }

    method EnterEarly()
      requires Begun() && state <= INIT_POLL_GROUPS
      modifies `state, `tgt, `initDone, `toCreate
      ensures state == old(state) ==> Resting()
      ensures state != old(state) ==> state > old(state) && state != FINI_POLL_GROUPS && Entering()
      ensures state == Follow(env, old(tgt), old(state))
      ensures tgt == if old(state) == INIT_TARGET then env.createTarget else old(tgt)
      ensures old(state) == INIT_POLL_GROUPS ==> toCreate == Elems(env.cores)
    {
      if state == INIT_SUBSYSTEM {
        initDone := true;
      } else if state == INIT_TARGET {
        CreateTarget();
      } else {
        CreatePollGroups();
      }
    }

    method EnterMiddle()
      requires Begun() && INIT_START_SUBSYSTEMS <= state <= RUNNING
      modifies `state, `startNext
      ensures state == old(state) ==> Resting()
      ensures state != old(state) ==> state > old(state) && state != FINI_POLL_GROUPS && Entering()
      ensures state == Follow(env, tgt, old(state))
    {
      if state == INIT_START_SUBSYSTEMS {
        StartSubsystems();
      }
    }

    method EnterLate()
      requires Begun() && state > FINI_POLL_GROUPS
      modifies `state, `targetDestroyed, `finiDone
      ensures state == old(state) ==> Resting()
      ensures state != old(state) ==> state > old(state) && state != FINI_POLL_GROUPS && Entering()
      ensures state == Follow(env, tgt, old(state))
    {
      if state == FINI_TARGET {
        DestroyTarget();
      } else {
        finiDone := true;
      }
    }

    method EnterPollGroups()
      requires state == FINI_POLL_GROUPS && (Begun() || (Resting() && groups == []))
      modifies `groups, `toDestroy
      ensures Resting()
    {
      DestroyPollGroups();
    }

    /** The entry action of the present state; it may write the next state. */
    method EntryAction()
      requires Entering() || Again()
      modifies this
      ensures unchanged(`shutdown, `interrupted)
      ensures state == old(state) ==> Resting() && log == old(log) + [state]
      ensures state != old(state) ==>
                state > old(state) && (Entering() || (old(state) == FINI_STOP_SUBSYSTEMS && Again()))
      ensures state != old(state) ==> log == old(log) + [old(state)] + if Again() then [FINI_POLL_GROUPS] else []
      ensures old(state) == FINI_POLL_GROUPS ==> state == old(state)
      ensures old(state) == FINI_STOP_SUBSYSTEMS ==> (env.AllStopsFail() <==> Again())
      ensures Twice(log) <==> old(Twice(log)) || old(Again())
      ensures state == Follow(env, old(tgt), old(state))
      ensures tgt == if old(state) == INIT_TARGET then env.createTarget else old(tgt)
      ensures old(state) == INIT_POLL_GROUPS ==> toCreate == Elems(env.cores)
      decreases 9 - state, 2
    {
      hide Target.Waiting, Ordered, Twice;
      if state < FINI_POLL_GROUPS {
        NotYetTwice(log);
      }
      Log();
      if state <= INIT_POLL_GROUPS {
        EnterEarly();
      } else if state <= RUNNING {
        EnterMiddle();
      } else if state == FINI_STOP_SUBSYSTEMS {
        StopSubsystems();
      } else if state == FINI_POLL_GROUPS {
        EnterPollGroups();
      } else {
        EnterLate();
      }
    }

    /** Runs entry actions until one leaves the state alone. */
    method AdvanceState()
      requires Entering()
      modifies this
      ensures unchanged(`shutdown, `interrupted) && Resting() && state >= old(state) && old(log) <= log
      ensures old(state) == FINI_POLL_GROUPS ==> state == FINI_POLL_GROUPS && log == old(log) + [FINI_POLL_GROUPS]
      ensures old(state) < FINI_POLL_GROUPS ==> SettledLog()
      ensures old(state) > FINI_POLL_GROUPS ==>
                (Twice(log) <==> old(Twice(log))) && (FINI_STOP_SUBSYSTEMS in log <==> FINI_STOP_SUBSYSTEMS in old(log))
      ensures state == Rest(env, old(tgt), old(state)) && (old(state) != INIT_TARGET ==> tgt == old(tgt))
      ensures old(state) in log && (state == INIT_POLL_GROUPS ==> toCreate == Elems(env.cores))
      decreases 9 - state, 3
    {
      hide Target.Waiting, Target.Quiet, Target.Full, Target.Empty, Target.Honest, Ordered, Twice;
      if state < FINI_POLL_GROUPS {
        NotYetTwice(log);
      }
      var prev := state;
      EntryAction();
      while state != prev
        invariant unchanged(`shutdown, `interrupted) && state >= old(state) && old(log) <= log
        invariant if state == prev then Resting() else Entering() || Again()
        invariant old(state) == FINI_POLL_GROUPS ==>
                    state == prev == FINI_POLL_GROUPS && log == old(log) + [FINI_POLL_GROUPS]
        invariant old(state) < FINI_POLL_GROUPS && state == prev ==> SettledLog()
        invariant old(state) < FINI_POLL_GROUPS && state != prev ==> !Twice(log)
        invariant old(state) < FINI_POLL_GROUPS && state != prev && !Again() ==>
                    FINI_STOP_SUBSYSTEMS in log ==> !env.AllStopsFail()
        invariant old(state) > FINI_POLL_GROUPS ==>
                    && (Twice(log) <==> old(Twice(log)))
                    && (FINI_STOP_SUBSYSTEMS in log <==> FINI_STOP_SUBSYSTEMS in old(log))
        invariant Rest(env, tgt, state) == Rest(env, old(tgt), old(state)) && old(state) in log
        invariant state == prev ==> Follow(env, tgt, state) == state
        invariant old(state) != INIT_TARGET ==> tgt == old(tgt)
        invariant state == prev == INIT_POLL_GROUPS ==> toCreate == Elems(env.cores)
        decreases 9 - state, state != prev
      {
        prev := state;
        EntryAction();
      }
    }

    /** `nvmf_target_app_start`. */
    constructor (env: Env)
      requires env.Valid()
      ensures this.env == env && Resting() && Settled() && state == INIT_SUBSYSTEM && log == [INIT_SUBSYSTEM]
      ensures initDone && !interrupted && !shutdown && num == 0
    {
      this.env := env;
      state, tgt, num, groups, exit, initDone, toCreate, toAdd := INIT_SUBSYSTEM, false, 0, [], false, true, {}, {};
      toDestroy, toCount, startNext, stopNext, targetDestroyed, finiDone := {}, 0, None, None, false, false;
      shutdown, interrupted, log, failed, destroyed := false, false, [INIT_SUBSYSTEM], 0, false;
    }

    /** What every callback keeps. */
    twostate predicate Keeps()
      reads this
    {
      Resting() && Settled() && old(state) <= state && old(log) <= log
    }

    /** What the delivery of a message adds: there is less left to do. */
    twostate predicate Moves()
      requires old(Resting())
      reads this
    {
      Keeps() && Left() < old(Left())
    }

    method OnInitDone()
      requires Resting() && Settled() && initDone
      modifies this
      ensures Moves() && unchanged(`shutdown, `interrupted)
      ensures state == if env.rpc then Rest(env, old(tgt), INIT_TARGET) else INIT_SUBSYSTEM
      ensures state == INIT_POLL_GROUPS ==> toCreate == Elems(env.cores)
    {
      initDone := false;
      if !env.rpc {
        return;
      }
      SetState(INIT_TARGET);
      AdvanceState();
      Nearer();
    }

    /** On the group's own thread; when it cannot be created the message is lost. */
    method OnCreateGroup(core: nat, ok: bool)
      requires Resting() && Settled() && core in toCreate
      modifies this`toCreate, this`toAdd, this`failed
      ensures Moves() && old(state) == INIT_POLL_GROUPS
      ensures toCreate == old(toCreate) - {core} && toAdd == old(toAdd) + if ok then {core} else {}
      ensures failed == old(failed) + if ok then 0 else 1
    {
      hide Rest, Follow, Ordered, Twice;
      toCreate := toCreate - {core};
      if ok {
        toAdd := toAdd + {core};
      } else {
        failed := failed + 1;
      }
    }

    method OnGroupCreated(core: nat)
      requires Resting() && Settled() && core in toAdd
      modifies this
      ensures Moves() && old(state) == INIT_POLL_GROUPS && unchanged(`shutdown, `interrupted)
      ensures state == if old(num) + 1 == |env.cores| then Rest(env, old(tgt), INIT_START_SUBSYSTEMS)
                       else INIT_POLL_GROUPS
      ensures state == INIT_POLL_GROUPS ==> num == old(num) + 1 && groups == old(groups) + [core] && log == old(log)
      ensures state == INIT_POLL_GROUPS ==> toAdd == old(toAdd) - {core} && toCreate == old(toCreate)
    {
      hide Rest, Follow, Ordered, Twice;
      toAdd := toAdd - {core};
      groups := groups + [core];
      assert num < |env.cores|;
      num := num + 1;
      if num == |env.cores| {
        assert |toAdd| == old(|toAdd|) - 1 == 0 && |toCreate| == 0;
        SetState(INIT_START_SUBSYSTEMS);
        AdvanceState();
        Nearer();
      }
    }

    method OnStartNext()
      requires Resting() && Settled() && startNext.Some?
      modifies this
      ensures Moves() && unchanged(`shutdown, `interrupted)
      ensures var next := old(startNext).value + 1;
              state == if next >= |env.startOk| then RUNNING
                       else if env.startOk[next] then old(state)
                       else Rest(env, old(tgt), FINI_STOP_SUBSYSTEMS)
      ensures old(state) == INIT_START_SUBSYSTEMS
      ensures state == old(state) ==> startNext == Some(old(startNext).value + 1)
    {
      assert Rest(env, tgt, RUNNING) == RUNNING;
      hide Rest, Follow, Ordered, Twice;
      var next := startNext.value + 1;
      startNext := None;
      if next < |env.startOk| {
        if env.startOk[next] {
          startNext := Some(next);
        } else {
          SetState(FINI_STOP_SUBSYSTEMS);
          AdvanceState();
          Nearer();
        }
        return;
      }
      SetState(RUNNING);
      AdvanceState();
      Nearer();
    }

    method OnStopNext()
      requires Resting() && Settled() && stopNext.Some?
      modifies this
      ensures Moves()
      ensures old(state) == FINI_STOP_SUBSYSTEMS && unchanged(`shutdown, `interrupted)
      ensures state == if SomeStops(old(stopNext).value + 1) then old(state) else FINI_POLL_GROUPS
      ensures state == old(state) ==> stopNext.Some? && stopNext.value > old(stopNext).value
    {
      var i := stopNext.value;
      stopNext := None;
      StopAfter(i);
      if state != FINI_STOP_SUBSYSTEMS {
        Nearer();
      }
    }

    method OnDestroyGroup(core: nat)
      requires Resting() && Settled() && core in toDestroy
      modifies this`toDestroy, this`toCount
      ensures Moves() && old(state) == FINI_POLL_GROUPS
      ensures toDestroy == old(toDestroy) - {core} && toCount == old(toCount) + 1
    {
      toDestroy := toDestroy - {core};
      toCount := toCount + 1;
    }

    method OnGroupDestroyed()
      requires Resting() && Settled() && toCount > 0
      modifies this
      ensures Moves() && old(state) == FINI_POLL_GROUPS && unchanged(`shutdown, `interrupted)
      ensures old(num) == 1 ==>
                state == Rest(env, old(tgt), FINI_TARGET) && num == 0 && groups == [] && toDestroy == {} && toCount == 0
      ensures old(num) != 1 ==> state == old(state) && num == old(num) - 1 && log == old(log)
      ensures old(num) != 1 ==> toDestroy == old(toDestroy) && toCount == old(toCount) - 1
    {
      toCount := toCount - 1;
      assert num > 0;
      num := num - 1;
      if num == 0 {
        SetState(FINI_TARGET);
        AdvanceState();
        Nearer();
      }
    }

    method OnTargetDestroyed()
      requires Resting() && Settled() && targetDestroyed
      modifies this
      ensures Moves() && state == FINI_SUBSYSTEM && old(state) == FINI_TARGET && unchanged(`shutdown, `interrupted)
    {
      targetDestroyed, destroyed := false, true;
      SetState(FINI_SUBSYSTEM);
      AdvanceState();
      Nearer();
    }

    method OnFiniDone()
      requires Resting() && Settled() && finiDone
      modifies this`finiDone, this`exit
      ensures Moves() && exit && old(state) == FINI_SUBSYSTEM && !old(exit)
    {
      finiDone := false;
      exit := true;
    }

    /** The message is sent again while the target is still starting, and ignored once it is stopping. */
    method OnShutdown()
      requires Resting() && Settled() && shutdown
      modifies this
      ensures Keeps()
      ensures old(state) == RUNNING ==>
                !shutdown && state == Rest(env, old(tgt), FINI_STOP_SUBSYSTEMS) && FINI_STOP_SUBSYSTEMS in log
      ensures old(state) < RUNNING ==> unchanged(this)
      ensures old(state) > RUNNING ==> !shutdown && state == old(state) && log == old(log) && exit == old(exit)
      ensures old(state) >= RUNNING ==> Moves()
      ensures unchanged(`interrupted)
    {
      if state < RUNNING {
        return;
      }
      shutdown := false;
      if state > RUNNING {
        return;
      }
      SetState(FINI_STOP_SUBSYSTEMS);
      AdvanceState();
      Nearer();
    }

    method OnSignal()
      requires Resting() && Settled()
      modifies this`shutdown, this`interrupted
      ensures Keeps() && interrupted && shutdown == (old(shutdown) || !old(interrupted))
    {
      if !interrupted {
        interrupted := true;
        shutdown := true;
      }
    }

    /** Delivers a message if it is under way; but for a shutdown sent again, that brings the end nearer. */
    method Deliver(m: Msg)
      requires Resting() && Settled()
      modifies this
      ensures Keeps()
      ensures old(Useful(m)) ==> Moves()
      ensures !old(Useful(m)) && (m == Signal ==> old(interrupted)) ==> unchanged(this)
      ensures interrupted == (old(interrupted) || m == Signal)
    {
      hide Target.Waiting, Target.Honest, Target.Left, Ordered, Twice, Rest, Follow;
      match m
      case InitDone => if initDone { OnInitDone(); }
      case CreateGroup(core, ok) => if core in toCreate { OnCreateGroup(core, ok); }
      case GroupCreated(core) => if core in toAdd { OnGroupCreated(core); }
      case StartNext(i) => if startNext == Some(i) { OnStartNext(); }
      case StopNext(i) => if stopNext == Some(i) { OnStopNext(); }
      case DestroyGroup(core) => if core in toDestroy { OnDestroyGroup(core); }
      case GroupDestroyed => if toCount > 0 { OnGroupDestroyed(); }
      case TargetDestroyed => if targetDestroyed { OnTargetDestroyed(); }
      case FiniDone => if finiDone { OnFiniDone(); }
      case Shutdown => if shutdown { OnShutdown(); }
      case Signal => OnSignal();
    }

    /**
      Any order of deliveries and signals: the state never goes back, each entry action runs at most
      once but for the one exception, and the poll groups are accounted for throughout.
      */
    method Run(ms: seq<Msg>)
      requires Resting() && Settled()
      modifies this
      ensures Keeps()
      ensures interrupted <==> old(interrupted) || Signal in ms
    {
      for k := 0 to |ms|
        invariant Keeps()
        invariant interrupted <==> old(interrupted) || Signal in ms[..k]
      {
        Deliver(ms[k]);
      }
    }

    /** The start hangs: nothing is under way that would take it further. */
    predicate Hangs()
      reads this
    {
      || (state == INIT_SUBSYSTEM && !initDone)
      || (state == INIT_POLL_GROUPS && toCreate == {} && toAdd == {})
    }

    /** Until it hangs or exits, an interrupted target has a message under way that moves it on. */
    lemma SomethingUseful() returns (m: Msg)
      requires Resting() && Settled() && interrupted && !exit && !Hangs()
      ensures Useful(m)
    {
      if initDone {
        m := InitDone;
      } else if toCreate != {} {
        var c :| c in toCreate;
        m := CreateGroup(c, true);
      } else if toAdd != {} {
        var c :| c in toAdd;
        m := GroupCreated(c);
      } else if startNext.Some? {
        m := StartNext(startNext.value);
      } else if stopNext.Some? {
        m := StopNext(stopNext.value);
      } else if toDestroy != {} {
        var c :| c in toDestroy;
        m := DestroyGroup(c);
      } else {
        m := if toCount > 0 then GroupDestroyed else if targetDestroyed then TargetDestroyed
             else if finiDone then FiniDone else Shutdown;
      }
    }

    /** How long it takes the schedule to come to a message that moves the target on. */
    lemma NextUseful(sched: nat -> Msg, k: nat) returns (d: nat)
      requires Resting() && Settled() && interrupted && !exit && !Hangs() && Fair(sched)
      ensures Useful(sched(k + d))
    {
      var m := SomethingUseful();
      assert Offered(sched, m, k);
      var j :| j >= k && sched(j) == m;
      d := j - k;
    }

    lemma Ended()
      requires Resting() && (exit || Hangs())
      ensures exit || (state == INIT_SUBSYSTEM && !env.rpc) || (state == INIT_POLL_GROUPS && failed > 0)
      ensures exit ==> num == 0 && groups == [] && (destroyed <==> env.createTarget)
    {
    }

    /**
      Under every schedule that keeps offering each message a target that has been interrupted exits, whatever
      state it is in, unless its start hangs: the RPC server failed, or a poll group.
      */
    method Finish(sched: nat -> Msg)
      requires Resting() && Settled() && interrupted && Fair(sched)
      modifies this
      ensures Keeps() && interrupted
      ensures exit || (state == INIT_SUBSYSTEM && !env.rpc) || (state == INIT_POLL_GROUPS && failed > 0)
      ensures exit ==> num == 0 && groups == [] && (destroyed <==> env.createTarget)
    {
      hide Target.Waiting, Target.Honest, Target.Left, Ordered, Twice, Target.UnderWay, Target.Hangs;
      var k, over := 0, exit || Hangs();
      ghost var wait: nat := 0;
      if !over {
        wait := NextUseful(sched, k);
      }
      while !over
        invariant Keeps() && interrupted && over == (exit || Hangs())
        invariant !over ==> Useful(sched(k + wait))
        decreases Left(), wait
      {
        ghost var useful := Useful(sched(k));
        Deliver(sched(k));
        k, over := k + 1, exit || Hangs();
        if !useful {
          wait := wait - 1;
        } else if !over {
          wait := NextUseful(sched, k);
        }
      }
      Ended();
    }

    /** `num` counts the groups that are listed, about to be destroyed, or destroyed and not yet counted. */
    lemma GroupsAreCounted()
      requires Resting()
      ensures num == |groups| + |toDestroy| + toCount
      ensures INIT_START_SUBSYSTEMS <= state <= FINI_STOP_SUBSYSTEMS ==> |groups| == |env.cores|
      ensures state >= FINI_TARGET ==> num == 0 && groups == [] && toDestroy == {} && toCount == 0
    {
    }

    /**
      With nothing left to deliver the target is up and has not been interrupted, or has exited, or hangs in
      its start: the RPC server failed, or a poll group.
      */
    lemma NothingLeft()
      requires Resting() && Settled() && forall m :: !UnderWay(m)
      ensures state in {INIT_SUBSYSTEM, INIT_POLL_GROUPS, RUNNING, FINI_SUBSYSTEM}
      ensures state == INIT_SUBSYSTEM ==> !env.rpc
      ensures state == INIT_POLL_GROUPS ==> failed > 0
      ensures state == RUNNING ==> !interrupted && Started(|env.startOk|)
      ensures exit <==> state == FINI_SUBSYSTEM
      ensures interrupted ==> exit
      ensures exit ==> num == 0 && groups == [] && (destroyed <==> env.createTarget)
    {
      assert !UnderWay(InitDone) && !UnderWay(GroupDestroyed) && !UnderWay(TargetDestroyed);
      assert !UnderWay(FiniDone) && !UnderWay(Shutdown);
      if toCreate != {} {
        var c :| c in toCreate;
        assert UnderWay(CreateGroup(c, true));
      } else if toAdd != {} {
        var c :| c in toAdd;
        assert UnderWay(GroupCreated(c));
      } else if toDestroy != {} {
        var c :| c in toDestroy;
        assert UnderWay(DestroyGroup(c));
      } else if startNext.Some? {
        assert UnderWay(StartNext(startNext.value));
      } else if stopNext.Some? {
        assert UnderWay(StopNext(stopNext.value));
      }
    }

    lemma StillCreating()
      requires Resting() && state == INIT_POLL_GROUPS
      ensures num < |env.cores|
    {
    }

    lemma StillStarting()
      requires Resting() && state == INIT_START_SUBSYSTEMS
      ensures startNext.Some? && startNext.value < |env.startOk|
    {
    }

    /** An entry action runs twice only at `FINI_POLL_GROUPS`, and then exactly when all stops failed at once. */
    lemma EntryActionsRunOnce()
      requires Resting() && Settled()
      ensures forall i, j :: 0 <= i < j < |log| && log[i] == log[j] ==>
                log[i] == FINI_POLL_GROUPS && j == i + 1 && env.AllStopsFail()
      ensures state >= FINI_POLL_GROUPS && FINI_STOP_SUBSYSTEMS in log && env.AllStopsFail() ==>
                exists i :: 0 <= i < |log| - 1 && log[i] == FINI_POLL_GROUPS == log[i + 1]
    {
      forall i, j | 0 <= i < j < |log| && log[i] == log[j]
        ensures log[i] == FINI_POLL_GROUPS && j == i + 1 && env.AllStopsFail()
      {
        assert log[i] == FINI_POLL_GROUPS == log[i + 1];
      }
    }
  }

  lemma RestsOf(env: Env)
    requires env.createTarget && env.createDiscovery && env.startOk == [true] && env.AllStopsFail()
    ensures forall tgt :: Rest(env, tgt, INIT_TARGET) == INIT_POLL_GROUPS
    ensures forall tgt :: Rest(env, tgt, INIT_START_SUBSYSTEMS) == INIT_START_SUBSYSTEMS
    ensures forall tgt :: Rest(env, tgt, FINI_STOP_SUBSYSTEMS) == FINI_POLL_GROUPS
  {
    assert Rest(env, true, INIT_POLL_GROUPS) == INIT_POLL_GROUPS;
  }

  /**
    One core, and a discovery subsystem that starts and cannot be stopped: the shutdown enters
    `FINI_POLL_GROUPS` twice.
    */
  method StopFails() returns (t: Target)
    ensures t.Resting() && t.env.startOk == [true] && t.env.stopOk == [false]
    ensures t.state == FINI_POLL_GROUPS && Twice(t.log)
  {
    hide Target.Waiting, Ordered, Twice;
    var env := Env([0], true, true, true, [true], [false]);
    RestsOf(env);
    hide Rest, Follow, Target.Resting;
    t := new Target(env);
    t.OnSignal();
    t.OnInitDone();
    assert 0 in env.cores;
    t.OnCreateGroup(0, true);
    t.StillCreating();
    t.OnGroupCreated(0);
    t.StillStarting();
    t.OnStartNext();
    t.OnShutdown();
  }
}
