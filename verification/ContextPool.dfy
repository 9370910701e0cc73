/**
  The pool of request contexts: a fixed array of contexts handed out last-in first-out, backed by
  heap contexts when it is empty and the caller insists.
  */
module ContextPool {
  import opened Collections

  type Byte = bv8

  class Context {
    var available: bool
    var success: bool
    const buffer: array<Byte>

    constructor (size: nat)
      ensures fresh(this) && fresh(buffer) && buffer.Length == size && available && !success
    {
      buffer := new Byte[size](_ => 0);
      available, success := true, false;
    }

    method Clear()
      modifies this
      ensures available && !success
    {
      available, success := true, false;
    }
  }

  class Pool {
    const contexts: seq<Context>
    const bufferSize: nat
    var free: seq<Context>
    /** The buffers of the preallocated contexts. */
    ghost const memory: set<array<Byte>>
    /** The contexts that have been handed out and not returned. */
    ghost var held: set<Context>

    ghost function All(): set<Context>
      reads this
    {
      held + set c | c in contexts
    }

    /**
      The free contexts are preallocated and listed once; a preallocated context is free or held and
      never both; heap contexts are only ever held; no two contexts share a buffer.
      */
    ghost predicate Valid()
      reads this
    {
      && Distinct(contexts) && Distinct(free)
      && (forall c :: c in free ==> c in contexts && c !in held)
      && (forall c :: c in contexts ==> c in free || c in held)
      && (forall c :: c in All() ==> c.buffer.Length == bufferSize)
      && (forall c :: c in contexts ==> c.buffer in memory)
      && (forall c, d :: c in All() && d in All() && c != d ==> c.buffer != d.buffer)
    }

    constructor (capacity: nat, size: nat)
      ensures Valid() && held == {} && |contexts| == capacity && free == contexts && bufferSize == size
      ensures fresh(contexts) && forall c :: c in contexts ==> c.available
    {
      var cs: seq<Context> := [];
      for i := 0 to capacity
        invariant |cs| == i && Distinct(cs) && fresh(cs)
        invariant forall c :: c in cs ==> fresh(c.buffer) && c.available && c.buffer.Length == size
        invariant forall c, d :: c in cs && d in cs && c != d ==> c.buffer != d.buffer
      {
        var c := new Context(size);
        c.Clear();
        cs := cs + [c];
      }
      contexts, free, bufferSize, held, memory := cs, cs, size, {}, set c | c in cs :: c.buffer;
    }

    method Get(force: bool) returns (c: Context?)
      requires Valid()
      modifies this`free, this`held, contexts
      ensures Valid()
      ensures c == null <==> old(free) == [] && !force
      ensures c == null ==> free == old(free) && held == old(held)
      ensures c != null ==> c !in old(held) && held == old(held) + {c} && !c.available && !c.success
      ensures c != null && old(free) != [] ==> old(free) == free + [c]
      ensures c != null && old(free) == [] ==> fresh(c) && fresh(c.buffer) && free == []
    {
      if free == [] && !force {
        return null;
      }
      if free != [] {
        c := free[|free| - 1];
        assert c in free;
        free := free[..|free| - 1];
        c.Clear();
        c.available := false;
      } else {
        c := new Context(bufferSize);
        c.Clear();
        c.available := false;
      }
      held := held + {c};
    }

    method Return(c: Context)
      requires Valid() && c in held && c.available
      modifies this`free, this`held
      ensures Valid() && held == old(held) - {c}
      ensures free == old(free) + if c in contexts then [c] else []
    {
      if c in contexts {
        free := free + [c];
      }
      held := held - {c};
    }
  }

  /** `memcpy` of a whole buffer. */
  method Copy(from: array<Byte>, to: array<Byte>)
    requires from != to && from.Length == to.Length
    modifies to
    ensures to[..] == from[..]
  {
    for i := 0 to to.Length
      invariant to[..i] == from[..i]
    {
      to[i] := from[i];
    }
    assert to[..] == to[..to.Length] && from[..] == from[..from.Length];
  }

  /** `MakeWriteChunk`: a context that is held by nobody else, filled with the given bytes. */
  method MakeWriteChunk(pool: Pool, bytes: array<Byte>) returns (c: Context)
    requires pool.Valid() && bytes.Length == pool.bufferSize
    requires forall d :: d in pool.free ==> d.buffer != bytes
    modifies pool`free, pool`held, pool.contexts, pool.memory
    ensures pool.Valid() && c !in old(pool.held) && pool.held == old(pool.held) + {c}
    ensures c.buffer[..] == old(bytes[..])
    ensures forall d :: d in old(pool.held) ==> d.buffer[..] == old(d.buffer[..])
    ensures old(pool.free) != [] ==> old(pool.free) == pool.free + [c]
    ensures old(pool.free) == [] ==> fresh(c) && fresh(c.buffer) && pool.free == []
  {
    c := pool.Get(true);
    assert c in pool.All();
    Copy(bytes, c.buffer);
  }

  /**
    One step of the hand-over: the bytes of `slot` move to a context that nobody holds, and `slot` goes
    back to the pool.  What other holders have in their buffers stays.
    */
  method HandOverOne(pool: Pool, slot: Context) returns (w: Context)
    requires pool.Valid() && slot in pool.held
    modifies pool`free, pool`held, pool.contexts, pool.memory, slot
    ensures pool.Valid() && w !in old(pool.held) && pool.held == old(pool.held) - {slot} + {w}
    ensures w.buffer[..] == old(slot.buffer[..])
    ensures forall c :: c in old(pool.held) ==> c.buffer[..] == old(c.buffer[..])
  {
    w := MakeWriteChunk(pool, slot.buffer);
    slot.Clear();
    pool.Return(slot);
  }

  /**
    The hand-over from reads to writes: each read context is returned to the pool as soon as its
    bytes are copied, and may come back at once as the next write context.
    */
  method HandOver(pool: Pool, rs: seq<Context>) returns (ws: seq<Context>)
    requires pool.Valid() && Distinct(rs) && forall c :: c in rs ==> c in pool.held
    modifies pool`free, pool`held, pool.contexts, pool.memory, rs
    ensures pool.Valid() && |ws| == |rs| && Distinct(ws)
    ensures pool.held == old(pool.held) - Elems(rs) + Elems(ws)
    ensures forall i :: 0 <= i < |rs| ==> ws[i].buffer[..] == old(rs[i].buffer[..])
  {
    hide Pool.Valid;
    ws := [];
    for i := 0 to |rs|
      invariant pool.Valid() && |ws| == i && Distinct(ws)
      invariant pool.held == old(pool.held) - Elems(rs[..i]) + Elems(ws)
      invariant forall k :: i <= k < |rs| ==> rs[k] !in ws
      invariant forall k :: i <= k < |rs| ==> rs[k].buffer[..] == old(rs[k].buffer[..])
      invariant forall k :: 0 <= k < i ==> ws[k].buffer[..] == old(rs[k].buffer[..])
    {
      Advance(rs, i);
      assert forall k :: 0 <= k < |ws| ==> ws[k] in pool.held;
      assert forall k :: i <= k < |rs| ==> rs[k] in pool.held;
      var w := HandOverOne(pool, rs[i]);
      ws := ws + [w];
    }
    assert rs[..|rs|] == rs;
  }

  lemma Advance(rs: seq<Context>, i: nat)
    requires Distinct(rs) && i < |rs|
    ensures Elems(rs[..i + 1]) == Elems(rs[..i]) + {rs[i]}
    ensures forall k :: i <= k < |rs| ==> rs[k] !in Elems(rs[..i])
  {
    assert rs[..i + 1] == rs[..i] + [rs[i]];
  }
}
