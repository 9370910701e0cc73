/** Which devices an object is written to, and what garbage collection moves off device 0. */
module Placement {
  import opened Collections
  import opened ZoneLayout

  /** Positions in the device list, in the order the three loops visit them. */
  type Triple = (nat, nat, nat)

  predicate Before(a: Triple, b: Triple) {
    a.0 < b.0 || (a.0 == b.0 && (a.1 < b.1 || (a.1 == b.1 && a.2 < b.2)))
  }

  predicate Legal(a: Triple, n: nat) {
    a.0 < n && a.1 < n && a.2 < n && a.0 != a.1 && a.0 != a.2 && a.1 != a.2
  }

  function Pick<T>(ds: seq<T>, a: Triple): (T, T, T)
    requires Legal(a, |ds|)
  {
    (ds[a.0], ds[a.1], ds[a.2])
  }

  /** `ts` holds every legal triple before `at`, in order and without repetition. */
  ghost predicate Upto(ts: seq<Triple>, n: nat, at: Triple) {
    && (forall m :: 0 <= m < |ts| ==> Legal(ts[m], n) && Before(ts[m], at))
    && (forall l, m :: 0 <= l < m < |ts| ==> Before(ts[l], ts[m]))
    && (forall a: Triple {:trigger Legal(a, n)} :: Legal(a, n) && Before(a, at) ==> a in ts)
  }

  /** Moving on from `at` to `next`, with no legal triple in between. */
  lemma MoveOn(ts: seq<Triple>, n: nat, at: Triple, next: Triple)
    requires Upto(ts, n, at) && Before(at, next)
    requires forall a: Triple {:trigger Legal(a, n)} :: Legal(a, n) && Before(a, next) ==> Before(a, at) || a == at
    ensures Upto(if Legal(at, n) then ts + [at] else ts, n, next)
  {
    var ts' := if Legal(at, n) then ts + [at] else ts;
    forall a: Triple | Legal(a, n) && Before(a, next)
      ensures a in ts'
    {
      assert Legal(a, n);
      assert a == at ==> ts'[|ts|] == a;
    }
  }

  function Less(i: nat, j: nat): nat {
    if i < j then 1 else 0
  }

  /** The innermost loop: all triples that start with `i`, `j`. */
  method ExtendPair<T>(ds: seq<T>, i: nat, j: nat, hash: seq<(T, T, T)>, ghost ts: seq<Triple>)
      returns (hash': seq<(T, T, T)>, ghost ts': seq<Triple>)
    requires i < |ds| && j < |ds| && i != j && Upto(ts, |ds|, (i, j, 0)) && Tuples(ds, ts, hash)
    ensures Upto(ts', |ds|, (i, j + 1, 0)) && Tuples(ds, ts', hash') && |ts'| == |ts| + |ds| - 2
  {
    hide Upto, Tuples;
    hash', ts' := hash, ts;
    for k := 0 to |ds|
      invariant Upto(ts', |ds|, (i, j, k)) && Tuples(ds, ts', hash') && |ts'| == |ts| + k - Less(i, k) - Less(j, k)
    {
      MoveOn(ts', |ds|, (i, j, k), (i, j, k + 1));
      if i == k || j == k {
        continue;
      }
      TuplesGrow(ds, ts', hash', (i, j, k));
      hash', ts' := hash' + [(ds[i], ds[j], ds[k])], ts' + [(i, j, k)];
    }
    MoveOn(ts', |ds|, (i, j, |ds|), (i, j + 1, 0));
  }

  ghost predicate Tuples<T>(ds: seq<T>, ts: seq<Triple>, hash: seq<(T, T, T)>) {
    && |ts| == |hash|
    && forall m :: 0 <= m < |ts| ==> Legal(ts[m], |ds|) && hash[m] == Pick(ds, ts[m])
  }

  lemma TuplesGrow<T>(ds: seq<T>, ts: seq<Triple>, hash: seq<(T, T, T)>, a: Triple)
    requires Tuples(ds, ts, hash) && Legal(a, |ds|)
    ensures Tuples(ds, ts + [a], hash + [Pick(ds, a)])
  {
  }

  lemma TuplesLength<T>(ds: seq<T>, ts: seq<Triple>, hash: seq<(T, T, T)>)
    requires Tuples(ds, ts, hash)
    ensures |ts| == |hash|
  {
  }

  lemma Nothing<T>(ds: seq<T>)
    ensures Upto([], |ds|, (0, 0, 0)) && Tuples(ds, [], [])
  {
  }

  lemma Product(a: int, b: int)
    ensures (a + 1) * b == a * b + b
  {
  }

  method PopulateDevHash<T>(ds: seq<T>) returns (hash: seq<(T, T, T)>, ghost ts: seq<Triple>)
    ensures Upto(ts, |ds|, (|ds|, 0, 0)) && Tuples(ds, ts, hash)
    ensures |hash| == |ds| * ((|ds| - 1) * (|ds| - 2))
  {
    hide Upto, Tuples;
    hash, ts := [], [];
    assert Upto(ts, |ds|, (0, 0, 0)) && Tuples(ds, ts, hash) by { Nothing(ds); }
    var n := |ds|;
    ghost var each := (n - 1) * (n - 2);
    for i := 0 to n
      invariant Upto(ts, n, (i, 0, 0)) && Tuples(ds, ts, hash) && |ts| == i * each
    {
      ghost var was := |ts|;
      for j := 0 to n
        invariant Upto(ts, n, (i, j, 0)) && Tuples(ds, ts, hash) && |ts| == was + (j - Less(i, j)) * (n - 2)
      {
        if i == j {
          MoveOn(ts, n, (i, j, 0), (i, j + 1, 0));
          continue;
        }
        hash, ts := ExtendPair(ds, i, j, hash, ts);
        Product(j - Less(i, j), n - 2);
      }
      MoveOn(ts, n, (i, n, 0), (i + 1, 0, 0));
      Product(i, each);
    }
    TuplesLength(ds, ts, hash);
  }

  /** Each ordered triple of different devices is in the list, and at one position only. */
  lemma EachTripleOnce<T>(ds: seq<T>, ts: seq<Triple>, hash: seq<(T, T, T)>, x: T, y: T, z: T) returns (m: nat)
    requires Upto(ts, |ds|, (|ds|, 0, 0)) && Tuples(ds, ts, hash) && Distinct(ds)
    requires x in ds && y in ds && z in ds && x != y && x != z && y != z
    ensures m < |hash| && hash[m] == (x, y, z)
    ensures forall l :: 0 <= l < |hash| && hash[l] == (x, y, z) ==> l == m
  {
    var i, j, k :| 0 <= i < |ds| && ds[i] == x && 0 <= j < |ds| && ds[j] == y && 0 <= k < |ds| && ds[k] == z;
    var a: Triple := (i, j, k);
    assert Legal(a, |ds|);
    m :| 0 <= m < |ts| && ts[m] == a;
    forall l | 0 <= l < |hash| && hash[l] == (x, y, z)
      ensures l == m
    {
      assert Legal(ts[l], |ds|) && hash[l] == Pick(ds, ts[l]);
      assert ts[l] == a;
    }
  }

  /** The list holds nothing but triples of different devices. */
  lemma OnlyDifferentDevices<T>(ds: seq<T>, ts: seq<Triple>, hash: seq<(T, T, T)>, m: nat)
    requires Tuples(ds, ts, hash) && Distinct(ds) && m < |hash|
    ensures var (x, y, z) := hash[m];
            x in ds && y in ds && z in ds && x != y && x != z && y != z
  {
    assert Legal(ts[m], |ds|) && hash[m] == Pick(ds, ts[m]);
  }

  // ----- garbage collection -----

  /** A device and the zone it is written in. */
  type Target = (nat, nat)

  function CreateMapEntry(t: (Target, Target, Target), lba1: nat, lba2: nat, lba3: nat, len: nat): MapEntry {
    MapEntry([Location(t.0.0, lba1), Location(t.1.0, lba2), Location(t.2.0, lba3)], len, false)
  }

  type Entry = e: MapEntry | |e.locations| == 3
    witness MapEntry([Location(0, 0), Location(0, 0), Location(0, 0)], 0, false)

  predicate OnDevice0(e: Entry) {
    e.locations[0].device == 0 || e.locations[1].device == 0 || e.locations[2].device == 0
  }

  predicate Victim(e: Entry) {
    e.tombstoned && OnDevice0(e)
  }

  /** The replica next to the one on device 0. */
  function Source(e: Entry): Location {
    if e.locations[0].device == 0 then e.locations[1]
    else if e.locations[1].device == 0 then e.locations[2]
    else e.locations[0]
  }

  /** The positions of the entries to move, in order. */
  function Victims(es: seq<Entry>): seq<nat> {
    if es == [] then []
    else
      var n := |es| - 1;
      Victims(es[..n]) + if Victim(es[n]) then [n] else []
  }

  function Live(es: seq<Entry>): nat {
    if es == [] then 0 else Live(es[..|es| - 1]) + if es[|es| - 1].tombstoned then 0 else 1
  }

  /** The positions of the entries that are kept. */
  function Kept(es: seq<Entry>): set<nat> {
    set i | 0 <= i < |es| && !es[i].tombstoned
  }

  lemma KeptLast(es: seq<Entry>)
    requires es != []
    ensures var n := |es| - 1;
            Kept(es) == Kept(es[..n]) + (if es[n].tombstoned then {} else {n}) && n !in Kept(es[..n])
  {
    var n := |es| - 1;
    assert forall i :: 0 <= i < n ==> es[..n][i] == es[i];
  }

  lemma {:induction false} LiveIsKept(es: seq<Entry>)
    ensures Live(es) == |Kept(es)|
  {
    if es == [] {
    } else {
      var n := |es| - 1;
      LiveIsKept(es[..n]);
      KeptLast(es);
      hide Kept;
    }
  }

  /** `vs` lists the entries to move, each once and in order. */
  ghost predicate ListsVictims(es: seq<Entry>, vs: seq<nat>) {
    && (forall m :: 0 <= m < |vs| ==> vs[m] < |es| && Victim(es[vs[m]]))
    && (forall l, m :: 0 <= l < m < |vs| ==> vs[l] < vs[m])
    && (forall i :: 0 <= i < |es| && Victim(es[i]) ==> i in vs)
  }

  lemma ListsOneMore(es: seq<Entry>, vs: seq<nat>)
    requires es != [] && ListsVictims(es[..|es| - 1], vs)
    ensures ListsVictims(es, vs + if Victim(es[|es| - 1]) then [|es| - 1] else [])
  {
    hide Victim;
    var n := |es| - 1;
    var vs' := vs + if Victim(es[n]) then [n] else [];
    forall m | 0 <= m < |vs|
      ensures Victim(es[vs[m]])
    {
      assert es[..n][vs[m]] == es[vs[m]];
    }
    forall i | 0 <= i < |es| && Victim(es[i])
      ensures i in vs'
    {
      if i < n {
        assert es[..n][i] == es[i];
      } else {
        assert vs'[|vs|] == n;
      }
    }
  }

  lemma {:induction false} VictimsAre(es: seq<Entry>)
    ensures ListsVictims(es, Victims(es))
  {
    hide ListsVictims, Victim;
    if es == [] {
      assert ListsVictims(es, []) by { NoneListed(); }
    } else {
      VictimsAre(es[..|es| - 1]);
      ListsOneMore(es, Victims(es[..|es| - 1]));
    }
  }

  lemma NoneListed()
    ensures ListsVictims([], [])
  {
  }

  /**
    The scan of the object map: one move per tombstoned entry with a replica on device 0, none for
    any other, and the number of entries kept.
    */
  method Map2Gc(es: seq<Entry>) returns (kept: nat, moves: seq<(Location, nat)>)
    ensures kept == Live(es) && |moves| == |Victims(es)|
    ensures forall m :: 0 <= m < |moves| ==>
              var v := Victims(es)[m];
              v < |es| && moves[m] == (Source(es[v]), es[v].len)
  {
    kept, moves := 0, [];
    for i := 0 to |es|
      invariant kept == Live(es[..i]) && |moves| == |Victims(es[..i])|
      invariant forall m :: 0 <= m < |moves| ==>
                  var v := Victims(es[..i])[m];
                  v < i && moves[m] == (Source(es[v]), es[v].len)
    {
      assert es[..i + 1][..i] == es[..i];
      var e := es[i];
      if !e.tombstoned {
        kept := kept + 1;
      }
      if e.tombstoned && OnDevice0(e) {
        if e.locations[0].device == 0 {
          moves := moves + [(e.locations[1], e.len)];
        } else if e.locations[1].device == 0 {
          moves := moves + [(e.locations[2], e.len)];
        } else if e.locations[2].device == 0 {
          moves := moves + [(e.locations[0], e.len)];
        }
      }
    }
    assert es[..|es|] == es;
  }

  /** The replica read is off device 0 unless the next one is on device 0 as well. */
  lemma SourceOffDevice0(e: Entry)
    requires OnDevice0(e)
    ensures var a, b, c := e.locations[0].device, e.locations[1].device, e.locations[2].device;
            Source(e).device != 0 <==> !(a == 0 && b == 0) && !(a != 0 && b == 0 && c == 0)
  {
  }

  /** One object as it was written: the triple drawn for it, and where each of the three appends landed. */
  datatype Write = Write(triple: nat, lbas: seq<nat>, len: nat)

  /** The device of the `j`-th target of a triple. */
  function DeviceOf(t: (Target, Target, Target), j: nat): nat {
    if j == 0 then t.0.0 else if j == 1 then t.1.0 else t.2.0
  }

  /** The entry says where the object is: on each device, the address that the append there returned. */
  ghost predicate Records(hash: seq<(Target, Target, Target)>, w: Write, e: MapEntry) {
    && w.triple < |hash| && |w.lbas| == 3 == |e.locations| && e.len == w.len
    && forall j :: 0 <= j < 3 ==> e.locations[j] == Location(DeviceOf(hash[w.triple], j), w.lbas[j])
  }

  lemma EntryRecords(hash: seq<(Target, Target, Target)>, w: Write)
    requires w.triple < |hash| && |w.lbas| == 3
    ensures var e := CreateMapEntry(hash[w.triple], w.lbas[0], w.lbas[1], w.lbas[2], w.len);
            Records(hash, w, e) && !e.tombstoned
  {
  }

  /** An entry placed on a triple of different devices is moved from a replica that is not on device 0. */
  lemma PlacedEntriesMove(ds: seq<Target>, ts: seq<Triple>, hash: seq<(Target, Target, Target)>, w: Write, e: Entry)
    returns (j: nat)
    requires Upto(ts, |ds|, (|ds|, 0, 0)) && Tuples(ds, ts, hash) && Records(hash, w, e) && e.tombstoned
    requires forall i, j :: 0 <= i < j < |ds| ==> ds[i].0 != ds[j].0
    ensures Victim(e) <==> exists k :: 0 <= k < 3 && DeviceOf(hash[w.triple], k) == 0
    ensures Victim(e) ==> j < 3 && Source(e) == Location(DeviceOf(hash[w.triple], j), w.lbas[j])
    ensures Victim(e) ==> Source(e).device != 0
  {
    var m := w.triple;
    assert Legal(ts[m], |ds|) && hash[m] == Pick(ds, ts[m]);
    assert forall k :: 0 <= k < 3 ==> e.locations[k].device == DeviceOf(hash[m], k);
    j := if e.locations[0].device == 0 then 1 else if e.locations[1].device == 0 then 2 else 0;
    assert e.locations[0].device != e.locations[1].device && e.locations[1].device != e.locations[2].device;
    assert DeviceOf(hash[m], 0) == e.locations[0].device && DeviceOf(hash[m], 1) == e.locations[1].device;
  }

  /**
    The object was written to device 0, and the move reads it from another device, at the address that
    the append there returned.
    */
  ghost predicate Reads(hash: seq<(Target, Target, Target)>, w: Write, move: (Location, nat)) {
    && w.triple < |hash| && |w.lbas| == 3 && (exists k :: 0 <= k < 3 && DeviceOf(hash[w.triple], k) == 0)
    && move.1 == w.len && move.0.device != 0
    && exists j :: 0 <= j < 3 && move.0 == Location(DeviceOf(hash[w.triple], j), w.lbas[j])
  }

  /**
    Garbage collection of a whole map of placed entries: every move is of a tombstoned entry with a
    replica on device 0, and reads that object where another of its appends has put it.
    */
  method CollectPlaced(ds: seq<Target>, hash: seq<(Target, Target, Target)>, es: seq<Entry>,
                       ghost ts: seq<Triple>, ghost ws: seq<Write>)
      returns (kept: nat, moves: seq<(Location, nat)>)
    requires Upto(ts, |ds|, (|ds|, 0, 0)) && Tuples(ds, ts, hash)
    requires forall i, j :: 0 <= i < j < |ds| ==> ds[i].0 != ds[j].0
    requires |ws| == |es| && forall i :: 0 <= i < |es| ==> Records(hash, ws[i], es[i])
    ensures kept == Live(es) && |moves| == |Victims(es)|
    ensures forall m :: 0 <= m < |moves| ==>
              var v := Victims(es)[m];
              v < |es| && es[v].tombstoned && Reads(hash, ws[v], moves[m])
  {
    hide Upto, Tuples, Victim, Source;
    kept, moves := Map2Gc(es);
    VictimsAre(es);
    forall m | 0 <= m < |moves|
      ensures var v := Victims(es)[m];
              v < |es| && es[v].tombstoned && Reads(hash, ws[v], moves[m])
    {
      var v := Victims(es)[m];
      assert Victim(es[v]) && Records(hash, ws[v], es[v]);
      VictimIsDead(es[v]);
      var j := PlacedEntriesMove(ds, ts, hash, ws[v], es[v]);
    }
  }

  lemma VictimIsDead(e: Entry)
    requires Victim(e)
    ensures e.tombstoned
  {
  }

  /** The multiples of 6 below `n`. */
  predicate Sixths(vs: seq<nat>, n: nat) {
    |vs| == (n + 5) / 6 && forall m :: 0 <= m < |vs| ==> vs[m] == 6 * m
  }

  lemma NextSixth(vs: seq<nat>, n: nat)
    requires Sixths(vs, n)
    ensures Sixths(vs + if n % 6 == 0 then [n] else [], n + 1)
  {
  }

  lemma CollectVictim(z: Zones, len: nat, i: nat)
    ensures Victim(Placed(Collect, z, len, i)) <==> i % 6 == 0
  {
    hide Zones.Lba;
  }

  lemma {:induction false} CollectVictims(es: seq<Entry>, z: Zones, len: nat)
    requires z.Valid() && forall i :: 0 <= i < |es| ==> es[i] == Placed(Collect, z, len, i)
    ensures Sixths(Victims(es), |es|)
  {
    hide Victim, Placed;
    if es == [] {
    } else {
      var n := |es| - 1;
      CollectVictims(es[..n], z, len);
      CollectVictim(z, len, n);
      NextSixth(Victims(es[..n]), n);
    }
  }

  /**
    The map populated for a garbage-collection run: every sixth object is moved, and read from its
    replica on device 1 at the object's own address.
    */
  method CollectPopulated(size: nat, z: Zones, len: nat) returns (kept: nat, moves: seq<(Location, nat)>)
    requires z.Valid()
    ensures kept == 0 && |moves| == (size + 5) / 6
    ensures forall m :: 0 <= m < |moves| ==> moves[m] == (Location(1, z.Lba(6 * m)), len)
  {
    hide *;
    var all := PopulateCollectMap(size, z, len);
    forall i | 0 <= i < |all|
      ensures |all[i].locations| == 3 && all[i].tombstoned
    {
      CollectEntry(z, len, i);
    }
    var es: seq<Entry> := all;
    kept, moves := Map2Gc(es);
    CollectVictims(es, z, len);
    NoneLive(es);
    forall m | 0 <= m < |moves|
      ensures moves[m] == (Location(1, z.Lba(6 * m)), len)
    {
      SixthAt(Victims(es), |es|, m);
      CollectSource(z, len, 6 * m);
    }
    assert |moves| == (size + 5) / 6 by { SixthsCount(Victims(es), |es|); }
  }

  lemma SixthAt(vs: seq<nat>, n: nat, m: nat)
    requires Sixths(vs, n) && m < |vs|
    ensures vs[m] == 6 * m
  {
  }

  lemma SixthsCount(vs: seq<nat>, n: nat)
    requires Sixths(vs, n)
    ensures |vs| == (n + 5) / 6
  {
  }

  lemma CollectEntry(z: Zones, len: nat, i: nat)
    ensures var e := Placed(Collect, z, len, i); |e.locations| == 3 && e.tombstoned
  {
    hide Zones.Lba;
  }

  lemma CollectSource(z: Zones, len: nat, i: nat)
    requires i % 6 == 0
    ensures var e := Placed(Collect, z, len, i);
            |e.locations| == 3 && Source(e) == Location(1, z.Lba(i)) && e.len == len
  {
    hide Zones.Lba;
  }

  lemma {:induction false} NoneLive(es: seq<Entry>)
    requires forall i :: 0 <= i < |es| ==> es[i].tombstoned
    ensures Live(es) == 0
  {
    if es == [] {
    } else {
      NoneLive(es[..|es| - 1]);
    }
  }
}
