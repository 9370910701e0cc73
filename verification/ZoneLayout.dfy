/** Where the populated objects lie: block addresses run through the zones of a device. */
module ZoneLayout {
  datatype Location = Location(device: nat, lba: nat)

  datatype MapEntry = MapEntry(locations: seq<Location>, len: nat, tombstoned: bool)

  /** A zone is `dist` blocks apart from the next, and blocks beyond offset `cap` are not used. */
  datatype Zones = Zones(first: nat, cap: nat, dist: nat) {
    predicate Valid() {
      dist > 0
    }

    /** The first zone used is entered at address 0, the later ones at their own start. */
    function Base(k: nat): nat {
      if k == 0 then 0 else (first + k) * dist
    }

    /** The address of the `i`-th object; with no gap between zones the addresses simply count up. */
    function Lba(i: nat): nat {
      if cap + 1 >= dist then i else Base(i / (cap + 1)) + i % (cap + 1)
    }
  }

  lemma Multiples(d: int, t: int)
    requires d > 0
    ensures t >= 1 ==> d * t >= d
    ensures t <= -1 ==> d * t <= -d
  {
    if t >= 1 {
      assert d * t == d + d * (t - 1);
    } else if t <= -1 {
      assert d * t == -d + d * (t + 1);
    }
  }

  lemma MultipleOffset(q: nat, d: nat, r: nat)
    requires r < d
    ensures (q * d + r) % d == r && (q * d + r) / d == q
  {
    var x := q * d + r;
    var t := x / d - q;
    assert d * t == r - x % d by {
      assert x == d * (x / d) + x % d;
      assert d * t == d * (x / d) - d * q;
    }
    Multiples(d, t);
  }

  lemma BaseOffset(z: Zones, k: nat, r: nat)
    requires z.Valid() && r < z.dist
    ensures (z.Base(k) + r) % z.dist == r
  {
    MultipleOffset(if k == 0 then 0 else z.first + k, z.dist, r);
  }

  /** Where the loop is: `k` zones are full and `r` addresses of the next one are used. */
  ghost predicate Position(z: Zones, i: nat, zone: nat, lba: nat, k: nat, r: nat) {
    && zone == z.first + k && i == k * (z.cap + 1) + r && r <= z.cap + 1
    && lba == z.Base(k) + r
  }

  /** One round of the loop before the entry is made; it gives the address of object `i`. */
  method Settle(z: Zones, zone: nat, lba: nat, ghost i: nat, ghost k: nat, ghost r: nat)
      returns (zone': nat, lba': nat, ghost k': nat, ghost r': nat)
    requires z.Valid()
    requires if z.cap + 1 >= z.dist then lba == i else Position(z, i, zone, lba, k, r)
    ensures lba' == z.Lba(i)
    ensures if z.cap + 1 >= z.dist then true else Position(z, i + 1, zone', lba' + 1, k', r')
  {
    zone', lba', k', r' := zone, lba, k, r;
    if z.cap + 1 < z.dist {
      BaseOffset(z, k, r);
    }
    var offset := lba % z.dist;
    if offset > z.cap {
      zone' := zone + 1;
      lba' := zone' * z.dist;
      k', r' := k + 1, 0;
      assert (k + 1) * (z.cap + 1) == k * (z.cap + 1) + (z.cap + 1);
    }
    if z.cap + 1 < z.dist {
      MultipleOffset(k', z.cap + 1, r');
      r' := r' + 1;
    }
  }

  /** Which device the first replica of object `i` is on, in the three ways of populating the map. */
  datatype Workload = Checkpoint | Collect | RandomRead

  function FirstDevice(w: Workload, i: nat): nat {
    match w
    case Checkpoint => i % 2
    case Collect => i % 6
    case RandomRead => i % 6
  }

  /** Over how many devices the first replicas are spread. */
  function Spread(w: Workload): nat {
    if w == Checkpoint then 2 else 6
  }

  /** First replicas go round: one more than before, and from the last device back to the first. */
  lemma FirstDevicesGoRound(w: Workload, i: nat)
    ensures FirstDevice(w, 0) == 0
    ensures FirstDevice(w, i + 1) == if FirstDevice(w, i) + 1 == Spread(w) then 0 else FirstDevice(w, i) + 1
  {
    match w
    case Checkpoint => RoundOfTwo(i);
    case _ => RoundOfSix(i);
  }

  lemma RoundOfTwo(i: nat)
    ensures (i + 1) % 2 == if i % 2 == 1 then 0 else 1
  {
  }

  lemma RoundOfSix(i: nat)
    ensures (i + 1) % 6 == if i % 6 == 5 then 0 else i % 6 + 1
  {
  }

  function Placed(w: Workload, z: Zones, len: nat, i: nat): MapEntry {
    var lba := z.Lba(i);
    MapEntry([Location(FirstDevice(w, i), lba), Location(1, lba), Location(2, lba)], len, w == Collect)
  }

  /**
    The replicas of an object lie at one address, on its first device and on devices 1 and 2: on three
    different devices exactly when the first one is neither of these.
    */
  lemma ReplicasApart(w: Workload, z: Zones, len: nat, i: nat)
    ensures var r := Placed(w, z, len, i).locations;
            && |r| == 3 && r[0].lba == r[1].lba == r[2].lba == z.Lba(i) && r[1].device == 1 && r[2].device == 2
            && (r[0].device != r[1].device && r[1].device != r[2].device && r[2].device != r[0].device <==>
                if w == Checkpoint then i % 2 == 0 else i % 6 == 0 || i % 6 >= 3)
  {
  }

  method PopulateCheckpointMap(size: nat, z: Zones, len: nat) returns (es: seq<MapEntry>)
    requires z.Valid()
    ensures |es| == size && forall i :: 0 <= i < size ==> es[i] == Placed(Checkpoint, z, len, i)
  {
    es := [];
    var zone, lba := z.first, 0;
    ghost var k, r := 0, 0;
    for i := 0 to size
      invariant |es| == i && forall j :: 0 <= j < i ==> es[j] == Placed(Checkpoint, z, len, j)
      invariant if z.cap + 1 >= z.dist then lba == i else Position(z, i, zone, lba, k, r)
    {
      var device := 0;
      if i % 2 == 0 {
        device := 0;
      } else if i % 2 == 1 {
        device := 1;
      }
      zone, lba, k, r := Settle(z, zone, lba, i, k, r);
      es := es + [MapEntry([Location(device, lba), Location(1, lba), Location(2, lba)], len, false)];
      lba := lba + 1;
    }
  }

  method PopulateCollectMap(size: nat, z: Zones, len: nat) returns (es: seq<MapEntry>)
    requires z.Valid()
    ensures |es| == size && forall i :: 0 <= i < size ==> es[i] == Placed(Collect, z, len, i)
  {
    es := [];
    var zone, lba := z.first, 0;
    ghost var k, r := 0, 0;
    for i := 0 to size
      invariant |es| == i && forall j :: 0 <= j < i ==> es[j] == Placed(Collect, z, len, j)
      invariant if z.cap + 1 >= z.dist then lba == i else Position(z, i, zone, lba, k, r)
    {
      var device := i % 6;
      zone, lba, k, r := Settle(z, zone, lba, i, k, r);
      var entry := MapEntry([Location(device, lba), Location(1, lba), Location(2, lba)], len, false);
      es := es + [entry.(tombstoned := true)];
      lba := lba + 1;
    }
  }

  method PopulateRandomReadMap(size: nat, z: Zones, len: nat) returns (es: seq<MapEntry>)
    requires z.Valid()
    ensures |es| == size && forall i :: 0 <= i < size ==> es[i] == Placed(RandomRead, z, len, i)
  {
    es := [];
    var zone, lba := z.first, 0;
    ghost var k, r := 0, 0;
    for i := 0 to size
      invariant |es| == i && forall j :: 0 <= j < i ==> es[j] == Placed(RandomRead, z, len, j)
      invariant if z.cap + 1 >= z.dist then lba == i else Position(z, i, zone, lba, k, r)
    {
      var device := i % 6;
      zone, lba, k, r := Settle(z, zone, lba, i, k, r);
      es := es + [MapEntry([Location(device, lba), Location(1, lba), Location(2, lba)], len, false)];
      lba := lba + 1;
    }
  }

  // ----- what the addresses are like -----

  /** No address lies in the unused part of a zone. */
  lemma OffsetWithinCapacity(z: Zones, i: nat)
    requires z.Valid()
    ensures z.Lba(i) % z.dist <= z.cap
  {
    if z.cap + 1 < z.dist {
      BaseOffset(z, i / (z.cap + 1), i % (z.cap + 1));
    }
  }

  /** A zone ends before the next one begins. */
  lemma BaseGap(z: Zones, k: nat)
    requires z.cap + 1 < z.dist
    ensures z.Base(k) + z.cap < z.Base(k + 1)
  {
    assert (z.first + k + 1) * z.dist == (z.first + k) * z.dist + z.dist;
  }

  lemma LbaAt(z: Zones, k: nat, r: nat)
    requires z.cap + 1 < z.dist && r <= z.cap
    ensures z.Lba(k * (z.cap + 1) + r) == z.Base(k) + r
  {
    MultipleOffset(k, z.cap + 1, r);
  }

  lemma NextLba(z: Zones, i: nat)
    requires z.Valid()
    ensures z.Lba(i) < z.Lba(i + 1)
  {
    if z.cap + 1 < z.dist {
      var c := z.cap + 1;
      var k, r := i / c, i % c;
      assert i == k * c + r;
      LbaAt(z, k, r);
      BaseGap(z, k);
      if r < z.cap {
        LbaAt(z, k, r + 1);
      } else {
        LbaAt(z, k + 1, 0);
        assert (k + 1) * c == k * c + c;
      }
    }
  }

  /** Addresses strictly increase, so no two objects share one. */
  lemma {:induction false} LbaIncreases(z: Zones, i: nat, j: nat)
    requires z.Valid() && i < j
    ensures z.Lba(i) < z.Lba(j)
    decreases j
  {
    NextLba(z, j - 1);
    if i == j - 1 {
    } else {
      LbaIncreases(z, i, j - 1);
    }
  }

  /** The zone an address lies in, and how far the zones have been filled. */
  lemma ZoneOf(z: Zones, i: nat)
    requires z.Valid() && z.cap + 1 < z.dist
    ensures z.Lba(i) / z.dist == if i <= z.cap then 0 else z.first + i / (z.cap + 1)
  {
    var c := z.cap + 1;
    var k := i / c;
    FirstZone(i, c);
    MultipleOffset(if k == 0 then 0 else z.first + k, z.dist, i % c);
  }

  lemma FirstZone(i: nat, c: nat)
    requires c > 0
    ensures i / c == 0 <==> i < c
  {
  }

  /** The moves to the next zone that the project's documentation shows in its log. */
  lemma DocumentedMoves()
    ensures var z := Zones(2, 275456, 524288);
            z.Lba(275457) == 1572864 && z.Lba(550914) == 2097152 && z.Lba(826371) == 2621440
  {
  }
}
