/** getHealthyEndpoints: the load-balancer addresses that serve a cluster's zone, its region, and
    everyone, collected from the load-balancer status annotation of the federated ingress. */
module Endpoints {
  import opened Strings
  import opened DynStore

  datatype LbIngress = LbIngress(ip: string, hostname: string)
  type LbStatus = seq<LbIngress>
  type LbAnnotation = map<string, seq<LbStatus>>

  datatype ClusterInfo = ClusterInfo(zones: seq<string>, region: string)

  /** Clusters known to the federation; a missing one is a failed lookup. */
  type Directory = map<string, ClusterInfo>

  datatype Level = ZoneLevel | RegionLevel | GlobalLevel

  function Address(lb: LbIngress): string {
    if lb.ip != "" then lb.ip else lb.hostname
  }

  /** The entry shows the address: as its IP, or as its host name when it has no IP. */
  predicate ShownBy(lb: LbIngress, a: string) {
    a != "" && (lb.ip == a || (lb.ip == "" && lb.hostname == a))
  }

  predicate Nameless(lb: LbIngress) { lb.ip == "" && lb.hostname == "" }

  function AddressesIn(status: LbStatus): (list: seq<string>)
    ensures |list| == |status|
    ensures forall j :: 0 <= j < |status| ==> if Nameless(status[j]) then list[j] == "" else ShownBy(status[j], list[j])
  {
    seq(|status|, i requires 0 <= i < |status| => Address(status[i]))
  }

  /** All addresses of one cluster's statuses, in order; an empty one marks an error. */
  function AllAddresses(statuses: seq<LbStatus>): seq<string> {
    if statuses == [] then []
    else AllAddresses(statuses[..|statuses| - 1]) + AddressesIn(statuses[|statuses| - 1])
  }

  function Repeat(x: string, n: nat): (list: seq<string>)
    ensures |list| == n && forall i :: 0 <= i < n ==> list[i] == x
  {
    seq(n, i => x)
  }

  function Occurrences(zones: seq<string>, z: string): nat { multiset(zones)[z] }

  /** How many pairs of equal zones two clusters have. */
  function ZonePairs(lbZones: seq<string>, zones: seq<string>): nat {
    if lbZones == [] then 0
    else ZonePairs(lbZones[..|lbZones| - 1], zones) + Occurrences(zones, lbZones[|lbZones| - 1])
  }

  function Expand(addresses: seq<string>, n: nat): seq<string> {
    if addresses == [] then []
    else Expand(addresses[..|addresses| - 1], n) + Repeat(addresses[|addresses| - 1], n)
  }

  /** What the status of cluster `info` contributes to a level of cluster `home`. */
  function Part(level: Level, addresses: seq<string>, info: ClusterInfo, home: ClusterInfo): seq<string> {
    match level
    case ZoneLevel => Expand(addresses, ZonePairs(info.zones, home.zones))
    case RegionLevel => if info.region == home.region then addresses else []
    case GlobalLevel => addresses
  }

  predicate Good(dir: Directory, ann: LbAnnotation) {
    forall l :: l in ann ==> l in dir && "" !in AllAddresses(ann[l])
  }

  /** What one cluster of the annotation contributes. */
  function PartOf(level: Level, dir: Directory, ann: LbAnnotation, home: ClusterInfo, l: string): seq<string> {
    if l in ann && l in dir then Part(level, AllAddresses(ann[l]), dir[l], home) else []
  }

  /** The contributions of the clusters of the annotation, in a given order. */
  function Gather(level: Level, dir: Directory, ann: LbAnnotation, home: ClusterInfo, order: seq<string>): seq<string> {
    Flatten(PartsOf(level, dir, ann, home, order))
  }

  function PartsOf(level: Level, dir: Directory, ann: LbAnnotation, home: ClusterInfo,
                   order: seq<string>): (parts: seq<seq<string>>)
    ensures |parts| == |order|
  {
    seq(|order|, i requires 0 <= i < |order| => PartOf(level, dir, ann, home, order[i]))
  }

  datatype Lists3 = Lists3(zone: seq<string>, region: seq<string>, global: seq<string>) {
    function At(level: Level): seq<string> {
      match level case ZoneLevel => zone case RegionLevel => region case GlobalLevel => global
    }
  }

  // ---------------------------------------------------------------- the loops

  method MatchZones(address: string, lbZones: seq<string>, zones: seq<string>) returns (matched: seq<string>)
    ensures matched == Repeat(address, ZonePairs(lbZones, zones))
    ensures |matched| == |PairsOf(lbZones, zones)|
  {
    matched := [];
    for i := 0 to |lbZones|
      invariant matched == Repeat(address, ZonePairs(lbZones[..i], zones))
    {
      ghost var before := |matched|;
      for j := 0 to |zones|
        invariant matched == Repeat(address, before + Occurrences(zones[..j], lbZones[i]))
      {
        assert zones[..j + 1] == zones[..j] + [zones[j]];
        if lbZones[i] == zones[j] {
          matched := matched + [address];
        }
      }
      assert zones[..|zones|] == zones && lbZones[..i + 1][..i] == lbZones[..i];
    }
    assert lbZones[..|lbZones|] == lbZones;
    PairsCount(lbZones, zones);
  }

  /** One status: its entries in order; fails on an entry with neither address nor hostname. */
  method AddStatus(status: LbStatus, info: ClusterInfo, home: ClusterInfo, start: Lists3)
    returns (result: Option<Lists3>)
    ensures result.Some? <==> "" !in AddressesIn(status)
    ensures result.Some? ==> Added(start, result.value, AddressesIn(status), info, home)
  {
    var lists := start;
    for j := 0 to |status|
      invariant "" !in AddressesIn(status)[..j]
      invariant Added(start, lists, AddressesIn(status)[..j], info, home)
    {
      var address := Address(status[j]);
      assert AddressesIn(status)[j] == address;
      if |address| <= 0 {
        return None;
      }
      var matched := MatchZones(address, info.zones, home.zones);
      AddedSnoc(AddressesIn(status)[..j], address, info, home);
      assert AddressesIn(status)[..j + 1] == AddressesIn(status)[..j] + [address];
      lists := Lists3(lists.zone + matched,
                      if info.region == home.region then lists.region + [address] else lists.region,
                      lists.global + [address]);
    }
    assert AddressesIn(status)[..|status|] == AddressesIn(status);
    result := Some(lists);
  }

  /** One cluster's statuses. */
  method AddStatuses(statuses: seq<LbStatus>, info: ClusterInfo, home: ClusterInfo, start: Lists3)
    returns (result: Option<Lists3>)
    ensures result.Some? <==> "" !in AllAddresses(statuses)
    ensures result.Some? ==> Added(start, result.value, AllAddresses(statuses), info, home)
  {
    var lists := start;
    for i := 0 to |statuses|
      invariant "" !in AllAddresses(statuses[..i])
      invariant Added(start, lists, AllAddresses(statuses[..i]), info, home)
    {
      var next := AddStatus(statuses[i], info, home, lists);
      assert statuses[..i + 1][..i] == statuses[..i];
      if next.None? {
        StatusWithin(statuses, i, "");
        return None;
      }
      AddedBoth(start, lists, next.value, AllAddresses(statuses[..i]), AddressesIn(statuses[i]), info, home);
      lists := next.value;
    }
    assert statuses[..|statuses|] == statuses;
    result := Some(lists);
  }

  /** `lists` is `start` with the contributions of the addresses `seen` appended. */
  ghost predicate Added(start: Lists3, lists: Lists3, seen: seq<string>, info: ClusterInfo, home: ClusterInfo) {
    && lists.zone == start.zone + Part(ZoneLevel, seen, info, home)
    && lists.region == start.region + Part(RegionLevel, seen, info, home)
    && lists.global == start.global + Part(GlobalLevel, seen, info, home)
  }

  lemma AddedSnoc(seen: seq<string>, a: string, info: ClusterInfo, home: ClusterInfo)
    ensures Part(ZoneLevel, seen + [a], info, home)
         == Part(ZoneLevel, seen, info, home) + Repeat(a, ZonePairs(info.zones, home.zones))
  {
    assert (seen + [a])[..|seen + [a]| - 1] == seen;
  }

  lemma {:induction false} ExpandAppend(a: seq<string>, b: seq<string>, n: nat)
    ensures Expand(a + b, n) == Expand(a, n) + Expand(b, n)
  {
    if b == [] {
      assert a + b == a;
    } else {
      ExpandAppend(a, b[..|b| - 1], n);
      assert (a + b)[..|a + b| - 1] == a + b[..|b| - 1];
      Associates(Expand(a, n), Expand(b[..|b| - 1], n), Repeat(b[|b| - 1], n));
    }
  }

  lemma AddedBoth(start: Lists3, mid: Lists3, end: Lists3, a: seq<string>, b: seq<string>, info: ClusterInfo,
                  home: ClusterInfo)
    requires Added(start, mid, a, info, home) && Added(mid, end, b, info, home)
    ensures Added(start, end, a + b, info, home)
  {
    var n := ZonePairs(info.zones, home.zones);
    ExpandAppend(a, b, n);
    Associates(start.zone, Expand(a, n), Expand(b, n));
    Associates(start.region, a, b);
    Associates(start.global, a, b);
  }

  lemma {:induction false} StatusWithin(statuses: seq<LbStatus>, i: nat, a: string)
    requires i < |statuses| && a in AddressesIn(statuses[i])
    ensures a in AllAddresses(statuses)
    decreases |statuses|
  {
    var n := |statuses| - 1;
    if i < n {
      StatusWithin(statuses[..n], i, a);
    }
  }

  /** Some entry of the statuses shows the address. */
  predicate Shows(statuses: seq<LbStatus>, a: string) {
    exists i, j :: 0 <= i < |statuses| && 0 <= j < |statuses[i]| && ShownBy(statuses[i][j], a)
  }

  /** Every entry of the statuses has an IP or a host name. */
  predicate AllNamed(statuses: seq<LbStatus>) {
    forall i, j :: 0 <= i < |statuses| && 0 <= j < |statuses[i]| ==> !Nameless(statuses[i][j])
  }

  lemma {:induction false} AddressIsOfAnEntry(statuses: seq<LbStatus>, a: string) returns (i: nat, j: nat)
    requires a in AllAddresses(statuses)
    ensures i < |statuses| && j < |statuses[i]| && a == AddressesIn(statuses[i])[j]
  {
    var n := |statuses| - 1;
    if a in AddressesIn(statuses[n]) {
      i := n;
      j :| 0 <= j < |statuses[n]| && AddressesIn(statuses[n])[j] == a;
    } else {
      i, j := AddressIsOfAnEntry(statuses[..n], a);
    }
  }

  /** The addresses of statuses are those their entries show; one without address is an entry's. */
  lemma AddressesMean(statuses: seq<LbStatus>, a: string)
    ensures a != "" ==> (a in AllAddresses(statuses) <==> Shows(statuses, a))
    ensures "" in AllAddresses(statuses) <==> !AllNamed(statuses)
  {
    if a in AllAddresses(statuses) {
      var i, j := AddressIsOfAnEntry(statuses, a);
      assert a != "" ==> ShownBy(statuses[i][j], a);
    }
    if i, j :| 0 <= i < |statuses| && 0 <= j < |statuses[i]| && ShownBy(statuses[i][j], a) {
      assert AddressesIn(statuses[i])[j] == a;
      StatusWithin(statuses, i, a);
    }
    if "" in AllAddresses(statuses) {
      var i, j := AddressIsOfAnEntry(statuses, "");
      assert Nameless(statuses[i][j]);
    }
    if i, j :| 0 <= i < |statuses| && 0 <= j < |statuses[i]| && Nameless(statuses[i][j]) {
      assert AddressesIn(statuses[i])[j] == "";
      StatusWithin(statuses, i, "");
    }
  }

  /** The annotation is usable exactly when all its clusters are known and all entries are named. */
  lemma GoodMeans(dir: Directory, ann: LbAnnotation)
    ensures Good(dir, ann) <==> forall l :: l in ann ==> l in dir && AllNamed(ann[l])
  {
    forall l | l in ann { AddressesMean(ann[l], ""); }
  }

  /** getHealthyEndpoints; the clusters of the annotation come in an arbitrary order. */
  method GetHealthyEndpoints(dir: Directory, ann: LbAnnotation, cluster: string, deleted: bool)
    returns (result: Option<Lists3>, ghost order: seq<string>)
    ensures cluster !in dir ==> result == None
    ensures cluster in dir && deleted ==> result == Some(Lists3([], [], []))
    ensures cluster in dir && !deleted ==> (result.Some? <==> Good(dir, ann))
    ensures cluster in dir && !deleted ==> (result.Some? <==> forall l :: l in ann ==> l in dir && AllNamed(ann[l]))
    ensures cluster in dir && !deleted && result.Some? ==>
              Lists(order, ann.Keys) && forall level :: result.value.At(level) == Gather(level, dir, ann, dir[cluster], order)
  {
    order := [];
    GoodMeans(dir, ann);
    if cluster !in dir {
      return None, order;
    }
    var home := dir[cluster];
    var lists := Lists3([], [], []);
    if deleted {
      return Some(lists), order;
    }
    var rest := ann.Keys;
    while rest != {}
      invariant rest <= ann.Keys && Lists(order, ann.Keys - rest)
      invariant forall l :: l in ann.Keys - rest ==> l in dir && "" !in AllAddresses(ann[l])
      invariant forall level :: lists.At(level) == Gather(level, dir, ann, home, order)
    {
      var l :| l in rest;
      if l !in dir {
        return None, order;
      }
      var added := AddStatuses(ann[l], dir[l], home, lists);
      if added.None? {
        return None, order;
      }
      lists := added.value;
      ElemsSnoc(order, l);
      forall level { GatherSnoc(level, dir, ann, home, order, l); }
      order, rest := order + [l], rest - {l};
    }
    result := Some(lists);
  }

  lemma GatherAppend(level: Level, dir: Directory, ann: LbAnnotation, home: ClusterInfo, a: seq<string>, b: seq<string>)
    ensures Gather(level, dir, ann, home, a + b) == Gather(level, dir, ann, home, a) + Gather(level, dir, ann, home, b)
  {
    var pa, pb := PartsOf(level, dir, ann, home, a), PartsOf(level, dir, ann, home, b);
    assert PartsOf(level, dir, ann, home, a + b) == pa + pb;
    FlattenAppend(pa, pb);
  }

  lemma GatherOne(level: Level, dir: Directory, ann: LbAnnotation, home: ClusterInfo, l: string)
    ensures Gather(level, dir, ann, home, [l]) == PartOf(level, dir, ann, home, l)
  {
    assert PartsOf(level, dir, ann, home, [l]) == [PartOf(level, dir, ann, home, l)];
    FlattenOne(PartOf(level, dir, ann, home, l));
  }

  lemma GatherSnoc(level: Level, dir: Directory, ann: LbAnnotation, home: ClusterInfo, order: seq<string>, l: string)
    ensures Gather(level, dir, ann, home, order + [l])
         == Gather(level, dir, ann, home, order) + PartOf(level, dir, ann, home, l)
  {
    GatherAppend(level, dir, ann, home, order, [l]);
    GatherOne(level, dir, ann, home, l);
  }

  // ---------------------------------------------------------------- independence of the order

  /** Whatever order the map iteration takes, each level gets the same multiset of addresses. */
  lemma {:induction false} OrderIrrelevant(level: Level, dir: Directory, ann: LbAnnotation, home: ClusterInfo,
                                           p: seq<string>, q: seq<string>, keys: set<string>)
    requires Lists(p, keys) && Lists(q, keys)
    ensures multiset(Gather(level, dir, ann, home, p)) == multiset(Gather(level, dir, ann, home, q))
    decreases |p|
  {
    if p == [] {
      assert Elems(p) == {};
      EmptyList(q);
    } else {
      var n := |p| - 1;
      var x := p[n];
      assert p == p[..n] + [x] && x in Elems(p);
      assert x in Elems(q);
      var i :| 0 <= i < |q| && q[i] == x;
      var a, b := q[..i], q[i + 1..];
      assert q == a + [x] + b;
      RemovedLists(p, q, n, i, keys);
      OrderIrrelevant(level, dir, ann, home, p[..n], a + b, keys - {x});
      GatherMiddle(level, dir, ann, home, a, x, b);
      assert p == p[..n] + [x];
      GatherSnoc(level, dir, ann, home, p[..n], x);
    }
  }

  lemma GatherMiddle(level: Level, dir: Directory, ann: LbAnnotation, home: ClusterInfo,
                     a: seq<string>, x: string, b: seq<string>)
    ensures multiset(Gather(level, dir, ann, home, a + [x] + b))
         == multiset(Gather(level, dir, ann, home, a + b)) + multiset(PartOf(level, dir, ann, home, x))
  {
    GatherAppend(level, dir, ann, home, a, b);
    GatherSnoc(level, dir, ann, home, a, x);
    GatherAppend(level, dir, ann, home, a + [x], b);
  }

  lemma EmptyList<T>(list: seq<T>)
    ensures Elems(list) == {} ==> list == []
  {
    if list != [] {
      assert list[0] in Elems(list);
    }
  }

  lemma RemovedLists(p: seq<string>, q: seq<string>, n: nat, i: nat, keys: set<string>)
    requires Lists(p, keys) && Lists(q, keys) && n == |p| - 1 && i < |q| && q[i] == p[n]
    ensures Lists(p[..n], keys - {p[n]}) && Lists(q[..i] + q[i + 1..], keys - {p[n]})
  {
    var rest := q[..i] + q[i + 1..];
    assert forall j :: 0 <= j < |rest| ==> rest[j] == if j < i then q[j] else q[j + 1];
    assert p == p[..n] + [p[n]];
    ElemsSnoc(p[..n], p[n]);
    forall x
      ensures x in rest <==> x in keys && x != p[n]
    {
      if x in keys && x != p[n] {
        assert x in Elems(q);
        var j :| 0 <= j < |q| && q[j] == x;
        assert rest[if j < i then j else j - 1] == x;
      }
      if x in rest {
        var j :| 0 <= j < |rest| && rest[j] == x;
        assert x in Elems(q);
      }
    }
  }

  // ---------------------------------------------------------------- what the levels contain

  /** The addresses of a level, as a set. */
  function LevelSet(level: Level, dir: Directory, ann: LbAnnotation, home: ClusterInfo): set<string>
    requires Good(dir, ann)
  {
    set l, a | l in ann && a in PartOf(level, dir, ann, home, l) :: a
  }

  lemma {:induction false} GatherElems(level: Level, dir: Directory, ann: LbAnnotation, home: ClusterInfo,
                                       order: seq<string>)
    ensures forall a :: a in Gather(level, dir, ann, home, order)
                   <==> exists l :: l in order && a in PartOf(level, dir, ann, home, l)
  {
    if order != [] {
      var n := |order| - 1;
      GatherElems(level, dir, ann, home, order[..n]);
      assert order == order[..n] + [order[n]];
      GatherSnoc(level, dir, ann, home, order[..n], order[n]);
      assert forall l :: l in order <==> l in order[..n] || l == order[n];
    }
  }

  lemma GatherIsLevelSet(level: Level, dir: Directory, ann: LbAnnotation, home: ClusterInfo, order: seq<string>)
    requires Good(dir, ann) && Lists(order, ann.Keys)
    ensures Elems(Gather(level, dir, ann, home, order)) == LevelSet(level, dir, ann, home)
  {
    assert forall l :: l in order <==> l in Elems(order);
    GatherElems(level, dir, ann, home, order);
  }

  lemma Distribute(n: nat, m: nat)
    ensures n * (m + 1) == n * m + n
  {
  }

  lemma CountSnoc(list: seq<string>, x: string, a: string)
    ensures multiset(list + [x])[a] == multiset(list)[a] + if a == x then 1 else 0
  {
  }

  /** An address is counted once per pair of equal zones. */
  lemma {:induction false} ExpandCounts(addresses: seq<string>, n: nat, a: string)
    ensures multiset(Expand(addresses, n))[a] == n * multiset(addresses)[a]
  {
    if addresses != [] {
      var k := |addresses| - 1;
      ExpandCounts(addresses[..k], n, a);
      RepeatCounts(addresses[k], n, a);
      CountSnoc(addresses[..k], addresses[k], a);
      assert addresses == addresses[..k] + [addresses[k]];
      Distribute(n, multiset(addresses[..k])[a]);
    }
  }

  lemma {:induction false} RepeatCounts(x: string, n: nat, a: string)
    ensures multiset(Repeat(x, n))[a] == if a == x then n else 0
  {
    if n > 0 {
      RepeatCounts(x, n - 1, a);
      assert Repeat(x, n) == Repeat(x, n - 1) + [x];
    }
  }

  lemma ExpandElems(addresses: seq<string>, n: nat)
    ensures forall a :: a in Expand(addresses, n) <==> n > 0 && a in addresses
  {
    forall a
      ensures a in Expand(addresses, n) <==> n > 0 && a in addresses
    {
      ExpandCounts(addresses, n, a);
      assert a in Expand(addresses, n) <==> a in multiset(Expand(addresses, n));
      assert a in addresses <==> a in multiset(addresses);
    }
  }

  /** The pairs of positions at which two clusters have equal zones. */
  function PairsOf(lbZones: seq<string>, zones: seq<string>): set<(nat, nat)> {
    set i: nat, j: nat | i < |lbZones| && j < |zones| && lbZones[i] == zones[j] :: (i, j)
  }

  function PositionsOf(n: nat, zones: seq<string>, z: string): set<(nat, nat)> {
    set j: nat | j < |zones| && zones[j] == z :: (n, j)
  }

  lemma {:induction false} PositionsCount(n: nat, zones: seq<string>, z: string)
    ensures |PositionsOf(n, zones, z)| == Occurrences(zones, z)
  {
    if zones == [] {
      assert PositionsOf(n, zones, z) == {};
    } else {
      var k := |zones| - 1;
      PositionsCount(n, zones[..k], z);
      CountSnoc(zones[..k], zones[k], z);
      assert zones == zones[..k] + [zones[k]];
      assert PositionsOf(n, zones, z) == PositionsOf(n, zones[..k], z) + if zones[k] == z then {(n, k)} else {};
    }
  }

  /** An address is added once for every such pair. */
  lemma {:induction false} PairsCount(lbZones: seq<string>, zones: seq<string>)
    ensures ZonePairs(lbZones, zones) == |PairsOf(lbZones, zones)|
  {
    if lbZones == [] {
      assert PairsOf(lbZones, zones) == {};
    } else {
      var k := |lbZones| - 1;
      PairsCount(lbZones[..k], zones);
      PositionsCount(k, zones, lbZones[k]);
      assert PairsOf(lbZones, zones) == PairsOf(lbZones[..k], zones) + PositionsOf(k, zones, lbZones[k]);
      assert PairsOf(lbZones[..k], zones) !! PositionsOf(k, zones, lbZones[k]);
    }
  }

  /** Two clusters share a zone exactly when they have a pair of equal zones. */
  lemma {:induction false} PairsExactly(lbZones: seq<string>, zones: seq<string>)
    ensures ZonePairs(lbZones, zones) > 0 <==> exists z :: z in lbZones && z in zones
  {
    if lbZones != [] {
      var n := |lbZones| - 1;
      PairsExactly(lbZones[..n], zones);
      assert lbZones == lbZones[..n] + [lbZones[n]];
      assert lbZones[n] in zones <==> lbZones[n] in multiset(zones);
    }
  }

  /** The zone level of a cluster: the addresses of the clusters it shares a zone with. */
  lemma ZoneLevelMeans(dir: Directory, ann: LbAnnotation, home: ClusterInfo, a: string)
    requires Good(dir, ann)
    ensures a in LevelSet(ZoneLevel, dir, ann, home)
       <==> exists l :: l in ann && a in AllAddresses(ann[l]) && exists z :: z in dir[l].zones && z in home.zones
  {
    forall l | l in ann
      ensures a in PartOf(ZoneLevel, dir, ann, home, l)
         <==> a in AllAddresses(ann[l]) && exists z :: z in dir[l].zones && z in home.zones
    {
      ExpandElems(AllAddresses(ann[l]), ZonePairs(dir[l].zones, home.zones));
      PairsExactly(dir[l].zones, home.zones);
    }
  }

  /** Two clusters belong together at a level. */
  predicate Near(level: Level, info: ClusterInfo, home: ClusterInfo) {
    match level
    case ZoneLevel => exists z :: z in info.zones && z in home.zones
    case RegionLevel => info.region == home.region
    case GlobalLevel => true
  }

  /** The endpoints of a level are exactly the addresses of the clusters that belong there. */
  lemma LevelMeans(level: Level, dir: Directory, ann: LbAnnotation, home: ClusterInfo, a: string)
    requires Good(dir, ann)
    ensures a in LevelSet(level, dir, ann, home)
       <==> exists l :: l in ann && Shows(ann[l], a) && Near(level, dir[l], home)
  {
    forall l | l in ann
      ensures a in PartOf(level, dir, ann, home, l) <==> Shows(ann[l], a) && Near(level, dir[l], home)
    {
      AddressesMean(ann[l], a);
      ExpandElems(AllAddresses(ann[l]), ZonePairs(dir[l].zones, home.zones));
      PairsExactly(dir[l].zones, home.zones);
    }
  }

  /** The levels nest: region within global always, zone within region when equal zones lie in
      equal regions. */
  lemma LevelsNest(dir: Directory, ann: LbAnnotation, home: ClusterInfo)
    requires Good(dir, ann)
    ensures LevelSet(RegionLevel, dir, ann, home) <= LevelSet(GlobalLevel, dir, ann, home)
    ensures (forall l, z :: l in ann && z in dir[l].zones && z in home.zones ==> dir[l].region == home.region)
        ==> LevelSet(ZoneLevel, dir, ann, home) <= LevelSet(RegionLevel, dir, ann, home)
  {
    forall a | a in LevelSet(RegionLevel, dir, ann, home)
      ensures a in LevelSet(GlobalLevel, dir, ann, home)
    {
      var l :| l in ann && a in PartOf(RegionLevel, dir, ann, home, l);
      assert a in PartOf(GlobalLevel, dir, ann, home, l);
    }
    if forall l, z :: l in ann && z in dir[l].zones && z in home.zones ==> dir[l].region == home.region {
      forall a | a in LevelSet(ZoneLevel, dir, ann, home)
        ensures a in LevelSet(RegionLevel, dir, ann, home)
      {
        ZoneLevelMeans(dir, ann, home, a);
        var l :| l in ann && a in AllAddresses(ann[l]) && exists z :: z in dir[l].zones && z in home.zones;
        assert a in PartOf(RegionLevel, dir, ann, home, l);
      }
    }
  }

  /** A level depends only on what it is named after: the zone level on the set of zones, the
      region level on the region, the global level on nothing. */
  lemma LevelDependsOn(level: Level, dir: Directory, ann: LbAnnotation, home: ClusterInfo, other: ClusterInfo)
    requires Good(dir, ann)
    requires level == ZoneLevel ==> Elems(home.zones) == Elems(other.zones)
    requires level == RegionLevel ==> home.region == other.region
    ensures LevelSet(level, dir, ann, home) == LevelSet(level, dir, ann, other)
  {
    if level == ZoneLevel {
      forall a
        ensures a in LevelSet(level, dir, ann, home) <==> a in LevelSet(level, dir, ann, other)
      {
        ZoneLevelMeans(dir, ann, home, a);
        ZoneLevelMeans(dir, ann, other, a);
        assert forall z :: z in home.zones <==> z in Elems(home.zones);
        assert forall z :: z in other.zones <==> z in Elems(other.zones);
      }
    } else {
      assert forall l :: PartOf(level, dir, ann, home, l) == PartOf(level, dir, ann, other, l);
    }
  }
}
