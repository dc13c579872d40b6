/** The DNS controller: for every cluster of the status annotation, keep the zone, region and global
    names of an ingress as A records or as CNAMEs one level up. */
module DnsController {
  import opened Strings
  import opened DynRecords
  import opened DynStore
  import opened EnsureRrsets
  import opened Endpoints
  import opened Names

  /** What the controller is configured with and can look up. */
  datatype Setup = Setup(zone: string, cfg: Config, dir: Directory, net: Resolver)

  /** The parts of a federated ingress that the controller reads. */
  datatype FedIngress = FedIngress(name: string, namespace: string, deleted: bool, lbStatus: LbStatus,
                                   annotation: Option<LbAnnotation>)

  function Annotation(ing: FedIngress): LbAnnotation {
    if ing.annotation.Some? then ing.annotation.value else map[]
  }

  function PlaceOf(info: ClusterInfo, level: Level): Place
    requires info.zones != []
  {
    match level
    case ZoneLevel => ZonePlace(info.zones[0], info.region)
    case RegionLevel => RegionPlace(info.region)
    case GlobalLevel => GlobalPlace
  }

  function NameAt(st: Setup, ing: FedIngress, info: ClusterInfo, level: Level): string
    requires info.zones != []
  {
    DnsName(st.cfg, ing.name, ing.namespace, PlaceOf(info, level))
  }

  function NextUp(level: Level): Level {
    match level case ZoneLevel => RegionLevel case RegionLevel => GlobalLevel case GlobalLevel => GlobalLevel
  }

  function UplevelName(st: Setup, ing: FedIngress, info: ClusterInfo, level: Level): string
    requires info.zones != []
  {
    if level == GlobalLevel then "" else NameAt(st, ing, info, NextUp(level))
  }

  /** The path up the tree: what the three names of a cluster look like, and where each one's CNAME leads. */
  lemma PathUp(st: Setup, ing: FedIngress, info: ClusterInfo)
    requires info.zones != []
    ensures var common := ing.name + "." + ing.namespace + "." + st.cfg.federation + "." + st.cfg.suffix;
            var zone := common + "." + info.zones[0] + "." + info.region + "." + st.cfg.domain;
            var region := common + "." + info.region + "." + st.cfg.domain;
            var global := common + "." + st.cfg.domain;
            && NameAt(st, ing, info, ZoneLevel) == zone && UplevelName(st, ing, info, ZoneLevel) == region
            && NameAt(st, ing, info, RegionLevel) == region && UplevelName(st, ing, info, RegionLevel) == global
            && NameAt(st, ing, info, GlobalLevel) == global && UplevelName(st, ing, info, GlobalLevel) == ""
  {
    NameFromStem(st.cfg, ing.name, ing.namespace, ZonePlace(info.zones[0], info.region));
    NameFromStem(st.cfg, ing.name, ing.namespace, RegionPlace(info.region));
    NameFromStem(st.cfg, ing.name, ing.namespace, GlobalPlace);
  }

  // ---------------------------------------------------------------- what every name should hold

  /** The endpoints of a level; none at all for a deleted ingress. */
  function EndpointsAt(st: Setup, ing: FedIngress, info: ClusterInfo, level: Level): set<string>
    requires ing.deleted || Good(st.dir, Annotation(ing))
  {
    if ing.deleted then {} else LevelSet(level, st.dir, Annotation(ing), info)
  }

  function WantedAt(st: Setup, ing: FedIngress, info: ClusterInfo, level: Level): set<Record>
    requires info.zones != [] && (ing.deleted || Good(st.dir, Annotation(ing)))
  {
    var name, endpoints := NameAt(st, ing, info, level), EndpointsAt(st, ing, info, level);
    if endpoints != {} then Records(st.zone, name, ResolvedOf(st.net, endpoints), A)
    else if level != GlobalLevel then
      {NewRecord(st.zone, name, [UplevelName(st, ing, info, level)], MIN_DNS_TTL, CNAME)}
    else {}
  }

  /** The records wanted at a name, field by field: the level's addresses, or a CNAME one level up. */
  lemma WantedMeans(st: Setup, ing: FedIngress, info: ClusterInfo, level: Level, r: Record)
    requires info.zones != [] && (ing.deleted || Good(st.dir, Annotation(ing)))
    ensures var endpoints := if ing.deleted then {} else LevelSet(level, st.dir, Annotation(ing), info);
            r in WantedAt(st, ing, info, level) <==>
              && r.zone == st.zone && r.name == RelativeName(st.zone, NameAt(st, ing, info, level))
              && r.fqdn == r.name + "." + st.zone && r.ttl == "180" && r.id == ""
              && if endpoints != {} then r.rtype == "A" && exists e :: e in endpoints && StandsFor(st.net, e, r.value)
                 else level != GlobalLevel && r.rtype == "CNAME" && r.value == UplevelName(st, ing, info, level)
  {
    assert FormatInt(MIN_DNS_TTL) == "180";
    ResolvedMeans(st.net, EndpointsAt(st, ing, info, level), r.value);
    assert forall a: string :: Join([a], ',') == a;
  }

  /** The records wanted at a name are a function of the set of endpoints. */
  lemma TargetFromSet(st: Setup, ing: FedIngress, info: ClusterInfo, level: Level, list: seq<string>)
    requires info.zones != [] && (ing.deleted || Good(st.dir, Annotation(ing)))
    requires level != GlobalLevel ==> UplevelName(st, ing, info, level) != ""
    requires Elems(list) == EndpointsAt(st, ing, info, level)
    ensures Target(st.zone, st.net, NameAt(st, ing, info, level), list, UplevelName(st, ing, info, level))
         == WantedAt(st, ing, info, level)
  {
    EmptyList(list);
    if list != [] {
      assert list[0] in Elems(list);
    }
  }

  /** A name the provider can write and read back. */
  predicate Managed(zone: string, fqdn: string) {
    var name := RelativeName(zone, fqdn);
    fqdn == name + "." + zone && Normal(zone, name) && !KeyLike(name) && ',' !in fqdn
  }

  /** Which names those are, for a proper zone. */
  lemma ManagedExactly(zone: string, name: string)
    requires zone != "" && zone[|zone| - 1] != '.' && ',' !in name && ',' !in zone
    ensures Managed(zone, name + "." + zone)
       <==> !KeyLike(name) && !HasSuffix(name, ".") && !HasSuffix(name, "." + zone)
  {
    var fqdn := name + "." + zone;
    assert fqdn[|fqdn| - 1] == zone[|zone| - 1];
    assert fqdn == name + ("." + zone);
    SuffixOfConcat(name, "." + zone);
    assert RelativeName(zone, fqdn) == name;
    NormalExactly(zone, name);
  }

  /** The cluster's zones and the endpoints can be looked up. */
  predicate Answered(st: Setup, ing: FedIngress, cluster: string) {
    cluster in st.dir && st.dir[cluster].zones != [] && (ing.deleted || Good(st.dir, Annotation(ing)))
  }

  /** That is: the cluster is known and has a zone, and unless the ingress is being deleted, every
      cluster of the annotation is known and every entry has an address. */
  lemma AnsweredMeans(st: Setup, ing: FedIngress, cluster: string)
    ensures Answered(st, ing, cluster) <==>
              && cluster in st.dir && st.dir[cluster].zones != []
              && (ing.deleted || ing.annotation.None?
                  || forall l :: l in ing.annotation.value ==> l in st.dir && AllNamed(ing.annotation.value[l]))
  {
    GoodMeans(st.dir, Annotation(ing));
  }

  /** The provider can write the names of the cluster. */
  ghost predicate Writable(st: Setup, ing: FedIngress, cluster: string) {
    && Answered(st, ing, cluster)
    && Sane(st.net)
    && (forall level :: Managed(st.zone, NameAt(st, ing, st.dir[cluster], level)))
  }

  /** And all addresses resolve. */
  ghost predicate Visitable(st: Setup, ing: FedIngress, cluster: string) {
    && Writable(st, ing, cluster)
    && (forall l, a :: l in Annotation(ing) && a in AllAddresses(Annotation(ing)[l]) ==> Resolvable(st.net, [a]))
  }

  // ---------------------------------------------------------------- ensureDNSRecords

  /** The name a visit reconciles and the records it wants there. */
  datatype Visit = Visit(name: string, target: set<Record>)

  function VisitOf(st: Setup, ing: FedIngress, cluster: string, level: Level): Visit {
    if Answered(st, ing, cluster) then
      var info := st.dir[cluster];
      Visit(RelativeName(st.zone, NameAt(st, ing, info, level)), WantedAt(st, ing, info, level))
    else
      Visit("", {})
  }

  ghost function AfterVisit(s: set<Record>, v: Visit): set<Record> {
    Reconciled(s, v.name, v.target)
  }

  /** The effect of visiting a cluster: its three names, leaf first. */
  ghost function AfterCluster(st: Setup, ing: FedIngress, cluster: string, s: set<Record>): set<Record> {
    AfterVisit(AfterVisit(AfterVisit(s, VisitOf(st, ing, cluster, ZoneLevel)),
                          VisitOf(st, ing, cluster, RegionLevel)),
               VisitOf(st, ing, cluster, GlobalLevel))
  }

  /** A point in a visit of a cluster, wherever a failed call ended it: the names up to some level have
      been visited, the name of that level holds only old or only wanted records, and those further
      up have not been touched. */
  ghost predicate BetweenCluster(st: Setup, ing: FedIngress, cluster: string, s: set<Record>, now: set<Record>) {
    exists i :: 0 <= i < 3 && StoppedAt(st, ing, cluster, s, now, i)
  }

  ghost predicate StoppedAt(st: Setup, ing: FedIngress, cluster: string, s: set<Record>, now: set<Record>, i: nat) {
    BetweenVisit(AfterLevels(st, ing, cluster, s, i), now, VisitOf(st, ing, cluster, LevelAt(i)))
  }

  predicate BetweenVisit(s: set<Record>, now: set<Record>, v: Visit) {
    Between(s, now, v.name, v.target)
  }

  /** ensureDNSRecords. The annotation must be there unless the ingress is being deleted: its only
      caller visits the clusters the annotation names. */
  method EnsureDnsRecords(api: DynDnsApi, st: Setup, ing: FedIngress, cluster: string) returns (ok: bool)
    requires ing.deleted || ing.annotation.Some?
    modifies api
    ensures !Answered(st, ing, cluster) ==>
              !ok && api.rrsets == old(api.rrsets) && api.faults == old(api.faults)
    ensures old(api.lookupFaults) == [] ==> api.lookupFaults == []
    ensures old(api.lookupFaults) == [] && Writable(st, ing, cluster) && ValidRrsets(st.zone, old(api.rrsets)) ==>
              && ValidRrsets(st.zone, api.rrsets)
              && BetweenCluster(st, ing, cluster, old(api.rrsets).Values, api.rrsets.Values)
              && (ok ==> api.rrsets.Values == AfterCluster(st, ing, cluster, old(api.rrsets).Values))
    ensures old(api.lookupFaults) == [] && Calm(st, ing, cluster, old(api.rrsets), old(api.faults)) ==>
              ok && Calm(st, ing, cluster, api.rrsets, api.faults)
  {
    if cluster !in st.dir {
      return false;
    }
    var info := st.dir[cluster];
    if info.zones == [] {
      return false;
    }
    var lists, order := GetHealthyEndpoints(st.dir, Annotation(ing), cluster, ing.deleted);
    if lists.None? {
      return false;
    }
    ok := EnsurePath(api, st, ing, cluster, lists.value, order);
  }

  /** The loop of ensureDNSRecords: the names of the path up the tree, until one fails. */
  method EnsurePath(api: DynDnsApi, st: Setup, ing: FedIngress, cluster: string, lists: Lists3,
                    ghost order: seq<string>)
    returns (ok: bool)
    requires Answered(st, ing, cluster)
    requires forall level :: ListedAt(st, ing, st.dir[cluster], level, lists.At(level), order)
    modifies api
    ensures old(api.lookupFaults) == [] ==> api.lookupFaults == []
    ensures old(api.lookupFaults) == [] && Writable(st, ing, cluster) && ValidRrsets(st.zone, old(api.rrsets)) ==>
              && ValidRrsets(st.zone, api.rrsets)
              && BetweenCluster(st, ing, cluster, old(api.rrsets).Values, api.rrsets.Values)
              && (ok ==> api.rrsets.Values == AfterCluster(st, ing, cluster, old(api.rrsets).Values))
    ensures old(api.lookupFaults) == [] && Calm(st, ing, cluster, old(api.rrsets), old(api.faults)) ==>
              ok && Calm(st, ing, cluster, api.rrsets, api.faults)
  {
    var levels := [ZoneLevel, RegionLevel, GlobalLevel];
    ghost var m0 := api.rrsets;
    ghost var faults0 := api.faults;
    ghost var seeing := api.lookupFaults == [];
    for i := 0 to 3
      invariant seeing ==> api.lookupFaults == [] && Climbed(st, ing, cluster, m0, faults0, api.rrsets, api.faults, i)
    {
      ghost var m := api.rrsets;
      ghost var faults := api.faults;
      ok := EnsureLevel(api, st, ing, cluster, levels[i], lists.At(levels[i]), order);
      if seeing { ClimbOn(st, ing, cluster, m0, faults0, m, faults, api.rrsets, api.faults, ok, i); }
      if !ok {
        return;
      }
    }
    ok := true;
  }

  /** The first i names have been visited. */
  ghost predicate Climbed(st: Setup, ing: FedIngress, cluster: string, m0: Rrsets, faults0: seq<bool>,
                          m: Rrsets, faults: seq<bool>, i: nat) {
    && (Writable(st, ing, cluster) && ValidRrsets(st.zone, m0) ==>
          && ValidRrsets(st.zone, m) && m.Values == AfterLevels(st, ing, cluster, m0.Values, i)
          && (i > 0 ==> BetweenCluster(st, ing, cluster, m0.Values, m.Values)))
    && (Calm(st, ing, cluster, m0, faults0) ==> Calm(st, ing, cluster, m, faults))
  }

  /** What reconciling one name leaves. */
  ghost predicate LevelOutcome(st: Setup, ing: FedIngress, cluster: string, level: Level, m: Rrsets, faults: seq<bool>,
                               next: Rrsets, faults': seq<bool>, ok: bool) {
    && (Writable(st, ing, cluster) && ValidRrsets(st.zone, m) ==>
          && ValidRrsets(st.zone, next) && BetweenVisit(m.Values, next.Values, VisitOf(st, ing, cluster, level))
          && (ok ==> next.Values == AfterVisit(m.Values, VisitOf(st, ing, cluster, level))))
    && (Calm(st, ing, cluster, m, faults) ==> ok && Calm(st, ing, cluster, next, faults'))
  }

  lemma ClimbOn(st: Setup, ing: FedIngress, cluster: string, m0: Rrsets, faults0: seq<bool>, m: Rrsets,
                faults: seq<bool>, next: Rrsets, faults': seq<bool>, ok: bool, i: nat)
    requires i < 3 && Climbed(st, ing, cluster, m0, faults0, m, faults, i)
    requires LevelOutcome(st, ing, cluster, LevelAt(i), m, faults, next, faults', ok)
    ensures ok ==> Climbed(st, ing, cluster, m0, faults0, next, faults', i + 1)
    ensures Calm(st, ing, cluster, m0, faults0) ==> ok
    ensures Writable(st, ing, cluster) && ValidRrsets(st.zone, m0) ==>
              ValidRrsets(st.zone, next) && BetweenCluster(st, ing, cluster, m0.Values, next.Values)
  {
    if Writable(st, ing, cluster) && ValidRrsets(st.zone, m0) {
      StopsHere(st, ing, cluster, m0.Values, m.Values, next.Values, i);
    }
  }

  lemma StopsHere(st: Setup, ing: FedIngress, cluster: string, s: set<Record>, m: set<Record>, now: set<Record>, i: nat)
    requires i < 3 && m == AfterLevels(st, ing, cluster, s, i)
    requires BetweenVisit(m, now, VisitOf(st, ing, cluster, LevelAt(i)))
    ensures BetweenCluster(st, ing, cluster, s, now)
    ensures AfterLevels(st, ing, cluster, s, i + 1) == AfterVisit(m, VisitOf(st, ing, cluster, LevelAt(i)))
  {
    assert StoppedAt(st, ing, cluster, s, now, i);
  }

  function LevelAt(i: nat): Level { if i == 0 then ZoneLevel else if i == 1 then RegionLevel else GlobalLevel }

  /** The first i names of the path up the tree have been visited. */
  ghost function AfterLevels(st: Setup, ing: FedIngress, cluster: string, s: set<Record>, i: nat): set<Record> {
    if i == 0 then s
    else if i == 1 then AfterVisit(s, VisitOf(st, ing, cluster, ZoneLevel))
    else if i == 2 then
      AfterVisit(AfterVisit(s, VisitOf(st, ing, cluster, ZoneLevel)), VisitOf(st, ing, cluster, RegionLevel))
    else AfterCluster(st, ing, cluster, s)
  }

  /** A valid store, no faults to come, and a cluster that can be visited. */
  ghost predicate Calm(st: Setup, ing: FedIngress, cluster: string, m: Rrsets, faults: seq<bool>) {
    Visitable(st, ing, cluster) && ValidRrsets(st.zone, m) && faults == []
  }

  ghost predicate ListedAt(st: Setup, ing: FedIngress, info: ClusterInfo, level: Level, list: seq<string>,
                           order: seq<string>) {
    if ing.deleted then list == []
    else Lists(order, Annotation(ing).Keys)
         && list == Gather(level, st.dir, Annotation(ing), info, order)
  }

  /** The loop body of ensureDNSRecords: one name of the path up the tree. */
  method EnsureLevel(api: DynDnsApi, st: Setup, ing: FedIngress, cluster: string, level: Level, list: seq<string>,
                     ghost order: seq<string>)
    returns (ok: bool)
    requires Answered(st, ing, cluster) && ListedAt(st, ing, st.dir[cluster], level, list, order)
    modifies api
    ensures api.lookupFaults == Rest(old(api.lookupFaults))
    ensures old(api.lookupFaults) == [] ==>
              LevelOutcome(st, ing, cluster, level, old(api.rrsets), old(api.faults), api.rrsets, api.faults, ok)
  {
    var name, uplevel := NameAt(st, ing, st.dir[cluster], level), UplevelName(st, ing, st.dir[cluster], level);
    ghost var m := api.rrsets;
    ghost var faults := api.faults;
    ghost var seeing := api.lookupFaults == [];
    ok := EnsureDnsRrsets(api, st.zone, st.net, name, list, uplevel);
    if seeing { CallLeaves(st, ing, cluster, level, list, order, m, faults, api.rrsets, api.faults, ok); }
  }

  lemma CallLeaves(st: Setup, ing: FedIngress, cluster: string, level: Level, list: seq<string>, order: seq<string>,
                   m: Rrsets, faults: seq<bool>, next: Rrsets, faults': seq<bool>, ok: bool)
    requires Answered(st, ing, cluster) && ListedAt(st, ing, st.dir[cluster], level, list, order)
    requires var name, uplevel := NameAt(st, ing, st.dir[cluster], level), UplevelName(st, ing, st.dir[cluster], level);
             Workable(st.zone, m, st.net, name, uplevel) ==>
               && Outcome(st.zone, m, true, next, RelativeName(st.zone, name),
                          Target(st.zone, st.net, name, list, uplevel), ok)
               && (faults == [] ==> faults' == [] && (ok <==> Resolvable(st.net, list)))
    ensures LevelOutcome(st, ing, cluster, level, m, faults, next, faults', ok)
  {
    if Writable(st, ing, cluster) && ValidRrsets(st.zone, m) {
      LevelFacts(st, ing, cluster, level, list, order, m);
      VisitLeaves(st.zone, m, next, VisitOf(st, ing, cluster, level), ok);
    }
  }

  lemma VisitLeaves(zone: string, m: Rrsets, next: Rrsets, v: Visit, ok: bool)
    requires Outcome(zone, m, true, next, v.name, v.target, ok)
    ensures ValidRrsets(zone, next) && BetweenVisit(m.Values, next.Values, v)
    ensures ok ==> next.Values == AfterVisit(m.Values, v)
  {
  }

  lemma LevelFacts(st: Setup, ing: FedIngress, cluster: string, level: Level, list: seq<string>, order: seq<string>,
                   m: Rrsets)
    requires Writable(st, ing, cluster) && ValidRrsets(st.zone, m)
    requires ListedAt(st, ing, st.dir[cluster], level, list, order)
    ensures var info := st.dir[cluster];
            var name, uplevel := NameAt(st, ing, info, level), UplevelName(st, ing, info, level);
            && Workable(st.zone, m, st.net, name, uplevel)
            && (Visitable(st, ing, cluster) ==> Resolvable(st.net, list))
            && VisitOf(st, ing, cluster, level)
               == Visit(RelativeName(st.zone, name), Target(st.zone, st.net, name, list, uplevel))
  {
    var info := st.dir[cluster];
    if ing.deleted {
      assert Elems(list) == {};
    } else {
      GatherIsLevelSet(level, st.dir, Annotation(ing), info, order);
      if Visitable(st, ing, cluster) { LevelResolvable(st, ing, cluster, level); }
      assert forall e :: e in list ==> e in Elems(list);
    }
    assert level != GlobalLevel ==> Managed(st.zone, NameAt(st, ing, info, NextUp(level)));
    assert Managed(st.zone, NameAt(st, ing, info, level));
    TargetFromSet(st, ing, info, level, list);
  }

  lemma LevelResolvable(st: Setup, ing: FedIngress, cluster: string, level: Level)
    requires Visitable(st, ing, cluster)
    ensures forall a :: a in EndpointsAt(st, ing, st.dir[cluster], level) ==> st.net.isIP(a) || st.net.lookup(a).Some?
  {
    var info, ann := st.dir[cluster], Annotation(ing);
    forall a | a in EndpointsAt(st, ing, info, level)
      ensures st.net.isIP(a) || st.net.lookup(a).Some?
    {
      var l :| l in ann && a in PartOf(level, st.dir, ann, info, l);
      if level == ZoneLevel { ExpandElems(AllAddresses(ann[l]), ZonePairs(st.dir[l].zones, info.zones)); }
      assert a in AllAddresses(ann[l]);
      assert a in [a] && Resolvable(st.net, [a]);
    }
  }
}
