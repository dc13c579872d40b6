/** Visiting all clusters of an ingress, and what a resolver then sees: following CNAMEs from a
    cluster's zone name ends at the addresses of the first level that has any. */
module DnsWorker {
  import opened DynRecords
  import opened DynStore
  import opened EnsureRrsets
  import opened Endpoints
  import opened Names
  import opened DnsController

  // ---------------------------------------------------------------- plans of visits

  /** Visits that agree on what each name should hold. */
  ghost predicate Consistent(plan: set<Visit>) {
    && (forall v, w :: v in plan && w in plan && v.name == w.name ==> v.target == w.target)
    && (forall v, t :: v in plan && t in v.target ==> t.name == v.name)
  }

  /** And a store in which no wanted single record sits among others. */
  ghost predicate GoodPlan(s0: set<Record>, plan: set<Visit>) {
    Consistent(plan) && forall v :: v in plan ==> ShrinkSafe(s0, v)
  }

  ghost predicate ShrinkSafe(s: set<Record>, v: Visit) {
    AlreadyThere(At(s, v.name), v.target) ==> At(s, v.name) == v.target
  }

  /** The visits in `done` have been made from `s0`, in some order, possibly repeatedly. */
  ghost predicate Done(s0: set<Record>, s: set<Record>, done: set<Visit>) {
    && (forall v :: v in done ==> At(s, v.name) == v.target)
    && (forall r: Record :: (forall v :: v in done ==> v.name != r.name) ==> (r in s <==> r in s0))
  }

  /** One more visit never undoes an earlier one. */
  lemma VisitKeepsOthers(s0: set<Record>, s: set<Record>, plan: set<Visit>, done: set<Visit>, v: Visit)
    requires GoodPlan(s0, plan) && Done(s0, s, done) && done <= plan && v in plan
    ensures Done(s0, AfterVisit(s, v), done + {v})
  {
    var now := AfterVisit(s, v);
    ExactUnlessShrinking(s, v.name, v.target);
    assert At(now, v.name) == v.target by {
      if w :| w in done && w.name == v.name {
        assert At(s, v.name) == v.target;
      } else {
        assert At(s, v.name) == At(s0, v.name);
        assert ShrinkSafe(s0, v);
      }
    }
    forall w | w in done
      ensures At(now, w.name) == w.target
    {
      if w.name != v.name {
        assert At(now, w.name) == At(s, w.name);
      }
    }
    forall r: Record | forall w :: w in done + {v} ==> w.name != r.name
      ensures r in now <==> r in s0
    {
      assert v in done + {v};
      assert forall w :: w in done ==> w in done + {v};
    }
  }

  lemma ThreeVisits(s0: set<Record>, s: set<Record>, plan: set<Visit>, done: set<Visit>, u: Visit, v: Visit, w: Visit)
    requires GoodPlan(s0, plan) && Done(s0, s, done) && done <= plan && {u, v, w} <= plan
    ensures var now := AfterVisit(AfterVisit(AfterVisit(s, u), v), w);
            && Done(s0, now, done + {u, v, w})
            && At(now, u.name) == u.target && At(now, v.name) == v.target && At(now, w.name) == w.target
  {
    VisitKeepsOthers(s0, s, plan, done, u);
    VisitKeepsOthers(s0, AfterVisit(s, u), plan, done + {u}, v);
    VisitKeepsOthers(s0, AfterVisit(AfterVisit(s, u), v), plan, done + {u} + {v}, w);
    assert done + {u} + {v} + {w} == done + {u, v, w};
  }

  /** The result depends only on which visits were made, not on their order. */
  lemma DoneIsUnique(s0: set<Record>, s: set<Record>, t: set<Record>, done: set<Visit>)
    requires Done(s0, s, done) && Done(s0, t, done)
    ensures s == t
  {
    forall r: Record
      ensures r in s <==> r in t
    {
      if v :| v in done && v.name == r.name {
        assert r in s <==> r in At(s, v.name);
        assert r in t <==> r in At(t, v.name);
      }
    }
  }

  /** A point in a series of visits, some of them cut short: every planned name holds only records it
      held at the start or only wanted ones, and other names are as they were. */
  ghost predicate Unmixed(s0: set<Record>, s: set<Record>, plan: set<Visit>) {
    && (forall v :: v in plan ==> At(s, v.name) <= At(s0, v.name) || At(s, v.name) <= v.target)
    && (forall r: Record :: (forall v :: v in plan ==> v.name != r.name) ==> (r in s <==> r in s0))
  }

  lemma VisitKeepsUnmixed(s0: set<Record>, s: set<Record>, now: set<Record>, plan: set<Visit>, v: Visit)
    requires Consistent(plan) && v in plan && Unmixed(s0, s, plan) && BetweenVisit(s, now, v)
    ensures Unmixed(s0, now, plan)
  {
    forall w | w in plan
      ensures At(now, w.name) <= At(s0, w.name) || At(now, w.name) <= w.target
    {
      if w.name != v.name {
        assert At(now, w.name) == At(s, w.name);
      }
    }
  }

  lemma VisitedKeepsUnmixed(s0: set<Record>, s: set<Record>, plan: set<Visit>, v: Visit)
    requires Consistent(plan) && v in plan && Unmixed(s0, s, plan)
    ensures Unmixed(s0, AfterVisit(s, v), plan)
  {
    ExactUnlessShrinking(s, v.name, v.target);
    assert BetweenVisit(s, AfterVisit(s, v), v);
    VisitKeepsUnmixed(s0, s, AfterVisit(s, v), plan, v);
  }

  /** At such a point CNAMEs are alone at their names. */
  lemma UnmixedKeepsCnameAlone(s0: set<Record>, s: set<Record>, plan: set<Visit>)
    requires CnameAlone(s0) && Unmixed(s0, s, plan) && forall v :: v in plan ==> CnameAlone(v.target)
    ensures CnameAlone(s)
  {
    forall r, q | r in s && q in s && r.name == q.name && r.rtype == CNAME
      ensures r == q
    {
      if v :| v in plan && v.name == r.name {
        assert r in At(s, v.name) && q in At(s, v.name);
      }
    }
  }

  // ---------------------------------------------------------------- the visits of an ingress

  /** The clusters of the annotation that a visit does something for. */
  function Clusters(st: Setup, ing: FedIngress): set<string> {
    set c | c in Annotation(ing) && Answered(st, ing, c)
  }

  /** The names of these clusters can be written, labels have no dots, and clusters that share a zone
      name have the same zones (as single-zone clusters do). */
  ghost predicate AllWritable(st: Setup, ing: FedIngress) {
    && (forall c :: c in Clusters(st, ing) ==> Writable(st, ing, c))
    && (forall c, level :: c in Clusters(st, ing) ==> DotFreePlace(PlaceOf(st.dir[c], level)))
    && (forall c, d :: c in Clusters(st, ing) && d in Clusters(st, ing)
                       && PlaceOf(st.dir[c], ZoneLevel) == PlaceOf(st.dir[d], ZoneLevel)
                       ==> Elems(st.dir[c].zones) == Elems(st.dir[d].zones))
  }

  /** And all addresses resolve. */
  ghost predicate AllVisitable(st: Setup, ing: FedIngress) {
    AllWritable(st, ing) && forall c :: c in Clusters(st, ing) ==> Visitable(st, ing, c)
  }

  function ClusterVisits(st: Setup, ing: FedIngress, c: string): set<Visit> {
    {VisitOf(st, ing, c, ZoneLevel), VisitOf(st, ing, c, RegionLevel), VisitOf(st, ing, c, GlobalLevel)}
  }

  function VisitsOf(st: Setup, ing: FedIngress, clusters: set<string>): set<Visit> {
    set c, v | c in clusters && v in ClusterVisits(st, ing, c) :: v
  }

  lemma WantedNames(st: Setup, ing: FedIngress, c: string, level: Level)
    ensures forall t :: t in VisitOf(st, ing, c, level).target ==> t.name == VisitOf(st, ing, c, level).name
  {
  }

  /** Two visits of one name want the same records there. */
  lemma VisitsAgree(st: Setup, ing: FedIngress, c: string, level: Level, d: string, level': Level)
    requires AllWritable(st, ing) && c in Clusters(st, ing) && d in Clusters(st, ing)
    requires VisitOf(st, ing, c, level).name == VisitOf(st, ing, d, level').name
    ensures VisitOf(st, ing, c, level) == VisitOf(st, ing, d, level')
  {
    var info, other := st.dir[c], st.dir[d];
    assert Managed(st.zone, NameAt(st, ing, info, level)) && Managed(st.zone, NameAt(st, ing, other, level'));
    PlacesDistinct(st.cfg, ing.name, ing.namespace, PlaceOf(info, level), PlaceOf(other, level'));
    assert level == level';
    if !ing.deleted {
      LevelDependsOn(level, st.dir, Annotation(ing), info, other);
    }
    assert level != GlobalLevel ==> PlaceOf(info, NextUp(level)) == PlaceOf(other, NextUp(level));
  }

  lemma VisitorOf(st: Setup, ing: FedIngress, clusters: set<string>, v: Visit) returns (c: string, level: Level)
    requires v in VisitsOf(st, ing, clusters)
    ensures c in clusters && v == VisitOf(st, ing, c, level)
  {
    c :| c in clusters && v in ClusterVisits(st, ing, c);
    level := if v == VisitOf(st, ing, c, ZoneLevel) then ZoneLevel
             else if v == VisitOf(st, ing, c, RegionLevel) then RegionLevel else GlobalLevel;
  }

  lemma PlanIsConsistent(st: Setup, ing: FedIngress)
    requires AllWritable(st, ing)
    ensures Consistent(VisitsOf(st, ing, Clusters(st, ing)))
  {
    var plan := VisitsOf(st, ing, Clusters(st, ing));
    forall v, w | v in plan && w in plan && v.name == w.name
      ensures v.target == w.target
    {
      var c, level := VisitorOf(st, ing, Clusters(st, ing), v);
      var d, level' := VisitorOf(st, ing, Clusters(st, ing), w);
      VisitsAgree(st, ing, c, level, d, level');
    }
    forall v, t | v in plan && t in v.target
      ensures t.name == v.name
    {
      var c, level := VisitorOf(st, ing, Clusters(st, ing), v);
      WantedNames(st, ing, c, level);
    }
  }

  lemma ClusterVisited(st: Setup, ing: FedIngress, s0: set<Record>, s: set<Record>, done: set<string>, c: string)
    requires done <= Clusters(st, ing) && c in Clusters(st, ing)
    requires GoodPlan(s0, VisitsOf(st, ing, Clusters(st, ing)))
    requires Done(s0, s, VisitsOf(st, ing, done))
    ensures Done(s0, AfterCluster(st, ing, c, s), VisitsOf(st, ing, done + {c}))
  {
    VisitsSnoc(st, ing, done, c);
    ClusterPlanned(st, ing, done, c);
    ThreeVisits(s0, s, VisitsOf(st, ing, Clusters(st, ing)), VisitsOf(st, ing, done),
                VisitOf(st, ing, c, ZoneLevel), VisitOf(st, ing, c, RegionLevel), VisitOf(st, ing, c, GlobalLevel));
  }

  lemma ClusterPlanned(st: Setup, ing: FedIngress, done: set<string>, c: string)
    requires done <= Clusters(st, ing) && c in Clusters(st, ing)
    ensures VisitsOf(st, ing, done) + ClusterVisits(st, ing, c) <= VisitsOf(st, ing, Clusters(st, ing))
  {
    forall v | v in VisitsOf(st, ing, done)
      ensures v in VisitsOf(st, ing, Clusters(st, ing))
    {
      var d :| d in done && v in ClusterVisits(st, ing, d);
    }
  }

  /** A visit of a cluster, cut short anywhere, keeps names unmixed. */
  lemma ClusterKeepsUnmixed(st: Setup, ing: FedIngress, s0: set<Record>, s: set<Record>, now: set<Record>, c: string)
    requires AllWritable(st, ing) && c in Clusters(st, ing) && BetweenCluster(st, ing, c, s, now)
    requires Unmixed(s0, s, VisitsOf(st, ing, Clusters(st, ing)))
    ensures Unmixed(s0, now, VisitsOf(st, ing, Clusters(st, ing)))
  {
    var plan := VisitsOf(st, ing, Clusters(st, ing));
    PlanIsConsistent(st, ing);
    ClusterPlanned(st, ing, {}, c);
    var vz, vr := VisitOf(st, ing, c, ZoneLevel), VisitOf(st, ing, c, RegionLevel);
    var vg := VisitOf(st, ing, c, GlobalLevel);
    assert {vz, vr, vg} <= plan;
    var i :| 0 <= i < 3 && StoppedAt(st, ing, c, s, now, i);
    if i > 0 { VisitedKeepsUnmixed(s0, s, plan, vz); }
    if i > 1 { VisitedKeepsUnmixed(s0, AfterVisit(s, vz), plan, vr); }
    VisitKeepsUnmixed(s0, AfterLevels(st, ing, c, s, i), now, plan, VisitOf(st, ing, c, LevelAt(i)));
  }

  lemma VisitsSnoc(st: Setup, ing: FedIngress, done: set<string>, c: string)
    ensures VisitsOf(st, ing, done + {c}) == VisitsOf(st, ing, done) + ClusterVisits(st, ing, c)
  {
    forall v | v in VisitsOf(st, ing, done)
      ensures v in VisitsOf(st, ing, done + {c})
    {
      var d :| d in done && v in ClusterVisits(st, ing, d);
      assert d in done + {c};
    }
    assert c in done + {c};
  }

  // ---------------------------------------------------------------- the worker

  /** workerFunction for one queued ingress. Clusters come in the arbitrary order of a map; errors of
      single clusters are dropped. As long as lookups succeed, whatever else fails, no name mixes old
      and wanted records; without failures every visited name holds what it should. */
  method ProcessIngress(api: DynDnsApi, st: Setup, ing: FedIngress)
    modifies api
    ensures ing.lbStatus == [] || ing.annotation.None? ==> api.rrsets == old(api.rrsets)
    ensures AllWritable(st, ing) && ValidRrsets(st.zone, old(api.rrsets)) && old(api.lookupFaults) == [] ==>
              && ValidRrsets(st.zone, api.rrsets)
              && Unmixed(old(api.rrsets).Values, api.rrsets.Values, VisitsOf(st, ing, Clusters(st, ing)))
    ensures ing.lbStatus != [] && ing.annotation.Some? && old(api.lookupFaults) == []
            && WorkerHypotheses(st, ing, old(api.rrsets), old(api.faults)) ==>
              Done(old(api.rrsets).Values, api.rrsets.Values, VisitsOf(st, ing, Clusters(st, ing)))
  {
    if |ing.lbStatus| == 0 || ing.annotation.None? {
      return;
    }
    ghost var m0 := api.rrsets;
    ghost var sure := AllWritable(st, ing) && ValidRrsets(st.zone, m0) && api.lookupFaults == [];
    ghost var calm := sure && WorkerHypotheses(st, ing, m0, api.faults);
    var rest := ing.annotation.value.Keys;
    ghost var done: set<string> := {};
    NoneVisited(st, ing, m0.Values);
    while rest != {}
      invariant rest <= Annotation(ing).Keys && done == Annotation(ing).Keys - rest
      invariant sure ==> api.lookupFaults == [] && Steady(st, ing, m0, api.rrsets)
      invariant calm ==> Underway(st, ing, m0, done, api.rrsets, api.faults)
    {
      var c :| c in rest;
      ghost var before := api.rrsets;
      ghost var faults := api.faults;
      var _ := EnsureDnsRecords(api, st, ing, c);
      if sure { StillSteady(st, ing, m0, before, api.rrsets, c); }
      if calm { NextVisited(st, ing, m0, done, before, faults, api.rrsets, api.faults, c); }
      rest, done := rest - {c}, done + {c};
    }
    assert done * Clusters(st, ing) == Clusters(st, ing);
  }

  ghost predicate Steady(st: Setup, ing: FedIngress, m0: Rrsets, m: Rrsets) {
    ValidRrsets(st.zone, m) && Unmixed(m0.Values, m.Values, VisitsOf(st, ing, Clusters(st, ing)))
  }

  lemma StillSteady(st: Setup, ing: FedIngress, m0: Rrsets, m: Rrsets, next: Rrsets, c: string)
    requires AllWritable(st, ing) && Steady(st, ing, m0, m) && c in Annotation(ing)
    requires c !in Clusters(st, ing) ==> next == m
    requires c in Clusters(st, ing) ==>
               ValidRrsets(st.zone, next) && BetweenCluster(st, ing, c, m.Values, next.Values)
    ensures Steady(st, ing, m0, next)
  {
    if c in Clusters(st, ing) {
      ClusterKeepsUnmixed(st, ing, m0.Values, m.Values, next.Values, c);
    }
  }

  /** The clusters in `done` have been visited, starting from the store `m0`. */
  ghost predicate Underway(st: Setup, ing: FedIngress, m0: Rrsets, done: set<string>, m: Rrsets, faults: seq<bool>) {
    && ValidRrsets(st.zone, m) && faults == []
    && Done(m0.Values, m.Values, VisitsOf(st, ing, done * Clusters(st, ing)))
  }

  lemma NoneVisited(st: Setup, ing: FedIngress, s0: set<Record>)
    ensures Done(s0, s0, VisitsOf(st, ing, {} * Clusters(st, ing)))
    ensures Unmixed(s0, s0, VisitsOf(st, ing, Clusters(st, ing)))
  {
    assert VisitsOf(st, ing, {} * Clusters(st, ing)) == {};
  }

  lemma MeetSnoc(done: set<string>, c: string, all: set<string>)
    ensures (done + {c}) * all == if c in all then done * all + {c} else done * all
  {
  }

  lemma NextVisited(st: Setup, ing: FedIngress, m0: Rrsets, done: set<string>, m: Rrsets, faults: seq<bool>,
                    next: Rrsets, nextFaults: seq<bool>, c: string)
    requires WorkerHypotheses(st, ing, m0, []) && Underway(st, ing, m0, done, m, faults) && c in Annotation(ing)
    requires !Answered(st, ing, c) ==> next == m && nextFaults == faults
    requires Calm(st, ing, c, m, faults) ==>
               Calm(st, ing, c, next, nextFaults) && next.Values == AfterCluster(st, ing, c, m.Values)
    ensures Underway(st, ing, m0, done + {c}, next, nextFaults)
  {
    var clusters := Clusters(st, ing);
    if c in clusters {
      PlanIsConsistent(st, ing);
      ClusterVisited(st, ing, m0.Values, m.Values, done * clusters, c);
    }
    MeetSnoc(done, c, clusters);
  }

  ghost predicate WorkerHypotheses(st: Setup, ing: FedIngress, m: Rrsets, faults: seq<bool>) {
    && ValidRrsets(st.zone, m) && faults == []
    && AllVisitable(st, ing) && AllShrinkSafe(st, ing, m.Values)
  }

  /** No visited name holds a single wanted record among others. */
  ghost predicate AllShrinkSafe(st: Setup, ing: FedIngress, s: set<Record>) {
    forall v :: v in VisitsOf(st, ing, Clusters(st, ing)) ==> ShrinkSafe(s, v)
  }

  /** The records after visiting clusters in a given order; one that cannot be looked up is skipped. */
  ghost function AfterOrder(st: Setup, ing: FedIngress, order: seq<string>, s: set<Record>): set<Record> {
    if order == [] then s
    else
      var before := AfterOrder(st, ing, order[..|order| - 1], s);
      if Answered(st, ing, order[|order| - 1]) then AfterCluster(st, ing, order[|order| - 1], before) else before
  }

  lemma {:induction false} OrderIsDone(st: Setup, ing: FedIngress, order: seq<string>, s0: set<Record>)
    requires AllVisitable(st, ing) && Elems(order) <= Annotation(ing).Keys && AllShrinkSafe(st, ing, s0)
    ensures Done(s0, AfterOrder(st, ing, order, s0), VisitsOf(st, ing, Elems(order) * Clusters(st, ing)))
  {
    var clusters := Clusters(st, ing);
    if order == [] {
      assert Elems(order) == {};
      NoneVisited(st, ing, s0);
    } else {
      var n := |order| - 1;
      var c := order[n];
      assert order == order[..n] + [c];
      ElemsSnoc(order[..n], c);
      OrderIsDone(st, ing, order[..n], s0);
      if c in clusters {
        PlanIsConsistent(st, ing);
        ClusterVisited(st, ing, s0, AfterOrder(st, ing, order[..n], s0), Elems(order[..n]) * clusters, c);
      }
      MeetSnoc(Elems(order[..n]), c, clusters);
    }
  }

  lemma WholeOrderIsDone(st: Setup, ing: FedIngress, order: seq<string>, s0: set<Record>)
    requires AllVisitable(st, ing) && Elems(order) == Annotation(ing).Keys && AllShrinkSafe(st, ing, s0)
    ensures Done(s0, AfterOrder(st, ing, order, s0), VisitsOf(st, ing, Clusters(st, ing)))
  {
    OrderIsDone(st, ing, order, s0);
    assert Elems(order) * Clusters(st, ing) == Clusters(st, ing);
  }

  /** The final store is the same for every order in which the clusters are visited. */
  lemma VisitOrderIrrelevant(st: Setup, ing: FedIngress, p: seq<string>, q: seq<string>, s0: set<Record>)
    requires AllVisitable(st, ing) && Elems(p) == Elems(q) == Annotation(ing).Keys && AllShrinkSafe(st, ing, s0)
    ensures AfterOrder(st, ing, p, s0) == AfterOrder(st, ing, q, s0)
  {
    WholeOrderIsDone(st, ing, p, s0);
    WholeOrderIsDone(st, ing, q, s0);
    DoneIsUnique(s0, AfterOrder(st, ing, p, s0), AfterOrder(st, ing, q, s0), VisitsOf(st, ing, Clusters(st, ing)));
  }

  /** Why clusters that share a zone name must agree on their zones: two visits of one name that want
      different sets of several addresses overwrite each other, so the order shows. */
  lemma DisagreeingVisitsExactly(s: set<Record>, u: Visit, v: Visit)
    requires u.name == v.name && forall t :: t in u.target + v.target ==> t.name == u.name
    requires forall t :: u.target != {t} && v.target != {t}
    ensures AfterVisit(AfterVisit(s, u), v) == AfterVisit(AfterVisit(s, v), u) <==> u.target == v.target
  {
    var uv, vu := AfterVisit(AfterVisit(s, u), v), AfterVisit(AfterVisit(s, v), u);
    ExactUnlessShrinking(AfterVisit(s, u), v.name, v.target);
    ExactUnlessShrinking(AfterVisit(s, v), u.name, u.target);
    assert At(uv, u.name) == v.target && At(vu, u.name) == u.target;
  }

  // ---------------------------------------------------------------- resolution

  datatype Answer = Addresses(addresses: set<string>) | NoRecord | TooManyHops

  /** What a resolver gets for a name: its A records, else whatever its CNAME leads to. */
  ghost function Resolve(s: set<Record>, zone: string, name: string, hops: nat): Answer
    decreases hops
  {
    var here := At(s, name);
    if exists r :: r in here && r.rtype == A then Addresses(set r | r in here && r.rtype == A :: r.value)
    else if exists r :: r in here && r.rtype == CNAME then
      if hops == 0 then TooManyHops
      else
        var c :| c in here && c.rtype == CNAME;
        Resolve(s, zone, RelativeName(zone, c.value), hops - 1)
    else NoRecord
  }

  function Height(level: Level): nat {
    match level case ZoneLevel => 2 case RegionLevel => 1 case GlobalLevel => 0
  }

  /** The specification: the resolved addresses of the first level, from the given one up, that has
      endpoints. */
  function FirstNonEmpty(st: Setup, ing: FedIngress, info: ClusterInfo, level: Level): Answer
    requires ing.deleted || Good(st.dir, Annotation(ing))
    decreases Height(level)
  {
    var endpoints := EndpointsAt(st, ing, info, level);
    if endpoints != {} then Addresses(ResolvedOf(st.net, endpoints))
    else if level == GlobalLevel then NoRecord
    else FirstNonEmpty(st, ing, info, NextUp(level))
  }

  /** Level by level: the zone, else the region, else everyone, else nothing. */
  lemma FirstNonEmptyMeans(st: Setup, ing: FedIngress, info: ClusterInfo)
    requires ing.deleted || Good(st.dir, Annotation(ing))
    ensures FirstNonEmpty(st, ing, info, ZoneLevel) ==
            if ing.deleted then NoRecord
            else
              var ann := Annotation(ing);
              if LevelSet(ZoneLevel, st.dir, ann, info) != {} then
                Addresses(ResolvedOf(st.net, LevelSet(ZoneLevel, st.dir, ann, info)))
              else if LevelSet(RegionLevel, st.dir, ann, info) != {} then
                Addresses(ResolvedOf(st.net, LevelSet(RegionLevel, st.dir, ann, info)))
              else if LevelSet(GlobalLevel, st.dir, ann, info) != {} then
                Addresses(ResolvedOf(st.net, LevelSet(GlobalLevel, st.dir, ann, info)))
              else NoRecord
  {
  }

  lemma ResolveRecords(s: set<Record>, zone: string, dnsName: string, name: string, all: set<string>, hops: nat)
    requires all != {} && At(s, name) == Records(zone, dnsName, all, A)
    ensures Resolve(s, zone, name, hops) == Addresses(all)
  {
    var here := Records(zone, dnsName, all, A);
    forall a | a in all
      ensures a in set r | r in here && r.rtype == A :: r.value
    {
      assert NewRecord(zone, dnsName, [a], MIN_DNS_TTL, A) in here;
    }
    assert (set r | r in here && r.rtype == A :: r.value) == all;
  }

  lemma ResolveCname(s: set<Record>, zone: string, name: string, t: Record, hops: nat)
    requires At(s, name) == {t} && t.rtype == CNAME && hops > 0
    ensures Resolve(s, zone, name, hops) == Resolve(s, zone, RelativeName(zone, t.value), hops - 1)
  {
    assert t in At(s, name);
  }

  /** At a level with endpoints, resolution answers at once. */
  lemma AnswersHere(st: Setup, ing: FedIngress, c: string, level: Level, s: set<Record>, hops: nat)
    requires Visitable(st, ing, c) && EndpointsAt(st, ing, st.dir[c], level) != {}
    requires At(s, VisitOf(st, ing, c, level).name) == VisitOf(st, ing, c, level).target
    ensures Resolve(s, st.zone, VisitOf(st, ing, c, level).name, hops)
         == Addresses(ResolvedOf(st.net, EndpointsAt(st, ing, st.dir[c], level)))
  {
    var info := st.dir[c];
    var endpoints := EndpointsAt(st, ing, info, level);
    LevelResolvable(st, ing, c, level);
    var e :| e in endpoints;
    assert |AddressesOf(st.net, e)| >= 1 && AddressesOf(st.net, e)[0] in AddressesOf(st.net, e);
    assert AddressesOf(st.net, e)[0] in ResolvedOf(st.net, endpoints);
    ResolveRecords(s, st.zone, NameAt(st, ing, info, level), VisitOf(st, ing, c, level).name,
                   ResolvedOf(st.net, endpoints), hops);
  }

  /** At a level without endpoints, resolution goes one level up. */
  lemma FollowsUp(st: Setup, ing: FedIngress, c: string, level: Level, s: set<Record>, hops: nat)
    requires Visitable(st, ing, c) && EndpointsAt(st, ing, st.dir[c], level) == {} && level != GlobalLevel && hops > 0
    requires At(s, VisitOf(st, ing, c, level).name) == VisitOf(st, ing, c, level).target
    ensures Resolve(s, st.zone, VisitOf(st, ing, c, level).name, hops)
         == Resolve(s, st.zone, VisitOf(st, ing, c, NextUp(level)).name, hops - 1)
  {
    var info := st.dir[c];
    var t := NewRecord(st.zone, NameAt(st, ing, info, level), [UplevelName(st, ing, info, level)], MIN_DNS_TTL, CNAME);
    assert VisitOf(st, ing, c, level).target == {t};
    ResolveCname(s, st.zone, VisitOf(st, ing, c, level).name, t, hops);
  }

  /** Without any endpoints the global name has no records. */
  lemma NoAnswer(st: Setup, ing: FedIngress, c: string, s: set<Record>, hops: nat)
    requires Visitable(st, ing, c) && EndpointsAt(st, ing, st.dir[c], GlobalLevel) == {}
    requires At(s, VisitOf(st, ing, c, GlobalLevel).name) == VisitOf(st, ing, c, GlobalLevel).target
    ensures Resolve(s, st.zone, VisitOf(st, ing, c, GlobalLevel).name, hops) == NoRecord
  {
    assert At(s, VisitOf(st, ing, c, GlobalLevel).name) == {};
  }

  lemma ResolvesAtTop(st: Setup, ing: FedIngress, c: string, s: set<Record>, hops: nat)
    requires Visitable(st, ing, c)
    requires At(s, VisitOf(st, ing, c, GlobalLevel).name) == VisitOf(st, ing, c, GlobalLevel).target
    ensures Resolve(s, st.zone, VisitOf(st, ing, c, GlobalLevel).name, hops)
         == FirstNonEmpty(st, ing, st.dir[c], GlobalLevel)
  {
    if EndpointsAt(st, ing, st.dir[c], GlobalLevel) != {} {
      AnswersHere(st, ing, c, GlobalLevel, s, hops);
    } else {
      NoAnswer(st, ing, c, s, hops);
    }
  }

  lemma ResolvesBelow(st: Setup, ing: FedIngress, c: string, level: Level, s: set<Record>, hops: nat)
    requires Visitable(st, ing, c) && level != GlobalLevel && hops > 0
    requires At(s, VisitOf(st, ing, c, level).name) == VisitOf(st, ing, c, level).target
    requires Resolve(s, st.zone, VisitOf(st, ing, c, NextUp(level)).name, hops - 1)
          == FirstNonEmpty(st, ing, st.dir[c], NextUp(level))
    ensures Resolve(s, st.zone, VisitOf(st, ing, c, level).name, hops) == FirstNonEmpty(st, ing, st.dir[c], level)
  {
    if EndpointsAt(st, ing, st.dir[c], level) != {} {
      AnswersHere(st, ing, c, level, s, hops);
    } else {
      FollowsUp(st, ing, c, level, s, hops);
    }
  }

  /** From every level up, resolution finds the first level with endpoints. */
  lemma ResolvesUpwards(st: Setup, ing: FedIngress, c: string, level: Level, s: set<Record>, hops: nat)
    requires Visitable(st, ing, c) && hops >= Height(level)
    requires forall l :: At(s, VisitOf(st, ing, c, l).name) == VisitOf(st, ing, c, l).target
    ensures Resolve(s, st.zone, VisitOf(st, ing, c, level).name, hops) == FirstNonEmpty(st, ing, st.dir[c], level)
  {
    match level
    case GlobalLevel =>
      ResolvesAtTop(st, ing, c, s, hops);
    case RegionLevel =>
      ResolvesAtTop(st, ing, c, s, hops - 1);
      ResolvesBelow(st, ing, c, RegionLevel, s, hops);
    case ZoneLevel =>
      ResolvesAtTop(st, ing, c, s, hops - 2);
      ResolvesBelow(st, ing, c, RegionLevel, s, hops - 1);
      ResolvesBelow(st, ing, c, ZoneLevel, s, hops);
  }

  /** After one successful ensureDNSRecords, the cluster's zone name resolves, within two hops, to
      the first level with endpoints, or to no record when there is none. */
  lemma OneCallResolves(st: Setup, ing: FedIngress, c: string, s0: set<Record>, hops: nat)
    requires Visitable(st, ing, c) && hops >= 2
    requires forall level :: DotFreePlace(PlaceOf(st.dir[c], level))
    requires forall level :: ShrinkSafe(s0, VisitOf(st, ing, c, level))
    ensures Resolve(AfterCluster(st, ing, c, s0), st.zone, VisitOf(st, ing, c, ZoneLevel).name, hops)
         == FirstNonEmpty(st, ing, st.dir[c], ZoneLevel)
  {
    PlanOfOne(st, ing, c, s0);
    var vz, vr := VisitOf(st, ing, c, ZoneLevel), VisitOf(st, ing, c, RegionLevel);
    var vg := VisitOf(st, ing, c, GlobalLevel);
    ThreeVisits(s0, s0, {vz, vr, vg}, {}, vz, vr, vg);
    var s := AfterCluster(st, ing, c, s0);
    forall level
      ensures At(s, VisitOf(st, ing, c, level).name) == VisitOf(st, ing, c, level).target
    {
      match level case ZoneLevel => case RegionLevel => case GlobalLevel =>
    }
    ResolvesUpwards(st, ing, c, ZoneLevel, s, hops);
  }

  lemma PlanOfOne(st: Setup, ing: FedIngress, c: string, s0: set<Record>)
    requires Visitable(st, ing, c)
    requires forall level :: DotFreePlace(PlaceOf(st.dir[c], level))
    requires forall level :: ShrinkSafe(s0, VisitOf(st, ing, c, level))
    ensures GoodPlan(s0, ClusterVisits(st, ing, c))
  {
    var vz, vr := VisitOf(st, ing, c, ZoneLevel), VisitOf(st, ing, c, RegionLevel);
    var vg := VisitOf(st, ing, c, GlobalLevel);
    NamesApart(st, ing, c, ZoneLevel, RegionLevel);
    NamesApart(st, ing, c, ZoneLevel, GlobalLevel);
    NamesApart(st, ing, c, RegionLevel, GlobalLevel);
    WantedNames(st, ing, c, ZoneLevel);
    WantedNames(st, ing, c, RegionLevel);
    WantedNames(st, ing, c, GlobalLevel);
    PlanOfThree(s0, vz, vr, vg);
  }

  lemma PlanOfThree(s0: set<Record>, u: Visit, v: Visit, w: Visit)
    requires u.name != v.name && u.name != w.name && v.name != w.name
    requires forall x, t :: x in {u, v, w} && t in x.target ==> t.name == x.name
    requires ShrinkSafe(s0, u) && ShrinkSafe(s0, v) && ShrinkSafe(s0, w)
    ensures GoodPlan(s0, {u, v, w})
  {
  }

  lemma NamesApart(st: Setup, ing: FedIngress, c: string, level: Level, level': Level)
    requires Writable(st, ing, c) && level != level'
    requires DotFreePlace(PlaceOf(st.dir[c], level)) && DotFreePlace(PlaceOf(st.dir[c], level'))
    ensures VisitOf(st, ing, c, level).name != VisitOf(st, ing, c, level').name
  {
    var info := st.dir[c];
    assert Managed(st.zone, NameAt(st, ing, info, level)) && Managed(st.zone, NameAt(st, ing, info, level'));
    if NameAt(st, ing, info, level) == NameAt(st, ing, info, level') {
      PlacesDistinct(st.cfg, ing.name, ing.namespace, PlaceOf(info, level), PlaceOf(info, level'));
    }
  }

  /** The names are worked on from the leaf up: wherever a visit stops, a name that has changed means
      that the names below it hold what they should. */
  lemma LeafFirst(st: Setup, ing: FedIngress, c: string, s: set<Record>, now: set<Record>, low: Level, high: Level)
    requires Writable(st, ing, c) && BetweenCluster(st, ing, c, s, now) && Height(high) < Height(low)
    requires forall level :: DotFreePlace(PlaceOf(st.dir[c], level))
    requires forall level :: ShrinkSafe(s, VisitOf(st, ing, c, level))
    requires At(now, VisitOf(st, ing, c, high).name) != At(s, VisitOf(st, ing, c, high).name)
    ensures At(now, VisitOf(st, ing, c, low).name) == VisitOf(st, ing, c, low).target
  {
    PathLeafFirst(st, ing, c, s, now);
    match (low, high)
    case (ZoneLevel, RegionLevel) =>
    case (ZoneLevel, GlobalLevel) =>
    case (RegionLevel, GlobalLevel) =>
  }

  lemma PathLeafFirst(st: Setup, ing: FedIngress, c: string, s: set<Record>, now: set<Record>)
    requires Writable(st, ing, c) && BetweenCluster(st, ing, c, s, now)
    requires forall level :: DotFreePlace(PlaceOf(st.dir[c], level))
    requires forall level :: ShrinkSafe(s, VisitOf(st, ing, c, level))
    ensures var vz, vr := VisitOf(st, ing, c, ZoneLevel), VisitOf(st, ing, c, RegionLevel);
            var vg := VisitOf(st, ing, c, GlobalLevel);
            && (At(now, vr.name) != At(s, vr.name) ==> At(now, vz.name) == vz.target)
            && (At(now, vg.name) != At(s, vg.name) ==> At(now, vz.name) == vz.target && At(now, vr.name) == vr.target)
  {
    var vz, vr := VisitOf(st, ing, c, ZoneLevel), VisitOf(st, ing, c, RegionLevel);
    var i :| 0 <= i < 3 && StoppedAt(st, ing, c, s, now, i);
    NamesApart(st, ing, c, ZoneLevel, RegionLevel);
    NamesApart(st, ing, c, ZoneLevel, GlobalLevel);
    NamesApart(st, ing, c, RegionLevel, GlobalLevel);
    WantedNames(st, ing, c, ZoneLevel);
    WantedNames(st, ing, c, RegionLevel);
    StopsLeafFirst(s, now, vz, vr, VisitOf(st, ing, c, GlobalLevel));
  }

  lemma StopsLeafFirst(s: set<Record>, now: set<Record>, u: Visit, v: Visit, w: Visit)
    requires u.name != v.name && u.name != w.name && v.name != w.name
    requires forall x, t :: x in {u, v} && t in x.target ==> t.name == x.name
    requires ShrinkSafe(s, u) && ShrinkSafe(s, v)
    requires || BetweenVisit(s, now, u) || BetweenVisit(AfterVisit(s, u), now, v)
             || BetweenVisit(AfterVisit(AfterVisit(s, u), v), now, w)
    ensures At(now, v.name) != At(s, v.name) ==> At(now, u.name) == u.target
    ensures At(now, w.name) != At(s, w.name) ==> At(now, u.name) == u.target && At(now, v.name) == v.target
  {
    ExactUnlessShrinking(s, u.name, u.target);
    ExactUnlessShrinking(AfterVisit(s, u), v.name, v.target);
    assert At(AfterVisit(s, u), v.name) == At(s, v.name) && At(AfterVisit(s, u), w.name) == At(s, w.name);
    BetweenElsewhere(s, now, u);
    BetweenElsewhere(AfterVisit(s, u), now, v);
    BetweenElsewhere(AfterVisit(AfterVisit(s, u), v), now, w);
    BetweenElsewhere(AfterVisit(s, u), AfterVisit(AfterVisit(s, u), v), v);
  }

  lemma BetweenElsewhere(s: set<Record>, now: set<Record>, v: Visit)
    ensures BetweenVisit(s, now, v) ==> forall name :: name != v.name ==> At(now, name) == At(s, name)
  {
  }

  lemma VisitDone(st: Setup, ing: FedIngress, s0: set<Record>, s: set<Record>, clusters: set<string>, c: string,
                  level: Level)
    requires Done(s0, s, VisitsOf(st, ing, clusters)) && c in clusters
    ensures At(s, VisitOf(st, ing, c, level).name) == VisitOf(st, ing, c, level).target
  {
    var v := VisitOf(st, ing, c, level);
    assert v in ClusterVisits(st, ing, c) by {
      match level case ZoneLevel => case RegionLevel => case GlobalLevel =>
    }
    assert v in VisitsOf(st, ing, clusters);
  }

  /** After the worker, the zone name of every visited cluster resolves so: later clusters never
      undo earlier ones. */
  lemma EveryClusterResolves(st: Setup, ing: FedIngress, s0: set<Record>, s: set<Record>, c: string, hops: nat)
    requires AllVisitable(st, ing) && c in Clusters(st, ing) && hops >= 2
    requires Done(s0, s, VisitsOf(st, ing, Clusters(st, ing)))
    ensures Resolve(s, st.zone, VisitOf(st, ing, c, ZoneLevel).name, hops)
         == FirstNonEmpty(st, ing, st.dir[c], ZoneLevel)
  {
    forall level { VisitDone(st, ing, s0, s, Clusters(st, ing), c, level); }
    ResolvesUpwards(st, ing, c, ZoneLevel, s, hops);
  }

  /** A deleted ingress: its names stop resolving, but the zone and region names keep a CNAME, so
      records remain although the controller means to remove them. */
  lemma DeletedIngressDangles(st: Setup, ing: FedIngress, s0: set<Record>, s: set<Record>, c: string, hops: nat)
    requires AllVisitable(st, ing) && c in Clusters(st, ing) && hops >= 2 && ing.deleted
    requires Done(s0, s, VisitsOf(st, ing, Clusters(st, ing)))
    ensures Resolve(s, st.zone, VisitOf(st, ing, c, ZoneLevel).name, hops) == NoRecord
    ensures At(s, VisitOf(st, ing, c, ZoneLevel).name) != {} && At(s, VisitOf(st, ing, c, RegionLevel).name) != {}
    ensures At(s, VisitOf(st, ing, c, GlobalLevel).name) == {}
  {
    EveryClusterResolves(st, ing, s0, s, c, hops);
    forall level { VisitDone(st, ing, s0, s, Clusters(st, ing), c, level); }
  }

  /** Processing one ingress never touches the records of another: not at any place of it. */
  lemma OtherIngressUntouched(st: Setup, ing: FedIngress, s0: set<Record>, s: set<Record>,
                              name: string, namespace: string, place: Place)
    requires AllVisitable(st, ing) && Done(s0, s, VisitsOf(st, ing, Clusters(st, ing)))
    requires name != ing.name || namespace != ing.namespace
    requires DotFree(ing.namespace) && DotFree(namespace)
    requires DotFreePlace(place) && !Ambiguous(st.cfg, place)
    requires forall c, level :: c in Clusters(st, ing) ==> !Ambiguous(st.cfg, PlaceOf(st.dir[c], level))
    requires Managed(st.zone, DnsName(st.cfg, name, namespace, place))
    ensures At(s, RelativeName(st.zone, DnsName(st.cfg, name, namespace, place)))
         == At(s0, RelativeName(st.zone, DnsName(st.cfg, name, namespace, place)))
  {
    var theirs := DnsName(st.cfg, name, namespace, place);
    forall v | v in VisitsOf(st, ing, Clusters(st, ing))
      ensures v.name != RelativeName(st.zone, theirs)
    {
      var c, level := VisitorOf(st, ing, Clusters(st, ing), v);
      OtherNameDiffers(st, ing, c, level, name, namespace, place);
    }
  }

  lemma OtherNameDiffers(st: Setup, ing: FedIngress, c: string, level: Level, name: string, namespace: string,
                         place: Place)
    requires Visitable(st, ing, c) && (name != ing.name || namespace != ing.namespace)
    requires DotFree(ing.namespace) && DotFree(namespace)
    requires DotFreePlace(place) && !Ambiguous(st.cfg, place)
    requires DotFreePlace(PlaceOf(st.dir[c], level)) && !Ambiguous(st.cfg, PlaceOf(st.dir[c], level))
    requires Managed(st.zone, DnsName(st.cfg, name, namespace, place))
    ensures VisitOf(st, ing, c, level).name != RelativeName(st.zone, DnsName(st.cfg, name, namespace, place))
  {
    var ours, theirs := NameAt(st, ing, st.dir[c], level), DnsName(st.cfg, name, namespace, place);
    assert Managed(st.zone, ours);
    if ours == theirs {
      UniquelyDecodable(st.cfg, ing.name, ing.namespace, PlaceOf(st.dir[c], level), name, namespace, place);
    }
  }

  // ---------------------------------------------------------------- clusters that have left

  /** Every address the annotation gives. */
  function CurrentAddresses(ing: FedIngress): set<string> {
    set l, a | l in Annotation(ing) && a in AllAddresses(Annotation(ing)[l]) :: a
  }

  lemma EndpointsAreCurrent(st: Setup, ing: FedIngress, info: ClusterInfo, level: Level)
    requires ing.deleted || Good(st.dir, Annotation(ing))
    ensures EndpointsAt(st, ing, info, level) <= CurrentAddresses(ing)
  {
    if !ing.deleted {
      forall a | a in EndpointsAt(st, ing, info, level)
        ensures a in CurrentAddresses(ing)
      {
        LevelMeans(level, st.dir, Annotation(ing), info, a);
        var l :| l in Annotation(ing) && Shows(Annotation(ing)[l], a);
        AddressesMean(Annotation(ing)[l], a);
      }
    }
  }

  lemma {:induction false} AnswerIsCurrent(st: Setup, ing: FedIngress, info: ClusterInfo, level: Level, a: string)
    requires ing.deleted || Good(st.dir, Annotation(ing))
    requires FirstNonEmpty(st, ing, info, level).Addresses? && a in FirstNonEmpty(st, ing, info, level).addresses
    ensures a in ResolvedOf(st.net, CurrentAddresses(ing))
    decreases Height(level)
  {
    EndpointsAreCurrent(st, ing, info, level);
    if EndpointsAt(st, ing, info, level) == {} {
      AnswerIsCurrent(st, ing, info, NextUp(level), a);
    }
  }

  ghost predicate Shared(st: Setup, ing: FedIngress, place: Place, level: Level) {
    exists c :: c in Clusters(st, ing) && PlaceOf(st.dir[c], level) == place
  }

  predicate Answers(answer: Answer, a: string) { answer.Addresses? && a in answer.addresses }

  /** A cluster that has left the annotation is not visited any more. A name at one of its places that
      held addresses, now all withdrawn, goes on answering all of them when no remaining cluster shares
      the place, and otherwise answers none of them. */
  lemma DepartedExactly(st: Setup, ing: FedIngress, s: set<Record>, now: set<Record>, gone: ClusterInfo, level: Level,
                        all: set<string>, hops: nat)
    requires AllVisitable(st, ing) && Done(s, now, VisitsOf(st, ing, Clusters(st, ing))) && hops >= 2
    requires gone.zones != [] && DotFreePlace(PlaceOf(gone, level)) && Managed(st.zone, NameAt(st, ing, gone, level))
    requires At(s, RelativeName(st.zone, NameAt(st, ing, gone, level)))
          == Records(st.zone, NameAt(st, ing, gone, level), all, A)
    requires all != {} && all !! ResolvedOf(st.net, CurrentAddresses(ing))
    ensures var answer := Resolve(now, st.zone, RelativeName(st.zone, NameAt(st, ing, gone, level)), hops);
            if Shared(st, ing, PlaceOf(gone, level), level) then forall a :: a in all ==> !Answers(answer, a)
            else answer == Addresses(all)
  {
    var fqdn := NameAt(st, ing, gone, level);
    var name := RelativeName(st.zone, fqdn);
    if c :| c in Clusters(st, ing) && PlaceOf(st.dir[c], level) == PlaceOf(gone, level) {
      forall l { VisitDone(st, ing, s, now, Clusters(st, ing), c, l); }
      ResolvesUpwards(st, ing, c, level, now, hops);
      assert VisitOf(st, ing, c, level).name == name;
      forall a | a in all
        ensures !Answers(Resolve(now, st.zone, name, hops), a)
      {
        if Answers(FirstNonEmpty(st, ing, st.dir[c], level), a) { AnswerIsCurrent(st, ing, st.dir[c], level, a); }
      }
    } else {
      forall v | v in VisitsOf(st, ing, Clusters(st, ing))
        ensures v.name != name
      {
        var c, l := VisitorOf(st, ing, Clusters(st, ing), v);
        NotItsName(st, ing, c, l, gone, level);
      }
      assert At(now, name) == At(s, name);
      ResolveRecords(now, st.zone, fqdn, name, all, hops);
    }
  }

  lemma NotItsName(st: Setup, ing: FedIngress, c: string, l: Level, gone: ClusterInfo, level: Level)
    requires Writable(st, ing, c) && DotFreePlace(PlaceOf(st.dir[c], l))
    requires gone.zones != [] && DotFreePlace(PlaceOf(gone, level)) && Managed(st.zone, NameAt(st, ing, gone, level))
    requires PlaceOf(st.dir[c], level) != PlaceOf(gone, level)
    ensures VisitOf(st, ing, c, l).name != RelativeName(st.zone, NameAt(st, ing, gone, level))
  {
    var ours, theirs := NameAt(st, ing, st.dir[c], l), NameAt(st, ing, gone, level);
    assert Managed(st.zone, ours);
    if ours == theirs {
      PlacesDistinct(st.cfg, ing.name, ing.namespace, PlaceOf(st.dir[c], l), PlaceOf(gone, level));
    }
  }
}
