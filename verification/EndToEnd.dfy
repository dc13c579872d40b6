/** From cluster load balancers to DNS answers: what the two controllers achieve together. */
module EndToEnd {
  import opened Strings
  import opened DynRecords
  import opened DynStore
  import opened EnsureRrsets
  import opened Endpoints
  import opened DnsController
  import opened DnsWorker
  import R = IngressReconciler
  import opened Convergence

  /** The federated ingress as the DNS controller reads it. */
  function DnsView(name: string, namespace: string, base: R.Ingress): FedIngress {
    FedIngress(name, namespace, false, base.lb,
               if R.GlobalLbStatus in base.annotations && base.annotations[R.GlobalLbStatus].LbMap?
               then Some(base.annotations[R.GlobalLbStatus].lb) else None)
  }

  /** A ready, selected cluster that holds the ingress and has a load balancer for it. */
  predicate Serving(env: R.Env, s: R.State, c: string) {
    var selected := env.select(R.Get(s.base.annotations, R.ClusterSelector));
    c in env.ready && selected.Some? && c in selected.value && c in s.member && s.member[c].lb != []
  }

  /** In a settled state, the annotation the DNS controller reads names exactly the serving clusters,
      each with one status: its own. */
  lemma SettledAnnotation(env: R.Env, s: R.State, name: string, namespace: string)
    requires Settled(env, s)
    ensures var ing := DnsView(name, namespace, s.base);
            && ing.annotation == Some(Observed(env, s))
            && (forall c :: c in Annotation(ing) <==> Serving(env, s, c))
            && (forall c :: c in Annotation(ing) ==> AllAddresses(Annotation(ing)[c]) == AddressesIn(s.member[c].lb))
            && ((exists c :: Serving(env, s, c)) ==> ing.lbStatus != [])
  {
    var ing := DnsView(name, namespace, s.base);
    forall c | c in Annotation(ing)
      ensures AllAddresses(Annotation(ing)[c]) == AddressesIn(s.member[c].lb)
    {
      assert [s.member[c].lb][..0] == [];
    }
    forall c | Serving(env, s, c)
      ensures ing.lbStatus != []
    {
      FineExactly(env, s, c);
    }
  }

  /** All addresses of all serving clusters. */
  function ServedAddresses(env: R.Env, s: R.State): set<string> {
    set c, a | c in env.ready && Serving(env, s, c) && a in AddressesIn(s.member[c].lb) :: a
  }

  /** The endpoints of the global name are exactly those addresses. */
  lemma GlobalEndpointsAreServed(env: R.Env, s: R.State, name: string, namespace: string, dir: Directory,
                                 home: ClusterInfo)
    requires Settled(env, s) && Good(dir, Annotation(DnsView(name, namespace, s.base)))
    ensures LevelSet(GlobalLevel, dir, Annotation(DnsView(name, namespace, s.base)), home) == ServedAddresses(env, s)
  {
    SettledAnnotation(env, s, name, namespace);
    var ann := Annotation(DnsView(name, namespace, s.base));
    forall a
      ensures a in LevelSet(GlobalLevel, dir, ann, home) <==> a in ServedAddresses(env, s)
    {
      if a in LevelSet(GlobalLevel, dir, ann, home) {
        var l :| l in ann && a in PartOf(GlobalLevel, dir, ann, home, l);
        assert Serving(env, s, l) && a in AddressesIn(s.member[l].lb);
      }
      if a in ServedAddresses(env, s) {
        var c :| c in env.ready && Serving(env, s, c) && a in AddressesIn(s.member[c].lb);
        assert a in PartOf(GlobalLevel, dir, ann, home, c);
      }
    }
  }

  /** A serving cluster has endpoints of its own at its zone level. */
  lemma OwnZoneHasEndpoints(env: R.Env, s: R.State, st: Setup, ing: FedIngress, c: string)
    requires Settled(env, s) && ing == DnsView(ing.name, ing.namespace, s.base)
    requires Visitable(st, ing, c) && Serving(env, s, c)
    ensures Elems(AddressesIn(s.member[c].lb)) <= EndpointsAt(st, ing, st.dir[c], ZoneLevel)
    ensures EndpointsAt(st, ing, st.dir[c], ZoneLevel) != {}
  {
    SettledAnnotation(env, s, ing.name, ing.namespace);
    var ann, info := Annotation(ing), st.dir[c];
    forall a | a in AddressesIn(s.member[c].lb)
      ensures a in EndpointsAt(st, ing, info, ZoneLevel)
    {
      assert info.zones[0] in info.zones;
      ZoneLevelMeans(st.dir, ann, info, a);
    }
    assert AddressesIn(s.member[c].lb)[0] in AddressesIn(s.member[c].lb);
  }

  /** The zone name of the cluster resolves, and its own addresses are among the answers. */
  ghost predicate ZoneAnswers(st: Setup, ing: FedIngress, records: set<Record>, c: string, hops: nat, own: LbStatus) {
    var answer := Resolve(records, st.zone, VisitOf(st, ing, c, ZoneLevel).name, hops);
    answer.Addresses? && ResolvedOf(st.net, Elems(AddressesIn(own))) <= answer.addresses
  }

  lemma ZoneNameResolves(env: R.Env, s: R.State, st: Setup, ing: FedIngress,
                         s0: set<Record>, records: set<Record>, c: string, hops: nat)
    requires Settled(env, s) && ing == DnsView(ing.name, ing.namespace, s.base) && hops >= 2
    requires AllVisitable(st, ing) && Serving(env, s, c) && c in Clusters(st, ing) && Visitable(st, ing, c)
    requires Done(s0, records, VisitsOf(st, ing, Clusters(st, ing)))
    ensures ZoneAnswers(st, ing, records, c, hops, s.member[c].lb)
  {
    OwnZoneHasEndpoints(env, s, st, ing, c);
    EveryClusterResolves(st, ing, s0, records, c, hops);
    ResolvedMonotone(st.net, Elems(AddressesIn(s.member[c].lb)), EndpointsAt(st, ing, st.dir[c], ZoneLevel));
  }

  lemma ResolvedMonotone(net: Resolver, few: set<string>, many: set<string>)
    requires few <= many
    ensures ResolvedOf(net, few) <= ResolvedOf(net, many)
  {
  }

  lemma GlobalNameResolves(env: R.Env, s: R.State, st: Setup, ing: FedIngress,
                           s0: set<Record>, records: set<Record>, c: string, hops: nat)
    requires Settled(env, s) && ing == DnsView(ing.name, ing.namespace, s.base)
    requires Serving(env, s, c) && c in Clusters(st, ing) && Visitable(st, ing, c)
    requires Done(s0, records, VisitsOf(st, ing, Clusters(st, ing)))
    ensures Resolve(records, st.zone, VisitOf(st, ing, c, GlobalLevel).name, hops)
         == Addresses(ResolvedOf(st.net, ServedAddresses(env, s)))
  {
    GlobalEndpointsAreServed(env, s, ing.name, ing.namespace, st.dir, st.dir[c]);
    assert AddressesIn(s.member[c].lb)[0] in AddressesIn(s.member[c].lb);
    assert AddressesIn(s.member[c].lb)[0] in ServedAddresses(env, s);
    VisitDone(st, ing, s0, records, Clusters(st, ing), c, GlobalLevel);
    AnswersHere(st, ing, c, GlobalLevel, records, hops);
  }

  /** Both controllers together. Take any state of the ingress reconciler, run nineteen or more
      passes, then let the DNS worker visit the clusters of the annotation in some order. Then the
      zone name of every serving cluster that has a zone resolves to a set of addresses that includes
      the cluster's own, and the global name resolves to the addresses of all serving clusters. */
  lemma ClientsReachServingClusters(env: R.Env, s: R.State, orders: seq<seq<string>>, st: Setup, ing: FedIngress,
                                    s0: set<Record>, visits: seq<string>, c: string, hops: nat)
    requires (forall order :: order in orders ==> Lists(order, env.ready)) && "" !in env.ready && !Unreadable(env, s)
    requires |orders| >= MAX_PASSES && hops >= 2
    requires ing == DnsView(ing.name, ing.namespace, Passes(env, s, orders).base)
    requires Serving(env, Passes(env, s, orders), c) && Answered(st, ing, c)
    requires AllVisitable(st, ing) && AllShrinkSafe(st, ing, s0) && Elems(visits) == Annotation(ing).Keys
    ensures ing.lbStatus != [] && ing.annotation.Some? && c in Annotation(ing)
    ensures var records := AfterOrder(st, ing, visits, s0);
            && ZoneAnswers(st, ing, records, c, hops, Passes(env, s, orders).member[c].lb)
            && Resolve(records, st.zone, VisitOf(st, ing, c, GlobalLevel).name, hops)
               == Addresses(ResolvedOf(st.net, ServedAddresses(env, Passes(env, s, orders))))
  {
    var settled, records := Passes(env, s, orders), AfterOrder(st, ing, visits, s0);
    ConvergesInNineteenPasses(env, s, orders);
    SettledAnnotation(env, settled, ing.name, ing.namespace);
    assert c in Clusters(st, ing) && Visitable(st, ing, c);
    WholeOrderIsDone(st, ing, visits, s0);
    ZoneNameResolves(env, settled, st, ing, s0, records, c, hops);
    GlobalNameResolves(env, settled, st, ing, s0, records, c, hops);
  }
}
