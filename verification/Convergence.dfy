/** Repeated reconcile passes reach a fixed state within nineteen passes, whatever the number of
    clusters and whatever order each pass visits them in. */
module Convergence {
  import opened Strings
  import opened DynStore
  import opened Endpoints
  import opened IngressReconciler

  // ---------------------------------------------------------------- what a scan amounts to

  /** The cluster's ingress after the operation a pass would queue for it. */
  function After(env: Env, s: State, c: string): Option<Ingress> {
    var look := LookAt(env, s, c);
    if look.Stop? || look.op.None? then Get(s.member, c)
    else match look.op.value
         case Add(_, obj) => Some(Provisioned(env, c, obj))
         case Update(_, obj) => Some(obj)
         case Delete(_) => None
  }

  function SeenAt(env: Env, s: State, c: string): Option<LbStatus> {
    var look := LookAt(env, s, c);
    if look.Stop? then None else look.seen
  }

  /** The recorded first cluster is ready. */
  predicate FirstIsReady(env: Env, base: Ingress, first: string) {
    Get(base.annotations, FirstCluster) == Some(Text(first)) && first != "" && first in env.ready
  }

  /** An operation queued for a cluster names that cluster and is what the cluster needs. A creation
      carries the federated annotations, labels and spec and no status; it waits for an address unless
      the cluster is the first one or the ingress is not a global one. An update comes exactly when
      annotations, labels or spec differ, lays the federated ones over the cluster's own, and keeps
      the status. */
  predicate RightOp(env: Env, s: State, c: string, op: Op) {
    var base, selected := s.base, env.select(Get(s.base.annotations, ClusterSelector));
    && selected.Some? && op.cluster == c
    && (match op
        case Add(_, obj) =>
          && c in selected.value && c !in s.member && obj == Ingress(base.annotations, base.labels, base.spec, [])
          && (FirstIsReady(env, base, c)
              || (exists first :: first in env.ready && FirstIsReady(env, base, first)
                                  && (StaticIpWritable in base.annotations || GlobalType !in base.annotations)))
        case Update(_, obj) =>
          && c in selected.value && c in s.member
          && var mine := s.member[c];
             && (mine.annotations != base.annotations || mine.labels != base.labels || mine.spec != base.spec)
             && obj == Ingress(mine.annotations + base.annotations, mine.labels + base.labels, base.spec, mine.lb)
        case Delete(_) => c !in selected.value && c in s.member)
  }

  /** What stops a pass at a cluster, the first of these that applies: a selector that does not parse;
      a missing ingress and no ready first cluster; an address the federated ingress lacks; a status
      it lacks. */
  predicate RightStop(env: Env, s: State, c: string, outcome: Outcome) {
    var base, selected := s.base, env.select(Get(s.base.annotations, ClusterSelector));
    if selected.None? then outcome == SelectorError
    else
      && c in selected.value
      && if c !in s.member then
           && (forall first :: first in env.ready ==> !FirstIsReady(env, base, first))
           && outcome == Annotate(FirstCluster, Text(c))
         else
           var mine := s.member[c];
           var address := Get(mine.annotations, StaticIpReadonly);
           if StaticIpWritable !in base.annotations && address.Some? then
             outcome == Annotate(StaticIpWritable, address.value)
           else base.lb == [] && mine.lb != [] && outcome == SetStatus(mine.lb)
  }

  lemma StopExactly(env: Env, s: State, c: string, outcome: Outcome)
    ensures LookAt(env, s, c) == Stop(outcome) <==> RightStop(env, s, c, outcome)
  {
    assert forall first :: FirstIsReady(env, s.base, first) ==> first == FirstOf(s.base) && HaveFirst(env, s.base);
    assert HaveFirst(env, s.base) ==> FirstIsReady(env, s.base, FirstOf(s.base));
  }

  /** The first cluster of the order that stops the pass decides how it ends; if there is none, the
      statuses seen are recorded or, if they are recorded already, a batch is issued. */
  lemma {:induction false} PassExactly(env: Env, s: State, order: seq<string>)
    ensures var scan := ScanOver(env, s, order);
            if scan.Stopped? then
              exists k :: 0 <= k < |order| && RightStop(env, s, order[k], scan.outcome)
                          && forall j :: 0 <= j < k ==> LookAt(env, s, order[j]).Go?
            else forall j :: 0 <= j < |order| ==> LookAt(env, s, order[j]).Go?
  {
    if order != [] {
      var n := |order| - 1;
      PassExactly(env, s, order[..n]);
      var before := ScanOver(env, s, order[..n]);
      if before.Stopped? {
        var k :| 0 <= k < n && RightStop(env, s, order[..n][k], before.outcome)
                 && forall j :: 0 <= j < k ==> LookAt(env, s, order[..n][j]).Go?;
        assert RightStop(env, s, order[k], before.outcome);
        assert forall j :: 0 <= j < k ==> order[j] == order[..n][j];
      } else {
        assert forall j :: 0 <= j < n ==> order[j] == order[..n][j];
        if LookAt(env, s, order[n]).Stop? {
          StopExactly(env, s, order[n], LookAt(env, s, order[n]).outcome);
        }
      }
    }
  }

  lemma ListsInit(order: seq<string>)
    requires order != [] && Lists(order, Elems(order))
    ensures Lists(order[..|order| - 1], Elems(order[..|order| - 1]))
    ensures order[|order| - 1] !in order[..|order| - 1]
    ensures forall c :: c in order <==> c in order[..|order| - 1] || c == order[|order| - 1]
  {
    assert order == order[..|order| - 1] + [order[|order| - 1]];
  }

  /** A pass stops at some cluster, or goes on at every cluster. */
  lemma {:induction false} ScanStopsOrGoes(env: Env, s: State, order: seq<string>)
    requires Lists(order, Elems(order))
    ensures ScanOver(env, s, order).Stopped? ==>
              exists c :: c in order && LookAt(env, s, c) == Stop(ScanOver(env, s, order).outcome)
    ensures ScanOver(env, s, order).Scanned? ==> forall c :: c in order ==> LookAt(env, s, c).Go?
  {
    if order != [] {
      ListsInit(order);
      ScanStopsOrGoes(env, s, order[..|order| - 1]);
    }
  }

  function SeenMap(env: Env, s: State, order: seq<string>): LbAnnotation {
    map c | c in order && SeenAt(env, s, c).Some? :: [SeenAt(env, s, c).value]
  }

  /** The statuses collected are those of the clusters that show one, once each. */
  lemma {:induction false} ScanSees(env: Env, s: State, order: seq<string>)
    requires Lists(order, Elems(order)) && ScanOver(env, s, order).Scanned?
    ensures ScanOver(env, s, order).seen == SeenMap(env, s, order)
  {
    if order == [] {
      assert SeenMap(env, s, order) == map[];
    } else {
      ListsInit(order);
      ScanSees(env, s, order[..|order| - 1]);
      var last, before := order[|order| - 1], SeenMap(env, s, order[..|order| - 1]);
      if SeenAt(env, s, last).Some? {
        assert SeenMap(env, s, order) == before[last := [SeenAt(env, s, last).value]];
        assert [] + [SeenAt(env, s, last).value] == [SeenAt(env, s, last).value];
      } else {
        assert SeenMap(env, s, order) == before;
      }
    }
  }

  /** A batch acts on each cluster as that cluster alone demands, and on no other. */
  lemma {:induction false} ScanApplies(env: Env, s: State, order: seq<string>)
    requires Lists(order, Elems(order)) && ScanOver(env, s, order).Scanned?
    ensures forall c :: Get(ApplyOps(env, s.member, ScanOver(env, s, order).ops), c)
                        == if c in order then After(env, s, c) else Get(s.member, c)
  {
    if order != [] {
      var n := |order| - 1;
      ListsInit(order);
      ScanApplies(env, s, order[..n]);
      var before, scan := ScanOver(env, s, order[..n]), ScanOver(env, s, order);
      OpExactly(env, s, order[n]);
      if LookAt(env, s, order[n]).op.Some? {
        assert scan.ops[..|scan.ops| - 1] == before.ops;
        AppliedAt(env, s, order[n], ApplyOps(env, s.member, before.ops));
      }
    }
  }

  lemma OpExactly(env: Env, s: State, c: string)
    ensures LookAt(env, s, c).Go? ==> forall op :: LookAt(env, s, c).op == Some(op) <==> RightOp(env, s, c, op)
  {
    assert forall first :: FirstIsReady(env, s.base, first) ==> first == FirstOf(s.base) && HaveFirst(env, s.base);
    assert HaveFirst(env, s.base) ==> FirstIsReady(env, s.base, FirstOf(s.base));
  }

  lemma AppliedAt(env: Env, s: State, c: string, m: map<string, Ingress>)
    requires LookAt(env, s, c).Go? && LookAt(env, s, c).op.Some?
    ensures forall d :: Get(ApplyOp(env, m, LookAt(env, s, c).op.value), d)
                        == if d == c then After(env, s, c) else Get(m, d)
  {
    OpExactly(env, s, c);
  }

  /** A batch holds exactly the operations the clusters need, one per cluster. */
  lemma {:induction false} BatchExactly(env: Env, s: State, order: seq<string>)
    requires Lists(order, Elems(order)) && ScanOver(env, s, order).Scanned?
    ensures var ops := ScanOver(env, s, order).ops;
            && (forall op :: op in ops <==> op.cluster in order && RightOp(env, s, op.cluster, op))
            && (forall i, j :: 0 <= i < j < |ops| ==> ops[i].cluster != ops[j].cluster)
  {
    if order != [] {
      var n := |order| - 1;
      ListsInit(order);
      BatchExactly(env, s, order[..n]);
      OpExactly(env, s, order[n]);
      var before, scan := ScanOver(env, s, order[..n]), ScanOver(env, s, order);
      var op := LookAt(env, s, order[n]).op;
      if op.Some? {
        assert scan.ops == before.ops + [op.value];
        assert forall o :: o in scan.ops <==> o in before.ops || o == op.value;
      }
    }
  }

  // ---------------------------------------------------------------- settled states

  /** The load-balancer statuses of the ready, selected clusters that hold the ingress. */
  function Observed(env: Env, s: State): LbAnnotation {
    var selected := env.select(Get(s.base.annotations, ClusterSelector));
    map c | c in env.ready && selected.Some? && c in selected.value && c in s.member && s.member[c].lb != []
      :: [s.member[c].lb]
  }

  predicate Stale(env: Env, s: State) {
    Get(s.base.annotations, GlobalLbStatus) != Some(LbMap(Observed(env, s)))
  }

  /** Nothing left to do: no cluster stops a pass, no operation would change a cluster, and the
      status annotation is the observed one. */
  predicate Settled(env: Env, s: State) {
    && (forall c :: c in env.ready ==> LookAt(env, s, c).Go? && After(env, s, c) == Get(s.member, c))
    && !Stale(env, s)
  }

  /** The clusters' statuses cannot be looked at, because the selector does not parse. */
  predicate Unreadable(env: Env, s: State) {
    env.select(Get(s.base.annotations, ClusterSelector)).None?
  }

  /** A ready, selected cluster without the ingress waits for the first cluster's address. */
  predicate HeldBack(env: Env, s: State, c: string) {
    HaveFirst(env, s.base) && GlobalType in s.base.annotations && !HasIp(s.base) && FirstOf(s.base) != c
  }

  /** A cluster ingress carries the federated one: the same spec, and every federated annotation and
      label with the federated value. It may have annotations and labels of its own besides. */
  predicate Carries(base: Ingress, mine: Ingress) {
    && mine.spec == base.spec
    && (forall k :: k in base.annotations ==> k in mine.annotations && mine.annotations[k] == base.annotations[k])
    && (forall k :: k in base.labels ==> k in mine.labels && mine.labels[k] == base.labels[k])
  }

  /** An update makes a cluster ingress carry the federated one, keeps what else it has, and changes
      nothing exactly when it carries it already. */
  lemma MergeMeans(base: Ingress, mine: Ingress)
    ensures var merged := Merged(base, mine);
            && Carries(base, merged) && merged.lb == mine.lb
            && (forall k :: k !in base.annotations ==> Get(merged.annotations, k) == Get(mine.annotations, k))
            && (forall k :: k !in base.labels ==> Get(merged.labels, k) == Get(mine.labels, k))
            && (merged == mine <==> Carries(base, mine))
  {
    if Carries(base, mine) {
      assert mine.annotations + base.annotations == mine.annotations;
      assert mine.labels + base.labels == mine.labels;
    }
  }

  /** What a settled state looks like, cluster by cluster: nothing where not selected; the federated
      spec, annotations and labels where selected, unless held back by the first cluster; and the
      federated ingress has taken over any address and status there is. */
  lemma SettledMeans(env: Env, s: State)
    requires !Unreadable(env, s)
    ensures var selected := env.select(Get(s.base.annotations, ClusterSelector)).value;
            Settled(env, s) <==>
              && Get(s.base.annotations, GlobalLbStatus) == Some(LbMap(Observed(env, s)))
              && (forall c :: c in env.ready && c !in selected ==> c !in s.member)
              && (forall c :: c in env.ready && c in selected && c !in s.member ==> HeldBack(env, s, c))
              && (forall c :: c in env.ready && c in selected && c in s.member ==>
                    && Carries(s.base, s.member[c])
                    && (StaticIpReadonly in s.member[c].annotations ==> HasIp(s.base))
                    && (s.member[c].lb != [] ==> s.base.lb != []))
  {
    forall c | c in env.ready
      ensures LookAt(env, s, c).Go? && After(env, s, c) == Get(s.member, c) <==> FineAt(env, s, c)
    {
      FineExactly(env, s, c);
    }
  }

  predicate FineAt(env: Env, s: State, c: string) {
    var selected := env.select(Get(s.base.annotations, ClusterSelector));
    selected.Some? &&
    if c !in selected.value then c !in s.member
    else if c !in s.member then HeldBack(env, s, c)
    else
      && Carries(s.base, s.member[c])
      && (StaticIpReadonly in s.member[c].annotations ==> HasIp(s.base))
      && (s.member[c].lb != [] ==> s.base.lb != [])
  }

  lemma FineExactly(env: Env, s: State, c: string)
    ensures LookAt(env, s, c).Go? && After(env, s, c) == Get(s.member, c) <==> FineAt(env, s, c)
  {
    if c in s.member {
      MergeMeans(s.base, s.member[c]);
    }
  }

  lemma ObservedIsSeen(env: Env, s: State, order: seq<string>)
    requires Lists(order, env.ready) && ScanOver(env, s, order).Scanned?
    ensures ScanOver(env, s, order).seen == Observed(env, s)
  {
    ScanStopsOrGoes(env, s, order);
    ScanSees(env, s, order);
    assert forall c :: c in order <==> c in Elems(order);
  }

  /** A settled state stays as it is, whatever order a pass takes. */
  lemma SettledStays(env: Env, s: State, order: seq<string>)
    requires Settled(env, s) && Lists(order, env.ready)
    ensures Step(env, s, order) == s
  {
    assert forall c :: c in order <==> c in Elems(order);
    ScanStopsOrGoes(env, s, order);
    ObservedIsSeen(env, s, order);
    ScanApplies(env, s, order);
    SameMembers(ApplyOps(env, s.member, ScanOver(env, s, order).ops), s.member);
  }

  lemma SameMembers(m: map<string, Ingress>, n: map<string, Ingress>)
    requires forall c :: Get(m, c) == Get(n, c)
    ensures m == n
  {
    assert forall c :: c in m ==> Get(m, c) == Get(n, c) && c in n;
    assert forall c :: c in n ==> Get(m, c) == Get(n, c) && c in m;
  }

  // ---------------------------------------------------------------- the measure

  /** What the federated ingress still lacks; each is written at most once. */
  function Missing(env: Env, base: Ingress): nat {
    (if HaveFirst(env, base) then 0 else 1) + (if HasIp(base) then 0 else 1) + (if base.lb == [] then 1 else 0)
  }

  /** An ingress is about to be created in, or deleted from, this cluster. */
  predicate PendingAt(env: Env, s: State, c: string) {
    var selected := env.select(Get(s.base.annotations, ClusterSelector));
    selected.Some? &&
    if c in s.member then c !in selected.value
    else c in selected.value && HaveFirst(env, s.base) && MayAdd(s.base, c)
  }

  predicate Pending(env: Env, s: State) { exists c :: c in env.ready && PendingAt(env, s, c) }

  predicate Dirty(env: Env, s: State) { exists c :: c in env.ready && After(env, s, c) != Get(s.member, c) }

  function Phase(env: Env, s: State): (n: nat)
    ensures n <= 4
  {
    if Pending(env, s) then (if Stale(env, s) then 4 else 3)
    else if Stale(env, s) then 2
    else if Dirty(env, s) then 1
    else 0
  }

  const MAX_PASSES := 19

  function Rank(env: Env, s: State): (n: nat)
    ensures n <= MAX_PASSES
  {
    5 * Missing(env, s.base) + Phase(env, s)
  }

  /** A write that stops a pass supplies something that was missing. */
  lemma StopLowers(env: Env, s: State, c: string)
    requires c in env.ready && c != "" && !Unreadable(env, s) && LookAt(env, s, c).Stop?
    ensures Missing(env, WriteBase(s.base, LookAt(env, s, c).outcome)) < Missing(env, s.base)
  {
  }

  /** Recording the observed statuses changes nothing else that matters. */
  lemma RecordLowers(env: Env, s: State)
    requires Stale(env, s)
    ensures var next := s.(base := WriteBase(s.base, Annotate(GlobalLbStatus, LbMap(Observed(env, s)))));
            Rank(env, next) < Rank(env, s)
  {
    var next := s.(base := WriteBase(s.base, Annotate(GlobalLbStatus, LbMap(Observed(env, s)))));
    assert Get(next.base.annotations, ClusterSelector) == Get(s.base.annotations, ClusterSelector);
    assert Observed(env, next) == Observed(env, s);
    assert forall c :: PendingAt(env, next, c) <==> PendingAt(env, s, c);
  }

  ghost predicate AfterBatch(env: Env, s: State, next: State) {
    && next.base == s.base
    && forall c :: Get(next.member, c) == if c in env.ready then After(env, s, c) else Get(s.member, c)
  }

  /** After a batch nothing is left to create or delete. */
  lemma BatchClears(env: Env, s: State, next: State)
    requires AfterBatch(env, s, next) && forall c :: c in env.ready ==> LookAt(env, s, c).Go?
    ensures !Pending(env, next)
  {
    forall c | c in env.ready
      ensures !PendingAt(env, next, c)
    {
      assert Get(next.member, c) == After(env, s, c);
      OpExactly(env, s, c);
    }
  }

  /** A batch of updates only: statuses stay, and updating again would change nothing. */
  lemma UpdatesSettle(env: Env, s: State, next: State)
    requires AfterBatch(env, s, next) && (forall c :: c in env.ready ==> LookAt(env, s, c).Go?)
    requires !Pending(env, s) && !Stale(env, s)
    ensures !Stale(env, next) && !Dirty(env, next)
  {
    forall c | c in env.ready
      ensures c in s.member <==> c in next.member
      ensures c in s.member ==> next.member[c].lb == s.member[c].lb
      ensures After(env, next, c) == Get(next.member, c)
    {
      assert Get(next.member, c) == After(env, s, c) && !PendingAt(env, s, c);
      UpdatedOnce(env, s, next, c);
    }
    assert Observed(env, next) == Observed(env, s);
  }

  lemma UpdatedOnce(env: Env, s: State, next: State, c: string)
    requires next.base == s.base && LookAt(env, s, c).Go? && !PendingAt(env, s, c)
    requires Get(next.member, c) == After(env, s, c)
    ensures c in s.member <==> c in next.member
    ensures c in s.member ==> next.member[c].lb == s.member[c].lb
    ensures After(env, next, c) == Get(next.member, c)
  {
    if c in s.member {
      var mine := s.member[c];
      MergeTwice(s.base, mine);
      assert next.member[c] == mine || next.member[c] == Merged(s.base, mine);
      if Equivalent(s.base, mine) {
        assert Merged(s.base, mine) == mine;
      }
    }
  }

  lemma MergeTwice(base: Ingress, mine: Ingress)
    ensures Merged(base, Merged(base, mine)) == Merged(base, mine)
    ensures Equivalent(base, mine) ==> Merged(base, mine) == mine
  {
    assert mine.annotations + base.annotations + base.annotations == mine.annotations + base.annotations;
    assert mine.labels + base.labels + base.labels == mine.labels + base.labels;
    if Equivalent(base, mine) {
      assert mine.annotations + base.annotations == mine.annotations && mine.labels + base.labels == mine.labels;
    }
  }

  lemma BatchLowers(env: Env, s: State, next: State)
    requires AfterBatch(env, s, next) && !Stale(env, s) && forall c :: c in env.ready ==> LookAt(env, s, c).Go?
    ensures Rank(env, next) < Rank(env, s) || (next == s && Settled(env, s))
  {
    BatchClears(env, s, next);
    if !Pending(env, s) {
      UpdatesSettle(env, s, next);
      if !Dirty(env, s) {
        SameMembers(next.member, s.member);
      }
    }
  }

  /** Every pass, in whatever order, lowers the measure, or finds the state settled and leaves it. */
  lemma PassLowers(env: Env, s: State, order: seq<string>)
    requires Lists(order, env.ready) && "" !in env.ready && !Unreadable(env, s)
    ensures Rank(env, Step(env, s, order)) < Rank(env, s) || (Step(env, s, order) == s && Settled(env, s))
    ensures !Unreadable(env, Step(env, s, order))
  {
    assert forall c :: c in order <==> c in Elems(order);
    ScanStopsOrGoes(env, s, order);
    var next := Step(env, s, order);
    match ScanOver(env, s, order)
    case Stopped(outcome) =>
      var c :| c in order && LookAt(env, s, c) == Stop(outcome);
      StopLowers(env, s, c);
    case Scanned(ops, seen) =>
      ObservedIsSeen(env, s, order);
      if Stale(env, s) {
        RecordLowers(env, s);
        assert next == s.(base := WriteBase(s.base, Annotate(GlobalLbStatus, LbMap(Observed(env, s)))));
      } else {
        ScanApplies(env, s, order);
        BatchLowers(env, s, next);
      }
  }

  /** The state after a series of passes, each with its own order of the clusters. */
  function Passes(env: Env, s: State, orders: seq<seq<string>>): State
    decreases |orders|
  {
    if orders == [] then s else Passes(env, Step(env, s, orders[0]), orders[1..])
  }

  lemma RankZero(env: Env, s: State)
    requires Rank(env, s) == 0 && !Unreadable(env, s)
    ensures Settled(env, s)
  {
  }

  lemma {:induction false} SettlesWithinRank(env: Env, s: State, orders: seq<seq<string>>)
    requires (forall order :: order in orders ==> Lists(order, env.ready)) && "" !in env.ready && !Unreadable(env, s)
    requires |orders| >= Rank(env, s) || Settled(env, s)
    ensures Settled(env, Passes(env, s, orders))
    ensures Settled(env, s) ==> Passes(env, s, orders) == s
    decreases |orders|
  {
    if orders == [] {
      if !Settled(env, s) { RankZero(env, s); }
    } else {
      PassLowers(env, s, orders[0]);
      if Settled(env, s) { SettledStays(env, s, orders[0]); }
      SettlesWithinRank(env, Step(env, s, orders[0]), orders[1..]);
    }
  }

  lemma {:induction false} PassesSplit(env: Env, s: State, orders: seq<seq<string>>, n: nat)
    requires n <= |orders|
    ensures Passes(env, s, orders) == Passes(env, Passes(env, s, orders[..n]), orders[n..])
    decreases n
  {
    if n > 0 {
      PassesSplit(env, Step(env, s, orders[0]), orders[1..], n - 1);
      assert orders[..n][1..] == orders[1..][..n - 1] && orders[1..][n - 1..] == orders[n..];
    } else {
      assert orders[0..] == orders;
    }
  }

  /** From any state, with a readable selector and a fixed environment, the state after nineteen
      passes is settled and no later pass changes it. The bound is independent of the number of
      clusters, and every pass may take its own order. */
  lemma ConvergesInNineteenPasses(env: Env, s: State, orders: seq<seq<string>>)
    requires (forall order :: order in orders ==> Lists(order, env.ready)) && "" !in env.ready && !Unreadable(env, s)
    requires |orders| >= MAX_PASSES
    ensures Settled(env, Passes(env, s, orders))
    ensures Passes(env, s, orders) == Passes(env, s, orders[..MAX_PASSES])
  {
    var settled := Passes(env, s, orders[..MAX_PASSES]);
    SettlesWithinRank(env, s, orders[..MAX_PASSES]);
    PassesSplit(env, s, orders, MAX_PASSES);
    PassesReadable(env, s, orders[..MAX_PASSES]);
    SettlesWithinRank(env, settled, orders[MAX_PASSES..]);
  }

  lemma {:induction false} PassesReadable(env: Env, s: State, orders: seq<seq<string>>)
    requires (forall order :: order in orders ==> Lists(order, env.ready)) && "" !in env.ready && !Unreadable(env, s)
    ensures !Unreadable(env, Passes(env, s, orders))
    decreases |orders|
  {
    if orders != [] {
      PassLowers(env, s, orders[0]);
      PassesReadable(env, Step(env, s, orders[0]), orders[1..]);
    }
  }

  /** A selector that does not parse freezes everything, as long as some cluster is ready. */
  lemma UnreadableFreezes(env: Env, s: State, order: seq<string>)
    requires Unreadable(env, s) && Lists(order, env.ready) && env.ready != {}
    ensures Step(env, s, order) == s && Pass(env, s, order) == SelectorError
  {
    ListsSome(order, env.ready);
    assert order[..0] == [] && ScanOver(env, s, order[..0]).Scanned?;
    ScanStops(env, s, order, 0);
  }

  // ---------------------------------------------------------------- safety of single passes and of runs

  /** Creations are gated: the first cluster is ready, and while a global address is wanted but not
      known, only the first cluster gets an ingress. */
  lemma AddsAreGated(env: Env, s: State, order: seq<string>, op: Op)
    requires Lists(order, env.ready) && Pass(env, s, order).Batch? && op in Pass(env, s, order).ops && op.Add?
    ensures HaveFirst(env, s.base)
    ensures GlobalType in s.base.annotations && !HasIp(s.base) ==> op.cluster == FirstOf(s.base)
    ensures op.cluster in env.ready && op.cluster !in s.member
  {
    ScanStopsOrGoes(env, s, order);
    BatchExactly(env, s, order);
    assert op.cluster in Elems(order);
  }

  /** What is created carries the federated ingress, and no status. */
  lemma CreationsCarry(env: Env, s: State, order: seq<string>, op: Op)
    requires Lists(order, env.ready) && Pass(env, s, order).Batch? && op in Pass(env, s, order).ops && op.Add?
    ensures Carries(s.base, op.obj) && op.obj.lb == []
    ensures op.obj.annotations == s.base.annotations && op.obj.labels == s.base.labels
  {
    ScanStopsOrGoes(env, s, order);
    BatchExactly(env, s, order);
  }

  /** After the pass the cluster has what was created, with the status its own controller gives it, and
      the address if it gives one. */
  lemma CreationsAppear(env: Env, s: State, order: seq<string>, op: Op)
    requires Lists(order, env.ready) && Pass(env, s, order).Batch? && op in Pass(env, s, order).ops && op.Add?
    ensures var mine := Get(Step(env, s, order).member, op.cluster);
            && mine.Some? && mine.value.spec == op.obj.spec && mine.value.labels == op.obj.labels
            && mine.value.lb == env.lbOf(op.cluster)
            && (forall k :: k != StaticIpReadonly ==> Get(mine.value.annotations, k) == Get(op.obj.annotations, k))
            && Get(mine.value.annotations, StaticIpReadonly)
               == if env.ipOf(op.cluster).Some? then env.ipOf(op.cluster) else Get(op.obj.annotations, StaticIpReadonly)
  {
    ScanStopsOrGoes(env, s, order);
    BatchExactly(env, s, order);
    ScanApplies(env, s, order);
    OpExactly(env, s, op.cluster);
    assert After(env, s, op.cluster) == Some(Provisioned(env, op.cluster, op.obj));
  }

  /** A pass writes the federated ingress or issues a batch, never both; and it issues one only when
      the recorded statuses are the observed ones. */
  lemma WriteOrBatch(env: Env, s: State, order: seq<string>)
    requires Lists(order, env.ready)
    ensures Step(env, s, order).base != s.base ==> Step(env, s, order).member == s.member
    ensures Pass(env, s, order).Batch? ==> !Stale(env, s)
  {
    if Pass(env, s, order).Batch? && ScanOver(env, s, order).Scanned? {
      ObservedIsSeen(env, s, order);
    }
    ScanStopsOrGoes(env, s, order);
  }

  /** The only writes a pass makes to the federated ingress. */
  lemma WritesAreAdditions(env: Env, s: State, order: seq<string>)
    requires Lists(order, env.ready)
    ensures var next := Step(env, s, order).base;
            && (HasIp(s.base) ==>
                  HasIp(next) && next.annotations[StaticIpWritable] == s.base.annotations[StaticIpWritable])
            && (HaveFirst(env, s.base) ==> FirstOf(next) == FirstOf(s.base))
            && (s.base.lb != [] ==> next.lb == s.base.lb)
            && (next.spec == s.base.spec && next.labels == s.base.labels)
            && (forall name :: Get(next.annotations, Other(name)) == Get(s.base.annotations, Other(name)))
  {
    ScanStopsOrGoes(env, s, order);
  }

  /** Where a pass takes what it writes: the address and the status from the ingress of a ready,
      selected cluster, the first cluster from those ready, selected and still without the ingress,
      the status annotation from what it observed. */
  lemma WritesComeFromClusters(env: Env, s: State, order: seq<string>)
    requires Lists(order, env.ready)
    ensures var next := Step(env, s, order).base;
            var selected := env.select(Get(s.base.annotations, ClusterSelector));
            && (Get(next.annotations, StaticIpWritable) != Get(s.base.annotations, StaticIpWritable) ==>
                  exists c :: HoldsSelected(env, s, c)
                              && Get(next.annotations, StaticIpWritable) == Get(s.member[c].annotations, StaticIpReadonly))
            && (next.lb != s.base.lb ==> exists c :: HoldsSelected(env, s, c) && next.lb == s.member[c].lb)
            && (FirstOf(next) != FirstOf(s.base) ==>
                  && FirstOf(next) in env.ready && FirstOf(next) !in s.member
                  && selected.Some? && FirstOf(next) in selected.value)
            && (Get(next.annotations, GlobalLbStatus) != Get(s.base.annotations, GlobalLbStatus) ==>
                  Get(next.annotations, GlobalLbStatus) == Some(LbMap(Observed(env, s))))
  {
    assert forall c :: c in order <==> c in Elems(order);
    ScanStopsOrGoes(env, s, order);
    match ScanOver(env, s, order)
    case Stopped(outcome) =>
      var c :| c in order && LookAt(env, s, c) == Stop(outcome);
      if c in s.member && outcome != SelectorError {
        assert HoldsSelected(env, s, c);
      }
    case Scanned(_, _) =>
      ObservedIsSeen(env, s, order);
  }

  predicate HoldsSelected(env: Env, s: State, c: string) {
    var selected := env.select(Get(s.base.annotations, ClusterSelector));
    c in env.ready && selected.Some? && c in selected.value && c in s.member
  }

  // ---------------------------------------------------------------- the first-cluster gate

  /** A ready, selected cluster that does not have the ingress. */
  predicate Waiting(env: Env, s: State, c: string) {
    var selected := env.select(Get(s.base.annotations, ClusterSelector));
    c in env.ready && selected.Some? && c in selected.value && c !in s.member
  }

  /** A pass leaves a ready first cluster, the selector and the kind of ingress as they are, and never
      takes back an address. */
  ghost predicate KeepsGate(env: Env, base: Ingress, next: Ingress) {
    && (HaveFirst(env, base) ==> FirstOf(next) == FirstOf(base))
    && (HasIp(base) ==> HasIp(next))
    && Get(next.annotations, ClusterSelector) == Get(base.annotations, ClusterSelector)
    && (GlobalType in next.annotations <==> GlobalType in base.annotations)
    && (StaticIpReadonly in next.annotations <==> StaticIpReadonly in base.annotations)
  }

  lemma PassKeepsGate(env: Env, s: State, order: seq<string>)
    requires Lists(order, env.ready)
    ensures KeepsGate(env, s.base, Step(env, s, order).base)
  {
    ScanStopsOrGoes(env, s, order);
  }

  lemma {:induction false} PassesKeepGate(env: Env, s: State, orders: seq<seq<string>>)
    requires forall order :: order in orders ==> Lists(order, env.ready)
    ensures KeepsGate(env, s.base, Passes(env, s, orders).base)
    decreases |orders|
  {
    if orders != [] {
      PassKeepsGate(env, s, orders[0]);
      PassesKeepGate(env, Step(env, s, orders[0]), orders[1..]);
    }
  }

  /** Without a ready first cluster, a waiting cluster ends every pass: nothing is created or deleted. */
  lemma WaitingStopsPass(env: Env, s: State, order: seq<string>, c: string)
    requires Lists(order, env.ready) && !HaveFirst(env, s.base) && Waiting(env, s, c)
    ensures Step(env, s, order).member == s.member
  {
    assert c in Elems(order) && LookAt(env, s, c).Stop?;
    ScanStopsOrGoes(env, s, order);
  }

  /** The first cluster in the end: the one there was, or else one of the waiting clusters. */
  lemma {:induction false} FirstInTheEnd(env: Env, s: State, orders: seq<seq<string>>, c: string)
    requires (forall order :: order in orders ==> Lists(order, env.ready)) && !Unreadable(env, s)
    requires Waiting(env, s, c) && Settled(env, Passes(env, s, orders))
    ensures var first := FirstOf(Passes(env, s, orders).base);
            if HaveFirst(env, s.base) then first == FirstOf(s.base) else Waiting(env, s, first)
    decreases |orders|
  {
    if HaveFirst(env, s.base) {
      PassesKeepGate(env, s, orders);
    } else if orders == [] {
      SettledMeans(env, s);
    } else {
      var next := Step(env, s, orders[0]);
      PassKeepsGate(env, s, orders[0]);
      WaitingStopsPass(env, s, orders[0], c);
      WritesComeFromClusters(env, s, orders[0]);
      FirstInTheEnd(env, next, orders[1..], c);
    }
  }

  /** Somewhere an address can come from: a ready, selected cluster whose ingress shows one, or a
      waiting cluster that will be given one and need not wait for the first cluster. An update or a
      creation also copies an address annotation of the federated ingress itself. */
  ghost predicate AddressSource(env: Env, s: State, first: string) {
    var given := StaticIpReadonly in s.base.annotations;
    || (exists d :: HoldsSelected(env, s, d) && (given || StaticIpReadonly in s.member[d].annotations))
    || (exists d :: Waiting(env, s, d) && Unhindered(s.base, first, d) && (given || env.ipOf(d).Some?))
  }

  predicate Unhindered(base: Ingress, first: string, c: string) { GlobalType !in base.annotations || c == first }

  /** A pass records an address only when there is a source of one. Otherwise a source is there exactly
      when it was, and no cluster that must wait for the first is served. */
  lemma PassKeepsSource(env: Env, s: State, order: seq<string>, first: string)
    requires Lists(order, env.ready) && !Unreadable(env, s) && !HasIp(s.base)
    requires HaveFirst(env, s.base) ==> first == FirstOf(s.base)
    ensures var next := Step(env, s, order);
            if HasIp(next.base) then AddressSource(env, s, first)
            else
              && (AddressSource(env, next, first) <==> AddressSource(env, s, first))
              && (forall c :: Waiting(env, s, c) && !Unhindered(s.base, first, c) ==> Waiting(env, next, c))
  {
    assert forall c :: c in order <==> c in Elems(order);
    ScanStopsOrGoes(env, s, order);
    PassKeepsGate(env, s, order);
    var next := Step(env, s, order);
    match ScanOver(env, s, order)
    case Stopped(outcome) =>
      var c :| c in order && LookAt(env, s, c) == Stop(outcome);
      if HasIp(next.base) {
        assert HoldsSelected(env, s, c);
      }
      SourceStays(env, s, next, first);
    case Scanned(ops, seen) =>
      ScanApplies(env, s, order);
      if Pass(env, s, order).Batch? {
        BatchKeepsSource(env, s, next, first);
      } else {
        SourceStays(env, s, next, first);
      }
  }

  lemma SourceStays(env: Env, s: State, next: State, first: string)
    requires KeepsGate(env, s.base, next.base) && next.member == s.member
    ensures AddressSource(env, next, first) <==> AddressSource(env, s, first)
    ensures forall c :: Waiting(env, s, c) <==> Waiting(env, next, c)
  {
    assert forall c :: HoldsSelected(env, s, c) <==> HoldsSelected(env, next, c);
    assert forall c :: Waiting(env, s, c) <==> Waiting(env, next, c);
  }

  lemma BatchKeepsSource(env: Env, s: State, next: State, first: string)
    requires !Unreadable(env, s) && !HasIp(s.base) && (HaveFirst(env, s.base) ==> first == FirstOf(s.base))
    requires AfterBatch(env, s, next) && forall c :: c in env.ready ==> LookAt(env, s, c).Go?
    ensures AddressSource(env, next, first) <==> AddressSource(env, s, first)
    ensures forall c :: Waiting(env, s, c) && !Unhindered(s.base, first, c) ==> Waiting(env, next, c)
  {
    forall c
      ensures OneAfterBatch(env, s, next, first, c) && !(Waiting(env, next, c) && Unhindered(s.base, first, c))
    {
      ClusterAfterBatch(env, s, next, first, c);
    }
    var given := StaticIpReadonly in s.base.annotations;
    if AddressSource(env, s, first) {
      if d :| HoldsSelected(env, s, d) && (given || StaticIpReadonly in s.member[d].annotations) {
        assert OneAfterBatch(env, s, next, first, d);
      } else {
        var d :| Waiting(env, s, d) && Unhindered(s.base, first, d) && (given || env.ipOf(d).Some?);
        assert OneAfterBatch(env, s, next, first, d);
      }
    }
    if AddressSource(env, next, first) {
      var d :| HoldsSelected(env, next, d) && (given || StaticIpReadonly in next.member[d].annotations);
      assert OneAfterBatch(env, s, next, first, d);
    }
    forall c | Waiting(env, s, c) && !Unhindered(s.base, first, c)
      ensures Waiting(env, next, c)
    {
      assert OneAfterBatch(env, s, next, first, c);
    }
  }

  /** What a batch does to one cluster while no address is recorded: one that holds the ingress shows
      none yet and is brought in line, one that waits unhindered gets the ingress. */
  ghost predicate OneAfterBatch(env: Env, s: State, next: State, first: string, c: string) {
    var given := StaticIpReadonly in s.base.annotations;
    && (HoldsSelected(env, s, c) ==>
          && StaticIpReadonly !in s.member[c].annotations && HoldsSelected(env, next, c)
          && (StaticIpReadonly in next.member[c].annotations <==> given))
    && (Waiting(env, s, c) && Unhindered(s.base, first, c) ==>
          && HoldsSelected(env, next, c)
          && (StaticIpReadonly in next.member[c].annotations <==> given || env.ipOf(c).Some?))
    && (Waiting(env, s, c) && !Unhindered(s.base, first, c) ==> Waiting(env, next, c))
    && (HoldsSelected(env, next, c) || Waiting(env, next, c) ==> HoldsSelected(env, s, c) || Waiting(env, s, c))
  }

  lemma ClusterAfterBatch(env: Env, s: State, next: State, first: string, c: string)
    requires !Unreadable(env, s) && !HasIp(s.base) && (HaveFirst(env, s.base) ==> first == FirstOf(s.base))
    requires AfterBatch(env, s, next) && (c in env.ready ==> LookAt(env, s, c).Go?)
    ensures OneAfterBatch(env, s, next, first, c)
  {
    assert Get(next.member, c) == if c in env.ready then After(env, s, c) else Get(s.member, c);
  }

  /** The same over any number of passes, with the first cluster of the end. */
  lemma {:induction false} PassesKeepSource(env: Env, s: State, orders: seq<seq<string>>)
    requires (forall order :: order in orders ==> Lists(order, env.ready)) && !Unreadable(env, s)
    ensures var end := Passes(env, s, orders);
            var first := FirstOf(end.base);
            if HasIp(end.base) then HasIp(s.base) || AddressSource(env, s, first)
            else
              && !HasIp(s.base) && (AddressSource(env, end, first) <==> AddressSource(env, s, first))
              && (forall c :: Waiting(env, s, c) && !Unhindered(s.base, first, c) ==> Waiting(env, end, c))
    decreases |orders|
  {
    PassesKeepGate(env, s, orders);
    if orders != [] && !HasIp(s.base) {
      PassKeepsGate(env, s, orders[0]);
      PassKeepsSource(env, s, orders[0], FirstOf(Passes(env, s, orders).base));
      PassesKeepSource(env, Step(env, s, orders[0]), orders[1..]);
    }
  }

  /** Whether an address is recorded once the passes have settled: exactly when one was, or when there
      was a source of one. The first cluster enters only where the passes had to choose one. */
  lemma AddressExactly(env: Env, s: State, orders: seq<seq<string>>)
    requires (forall order :: order in orders ==> Lists(order, env.ready)) && "" !in env.ready && !Unreadable(env, s)
    requires |orders| >= MAX_PASSES
    ensures var end := Passes(env, s, orders);
            HasIp(end.base) <==> HasIp(s.base) || AddressSource(env, s, FirstOf(end.base))
  {
    var end := Passes(env, s, orders);
    ConvergesInNineteenPasses(env, s, orders);
    PassesKeepGate(env, s, orders);
    PassesKeepSource(env, s, orders);
    SettledMeans(env, end);
    assert forall d :: HoldsSelected(env, end, d) ==> Carries(end.base, end.member[d]);
  }

  /** Which waiting clusters are served in the end: all of them, unless a global address is wanted, none
      is recorded and there is no source of one; then only the first cluster. That is the one there
      was, or else the waiting cluster that the passes chose. */
  lemma ServedExactly(env: Env, s: State, orders: seq<seq<string>>, c: string)
    requires (forall order :: order in orders ==> Lists(order, env.ready)) && "" !in env.ready && !Unreadable(env, s)
    requires |orders| >= MAX_PASSES && Waiting(env, s, c)
    ensures var end := Passes(env, s, orders);
            var first := FirstOf(end.base);
            && (if HaveFirst(env, s.base) then first == FirstOf(s.base) else Waiting(env, s, first))
            && (c in end.member <==> Unhindered(s.base, first, c) || HasIp(s.base) || AddressSource(env, s, first))
  {
    ConvergesInNineteenPasses(env, s, orders);
    FirstInTheEnd(env, s, orders, c);
    PassesKeepGate(env, s, orders);
    PassesKeepSource(env, s, orders);
    AddressExactly(env, s, orders);
    SettledMeans(env, Passes(env, s, orders));
  }

  /** A deadlock: the selector has moved from cluster a, the first cluster, to cluster b. Cluster b
      waits for an address from a, which is not to get the ingress, through any number of passes. */
  lemma GateDeadlock(env: Env, s: State, orders: seq<seq<string>>)
    requires env.ready == {"a", "b"} && (forall v :: env.select(v) == Some({"b"}))
    requires s == State(Ingress(map[GlobalType := Text("true"), FirstCluster := Text("a")], map[], "", []), map[])
    requires forall order :: order in orders ==> Lists(order, env.ready)
    ensures "b" !in Passes(env, s, orders).member
  {
    PassesKeepGate(env, s, orders);
    PassesKeepSource(env, s, orders);
    assert Waiting(env, s, "b");
  }

  /** A new ingress for clusters a and b, of which only a gives an address: both get the ingress when
      the first pass comes to a first, and a never gets it when the first pass comes to b first. */
  lemma OrderDecides(env: Env, s: State, orders: seq<seq<string>>)
    requires env.ready == {"a", "b"} && (forall v :: env.select(v) == Some({"a", "b"}))
    requires env.ipOf("a").Some? && env.ipOf("b").None?
    requires s == State(Ingress(map[GlobalType := Text("true")], map[], "", []), map[])
    requires (forall order :: order in orders ==> Lists(order, env.ready)) && |orders| >= MAX_PASSES
    requires orders[0] == ["a", "b"] || orders[0] == ["b", "a"]
    ensures orders[0][0] == "a" ==> {"a", "b"} <= Passes(env, s, orders).member.Keys
    ensures orders[0][0] == "b" ==> "b" in Passes(env, s, orders).member && "a" !in Passes(env, s, orders).member
  {
    var order := orders[0];
    assert order[..0] == [];
    ScanStops(env, s, order, 0);
    var next := Step(env, s, order);
    assert FirstOf(next.base) == order[0];
    PassesKeepGate(env, next, orders[1..]);
    ServedExactly(env, s, orders, "a");
    ServedExactly(env, s, orders, "b");
  }
}
