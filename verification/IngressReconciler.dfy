/** The federated ingress reconciler: one pass over the ready clusters either makes one write to the
    federated ingress and stops, or issues a batch of operations on cluster ingresses. */
module IngressReconciler {
  import opened Strings
  import opened Endpoints

  // ---------------------------------------------------------------- objects

  /** The annotations the controller knows; anything else is the user's. */
  datatype Key =
    | GlobalType        // kubernetes.io/ingress.global-type
    | GlobalLbStatus    // kubernetes.io/ingress.global-ingress-lb-status
    | StaticIpWritable  // kubernetes.io/ingress.global-static-ip-name
    | StaticIpReadonly  // ingress.kubernetes.io/static-ip
    | FirstCluster      // ingress.federation.kubernetes.io/first-cluster
    | ClusterSelector   // federation.alpha.kubernetes.io/cluster-selector
    | Other(name: string)

  /** An annotation value; the load-balancer status is kept decoded. */
  datatype Value = Text(text: string) | LbMap(lb: LbAnnotation)

  type Annotations = map<Key, Value>

  datatype Ingress = Ingress(annotations: Annotations, labels: map<string, string>, spec: string, lb: LbStatus)

  /** Everything outside the controller, unchanging during convergence: which clusters are ready, how
      a selector annotation parses, and what a cluster's own controller gives a new ingress. */
  datatype Env = Env(ready: set<string>, select: Option<Value> -> Option<set<string>>,
                     lbOf: string -> LbStatus, ipOf: string -> Option<Value>)

  datatype State = State(base: Ingress, member: map<string, Ingress>)

  function Get<K, V>(m: map<K, V>, k: K): Option<V> { if k in m then Some(m[k]) else None }

  function FirstOf(base: Ingress): string {
    if FirstCluster in base.annotations && base.annotations[FirstCluster].Text? then base.annotations[FirstCluster].text else ""
  }

  predicate HaveFirst(env: Env, base: Ingress) { FirstOf(base) != "" && FirstOf(base) in env.ready }

  predicate HasIp(base: Ingress) { StaticIpWritable in base.annotations }

  /** May an ingress be created in this cluster yet? */
  predicate MayAdd(base: Ingress, c: string) {
    HasIp(base) || GlobalType !in base.annotations || FirstOf(base) == c
  }

  function Created(base: Ingress): Ingress { base.(lb := []) }

  /** The cluster ingress after an update: the federated annotations and labels over its own. */
  function Merged(base: Ingress, mine: Ingress): Ingress {
    Ingress(mine.annotations + base.annotations, mine.labels + base.labels, base.spec, mine.lb)
  }

  /** ObjectMetaAndSpecEquivalent; both objects have one name and namespace. */
  predicate Equivalent(base: Ingress, mine: Ingress) {
    base.annotations == mine.annotations && base.labels == mine.labels && base.spec == mine.spec
  }

  // ---------------------------------------------------------------- one pass

  datatype Op = Add(cluster: string, obj: Ingress) | Update(cluster: string, obj: Ingress) | Delete(cluster: string)

  /** How a pass ends: a write to the federated ingress, an unreadable selector, or a batch. */
  datatype Outcome = Annotate(key: Key, value: Value) | SetStatus(lb: LbStatus) | SelectorError | Batch(ops: seq<Op>)

  /** What a pass does about one cluster: stop with a write, or go on. */
  datatype Look = Stop(outcome: Outcome) | Go(op: Option<Op>, seen: Option<LbStatus>)

  function LookAt(env: Env, s: State, c: string): Look {
    var base := s.base;
    match env.select(Get(base.annotations, ClusterSelector))
    case None => Stop(SelectorError)
    case Some(selected) =>
      if c !in s.member then
        if c !in selected then Go(None, None)
        else if !HaveFirst(env, base) then Stop(Annotate(FirstCluster, Text(c)))
        else if MayAdd(base, c) then Go(Some(Add(c, Created(base))), None)
        else Go(None, None)
      else if c !in selected then Go(Some(Delete(c)), None)
      else
        var mine := s.member[c];
        if !HasIp(base) && StaticIpReadonly in mine.annotations then
          Stop(Annotate(StaticIpWritable, mine.annotations[StaticIpReadonly]))
        else if base.lb == [] && mine.lb != [] then Stop(SetStatus(mine.lb))
        else
          Go(if Equivalent(base, mine) then None else Some(Update(c, Merged(base, mine))),
             if mine.lb != [] then Some(mine.lb) else None)
  }

  datatype Scan = Stopped(outcome: Outcome) | Scanned(ops: seq<Op>, seen: LbAnnotation)

  function Append(seen: LbAnnotation, c: string, lb: LbStatus): LbAnnotation {
    seen[c := (if c in seen then seen[c] else []) + [lb]]
  }

  function ScanOver(env: Env, s: State, order: seq<string>): Scan {
    if order == [] then Scanned([], map[])
    else
      var n := |order| - 1;
      match ScanOver(env, s, order[..n])
      case Stopped(outcome) => Stopped(outcome)
      case Scanned(ops, seen) =>
        match LookAt(env, s, order[n])
        case Stop(outcome) => Stopped(outcome)
        case Go(op, status) =>
          Scanned(if op.Some? then ops + [op.value] else ops,
                  if status.Some? then Append(seen, order[n], status.value) else seen)
  }

  function Pass(env: Env, s: State, order: seq<string>): Outcome {
    match ScanOver(env, s, order)
    case Stopped(outcome) => outcome
    case Scanned(ops, seen) =>
      if Get(s.base.annotations, GlobalLbStatus) == Some(LbMap(seen)) then Batch(ops)
      else Annotate(GlobalLbStatus, LbMap(seen))
  }

  /** A created ingress as the cluster's own controller fills it in. */
  function Provisioned(env: Env, c: string, obj: Ingress): Ingress {
    obj.(lb := env.lbOf(c),
         annotations := match env.ipOf(c)
                        case Some(ip) => obj.annotations[StaticIpReadonly := ip]
                        case None => obj.annotations)
  }

  function ApplyOp(env: Env, member: map<string, Ingress>, op: Op): map<string, Ingress> {
    match op
    case Add(c, obj) => member[c := Provisioned(env, c, obj)]
    case Update(c, obj) => member[c := obj]
    case Delete(c) => member - {c}
  }

  function ApplyOps(env: Env, member: map<string, Ingress>, ops: seq<Op>): map<string, Ingress> {
    if ops == [] then member
    else ApplyOp(env, ApplyOps(env, member, ops[..|ops| - 1]), ops[|ops| - 1])
  }

  function WriteBase(base: Ingress, outcome: Outcome): Ingress {
    match outcome
    case Annotate(key, value) => base.(annotations := base.annotations[key := value])
    case SetStatus(lb) => base.(lb := lb)
    case _ => base
  }

  /** The state after a pass whose writes succeed. */
  function Step(env: Env, s: State, order: seq<string>): State {
    var outcome := Pass(env, s, order);
    State(WriteBase(s.base, outcome),
          if outcome.Batch? then ApplyOps(env, s.member, outcome.ops) else s.member)
  }

  /** The controller over the objects it writes. */
  class IngressController {
    var base: Ingress
    var member: map<string, Ingress>

    function Now(): State
      reads this
    {
      State(base, member)
    }

    constructor (s: State)
      ensures Now() == s
    {
      base, member := s.base, s.member;
    }

    /** reconcileIngress for an ingress that is not being deleted; `clusters` are the ready clusters. */
    method ReconcileIngress(env: Env, clusters: seq<string>) returns (outcome: Outcome)
      modifies this
      ensures outcome == Pass(env, old(Now()), clusters)
      ensures Now() == Step(env, old(Now()), clusters)
    {
      var operations: seq<Op> := [];
      var globalLbStat: LbAnnotation := map[];
      for i := 0 to |clusters|
        invariant Now() == old(Now())
        invariant ScanOver(env, Now(), clusters[..i]) == Scanned(operations, globalLbStat)
      {
        assert clusters[..i + 1][..i] == clusters[..i];
        ScanStops(env, Now(), clusters, i);
        var cluster := clusters[i];
        var selected := env.select(Get(base.annotations, ClusterSelector));
        if selected.None? {
          return SelectorError;
        }
        var found, send := cluster in member, cluster in selected.value;
        if !found && send {
          var firstClusterName := FirstOf(base);
          if !(firstClusterName != "" && firstClusterName in env.ready) {
            outcome := UpdateAnnotation(FirstCluster, Text(cluster));
            return;
          }
          if HasIp(base) || GlobalType !in base.annotations || firstClusterName == cluster {
            operations := operations + [Add(cluster, Created(base))];
          }
        } else if found && !send {
          operations := operations + [Delete(cluster)];
        } else if found && send {
          var mine := member[cluster];
          if !HasIp(base) && StaticIpReadonly in mine.annotations {
            outcome := UpdateAnnotation(StaticIpWritable, mine.annotations[StaticIpReadonly]);
            return;
          }
          if base.lb == [] && mine.lb != [] {
            base := base.(lb := mine.lb);
            return SetStatus(mine.lb);
          }
          if mine.lb != [] {
            globalLbStat := Append(globalLbStat, cluster, mine.lb);
          }
          if !Equivalent(base, mine) {
            operations := operations + [Update(cluster, Merged(base, mine))];
          }
        }
      }
      assert clusters[..|clusters|] == clusters;
      if Get(base.annotations, GlobalLbStatus) != Some(LbMap(globalLbStat)) {
        outcome := UpdateAnnotation(GlobalLbStatus, LbMap(globalLbStat));
        return;
      }
      outcome := Batch(operations);
      Execute(env, operations);
    }

    /** updateAnnotationOnIngress, with a successful write. */
    method UpdateAnnotation(key: Key, value: Value) returns (outcome: Outcome)
      modifies this
      ensures outcome == Annotate(key, value)
      ensures Now() == State(WriteBase(old(base), outcome), old(member))
    {
      base := base.(annotations := base.annotations[key := value]);
      outcome := Annotate(key, value);
    }

    /** The federated updater, with successful operations. */
    method Execute(env: Env, operations: seq<Op>)
      modifies this`member
      ensures member == ApplyOps(env, old(member), operations)
    {
      for i := 0 to |operations|
        invariant member == ApplyOps(env, old(member), operations[..i])
      {
        assert operations[..i + 1][..i] == operations[..i];
        member := ApplyOp(env, member, operations[i]);
      }
      assert operations[..|operations|] == operations;
    }
  }

  /** A stop at one cluster is a stop of the pass. */
  lemma {:induction false} ScanStops(env: Env, s: State, order: seq<string>, i: nat)
    requires i < |order| && ScanOver(env, s, order[..i]).Scanned?
    ensures LookAt(env, s, order[i]).Stop? ==> ScanOver(env, s, order) == Stopped(LookAt(env, s, order[i]).outcome)
    decreases |order|
  {
    var n := |order| - 1;
    if i < n {
      assert order[..n][..i] == order[..i];
      ScanStops(env, s, order[..n], i);
    } else {
      assert order[..n] == order[..i];
    }
  }
}
