/** Runs of the ingress reconciler against an API server that rejects writes based on an outdated
    copy, while the controller's own caches lag behind by any amount. */
module IngressRuns {
  import opened DynStore
  import opened IngressReconciler
  import opened Convergence

  /** All versions of the federated ingress the server ever had, and the one the controller holds. */
  datatype World = World(history: seq<Ingress>, cached: nat)

  /** What can happen: a pass over cached objects and any view of the clusters, the cache catching up
      to some later version, or a write by somebody else. */
  datatype Event =
    | ControllerPass(env: Env, view: map<string, Ingress>, order: seq<string>)
    | CatchUp(version: nat)
    | ForeignWrite(next: Ingress)

  predicate Valid(w: World) { w.cached < |w.history| }

  function Server(w: World): Ingress
    requires Valid(w)
  {
    w.history[|w.history| - 1]
  }

  predicate KeepsIp(before: Ingress, next: Ingress) {
    HasIp(before) ==> HasIp(next) && next.annotations[StaticIpWritable] == before.annotations[StaticIpWritable]
  }

  predicate KeepsStatus(before: Ingress, next: Ingress) { before.lb != [] ==> next.lb == before.lb }

  /** Others may write anything, but leave a recorded address and status alone. */
  ghost predicate Happens(w: World, e: Event, next: World)
    requires Valid(w)
  {
    match e
    case ControllerPass(env, view, order) =>
      var outcome := Pass(env, State(w.history[w.cached], view), order);
      Lists(order, env.ready) &&
      if (outcome.Annotate? || outcome.SetStatus?) && w.cached == |w.history| - 1 then
        next == w.(history := w.history + [WriteBase(w.history[w.cached], outcome)])
      else next == w
    case CatchUp(version) => w.cached <= version < |w.history| && next == w.(cached := version)
    case ForeignWrite(obj) =>
      KeepsIp(Server(w), obj) && KeepsStatus(Server(w), obj) && next == w.(history := w.history + [obj])
  }

  ghost predicate IsRun(worlds: seq<World>, events: seq<Event>) {
    && |worlds| == |events| + 1
    && Valid(worlds[0])
    && forall i :: 0 <= i < |events| ==> Valid(worlds[i]) && Happens(worlds[i], events[i], worlds[i + 1])
  }

  /** In the versions so far, a recorded address or status was never lost or replaced. */
  predicate Stable(history: seq<Ingress>) {
    forall i, j :: 0 <= i <= j < |history| ==> KeepsIp(history[i], history[j]) && KeepsStatus(history[i], history[j])
  }

  lemma StableSnoc(history: seq<Ingress>, next: Ingress)
    requires Stable(history) && history != []
    requires KeepsIp(history[|history| - 1], next) && KeepsStatus(history[|history| - 1], next)
    ensures Stable(history + [next])
  {
    var longer := history + [next];
    forall i, j | 0 <= i <= j < |longer|
      ensures KeepsIp(longer[i], longer[j]) && KeepsStatus(longer[i], longer[j])
    {
      if j == |history| && i < j {
        assert KeepsIp(history[i], history[j - 1]) && KeepsStatus(history[i], history[j - 1]);
      }
    }
  }

  lemma EventKeepsStable(w: World, e: Event, next: World)
    requires Valid(w) && Happens(w, e, next) && Stable(w.history)
    ensures Valid(next) && Stable(next.history) && w.history <= next.history
  {
    match e
    case ControllerPass(env, view, order) =>
      var s := State(w.history[w.cached], view);
      WritesAreAdditions(env, s, order);
      if next != w {
        StableSnoc(w.history, WriteBase(s.base, Pass(env, s, order)));
      }
    case CatchUp(_) =>
    case ForeignWrite(obj) => StableSnoc(w.history, obj);
  }

  /** In every run, however stale the caches, the controller never overwrites a recorded static
      address or a recorded load-balancer status. */
  lemma {:induction false} RunsAreStable(worlds: seq<World>, events: seq<Event>)
    requires IsRun(worlds, events) && Stable(worlds[0].history)
    ensures forall i :: 0 <= i < |worlds| ==> Valid(worlds[i]) && Stable(worlds[i].history)
  {
    if events != [] {
      var n := |events| - 1;
      assert IsRun(worlds[..n + 1], events[..n]);
      RunsAreStable(worlds[..n + 1], events[..n]);
      assert worlds[..n + 1][n] == worlds[n];
      EventKeepsStable(worlds[n], events[n], worlds[n + 1]);
      assert forall i :: 0 <= i < n + 1 ==> worlds[i] == worlds[..n + 1][i];
    }
  }
}
