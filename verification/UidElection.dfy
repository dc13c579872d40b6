/** The ingress-UID protocol: clusters agree on one UID, recorded as an annotation on each cluster
    and copied into each cluster's ingress-controller configmap. Reconcile steps run under a lock, but
    the cluster and the configmap they act on are read before the lock is taken. */
module UidElection {
  import opened Strings

  /** The two keys of the configmap; an absent key reads as "". */
  datatype ConfigMap = ConfigMap(uid: string, provider: string)

  /** The UID annotations of the clusters ("" when absent), their configmaps, and the controller's
      cached copies of the configmaps. */
  datatype State = State(annotation: map<string, string>, config: map<string, ConfigMap>, cache: map<string, ConfigMap>)

  function UidOf(s: State, c: string): string {
    if c in s.annotation then s.annotation[c] else ""
  }

  function At(m: map<string, ConfigMap>, c: string): ConfigMap {
    if c in m then m[c] else ConfigMap("", "")
  }

  /** getMasterCluster: the first ready cluster with a UID. */
  function Master(s: State, ready: seq<string>): Option<string> {
    if ready == [] then None
    else if UidOf(s, ready[0]) != "" then Some(ready[0])
    else Master(s, ready[1..])
  }

  lemma {:induction false} MasterMeans(s: State, ready: seq<string>)
    ensures Master(s, ready).Some? <==> exists c :: c in ready && UidOf(s, c) != ""
    ensures Master(s, ready).Some? ==> Master(s, ready).value in ready && UidOf(s, Master(s, ready).value) != ""
  {
    if ready != [] {
      MasterMeans(s, ready[1..]);
      assert forall c :: c in ready <==> c == ready[0] || c in ready[1..];
    }
  }

  /** No cluster before the master has a UID. */
  lemma {:induction false} MasterIsFirst(s: State, ready: seq<string>) returns (k: nat)
    requires Master(s, ready).Some?
    ensures k < |ready| && Master(s, ready) == Some(ready[k]) && forall j :: 0 <= j < k ==> UidOf(s, ready[j]) == ""
  {
    if UidOf(s, ready[0]) != "" {
      k := 0;
    } else {
      var rest := ready[1..];
      k := MasterIsFirst(s, rest);
      assert forall j :: 0 < j < |ready| ==> ready[j] == rest[j - 1];
      k := k + 1;
    }
  }

  /** What a reconcile step works from: the cluster's annotation as read before the lock, the
      configmap object it was given (`aliased` when that object is still the cached one), the ready
      clusters as seen under the lock, and whether its two writes succeed. */
  datatype Input = Input(cluster: string, uid: string, config: ConfigMap, aliased: bool, ready: seq<string>,
                         clusterWrite: bool, configWrite: bool)

  /** The UID a step settles on, and the annotations after it; None when the step gives up. */
  function Adopt(s: State, i: Input): Option<(string, map<string, string>)> {
    if i.uid != "" then Some((i.uid, s.annotation))
    else match Master(s, i.ready)
         case Some(master) =>
           if master == i.cluster then Some((i.uid, s.annotation))
           else if i.clusterWrite then Some((UidOf(s, master), s.annotation[i.cluster := UidOf(s, master)]))
           else None
         case None =>
           if i.config.uid != "" && i.clusterWrite then Some((i.config.uid, s.annotation[i.cluster := i.config.uid]))
           else None
  }

  /** reconcileConfigMap as a function of the state. The configmap object is changed in place before
      the update is attempted. */
  function Reconcile(provider: string -> string, s: State, i: Input): State {
    match Adopt(s, i)
    case None => s
    case Some((uid, annotation)) =>
      var wanted := ConfigMap(uid, provider(i.cluster));
      if i.config == wanted then s.(annotation := annotation)
      else State(annotation,
                 if i.configWrite then s.config[i.cluster := wanted] else s.config,
                 if i.aliased then s.cache[i.cluster := wanted] else s.cache)
  }

  /** When a step gives up, leaving annotations and configmap alone: it read no UID, its cluster is not
      the master, and the cluster cannot be written or there is no UID to give it. */
  lemma GivesUpExactly(provider: string -> string, s: State, i: Input)
    ensures Adopt(s, i).None? <==>
              && i.uid == "" && Master(s, i.ready) != Some(i.cluster)
              && (!i.clusterWrite || (Master(s, i.ready).None? && i.config.uid == ""))
    ensures Adopt(s, i).None? ==> Reconcile(provider, s, i) == s
  {
  }

  /** What a step settles on otherwise: the UID it read, the master's, or that of its own configmap; and
      the cluster is annotated exactly when it read none and is not the master. */
  lemma AdoptMeans(s: State, i: Input)
    requires Adopt(s, i).Some?
    ensures var (uid, annotation) := Adopt(s, i).value;
            var master := Master(s, i.ready);
            if i.uid != "" || master == Some(i.cluster) then uid == i.uid && annotation == s.annotation
            else
              && uid == (if master.Some? then UidOf(s, master.value) else i.config.uid) && uid != ""
              && annotation == s.annotation[i.cluster := uid]
  {
    MasterMeans(s, i.ready);
  }

  class UidController {
    var annotation: map<string, string>
    var config: map<string, ConfigMap>
    var cache: map<string, ConfigMap>

    function Now(): State
      reads this
    {
      State(annotation, config, cache)
    }

    constructor (s: State)
      ensures Now() == s
    {
      annotation, config, cache := s.annotation, s.config, s.cache;
    }

    method GetMasterCluster(ready: seq<string>) returns (master: Option<string>)
      ensures master == Master(Now(), ready)
    {
      for i := 0 to |ready|
        invariant Master(Now(), ready) == Master(Now(), ready[i..])
      {
        if UidOf(Now(), ready[i]) != "" {
          return Some(ready[i]);
        }
        assert ready[i..][1..] == ready[i + 1..];
      }
      master := None;
    }

    /** updateClusterIngressUIDToMasters */
    method UpdateToMasters(i: Input) returns (uid: Option<string>)
      requires i.uid == ""
      modifies this`annotation
      ensures match Adopt(old(Now()), i)
              case None => uid == None && annotation == old(annotation)
              case Some((adopted, after)) => uid == Some(adopted) && annotation == after
    {
      var master := GetMasterCluster(i.ready);
      if master.Some? {
        if master.value != i.cluster {
          if !i.clusterWrite {
            return None;
          }
          uid := Some(UidOf(Now(), master.value));
          annotation := annotation[i.cluster := uid.value];
        } else {
          uid := Some(i.uid);
        }
      } else {
        if i.config.uid == "" || !i.clusterWrite {
          return None;
        }
        annotation := annotation[i.cluster := i.config.uid];
        uid := Some(i.config.uid);
      }
    }

    method ReconcileConfigMap(provider: string -> string, i: Input)
      modifies this
      ensures Now() == Reconcile(provider, old(Now()), i)
    {
      var uid := i.uid;
      if uid == "" {
        var adopted := UpdateToMasters(i);
        if adopted.None? {
          return;
        }
        uid := adopted.value;
      }
      var wanted := ConfigMap(uid, provider(i.cluster));
      if i.config.uid == uid && i.config.provider == wanted.provider {
        return;
      }
      if i.aliased {
        cache := cache[i.cluster := wanted];
      }
      if i.configWrite {
        config := config[i.cluster := wanted];
      }
    }
  }

  // ---------------------------------------------------------------- runs

  /** What was read before the lock: the cluster's annotation, and a reference to the cached configmap
      object, by its version. */
  datatype Snapshot = Snapshot(cluster: string, uid: string, version: nat)

  /** The protocol with any number of reads in flight, `pending`, by read id. A refresh of the cache
      makes a new version of a configmap object and puts the old one into `replaced`, where reads in
      flight still reach it. `pastUids` and `pastConfigs` hold earlier values at the server, which a
      lagging informer may yet show; `held` every UID a configmap had from its own cluster. */
  datatype World = World(s: State, pending: map<nat, Snapshot>, replaced: map<string, seq<ConfigMap>>,
                         pastUids: set<(string, string)>, pastConfigs: set<(string, ConfigMap)>,
                         held: set<(string, string)>, elected: Option<(string, string)>)

  datatype Event =
    | Read(id: nat, cluster: string, uid: string)            // before the lock, perhaps outdated
    | Locked(id: nat, ready: seq<string>, clusterWrite: bool, configWrite: bool)
    | ConfigChanged(cluster: string, config: ConfigMap)      // by the cluster itself
    | CacheRefreshed(cluster: string, config: ConfigMap)     // by the informer, perhaps to an earlier value

  function Replaced(w: World, c: string): seq<ConfigMap> {
    if c in w.replaced then w.replaced[c] else []
  }

  /** The configmap object of a version, as it is now. */
  function ObjectOf(w: World, c: string, version: nat): ConfigMap {
    if version < |Replaced(w, c)| then Replaced(w, c)[version] else At(w.s.cache, c)
  }

  function InputOf(w: World, e: Event): Input
    requires e.Locked? && e.id in w.pending
  {
    var read := w.pending[e.id];
    Input(read.cluster, read.uid, ObjectOf(w, read.cluster, read.version),
          read.version >= |Replaced(w, read.cluster)|, e.ready, e.clusterWrite, e.configWrite)
  }

  /** The step that elects: no UID read, no master in view, a UID of its own, a successful write. */
  predicate Elects(s: State, i: Input) {
    i.uid == "" && Master(s, i.ready).None? && i.config.uid != "" && i.clusterWrite
  }

  /** The configmap object after the step, changed in place or not. */
  function ObjectAfter(provider: string -> string, s: State, i: Input): ConfigMap {
    match Adopt(s, i) case None => i.config case Some((uid, _)) => ConfigMap(uid, provider(i.cluster))
  }

  /** A read shows the annotation as it is or once was, a refresh the configmap; a locked step
      follows a read. */
  predicate Possible(w: World, e: Event) {
    match e
    case Read(id, c, uid) => id !in w.pending && (uid == UidOf(w.s, c) || (c, uid) in w.pastUids)
    case Locked(id, _, _, _) => id in w.pending
    case ConfigChanged(_, _) => true
    case CacheRefreshed(c, config) => config == At(w.s.config, c) || (c, config) in w.pastConfigs
  }

  function Next(provider: string -> string, w: World, e: Event): World
    requires Possible(w, e)
  {
    match e
    case Read(id, c, uid) => w.(pending := w.pending[id := Snapshot(c, uid, |Replaced(w, c)|)])
    case ConfigChanged(c, config) =>
      w.(s := w.s.(config := w.s.config[c := config]), held := w.held + {(c, config.uid)},
         pastConfigs := w.pastConfigs + {(c, At(w.s.config, c))})
    case CacheRefreshed(c, config) =>
      w.(s := w.s.(cache := w.s.cache[c := config]),
         replaced := w.replaced[c := Replaced(w, c) + [At(w.s.cache, c)]])
    case Locked(id, _, _, _) =>
      var c, version, i := w.pending[id].cluster, w.pending[id].version, InputOf(w, e);
      World(Reconcile(provider, w.s, i), w.pending - {id},
            if i.aliased then w.replaced
            else w.replaced[c := Replaced(w, c)[version := ObjectAfter(provider, w.s, i)]],
            w.pastUids + {(c, UidOf(w.s, c))}, w.pastConfigs + {(c, At(w.s.config, c))}, w.held,
            if Elects(w.s, i) then Some((c, i.config.uid)) else w.elected)
  }

  /** The view under the lock shows an annotated cluster whenever there is one. A cluster that the
      view still shows without its UID is left out of `ready`: the search for a master passes over it. */
  predicate CurrentView(s: State, ready: seq<string>) {
    (exists c :: c in s.annotation && s.annotation[c] != "") ==> Master(s, ready).Some?
  }

  /** A UID that the cluster itself gave its configmap, or the elected one, or none. */
  predicate Known(w: World, c: string, uid: string) {
    uid == "" || (c, uid) in w.held || (w.elected.Some? && uid == w.elected.value.1)
  }

  /** Either nothing was elected and no cluster has a UID, or some cluster has one and they are all
      the elected one, which the elected cluster's configmap held. */
  predicate UidsAgree(w: World) {
    match w.elected
    case None => forall c :: c in w.s.annotation ==> w.s.annotation[c] == ""
    case Some((cluster, uid)) =>
      && uid != "" && (cluster, uid) in w.held
      && (forall c :: c in w.s.annotation ==> w.s.annotation[c] in {"", uid})
      && (exists c :: c in w.s.annotation && w.s.annotation[c] != "")
  }

  /** An annotation read earlier, or still to be read late, is in place or was absent. */
  predicate UidReadsKnown(w: World) {
    && (forall id :: id in w.pending ==> w.pending[id].uid in {"", UidOf(w.s, w.pending[id].cluster)})
    && (forall p :: p in w.pastUids ==> p.1 in {"", UidOf(w.s, p.0)})
  }

  /** Configmaps, past ones, cached ones and replaced ones show known UIDs. */
  predicate ConfigsKnown(w: World) {
    && (forall c :: c in w.s.config ==> Known(w, c, w.s.config[c].uid))
    && (forall c :: c in w.s.cache ==> Known(w, c, w.s.cache[c].uid))
    && (forall p :: p in w.pastConfigs ==> Known(w, p.0, p.1.uid))
    && (forall c, k :: c in w.replaced && 0 <= k < |w.replaced[c]| ==> Known(w, c, w.replaced[c][k].uid))
  }

  predicate Agreed(w: World) { UidsAgree(w) && UidReadsKnown(w) && ConfigsKnown(w) }

  /** UIDs once set never change, nor does the election once made. */
  ghost predicate Grows(w: World, next: World) {
    && (forall c :: UidOf(w.s, c) != "" ==> UidOf(next.s, c) == UidOf(w.s, c))
    && (w.elected.Some? ==> next.elected == w.elected)
  }

  /** What a locked step adopts: its own UID when it elects, and then nothing was elected before;
      otherwise the elected UID or none. */
  lemma AdoptedUid(w: World, e: Event)
    requires Agreed(w) && e.Locked? && Possible(w, e) && CurrentView(w.s, e.ready)
    ensures var i := InputOf(w, e);
            Adopt(w.s, i).Some? ==>
              var (uid, annotation) := Adopt(w.s, i).value;
              if Elects(w.s, i) then
                w.elected.None? && uid != "" && (i.cluster, uid) in w.held && uid == i.config.uid
                && annotation == w.s.annotation[i.cluster := uid]
              else
                && (uid == "" || (w.elected.Some? && uid == w.elected.value.1))
                && (annotation == w.s.annotation || (uid != "" && annotation == w.s.annotation[i.cluster := uid]))
  {
    var i := InputOf(w, e);
    MasterMeans(w.s, i.ready);
    if Elects(w.s, i) {
      assert Known(w, i.cluster, i.config.uid);
    }
  }

  /** What a locked step on cluster c does to the annotations: nothing, or it gives c the elected UID,
      or it elects c. */
  ghost predicate TakesOver(w: World, next: World, c: string) {
    && next.held == w.held
    && (|| (next.elected == w.elected && next.s.annotation == w.s.annotation)
        || (w.elected.Some? && next.elected == w.elected && next.s.annotation == w.s.annotation[c := w.elected.value.1])
        || (w.elected.None? && next.elected.Some? && next.elected.value.0 == c && next.elected.value.1 != ""
            && next.elected.value in w.held && next.s.annotation == w.s.annotation[c := next.elected.value.1]))
  }

  lemma LockedTakesOver(provider: string -> string, w: World, e: Event)
    requires Agreed(w) && e.Locked? && Possible(w, e) && CurrentView(w.s, e.ready)
    ensures TakesOver(w, Next(provider, w, e), w.pending[e.id].cluster)
    ensures Known(Next(provider, w, e), w.pending[e.id].cluster, ObjectAfter(provider, w.s, InputOf(w, e)).uid)
  {
    AdoptedUid(w, e);
    assert Known(w, w.pending[e.id].cluster, InputOf(w, e).config.uid);
  }

  lemma TakingOverKeepsUids(w: World, next: World, c: string)
    requires UidsAgree(w) && TakesOver(w, next, c)
    ensures UidsAgree(next) && Grows(w, next)
    ensures forall d, uid :: Known(w, d, uid) ==> Known(next, d, uid)
  {
    if w.elected.Some? {
      var d :| d in w.s.annotation && w.s.annotation[d] != "";
      assert d in next.s.annotation && next.s.annotation[d] != "";
    } else if next.elected.Some? {
      assert c in next.s.annotation && next.s.annotation[c] != "";
    }
  }

  lemma LockedKeepsConfigs(provider: string -> string, w: World, e: Event)
    requires ConfigsKnown(w) && e.Locked? && Possible(w, e)
    requires forall d, uid :: Known(w, d, uid) ==> Known(Next(provider, w, e), d, uid)
    requires Known(Next(provider, w, e), w.pending[e.id].cluster, ObjectAfter(provider, w.s, InputOf(w, e)).uid)
    ensures ConfigsKnown(Next(provider, w, e))
  {
    var next, c, i := Next(provider, w, e), w.pending[e.id].cluster, InputOf(w, e);
    var after := ObjectAfter(provider, w.s, i);
    ConfigAfter(provider, w.s, i);
    forall d, k | d in next.replaced && 0 <= k < |next.replaced[d]|
      ensures Known(next, d, next.replaced[d][k].uid)
    {
      assert (d == c && next.replaced[d][k] == after) || (d in w.replaced && next.replaced[d][k] == w.replaced[d][k]);
    }
  }

  lemma ConfigAfter(provider: string -> string, s: State, i: Input)
    ensures var next, after := Reconcile(provider, s, i), ObjectAfter(provider, s, i);
            && (next.config == s.config || next.config == s.config[i.cluster := after])
            && (next.cache == s.cache || next.cache == s.cache[i.cluster := after])
  {
  }

  lemma LockedKeepsAgreement(provider: string -> string, w: World, e: Event)
    requires Agreed(w) && e.Locked? && Possible(w, e) && CurrentView(w.s, e.ready)
    ensures Agreed(Next(provider, w, e)) && Grows(w, Next(provider, w, e))
  {
    LockedTakesOver(provider, w, e);
    TakingOverKeepsUids(w, Next(provider, w, e), w.pending[e.id].cluster);
    LockedKeepsConfigs(provider, w, e);
  }

  /** Every event keeps agreement, whichever reads it overtakes. */
  lemma EventKeepsAgreement(provider: string -> string, w: World, e: Event)
    requires Agreed(w) && Possible(w, e) && (e.Locked? ==> CurrentView(w.s, e.ready))
    ensures Agreed(Next(provider, w, e)) && Grows(w, Next(provider, w, e))
  {
    match e
    case Read(_, _, _) =>
    case Locked(_, _, _, _) => LockedKeepsAgreement(provider, w, e);
    case ConfigChanged(_, _) => ConfigChangeKeepsAgreement(provider, w, e);
    case CacheRefreshed(_, _) => RefreshKeepsAgreement(provider, w, e);
  }

  lemma ConfigChangeKeepsAgreement(provider: string -> string, w: World, e: Event)
    requires Agreed(w) && e.ConfigChanged?
    ensures Agreed(Next(provider, w, e)) && Grows(w, Next(provider, w, e))
  {
    assert forall d, uid :: Known(w, d, uid) ==> Known(Next(provider, w, e), d, uid);
  }

  lemma RefreshKeepsAgreement(provider: string -> string, w: World, e: Event)
    requires Agreed(w) && e.CacheRefreshed? && Possible(w, e)
    ensures Agreed(Next(provider, w, e)) && Grows(w, Next(provider, w, e))
  {
    var next := Next(provider, w, e);
    forall k | 0 <= k < |next.replaced[e.cluster]|
      ensures Known(w, e.cluster, next.replaced[e.cluster][k].uid)
    {
      assert k < |Replaced(w, e.cluster)| ==> next.replaced[e.cluster][k] == w.replaced[e.cluster][k];
    }
  }

  /** Each world follows from the one before, whatever the views under the lock. */
  ghost predicate Follow(provider: string -> string, worlds: seq<World>, events: seq<Event>) {
    && |worlds| == |events| + 1
    && forall i :: 0 <= i < |events| ==>
         Possible(worlds[i], events[i]) && worlds[i + 1] == Next(provider, worlds[i], events[i])
  }

  ghost predicate IsRun(provider: string -> string, worlds: seq<World>, events: seq<Event>) {
    && Follow(provider, worlds, events)
    && forall i :: 0 <= i < |events| && events[i].Locked? ==> CurrentView(worlds[i].s, events[i].ready)
  }

  lemma {:induction false} AgreedAt(provider: string -> string, worlds: seq<World>, events: seq<Event>, n: nat)
    requires IsRun(provider, worlds, events) && Agreed(worlds[0]) && n < |worlds|
    ensures Agreed(worlds[n])
  {
    if n > 0 {
      AgreedAt(provider, worlds, events, n - 1);
      EventKeepsAgreement(provider, worlds[n - 1], events[n - 1]);
    }
  }

  /** In every run, through overlapping and outdated reads, lagging caches, failed writes and
      configmaps changed from outside, all non-empty UIDs are equal, never change once set, and come
      from the one elected configmap. */
  lemma RunsAgree(provider: string -> string, worlds: seq<World>, events: seq<Event>)
    requires IsRun(provider, worlds, events) && Agreed(worlds[0])
    ensures forall n :: 0 <= n < |worlds| ==> Agreed(worlds[n])
    ensures forall n :: 0 <= n < |events| ==> Grows(worlds[n], worlds[n + 1])
  {
    forall n | 0 <= n < |worlds|
      ensures Agreed(worlds[n])
    {
      AgreedAt(provider, worlds, events, n);
    }
    forall n | 0 <= n < |events|
      ensures Grows(worlds[n], worlds[n + 1])
    {
      EventKeepsAgreement(provider, worlds[n], events[n]);
    }
  }

  /** A start without any UID annotation and with nothing read yet. */
  function Start(config: map<string, ConfigMap>): World {
    World(State(map[], config, config), map[], map[], {}, {}, set c | c in config :: (c, config[c].uid), None)
  }

  lemma StartAgrees(provider: string -> string, config: map<string, ConfigMap>, worlds: seq<World>, events: seq<Event>)
    requires IsRun(provider, worlds, events) && worlds[0] == Start(config)
    ensures forall n :: 0 <= n < |worlds| ==> Agreed(worlds[n])
  {
    RunsAgree(provider, worlds, events);
  }

  // ---------------------------------------------------------------- where the hypotheses bite

  predicate Uniform(s: State, uid: string) {
    uid != "" && forall c :: c in s.annotation ==> s.annotation[c] in {"", uid}
  }

  /** An election held although some cluster has a UID keeps them uniform exactly when the new UID
      happens to be the old one. */
  lemma BlindElectionExactly(provider: string -> string, s: State, i: Input, uid: string, c: string)
    requires Uniform(s, uid) && UidOf(s, c) == uid && c != i.cluster && Elects(s, i)
    ensures (exists u :: Uniform(Reconcile(provider, s, i), u)) <==> i.config.uid == uid
  {
    var next := Reconcile(provider, s, i);
    assert next.annotation[c] == uid && next.annotation[i.cluster] == i.config.uid;
    if i.config.uid == uid {
      assert Uniform(next, uid);
    }
  }

  /** Cluster d is stepped on with a view that lacks cluster c. */
  function TwoElections(c: string, d: string): seq<Event> {
    [Read(0, c, ""), Locked(0, [c, d], true, true), Read(1, d, ""), Locked(1, [d], true, true)]
  }

  function ElectionWorlds(provider: string -> string, w: World, c: string, d: string): seq<World> {
    var w1 := w.(pending := map[0 := Snapshot(c, "", 0)]);
    var w2 := Next(provider, w1, TwoElections(c, d)[1]);
    var w3 := w2.(pending := w2.pending[1 := Snapshot(d, "", 0)]);
    [w, w1, w2, w3, Next(provider, w3, TwoElections(c, d)[3])]
  }

  /** Such views are reached: from a clean start, cluster c is elected, then the view loses c, and d is
      elected as well. Only the last step lacks a current view, and the UIDs end up different. */
  lemma ElectedTwice(provider: string -> string, c: string, u: string, d: string, v: string, id: string)
    requires u != "" && v != "" && u != v && c != d
    ensures var worlds := ElectionWorlds(provider, Start(map[c := ConfigMap(u, id), d := ConfigMap(v, id)]), c, d);
            && Follow(provider, worlds, TwoElections(c, d))
            && CurrentView(worlds[1].s, [c, d]) && !CurrentView(worlds[3].s, [d])
            && UidOf(worlds[4].s, c) == u && UidOf(worlds[4].s, d) == v
  {
    BothElected(provider, Start(map[c := ConfigMap(u, id), d := ConfigMap(v, id)]), c, u, d, v);
  }

  lemma BothElected(provider: string -> string, w: World, c: string, u: string, d: string, v: string)
    requires w.s.annotation == map[] && w.pending == map[] && w.replaced == map[]
    requires At(w.s.cache, c).uid == u != "" && At(w.s.cache, d).uid == v != "" && c != d
    ensures var worlds := ElectionWorlds(provider, w, c, d);
            && Follow(provider, worlds, TwoElections(c, d))
            && CurrentView(worlds[1].s, [c, d]) && !CurrentView(worlds[3].s, [d])
            && UidOf(worlds[4].s, c) == u && UidOf(worlds[4].s, d) == v
  {
    var worlds := ElectionWorlds(provider, w, c, d);
    MasterMeans(worlds[1].s, [c, d]);
    ElectingStep(provider, worlds[1], TwoElections(c, d)[1], c, d);
    assert worlds[3].s.annotation == map[c := u];
    MasterMeans(worlds[3].s, [d]);
    ElectingStep(provider, worlds[3], TwoElections(c, d)[3], d, c);
  }

  lemma ElectingStep(provider: string -> string, w: World, e: Event, c: string, d: string)
    requires e.Locked? && e.clusterWrite && e.id in w.pending && w.pending[e.id] == Snapshot(c, "", 0) && c != d
    requires w.replaced == map[] && At(w.s.cache, c).uid != "" && Master(w.s, e.ready).None?
    ensures var next := Next(provider, w, e);
            && next.s.annotation == w.s.annotation[c := At(w.s.cache, c).uid]
            && next.pending == w.pending - {e.id} && next.replaced == map[] && next.pastUids >= w.pastUids
            && At(next.s.cache, d) == At(w.s.cache, d)
  {
  }

  /** An event empties the UID in a cluster's configmap exactly when the cluster does so itself, or
      when a locked step has read the annotation before it was set, finds its own cluster the master,
      has a configmap object that does not look so already, and its update succeeds. */
  lemma EmptyUidExactly(provider: string -> string, w: World, e: Event, c: string)
    requires Possible(w, e) && At(w.s.config, c).uid != ""
    ensures At(Next(provider, w, e).s.config, c).uid == "" <==>
              || (e.ConfigChanged? && e.cluster == c && e.config.uid == "")
              || (e.Locked? && e.configWrite && w.pending[e.id].cluster == c && w.pending[e.id].uid == ""
                  && Master(w.s, e.ready) == Some(c)
                  && ObjectOf(w, c, w.pending[e.id].version) != ConfigMap("", provider(c)))
  {
    if e.Locked? {
      MasterMeans(w.s, e.ready);
    }
  }

  /** Two reads of one cluster before the first is acted upon. */
  function TwoReads(c: string): seq<Event> {
    [Read(0, c, ""), Read(1, c, ""), Locked(0, [c], true, true), Locked(1, [c], true, true)]
  }

  function WorldsOf(provider: string -> string, w: World, c: string): seq<World> {
    var w1 := w.(pending := map[0 := Snapshot(c, "", 0)]);
    var w2 := w.(pending := map[0 := Snapshot(c, "", 0), 1 := Snapshot(c, "", 0)]);
    var w3 := Next(provider, w2, TwoReads(c)[2]);
    [w, w1, w2, w3, Next(provider, w3, TwoReads(c)[3])]
  }

  /** This happens: from a clean start with one configmap that has a UID, the first step makes its
      cluster the master, and the second writes the empty UID into the master's configmap. */
  lemma MasterIsEmptied(provider: string -> string, c: string, uid: string, id: string)
    requires uid != ""
    ensures var worlds := WorldsOf(provider, Start(map[c := ConfigMap(uid, id)]), c);
            && IsRun(provider, worlds, TwoReads(c))
            && UidOf(worlds[4].s, c) == uid && At(worlds[4].s.config, c) == ConfigMap("", provider(c))
  {
    var worlds := WorldsOf(provider, Start(map[c := ConfigMap(uid, id)]), c);
    assert Master(worlds[2].s, [c]) == None;
    assert Elects(worlds[2].s, InputOf(worlds[2], TwoReads(c)[2])) && UidOf(worlds[3].s, c) == uid;
    assert Master(worlds[3].s, [c]) == Some(c);
  }

  // ---------------------------------------------------------------- failed updates

  /** What the configmap of an annotated cluster should hold. */
  function Wanted(provider: string -> string, s: State, c: string): ConfigMap {
    ConfigMap(UidOf(s, c), provider(c))
  }

  /** A step on up-to-date objects repairs a wrong configmap exactly when the cached copy does not
      look right already. */
  lemma RetryExactly(provider: string -> string, s: State, c: string, ready: seq<string>)
    requires UidOf(s, c) != ""
    ensures At(Reconcile(provider, s, Fresh(s, c, ready, true)).config, c) == Wanted(provider, s, c)
       <==> At(s.config, c) == Wanted(provider, s, c) || At(s.cache, c) != Wanted(provider, s, c)
  {
  }

  /** The configmap is wrong, and neither the cached copy nor a read in flight shows it. */
  predicate Stuck(provider: string -> string, w: World, c: string) {
    && UidOf(w.s, c) != "" && At(w.s.config, c) != Wanted(provider, w.s, c)
    && At(w.s.cache, c) == Wanted(provider, w.s, c)
    && (forall id :: id in w.pending && w.pending[id].cluster == c ==>
          w.pending[id].uid == UidOf(w.s, c) && ObjectOf(w, c, w.pending[id].version) == Wanted(provider, w.s, c))
  }

  /** After a failed update of the cached object the cluster is stuck, unless another read in flight
      is older: the object was changed before the update was tried. */
  lemma FailedUpdateSticks(provider: string -> string, w: World, e: Event)
    requires e.Locked? && Possible(w, e) && !e.configWrite && InputOf(w, e).aliased
    requires var c, next := w.pending[e.id].cluster, Next(provider, w, e);
             && Adopt(w.s, InputOf(w, e)).Some? && Adopt(w.s, InputOf(w, e)).value.0 == UidOf(next.s, c) != ""
             && At(w.s.config, c) != Wanted(provider, next.s, c)
             && (forall id :: id in next.pending && next.pending[id].cluster == c ==>
                   next.pending[id].uid == UidOf(next.s, c) && next.pending[id].version >= |Replaced(next, c)|)
    ensures Stuck(provider, Next(provider, w, e), w.pending[e.id].cluster)
  {
  }

  /** This happens too: the first step from a clean start elects, and its update fails. */
  lemma FirstUpdateFails(provider: string -> string, c: string, uid: string, id: string)
    requires uid != "" && id != provider(c)
    ensures var w := Start(map[c := ConfigMap(uid, id)]);
            var w1 := Next(provider, w, Read(0, c, ""));
            var w2 := Next(provider, w1, Locked(0, [c], true, false));
            UidOf(w2.s, c) == uid && Stuck(provider, w2, c)
  {
    var w := Start(map[c := ConfigMap(uid, id)]);
    var w1 := Next(provider, w, Read(0, c, ""));
    assert Master(w1.s, [c]) == None;
    FailedUpdateSticks(provider, w1, Locked(0, [c], true, false));
  }

  /** What gets a stuck cluster unstuck: a change from outside, a refresh of the cache, or a read that
      does not show the UID. */
  predicate Disturbs(w: World, e: Event, c: string) {
    match e
    case Read(_, d, uid) => d == c && uid != UidOf(w.s, c)
    case Locked(_, _, _, _) => false
    case ConfigChanged(d, _) => d == c
    case CacheRefreshed(d, _) => d == c
  }

  lemma EventKeepsStuck(provider: string -> string, w: World, e: Event, c: string)
    requires Possible(w, e) && Stuck(provider, w, c) && !Disturbs(w, e, c)
    ensures Stuck(provider, Next(provider, w, e), c)
    ensures At(Next(provider, w, e).s.config, c) == At(w.s.config, c)
  {
    if e.Locked? {
      LockedKeepsStuck(provider, w, e, c);
    }
  }

  lemma LockedKeepsStuck(provider: string -> string, w: World, e: Event, c: string)
    requires e.Locked? && Possible(w, e) && Stuck(provider, w, c)
    ensures Stuck(provider, Next(provider, w, e), c)
    ensures At(Next(provider, w, e).s.config, c) == At(w.s.config, c)
  {
    var next, d, i := Next(provider, w, e), w.pending[e.id].cluster, InputOf(w, e);
    if d == c {
      assert Reconcile(provider, w.s, i) == w.s;
      assert !i.aliased ==> Replaced(next, c) == Replaced(w, c);
    } else {
      assert Replaced(next, c) == Replaced(w, c);
      ReconcileElsewhere(provider, w.s, i, c);
    }
  }

  lemma ReconcileElsewhere(provider: string -> string, s: State, i: Input, c: string)
    requires c != i.cluster
    ensures var next := Reconcile(provider, s, i);
            && UidOf(next, c) == UidOf(s, c)
            && At(next.config, c) == At(s.config, c) && At(next.cache, c) == At(s.cache, c)
  {
  }

  /** Until then, however many steps are made, none of them repairs the configmap. */
  lemma {:induction false} StuckStays(provider: string -> string, worlds: seq<World>, events: seq<Event>, c: string,
                                      n: nat)
    requires IsRun(provider, worlds, events) && Stuck(provider, worlds[0], c) && n < |worlds|
    requires forall i :: 0 <= i < |events| ==> !Disturbs(worlds[i], events[i], c)
    ensures Stuck(provider, worlds[n], c) && At(worlds[n].s.config, c) == At(worlds[0].s.config, c)
  {
    if n > 0 {
      StuckStays(provider, worlds, events, c, n - 1);
      EventKeepsStuck(provider, worlds[n - 1], events[n - 1], c);
    }
  }

  /** The first step on what a refresh of the cache shows repairs it. */
  lemma RefreshRepairs(provider: string -> string, w: World, c: string, id: nat, ready: seq<string>, clusterWrite: bool)
    requires UidOf(w.s, c) != "" && id !in w.pending
    ensures var w1 := Next(provider, w, CacheRefreshed(c, At(w.s.config, c)));
            var w2 := Next(provider, w1, Read(id, c, UidOf(w.s, c)));
            var w3 := Next(provider, w2, Locked(id, ready, clusterWrite, true));
            At(w3.s.config, c) == Wanted(provider, w.s, c) && UidOf(w3.s, c) == UidOf(w.s, c)
  {
  }

  // ---------------------------------------------------------------- convergence

  /** A step on up-to-date objects whose annotation write succeeds. */
  function Fresh(s: State, c: string, ready: seq<string>, configWrite: bool): Input {
    Input(c, UidOf(s, c), At(s.cache, c), true, ready, true, configWrite)
  }

  ghost predicate CacheCurrent(s: State) { forall c :: At(s.cache, c) == At(s.config, c) }

  /** The cluster has the UID, and its configmap has the UID and its own provider id. */
  predicate InOrder(provider: string -> string, s: State, uid: string, c: string) {
    UidOf(s, c) == uid && At(s.config, c) == ConfigMap(uid, provider(c))
  }

  function Unannotated(s: State, clusters: set<string>): set<string> {
    set c | c in clusters && UidOf(s, c) == ""
  }

  function Disagreeing(provider: string -> string, s: State, uid: string, clusters: set<string>): set<string> {
    set c | c in clusters && At(s.config, c) != ConfigMap(uid, provider(c))
  }

  function Measure(provider: string -> string, s: State, uid: string, clusters: set<string>): nat {
    |Unannotated(s, clusters)| + |Disagreeing(provider, s, uid, clusters)|
  }

  lemma FreshStep(provider: string -> string, s: State, uid: string, c: string, ready: seq<string>)
    requires Uniform(s, uid) && CacheCurrent(s) && Master(s, ready).Some?
    ensures var next := Reconcile(provider, s, Fresh(s, c, ready, true));
            && Uniform(next, uid) && CacheCurrent(next)
            && InOrder(provider, next, uid, c)
            && (forall d :: d != c ==> UidOf(next, d) == UidOf(s, d) && At(next.config, d) == At(s.config, d))
            && (forall d :: UidOf(s, d) != "" ==> UidOf(next, d) == UidOf(s, d))
            && (InOrder(provider, s, uid, c) ==> next == s)
  {
    MasterMeans(s, ready);
    var next := Reconcile(provider, s, Fresh(s, c, ready, true));
    forall d
      ensures At(next.cache, d) == At(next.config, d)
    {
      assert At(s.cache, d) == At(s.config, d);
    }
  }

  /** Each step lowers the number of clusters without UID plus configmaps that disagree, or changes
      nothing. */
  lemma FreshStepLowers(provider: string -> string, s: State, uid: string, c: string, ready: seq<string>,
                        clusters: set<string>)
    requires Uniform(s, uid) && CacheCurrent(s) && Master(s, ready).Some? && c in clusters
    ensures var next := Reconcile(provider, s, Fresh(s, c, ready, true));
            next == s || Measure(provider, next, uid, clusters) < Measure(provider, s, uid, clusters)
  {
    FreshStep(provider, s, uid, c, ready);
    var next := Reconcile(provider, s, Fresh(s, c, ready, true));
    if next != s {
      OneFewer(provider, s, next, uid, c, clusters);
      Fewer(Unannotated(s, clusters), c);
      Fewer(Disagreeing(provider, s, uid, clusters), c);
      assert UidOf(s, c) == "" || At(s.config, c) != ConfigMap(uid, provider(c));
    }
  }

  lemma OneFewer(provider: string -> string, s: State, next: State, uid: string, c: string, clusters: set<string>)
    requires uid != "" && InOrder(provider, next, uid, c)
    requires forall d :: d != c ==> UidOf(next, d) == UidOf(s, d) && At(next.config, d) == At(s.config, d)
    ensures Unannotated(next, clusters) == Unannotated(s, clusters) - {c}
    ensures Disagreeing(provider, next, uid, clusters) == Disagreeing(provider, s, uid, clusters) - {c}
  {
  }

  lemma Fewer(s: set<string>, c: string)
    ensures |s - {c}| == if c in s then |s| - 1 else |s|
  {
    if c !in s { assert s - {c} == s; }
  }

  /** A schedule of steps, each with its own view of the ready clusters. */
  function Steps(provider: string -> string, s: State, schedule: seq<(string, seq<string>)>): State
    decreases |schedule|
  {
    if schedule == [] then s
    else Steps(provider, Reconcile(provider, s, Fresh(s, schedule[0].0, schedule[0].1, true)), schedule[1..])
  }

  /** Once there is a master, one step per cluster, in any order and with any repetitions, puts every
      scheduled cluster in order. */
  lemma {:induction false} OneStepEachSuffices(provider: string -> string, s: State, uid: string, master: string,
                                               schedule: seq<(string, seq<string>)>, c: string)
    requires Uniform(s, uid) && CacheCurrent(s) && UidOf(s, master) == uid
    requires forall i :: 0 <= i < |schedule| ==> master in schedule[i].1
    requires InOrder(provider, s, uid, c) || exists i :: 0 <= i < |schedule| && schedule[i].0 == c
    ensures InOrder(provider, Steps(provider, s, schedule), uid, c)
    decreases |schedule|
  {
    if schedule != [] {
      var (d, ready) := schedule[0];
      MasterMeans(s, ready);
      FreshStep(provider, s, uid, d, ready);
      var rest := schedule[1..];
      assert forall i :: 0 <= i < |rest| ==> rest[i] == schedule[i + 1];
      var next := Reconcile(provider, s, Fresh(s, d, ready, true));
      if d != c && !InOrder(provider, s, uid, c) {
        var i :| 0 <= i < |schedule| && schedule[i].0 == c;
        assert rest[i - 1].0 == c;
      }
      OneStepEachSuffices(provider, next, uid, master, rest, c);
    }
  }

  /** With no UID anywhere, the first step on a cluster whose configmap has one makes it the UID of
      all: after it, the same holds with that cluster as master. */
  lemma FirstStepElects(provider: string -> string, s: State, c: string, ready: seq<string>)
    requires CacheCurrent(s) && (forall d :: d in s.annotation ==> s.annotation[d] == "")
    requires At(s.config, c).uid != ""
    ensures var next := Reconcile(provider, s, Fresh(s, c, ready, true));
            && Uniform(next, At(s.config, c).uid) && CacheCurrent(next)
            && InOrder(provider, next, At(s.config, c).uid, c)
  {
    MasterMeans(s, ready);
    var next := Reconcile(provider, s, Fresh(s, c, ready, true));
    forall d
      ensures At(next.cache, d) == At(next.config, d)
    {
      assert At(s.cache, d) == At(s.config, d);
    }
  }

  /** From no UID at all: whichever cluster with a UID of its own goes first, every cluster stepped on
      ends with that UID in its annotation and its configmap. */
  lemma FederationAgrees(provider: string -> string, s: State, first: string, ready: seq<string>,
                         schedule: seq<(string, seq<string>)>, c: string)
    requires CacheCurrent(s) && (forall d :: d in s.annotation ==> s.annotation[d] == "")
    requires At(s.config, first).uid != ""
    requires forall i :: 0 <= i < |schedule| ==> first in schedule[i].1
    requires c == first || exists i :: 0 <= i < |schedule| && schedule[i].0 == c
    ensures InOrder(provider, Steps(provider, s, [(first, ready)] + schedule), At(s.config, first).uid, c)
  {
    FirstStepElects(provider, s, first, ready);
    var next := Reconcile(provider, s, Fresh(s, first, ready, true));
    OneStepEachSuffices(provider, next, At(s.config, first).uid, first, schedule, c);
    assert ([(first, ready)] + schedule)[1..] == schedule;
  }
}
