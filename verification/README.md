# Federated ingress controller: a verified model

The federated ingress controller keeps one ingress object in step across many Kubernetes clusters and
publishes its load-balancer addresses in DNS. This project models its four connected parts and proves
what they promise, for every input, every run and every order in which maps are iterated.

| file | what it models |
|---|---|
| `Strings.dfy` | splitting, joining, suffixes and decimal integers of the Go standard library |
| `DynRecords.dfy` | DynDNS records: building, splitting by value, reading back, rebuilding, store keys |
| `DynStore.dfy` | the in-memory record store, with calls that may fail |
| `ChangeSets.dfy` | change sets and `Apply`, at every point where it can stop |
| `EnsureRrsets.dfy` | `EnsureDNSRrsets`: A records for endpoints, or a CNAME one level up |
| `Names.dfy` | the zone, region and global DNS names of an ingress |
| `Endpoints.dfy` | `getHealthyEndpoints` |
| `DnsController.dfy`, `DnsWorker.dfy` | `ensureDNSRecords`, the worker, and DNS resolution over the records |
| `IngressReconciler.dfy`, `Convergence.dfy`, `IngressRuns.dfy` | `reconcileIngress`: one pass, repeated passes, runs with stale caches |
| `UidElection.dfy` | the ingress-UID master election |
| `DynectClient.dfy` | record URLs and the search for a record id |
| `EndToEnd.dfy` | both controllers together: from cluster load balancers to DNS answers |

## Main results

- **Convergence.** From any state, with a fixed environment, nineteen passes of the ingress reconciler
  reach a state that no later pass changes, whatever the number of clusters and whatever order each pass
  takes; that state is characterised cluster by cluster (`ConvergesInNineteenPasses`, `SettledMeans`).
- **DNS.** After the worker has visited the clusters of an ingress in any order, following CNAMEs from the
  zone name of each of them ends within two hops at the addresses of the first level that has endpoints
  (`EveryClusterResolves`, `VisitOrderIrrelevant`).
- **Both together.** Serving clusters are reachable under their zone name, and the global name resolves to
  exactly the addresses of all serving clusters, from any reconciler state and any shrink-safe records
  (`ClientsReachServingClusters`).
- **CNAME exclusivity.** In every run with failures anywhere after the lookups, no name holds a CNAME beside
  other data, as section 3.6.2 of RFC 1034 demands (`RunKeepsCnameAlone`, and for the worker's own visits
  `ProcessIngress` with `UnmixedKeepsCnameAlone`).
- **Agreement.** In every run of the UID protocol, through overlapping and outdated reads, lagging caches and
  failed writes, all UIDs are equal, never change, and come from the elected cluster's configmap (`RunsAgree`).
- **The first-cluster gate.** From any state, which waiting clusters get the ingress in the end and whether an
  address is ever recorded is decided exactly by the starting state and the first cluster. That is the ready one
  already recorded, or else whichever waiting cluster the passes came to choose (`ServedExactly`,
  `AddressExactly`).

## How it is modelled

Objects whose fields the program updates are classes (`DynDnsApi`, `ResourceRecordChangeset`,
`IngressController`, `UidController`); their methods, with the program's loops, are proved equal to functions
on values, and the theorems are about those functions. Go maps are iterated in an arbitrary order, so loops
over them pick any remaining key. A fetched record set is a value and a built one a pointer, and only the
pointer passes the type test in `GetRecordsFromDNSRRS`; the model keeps that distinction (`Built`, `Fetched`).
The provider's calls fail by a script of faults, and a ghost log records which calls were made. Operations are
specified by functions, and lemmas named `...Means` and `...Exactly` say field by field what these functions give.

Hypotheses, each stated in the predicates named here:

- `Storable`, `Workable`, `Managed`: stored records are as this provider writes them; names survive
  being read back and do not look like the beginning of a store key (`KeySharedExactly` shows that exactly such
  names make keys ambiguous); addresses are non-empty and free of commas.
- `ShrinkSafe`: where a single address is wanted and already stored, nothing else is stored at that name.
  `ExactUnlessShrinking` shows this is exactly when a call leaves the wanted records.
- `AllWritable`: the names of the clusters that have a zone can be written, labels have no dots, and clusters
  that share a zone name have the same zones. `AllVisitable`: in addition all addresses resolve. Clusters without
  a zone are skipped by the program and by `Clusters`.
- `CurrentView`: under the lock, the ready clusters show one with a UID whenever some cluster has one.
- `Env`: during convergence (which starts from any state, so after any change outside) the ready clusters, the
  selector and what each cluster's own controller gives a new ingress do not change, and writes succeed.
  `IngressRuns` drops all of that. It keeps the rule that the API server rejects a write based on an outdated
  copy, and the hypothesis that writes by others leave a recorded address and status alone (`KeepsIp`,
  `KeepsStatus` in `Happens`).

In runs of the UID protocol any number of reads of one cluster may be in flight, a read or a refresh of the cache
may show any earlier value, and configmap objects are shared: a step changes the object it was given, which other
reads in flight may also hold, and a refresh puts a new object in its place.

Where the code falls short of its comments, the model follows the code and a lemma shows it:

- `EnsureDNSRrsets` leaves withdrawn addresses in place when one address remains (`ShrinkingLeavesOldRecord`),
  and does so for good (`Idempotent`).
- A failed DynDNS lookup reads as "no records" and can put a CNAME beside A records (`FailedLookupMixes`);
  `FailedLookupExactly` says for which arguments and records it does.
- The names of a deleted ingress stop resolving, but CNAME records remain (`DeletedIngressDangles`).
- A cluster that leaves the annotation is not visited any more, so its names keep answering withdrawn addresses
  when no remaining cluster shares the place, and answer none of them otherwise (`DepartedExactly`).
- An outdated cluster read can write an empty UID into the master's own configmap: `MasterIsEmptied` is a run from
  a clean start, `EmptyUidExactly` the exact condition.
- A failed configmap update is not tried again until the cached copy is refreshed, because that copy was changed
  first (`RetryExactly`, `FailedUpdateSticks`, `StuckStays`, `RefreshRepairs`).
- The first-cluster gate can hold clusters back for ever, when the selector leaves the first cluster
  (`GateDeadlock`), or when the cluster chosen as the first of a new ingress gives no address although another
  would have (`OrderDecides`). `ServedExactly` is the exact condition.
- An unreadable selector freezes the reconciler (`UnreadableFreezes`).
- Two elections can leave clusters with different UIDs when the view under the lock lacks the elected cluster
  (`ElectedTwice`, `BlindElectionExactly`).
- Two ingresses can share a DNS name when zone and region labels repeat the federation name and the suffix
  (`AmbiguousExactly`, `AmbiguousLabels`).

## Model

| member | source | states |
|---|---|---|
| `DynRecords.PopulateRecordWithName` | pkg/dnsprovider/providers/dyndns/rrsets.go:139-148 | the full name is always relative name, dot, zone, whichever form was given |
| `DynRecords.NormaliseTwiceExactly` | pkg/dnsprovider/providers/dyndns/rrsets.go:139-148 | normalising a full name again changes nothing if and only if the zone does not end in a dot (for the empty zone: the name does not end in three dots) |
| `DynRecords.FormsOfAName` | pkg/dnsprovider/providers/dyndns/rrsets.go:139-148 | relative or full, with or without a final dot, a name in a proper zone is the same name |
| `DynRecords.GetRecordsFromDnsRrs` | pkg/dnsprovider/providers/dyndns/rrsets.go:100-122 | the loop yields the records of a set: itself when single-valued, else one record per value |
| `DynRecords.BuildSplitsByValue` | pkg/dnsprovider/providers/dyndns/rrsets.go:88-132 | a built set is stored as one record per value, in order, with the set's name, TTL and type |
| `DynRecords.FetchedSplitsByValue` | pkg/dnsprovider/providers/dyndns/rrsets.go:100-122 | a fetched set of any value is split into one record per part as well |
| `DynRecords.NewReadsBack` | pkg/dnsprovider/providers/dyndns/rrsets.go:88-132 | a new set reads back as the name, values, TTL and type it was made from |
| `DynRecords.TtlReads` | pkg/dnsprovider/providers/dyndns/rrset.go:50-57 | a TTL that does not parse or is negative reads as 60 |
| `DynRecords.RebuildExactly` | pkg/dnsprovider/providers/dyndns/rrsets.go:105-113 | reading a stored record back and rebuilding it gives the same record if and only if its name is normal, its TTL a canonical decimal and its value comma-free |
| `DynRecords.CanonicalTtlOf` | pkg/dnsprovider/providers/dyndns/rrset.go:50-57 | formatting and parsing a non-negative 64-bit TTL is a round trip |
| `DynRecords.KeyInjective` | pkg/dnsprovider/providers/dyndns/stubs/dyndnsapi.go:111-113 | the key determines name, TTL, type and value, with dashes anywhere, unless a name contains a dash, digits, a dash and a type |
| `DynRecords.KeySharedExactly` | pkg/dnsprovider/providers/dyndns/stubs/dyndnsapi.go:111-113 | a record shares its key with one of a shorter name if and only if its name contains a dash, digits, a dash and a type followed by a dash or the end |
| `DynStore.Filed` | pkg/dnsprovider/providers/dyndns/stubs/dyndnsapi.go:59-67 | on a store of well-formed records, creating is set insertion |
| `DynStore.Dropped` | pkg/dnsprovider/providers/dyndns/stubs/dyndnsapi.go:70-77 | and deleting is set removal |
| `DynStore.DynDnsApi.CreateRecord` | pkg/dnsprovider/providers/dyndns/stubs/dyndnsapi.go:59-67 | fails on a duplicate key or a fault and then changes nothing |
| `DynStore.DynDnsApi.DeleteRecord` | pkg/dnsprovider/providers/dyndns/stubs/dyndnsapi.go:70-77 | fails on a missing key or a fault and then changes nothing |
| `DynStore.DynDnsApi.GetRecordByName` | pkg/dnsprovider/providers/dyndns/stubs/dyndnsapi.go:80-89 | lists each record of the name once, in some order |
| `ChangeSets.ResourceRecordChangeset.Apply` | pkg/dnsprovider/providers/dyndns/rrchangeset.go:76-112 | leaves the store and the log of calls after a prefix of the writes and calls; succeeds, with all of them made and the zone published, exactly when no call is made to fail and each write finds the store ready for it |
| `ChangeSets.CallsMean` | pkg/dnsprovider/providers/dyndns/rrchangeset.go:81-110 | the calls of a change set make its writes in order, find the id of each record right before deleting it, and publish the zone once, at the end |
| `ChangeSets.UpsertsAreIgnored` | pkg/dnsprovider/providers/dyndns/rrchangeset.go:91-92 | upserts have no effect |
| `ChangeSets.NeverAMixture` | pkg/dnsprovider/providers/dyndns/rrchangeset.go:81-106 | at every point of a replacement the records at the name are a subset of the old or of the new ones, and other names are untouched |
| `ChangeSets.ReplaceEnabled` | pkg/dnsprovider/providers/dyndns/rrchangeset.go:81-106 | removing all records of a name and adding others there never meets a missing or duplicate record |
| `ChangeSets.RunIsSetRun` | pkg/dnsprovider/providers/dyndns/rrchangeset.go:81-106 | writes on the keyed store are the same writes on a set of records |
| `EnsureRrsets.GetResolvedEndpoints` | pkg/controller/util/dns.go:44-63 | fails exactly when some endpoint is neither an address nor resolvable; else lists, once each, the endpoints that are addresses and every address the others resolve to |
| `EnsureRrsets.TargetMeans` | pkg/controller/util/dns.go:131-204 | the wanted records field by field: A records for the addresses, or one CNAME, with a TTL of 180 |
| `EnsureRrsets.FindRrset` | pkg/controller/util/dns.go:105-115 | finds an equivalent set exactly when one exists |
| `EnsureRrsets.FoundExactly` | pkg/controller/util/dns.go:105-115 | over DynDNS it succeeds exactly when the wanted set is one record and that record is stored |
| `EnsureRrsets.EnsureDnsRrsets` | pkg/controller/util/dns.go:120-229 | with a successful lookup, only old or only new records at the name at any stop, exactly the reconciled records on success; no call is made when the single wanted record is there, and a change that succeeds ends with the publication of the zone; if nothing else fails it succeeds exactly when the endpoints resolve and, after a failed lookup, none of the wanted records is stored, and then all of them are added |
| `EnsureRrsets.ExactUnlessShrinking` | pkg/controller/util/dns.go:200-224 | success leaves exactly the wanted records if and only if no single wanted record was already there among others; other names are untouched |
| `EnsureRrsets.ShrinkingLeavesOldRecord` | pkg/controller/util/dns.go:206-211 | withdrawing one of two addresses leaves its record |
| `EnsureRrsets.Idempotent` | pkg/controller/util/dns.go:117-119 | a second call with the same arguments leaves the same records, in every case |
| `EnsureRrsets.StepKeepsCnameAlone` | pkg/controller/util/dns.go:120-229 | any point of a call keeps CNAMEs alone at their names |
| `EnsureRrsets.RunKeepsCnameAlone` | pkg/controller/util/dns.go:120-229 | so does every run of calls over any names with failures after the lookups |
| `EnsureRrsets.FailedLookupExactly` | pkg/dnsprovider/providers/dyndns/rrsets.go:64-69 | a call whose lookup is the only failure keeps CNAMEs alone if and only if the endpoints do not resolve, or nothing is stored there, or addresses are wanted and no CNAME is stored, or no CNAME is wanted, or the wanted one is stored |
| `EnsureRrsets.FailedLookupMixes` | pkg/dnsprovider/providers/dyndns/rrsets.go:64-69 | with one address stored and none wanted any more, a failed lookup leaves the address beside a CNAME |
| `Names.PlacesDistinct` | pkg/controller/ingress/dns/dns.go:368-375 | within one ingress, different places have different names when labels have no dots |
| `Names.UniquelyDecodable` | pkg/controller/ingress/dns/dns.go:368-375 | a name determines ingress, namespace, level and location, for any federation and suffix, unless a place is ambiguous |
| `Names.AmbiguousExactly` | pkg/controller/ingress/dns/dns.go:368-375 | for every ingress and namespace, a place shares its name with a place further up of some ingress if and only if it is ambiguous |
| `Names.AmbiguousLabels` | pkg/controller/ingress/dns/dns.go:368-375 | with dot-free parts the ambiguous places are: region, suffix and federation equal; zone the federation and region the suffix; zone, suffix and federation equal |
| `Endpoints.GetHealthyEndpoints` | pkg/controller/ingress/dns/dns.go:263-318 | fails exactly when a cluster is unknown or an entry has neither IP nor host name, in any order; nothing for a deleted ingress; else the contributions of all clusters |
| `Endpoints.AddressesMean` | pkg/controller/ingress/dns/dns.go:289-301 | an entry contributes its IP if it has one, else its host name |
| `Endpoints.PairsCount` | pkg/controller/ingress/dns/dns.go:302-308 | the number of copies is the number of pairs of positions with equal zones |
| `Endpoints.MatchZones` | pkg/controller/ingress/dns/dns.go:302-308 | an address is added once per pair of positions with equal zones |
| `Endpoints.OrderIrrelevant` | pkg/controller/ingress/dns/dns.go:284-315 | every iteration order gives the same multiset at every level |
| `Endpoints.ExpandCounts` | pkg/controller/ingress/dns/dns.go:302-308 | the count of an address at the zone level is its count times the number of zone pairs |
| `Endpoints.ZoneLevelMeans` | pkg/controller/ingress/dns/dns.go:302-308 | the zone level holds exactly the addresses of clusters that share a zone |
| `Endpoints.LevelMeans` | pkg/controller/ingress/dns/dns.go:293-312 | each level holds exactly the addresses shown by entries of the clusters that share a zone, the region, or nothing in particular |
| `Endpoints.LevelsNest` | pkg/controller/ingress/dns/dns.go:302-312 | region endpoints are global ones; zone endpoints are region ones when equal zones lie in equal regions |
| `Endpoints.LevelDependsOn` | pkg/controller/ingress/dns/dns.go:284-315 | a level depends only on the zones or the region it is named after |
| `DnsController.EnsureDnsRecords` | pkg/controller/ingress/dns/dns.go:335-389 | writes nothing when the zones or endpoints cannot be looked up; wherever a failed call ends it, the names below are reconciled, the name worked on holds only old or only wanted records, and those above are untouched; success means that the three names are reconciled, leaf first; without failures it succeeds |
| `DnsController.PathUp` | pkg/controller/ingress/dns/dns.go:368-376 | the zone, region and global names as strings, and which name the CNAME of each leads to |
| `DnsController.WantedMeans` | pkg/controller/ingress/dns/dns.go:363-384 | the records wanted at each name field by field |
| `DnsController.AnsweredMeans` | pkg/controller/ingress/dns/dns.go:354-366 | when the zones and endpoints can be looked up |
| `DnsController.ManagedExactly` | pkg/dnsprovider/providers/dyndns/rrsets.go:139-148 | which names the provider can write and read back |
| `DnsWorker.VisitKeepsOthers` | pkg/controller/ingress/dns/dns.go:203-207 | one more visit never undoes an earlier one |
| `DnsWorker.VisitsAgree` | pkg/controller/ingress/dns/dns.go:363-384 | two visits of one name want the same records there |
| `DnsWorker.ProcessIngress` | pkg/controller/ingress/dns/dns.go:183-209 | whatever fails after the lookups, no name mixes old and wanted records; without failures every name of every cluster with a zone holds what it should and all other names are as before |
| `DnsWorker.UnmixedKeepsCnameAlone` | pkg/controller/ingress/dns/dns.go:203-207 | at every point of the worker, CNAMEs are alone at their names |
| `DnsWorker.VisitOrderIrrelevant` | pkg/controller/ingress/dns/dns.go:203-207 | the final records are the same for every order of the clusters |
| `DnsWorker.DisagreeingVisitsExactly` | pkg/controller/ingress/dns/dns.go:371-384 | two visits of one name with several addresses each commute exactly when they want the same records |
| `DnsWorker.OneCallResolves` | pkg/controller/ingress/dns/dns.go:335-389 | after one call the zone name resolves within two hops to the first non-empty level, or to no record |
| `DnsWorker.FirstNonEmptyMeans` | pkg/controller/ingress/dns/dns.go:335-343 | the first non-empty level is the zone, else the region, else everyone, else none |
| `DnsWorker.LeafFirst` | pkg/controller/ingress/dns/dns.go:369-384 | wherever a visit stops, a changed name means that the names below it hold what they should |
| `DnsWorker.EveryClusterResolves` | pkg/controller/ingress/dns/dns.go:183-209 | after the worker this holds for every visited cluster |
| `DnsWorker.OtherIngressUntouched` | pkg/controller/ingress/dns/dns.go:368-384 | processing one ingress leaves every unambiguous name of every other ingress as it was |
| `DnsWorker.DeletedIngressDangles` | pkg/controller/ingress/dns/dns.go:274-277 | a deleted ingress stops resolving but keeps CNAMEs at its zone and region names |
| `DnsWorker.DepartedExactly` | pkg/controller/ingress/dns/dns.go:203-207 | a name of a cluster that has left the annotation answers all its withdrawn addresses when no remaining cluster shares the place, and none of them otherwise |
| `IngressReconciler.IngressController.ReconcileIngress` | pkg/controller/ingress/ingress_controller.go:759-977 | the pass with its loop computes the outcome and the next state of the specification |
| `IngressReconciler.IngressController.UpdateAnnotation` | pkg/controller/ingress/ingress_controller.go:692-708 | one annotation is written, nothing else changes |
| `Convergence.ScanStopsOrGoes` | pkg/controller/ingress/ingress_controller.go:777-945 | a pass stops at some cluster or goes on at every cluster |
| `Convergence.StopExactly` | pkg/controller/ingress/ingress_controller.go:807-888 | what stops a pass at a cluster, and with which write, in order of precedence |
| `Convergence.PassExactly` | pkg/controller/ingress/ingress_controller.go:777-945 | the first cluster of the order that stops a pass decides how it ends |
| `Convergence.ScanSees` | pkg/controller/ingress/ingress_controller.go:893-903 | the statuses collected are those of the clusters that show one, one entry each |
| `Convergence.ScanApplies` | pkg/controller/ingress/ingress_controller.go:963-969 | a batch acts on each cluster as that cluster alone demands |
| `Convergence.BatchExactly` | pkg/controller/ingress/ingress_controller.go:813-944 | a batch holds exactly the operations clusters need, one per cluster: creations with the federated annotations, labels and spec, updates exactly where one of them differs, deletions where not selected |
| `Convergence.CreationsCarry` | pkg/controller/ingress/ingress_controller.go:784-845 | a creation carries exactly the federated annotations, labels and spec, and no status |
| `Convergence.CreationsAppear` | pkg/controller/ingress/ingress_controller.go:963-969 | the cluster then has it, with the status and address of its own controller |
| `Convergence.MergeMeans` | pkg/controller/ingress/ingress_controller.go:919-933 | an update overwrites with every federated annotation, label and the spec, keeps what else the cluster has, and is without effect exactly when the cluster carries all of that already |
| `Convergence.SettledMeans` | pkg/controller/ingress/ingress_controller.go:813-969 | a state is settled if and only if unselected clusters hold nothing, selected ones carry the federated spec, annotations and labels or are held back by the first cluster, and addresses, status and status annotation are taken over |
| `Convergence.SettledStays` | pkg/controller/ingress/ingress_controller.go:963-967 | no pass in any order changes a settled state |
| `Convergence.PassLowers` | pkg/controller/ingress/ingress_controller.go:777-976 | every pass lowers the measure, or leaves a settled state as it is |
| `Convergence.ConvergesInNineteenPasses` | pkg/controller/ingress/ingress_controller.go:710-977 | nineteen passes settle any state, for any number of clusters and any orders |
| `Convergence.UnreadableFreezes` | pkg/controller/ingress/ingress_controller.go:807-811 | a selector that does not parse stops every pass without effect |
| `Convergence.AddsAreGated` | pkg/controller/ingress/ingress_controller.go:827-847 | creations happen only while the first cluster is ready, and only there while a global address is wanted but unknown |
| `Convergence.WriteOrBatch` | pkg/controller/ingress/ingress_controller.go:947-969 | a pass never both writes the federated ingress and issues a batch, and issues one only when the recorded statuses are the observed ones |
| `Convergence.WritesAreAdditions` | pkg/controller/ingress/ingress_controller.go:827-888 | a pass keeps a recorded address, a ready first cluster, a recorded status and everything that belongs to the user |
| `Convergence.WritesComeFromClusters` | pkg/controller/ingress/ingress_controller.go:828-961 | what a pass writes comes from ready, selected clusters or from what it observed |
| `Convergence.FirstInTheEnd` | pkg/controller/ingress/ingress_controller.go:827-832 | a ready first cluster stays; without one, the first cluster in the end is one of the waiting clusters |
| `Convergence.PassKeepsSource` | pkg/controller/ingress/ingress_controller.go:827-866 | a pass records an address only when there is a source of one; otherwise a source is there exactly when it was, and no cluster that must wait for the first is served |
| `Convergence.AddressExactly` | pkg/controller/ingress/ingress_controller.go:827-866 | from any state, after nineteen passes an address is recorded if and only if one was, or some ready, selected cluster showed one, or a waiting cluster that need not wait for the first was about to be given one; an address annotation on the federated ingress counts as shown and given |
| `Convergence.ServedExactly` | pkg/controller/ingress/ingress_controller.go:827-847 | from any state, a waiting cluster has the ingress after nineteen passes if and only if it is the first, or no global address is wanted, or one is recorded, or there is a source of one; the first cluster is the one recorded or else a waiting one |
| `Convergence.GateDeadlock` | pkg/controller/ingress/ingress_controller.go:833-847 | when the selector has moved away from the first cluster, the newly selected one never gets the ingress |
| `Convergence.OrderDecides` | pkg/controller/ingress/ingress_controller.go:827-847 | for a new ingress the order of the first pass can decide whether the second cluster is ever served |
| `IngressRuns.EventKeepsStable` | pkg/controller/ingress/ingress_controller.go:692-708 | a write from a stale cache never replaces a recorded address or status |
| `IngressRuns.RunsAreStable` | pkg/controller/ingress/ingress_controller.go:863-888 | this holds in every run with caches lagging by any amount |
| `UidElection.UidController.GetMasterCluster` | pkg/controller/ingress/ingress_controller.go:616-631 | the loop finds the first ready cluster with a UID |
| `UidElection.MasterMeans` | pkg/controller/ingress/ingress_controller.go:623-630 | there is a master exactly when some ready cluster has a UID |
| `UidElection.MasterIsFirst` | pkg/controller/ingress/ingress_controller.go:623-630 | no ready cluster before the master has a UID |
| `UidElection.UidController.UpdateToMasters` | pkg/controller/ingress/ingress_controller.go:637-683 | adopts the master's UID, or elects, or gives up without a change |
| `UidElection.GivesUpExactly` | pkg/controller/ingress/ingress_controller.go:637-683 | a step gives up, changing nothing, exactly when it read no UID, its cluster is not the master, and the cluster cannot be written or there is no UID to give it |
| `UidElection.AdoptMeans` | pkg/controller/ingress/ingress_controller.go:572-580 | otherwise it settles on the UID it read, the master's, or that of its own configmap, and annotates the cluster only in the last two cases |
| `UidElection.UidController.ReconcileConfigMap` | pkg/controller/ingress/ingress_controller.go:558-609 | the locked step, with the configmap changed in place before the update is attempted |
| `UidElection.AdoptedUid` | pkg/controller/ingress/ingress_controller.go:572-580 | a step adopts its own UID only when nothing was elected, else the elected UID or none |
| `UidElection.EventKeepsAgreement` | pkg/controller/ingress/ingress_controller.go:558-683 | every event keeps the UIDs in agreement and unchanged, whichever reads in flight it overtakes |
| `UidElection.RunsAgree` | pkg/controller/ingress/ingress_controller.go:505-683 | in every run, with overlapping and outdated reads, all non-empty UIDs are equal, never change, and come from a configmap of the elected cluster |
| `UidElection.StartAgrees` | pkg/controller/ingress/ingress_controller.go:558-683 | this holds of every run from a start without UIDs |
| `UidElection.BlindElectionExactly` | pkg/controller/ingress/ingress_controller.go:663-677 | an election despite an existing UID keeps agreement exactly when both UIDs happen to be equal |
| `UidElection.ElectedTwice` | pkg/controller/ingress/ingress_controller.go:616-677 | a run from a clean start in which the second step's view lacks the elected cluster, so that two clusters end with different UIDs |
| `UidElection.EmptyUidExactly` | pkg/controller/ingress/ingress_controller.go:659-662 | an event empties the UID in a configmap exactly when the cluster does so itself, or a step with an outdated read finds its own cluster the master and updates the configmap |
| `UidElection.MasterIsEmptied` | pkg/controller/ingress/ingress_controller.go:659-662 | a run from a clean start in which two reads overlap and the second step writes the empty UID into the master's configmap |
| `UidElection.RetryExactly` | pkg/controller/ingress/ingress_controller.go:586-607 | a step on up-to-date objects repairs a wrong configmap if and only if the cached copy does not look right already |
| `UidElection.FailedUpdateSticks` | pkg/controller/ingress/ingress_controller.go:594-607 | a failed update leaves a wrong configmap that neither the cache nor a read in flight shows |
| `UidElection.FirstUpdateFails` | pkg/controller/ingress/ingress_controller.go:594-607 | this is reached from a clean start |
| `UidElection.StuckStays` | pkg/controller/ingress/ingress_controller.go:586-607 | in every run it stays so until the cache of that cluster is refreshed, the cluster changes its configmap, or a read misses the UID |
| `UidElection.RefreshRepairs` | pkg/controller/ingress/ingress_controller.go:586-607 | the first step on the refreshed cache repairs it |
| `UidElection.FreshStepLowers` | pkg/controller/ingress/ingress_controller.go:565-609 | each step lowers the number of clusters without UID plus disagreeing configmaps, or changes nothing |
| `UidElection.OneStepEachSuffices` | pkg/controller/ingress/ingress_controller.go:546-557 | one step per cluster, in any order, gives each the UID and its own provider id |
| `UidElection.FederationAgrees` | pkg/controller/ingress/ingress_controller.go:546-557 | from no UID at all, everyone ends with the UID of whichever cluster went first |
| `DynectClient.RecordFromUrl` | pkg/dnsprovider/providers/dyndns/dynect/dynect_client.go:48-60 | a URL with exactly five slashes gives a record, anything else nothing |
| `DynectClient.ParseOfUrl` | pkg/dnsprovider/providers/dyndns/dynect/dynect_client.go:48-60 | parsing inverts printing for slash-free parts |
| `DynectClient.CandidateExactly` | pkg/dnsprovider/providers/dyndns/dynect/dynect_client.go:76-77 | an id is extracted exactly from URLs of the requested type, zone and name, and it is the parsed one |
| `DynectClient.GetRecordID` | pkg/dnsprovider/providers/dyndns/dynect/dynect_client.go:63-89 | the loop computes the search |
| `DynectClient.FindsTheFirst` | pkg/dnsprovider/providers/dyndns/dynect/dynect_client.go:63-89 | for any listing, the first URL decides that is malformed, cannot be fetched, or is the URL of the requested type, zone and name with a non-empty id and the requested value; its id is returned in the last case; nothing is found exactly when no URL decides |
| `EndToEnd.SettledAnnotation` | pkg/controller/ingress/ingress_controller.go:893-961 | in a settled state the annotation names exactly the serving clusters, each with its one status |
| `EndToEnd.GlobalEndpointsAreServed` | pkg/controller/ingress/dns/dns.go:284-315 | the endpoints of the global name are then exactly the addresses of all serving clusters |
| `EndToEnd.ClientsReachServingClusters` | pkg/controller/ingress/dns/dns.go:329-334 | after nineteen passes and the visits of the clusters in any order, from any shrink-safe records, zone names of serving clusters resolve to addresses including their own, and the global name to all of them |

## Left out

- `deletionhelper`: finalizers and the cascading deletion of a federated ingress; only the DNS side of a deleted ingress is modelled.
- Informers, deliverers, backoff, events and goroutine start-up: only the passes and steps they trigger are modelled.
- `GetDNSZone` and `retrieveOrCreateDNSZone`: choosing the provider zone; the model takes the zone as given.
- The JSON text of the status annotation: the annotation is kept decoded, so encoding errors do not occur.
- `net.ParseIP` and `net.LookupHost`: a fixed resolver parameter that fails or gives at least one address.
- MD5 in `getProviderUid`: an arbitrary function of the cluster name; nothing is claimed about its uniqueness.
- `sets.String.List`: the order of the listed addresses is left open; every order is covered.
- A cluster with an empty but non-nil zone list, which crashes at pkg/controller/ingress/dns/dns.go:371: the model treats it like a missing zone list.
- A configmap without a data map, which crashes at pkg/controller/ingress/ingress_controller.go:594.
- Record ids of the live Dyn service inside change sets: the store is the in-memory one, whose id lookup can only fail as a call.
- `List` of record sets, login, REST transport, configuration parsing and logging: wiring with nothing hard to prove.
- Other DNS providers: the results about stored records are for the DynDNS provider.
