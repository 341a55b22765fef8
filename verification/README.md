# Verification of the service-route controller

The controller turns every ServiceRoute of an application cluster into objects on a shared Istio
cluster: an ownership record named `cluster--namespace--name`, Endpoints, a Service, a
VirtualService and a DestinationRule named after the requested route, and a host on the shared
gateway. Taken together these stores are a lease table for route names. This project models
`syncHandler` and everything it reads and writes, and proves what the lease table keeps.

It has two levels.

**Whole syncs.** `Controller.dfy` holds the controller as classes: the Istio stores, the caches of
the application cluster, the gateway copy edited in place, the port slice shared with the cache.
`SyncHandler` follows the code call by call and is proved to be exactly one `Reconcile` of its key
(`Reconciler.dfy`), a function of the stores and of what the source shows, unless a failed lookup
makes it panic. A run is any sequence of such whole syncs, of keys of any cluster, with any source at each of them, so sources may change
arbitrarily in between.

**Single calls.** `Calls.dfy` splits release, create and update into API calls. In `Workers.dfy` any
number of workers make one call at a time, in any interleaving; calls may fail, which the code does
not notice, and workers may crash anywhere. `Races.dfy` ties the two levels together and shows which
guarantees need atomic syncs or unfailing calls.

Owners are record names throughout. Different objects have different record names when cluster
names and namespaces hold no `--` and namespaces are as Kubernetes admits them
(`Names.DistinctOwnersHaveDistinctRecords`). At the level of whole syncs, objects that share a record
name are one owner here, as they are one owner for the code. At the level of single calls unique
record names are assumed: work queues are per controller and keyed by namespace and name, so two
controllers may work at once on two objects that share a record name, which `Workers.Exclusive` rules
out.

Files, lowest first: `Wrappers`, `Names` (record names, host names, queue keys, lister), `Model`
(objects, API outcomes, builders), `Hosts` (gateway host lists and the in-place loops), `Reconciler`
(one sync as a function), `Leases` (the invariants), `LeaseTable` (refinement, frames, runs),
`Effects` (one sync case by case), `Algebra` (laws between syncs), `Convergence` (two passes,
confluence), `OnePass` (when one pass is enough), `Calls` (syncs as sequences of calls, crashes),
`Status` (what ServiceRoutes show), `Controller` (the classes), `Workers` (interleaved calls,
coverage), `Races` (one worker alone, two workers on one route), `Updates` (who may rewrite what),
`Failures` (what one unnoticed failure can do), `Crashes` (crashes as runs), `Serial` (interleavings
of unrelated jobs).

Assumptions of the whole-sync level: a lookup on the Istio cluster answers found or not found, a
create fails only on an existing name, a delete only on a missing one, an update changes only an
existing object; whether the gateway exists is fixed; the caches are up to date with the API, so a
status update is seen by the next sync; a source service has at least one port, which the code reads
without a check. Each of the three source listers may fail as a whole. The splitting of a queue key
and the making of one are client-go's, stated in `Names.dfy`.

## What is proved, and what turned out false

- Leases are unique and complete, services no record names are conserved, and the gateway shows the
  base hosts plus one host per held route, in every state whole syncs reach. An install keeps the
  gateway agreement exactly when the route's host was not a base host.
- Two passes over all keys settle everything, in any order. A single pass settles everything, in any
  order, exactly when each eligible key that does not hold its route yet asks for one that no other
  key is about to give up and whose endpoints are not somebody else's leftovers. The set of held
  routes is a closed form of the start, whatever the order; who wins a contested route is whoever is
  synced first.
- Idempotence is false in one case, characterised exactly: a create that finds other Endpoints under
  the route's name keeps them, and the next sync overwrites them.
- Creating and removing a route restores the stores exactly if and only if nothing but the absent
  Service spoke for the route before: Endpoints, VirtualServices, DestinationRules and gateway hosts
  of others are not protected, only Services are. The same holds from any crash point.
- The repository's texts promise that every sync updates the status (its `README.md:13`,
  `controller.go:277-279`). That is false: the code writes it only on a create that finds the gateway
  and on a conflict. A sync leaves a holder with the right status exactly when it was right before,
  the key ends without the route, or the sync created it and found the gateway. A cleared route name
  leaves the old host showing; a status missed by a crash is never written. After two passes the
  eligible keys that did not hold their route at the start show the truth; of the others, exactly
  those whose status was right already. That the conflict message names no host needs a host suffix
  that is not empty and holds no space.
- A failed lookup of the source's endpoints or service, other than "not found", is not returned for a
  retry, as `controller.go:442-447` says: the code goes on and panics while building the next object,
  except where the route is taken. The stores are then at one of the crash points of a create or
  update, from which the results on crashes go on.
- Unique ownership needs atomic syncs: two workers, or one crash, give two records for one route,
  and the first to leave takes the other's objects away. Workers whose keys differ and whose old and
  new routes are disjoint are serialisable, gateway aside: every interleaving of their calls leaves
  the stores of whole syncs in any order.
- A crash is a step of the interleaved machine. A create or release stopped by one after any of its
  calls leaves exactly the effect of these calls, its key can be taken again at once, and the next
  sync finishes a release and, with the source gone, cleans up after a create.
- Write-ahead coverage holds under every interleaving and crash, if the deletes of the four kinds
  and the record creates do not fail unnoticed. The step theorem is exact, and for each of the two
  hypotheses there are runs from idle workers in which only one such call fails and an object is
  orphaned.
- An update only ever rewrites the route its own record names, except after exactly three steps: a
  first record lookup that fails (or finds an empty route name) on a record that is to be given up, a
  second one that fails where there is no record, and a record delete that fails. From each of the
  three failures, runs from idle workers in which nothing else fails overwrite the Service of a route that the
  key does not hold.

## Model

| member | source | states |
|---|---|---|
| Names.RecordNameParsesBack | controller.go:283 | a record name splits back into cluster, namespace and name at its first two separators if and only if cluster and namespace hold no separator and do not end in `-` |
| Names.CleanOwnersHaveDistinctRecords | controller.go:640-645 | under that condition two different objects never share a record |
| Names.DistinctOwnersHaveDistinctRecords | controller.go:640-645 | nor do they when cluster names and namespaces hold no separator and namespaces are not empty and have no hyphen at either end, even if a cluster name ends in one |
| Names.UncleanOwnerSharesItsRecord | controller.go:283 | conversely, whenever cluster or namespace is not clean, another owner has the very same record name |
| Names.RecordNamesCanCollide | controller.go:283 | objects that Kubernetes admits collide: two pairs of them with one record name, through a separator in a namespace and in a cluster name |
| Names.FqdnInjective | controller.go:324 | a gateway host is the route, a dot and the suffix, so different routes have different hosts |
| Names.SplitKeyExactly | controller.go:282 | a queue key splits into two slash-free parts exactly when it is those parts around one slash, or a bare name |
| Names.ListerFindsAskedObject | pkg/generated/listers/routecontroller/v1alpha1/serviceroute.go:90-98 | the object a lister returns carries the namespace and name asked for, so the record looked up is the record a create would write |
| Names.EnqueuedKeyFindsItsObject | controller.go:487-495 | an object is found again under the key it was enqueued with, and under its own record name, exactly when its namespace is not empty |
| Hosts.SwapRemoveTakesOne | controller.go:323-328 | the swap-with-last removal takes out one occurrence of the host and loses no other |
| Hosts.SwapRemoveKeepsPlaces | controller.go:323-328 | the last host takes the place of the first occurrence, and every other host stays in its place |
| Hosts.AppendThenSwapRemove | controller.go:403-411 | adding a host if absent and removing it restores the list, order included, exactly when the host was absent |
| Hosts.EditServersCommute | controller.go:320-332 | edits of two different hosts commute on all servers, up to host order |
| Hosts.Gateway.RemoveHost | controller.go:320-332 | the nested in-place loop takes the host once off every server whose port name is the one configured for http or for https, and leaves every other server equal |
| Hosts.Gateway.AddHost | controller.go:400-413 | the nested in-place loop appends the host to every server under these two port names that lacks it, and leaves every other server equal |
| RouteController.Controller.NewService | controller.go:556-574 | what is sent has every node port zero and names, ports and target ports of the source, and so has the slice of the cached source service afterwards |
| RouteController.Controller.DeleteRoute | controller.go:308-338 | deletes, gateway edit and record delete add up to the withdrawal of one route |
| RouteController.Controller.CreateRoute | controller.go:376-420 | record, four creates, gateway edit and status add up to the installation of one route; the status is written only if the gateway is found |
| RouteController.Controller.UpdateRoute | controller.go:430-439 | an update rewrites service and endpoints of a held route and nothing else |
| RouteController.Controller.ReleaseStale | controller.go:294-338 | the release happens for exactly the route the record names and the source no longer asks for |
| RouteController.Controller.SyncEligible | controller.go:366-440 | create, conflict or update as decided by the record and the Istio service; an update rewrites service and endpoints from the caches and nothing else; a conflict leaves the stores and writes its message |
| RouteController.Controller.SyncBlind | controller.go:360-440 | the same three branches when the endpoints or the service could not be looked up: a panic after the record, or after record and endpoints, of a create, or before or after the first call of an update; no panic on a conflict |
| Calls.InterruptedIsACrash | controller.go:377-436 | the stores such a panic leaves are those of a create or update stopped between two calls |
| RouteController.Controller.SyncFound | controller.go:348-440 | the same behind the checks for an empty route name and a backend known to be missing, which leave stores and caches alone; with a lookup that failed otherwise, the stores are left as interrupted |
| RouteController.Controller.SyncObject | controller.go:283-482 | for the two parts of a key, one call is exactly one Reconcile of the record name and source, or a release and an interrupted branch |
| RouteController.Controller.SyncHandler | controller.go:280-482 | one call is exactly one Reconcile of the key's record name and source and touches no other cached object; with endpoints or service not looked up it releases what is stale and ends in a panic, or in a conflict; an invalid key changes nothing. Read off caches and stores: an object gone from a readable cache loses record and all four objects; an unreadable cache changes nothing and requeues; an object with cached endpoints and service and a free route gets record, service, endpoints and status from them; with the endpoints cache unreadable it gets a record and a panic |
| Effects.AfterDeletion | controller.go:298-336 | a sync without the source removes the record and the four objects of the route it named |
| Effects.AfterCreate | controller.go:372-420 | a sync with route name, endpoints and service, on a free service name, makes the record, a service with the source's ports, endpoints where none were, and the status if there is a gateway |
| Effects.AfterUpdate | controller.go:429-436 | a sync of a held route rewrites the contents of its service and endpoints, and nothing else |
| Effects.AfterConflict | controller.go:421-427 | a sync on another's service name without an own record changes only the status, to the conflict message |
| Effects.AfterNothing | controller.go:340-366 | without a record, a sync changes nothing when object, route name, endpoints or service are missing |
| Leases.ReconcileKeepsLeases | controller.go:294-439 | a sync keeps records distinct, non-empty and complete: every held route has all four objects, also between release and branch |
| Leases.InstallKeepsGateway | controller.go:400-415 | a create keeps each managed server at base hosts plus held hosts if and only if no managed base host is the route's host |
| Leases.ClaimedHostIsLost | controller.go:320-332 | a base host that is the route's own breaks the agreement at the create and is gone after the removal |
| Leases.ReconcileKeepsGateway | controller.go:316-335 | a whole sync keeps that agreement |
| Leases.ReconcileConservesForeignServices | controller.go:369-385 | services that no record names, and their contents, are the same before and after a sync |
| LeaseTable.SentinelIsSound | controller.go:294-308 | the empty string is a sound "none": the delete block runs exactly for a stale record, and an update only ever sees its own route |
| LeaseTable.BranchByHolder | controller.go:371-430 | update, conflict and create happen exactly when the key itself, a foreign service or another key, or nobody has the route |
| LeaseTable.ForeignRouteConflicts | controller.go:421-428 | a key that asks for a foreign route ends without a record and with the conflict status |
| LeaseTable.SyncRefinesTable | controller.go:280-439 | every sync is one step of a partial map from routes to owners: stutter, release, acquire of a free route, or both, decided by the map and the foreign routes |
| LeaseTable.OthersUntouched | controller.go:308-439 | a sync leaves every other key's record and the contents of its four objects unchanged |
| LeaseTable.OtherHostsUntouched | controller.go:320-332 | hosts other than those of the old and the new route keep their multiplicity in every server |
| LeaseTable.RunKeepsServers | controller.go:400-413 | over any run the number and port names of servers stay, and unmanaged servers stay as they are |
| LeaseTable.ContentAfterSync | controller.go:380-385 | after update or create the service has the source's names, ports and target ports and no node ports; the endpoints have its subsets, on create exactly when no different ones were there |
| LeaseTable.PublishedNameAgrees | controller.go:388-418 | status, virtual service and every server named for http or https show one and the same host, the route, a dot and the suffix; the virtual service sits on the gateway and the mesh and points at the destination rule's host, the service in the Istio namespace, and at the source's first port as an unsigned 32-bit number |
| LeaseTable.ServersAfterCreate | controller.go:400-413 | a create appends the host to the servers with these two port names that lack it, and leaves every other server equal |
| LeaseTable.ServersAfterRemoval | controller.go:320-332 | a removal takes one occurrence of the host off the servers with these two port names, and leaves every other server equal |
| LeaseTable.ServersShowRecords | controller.go:316-335 | over any run from no records, these servers show their first hosts and one host per record, and every other server stays equal |
| LeaseTable.RunKeepsLeases | controller.go:280-439 | every state any run reaches keeps the lease invariant and the foreign services |
| LeaseTable.RunKeepsGateway | controller.go:316-335 | every gateway any run reaches agrees with base hosts and held routes |
| LeaseTable.HeldUntilOwnSync | controller.go:308-338 | over any run without its own sync a record stays, and so do its four objects with their contents |
| LeaseTable.ReachableFromNoRecords | controller.go:280-439 | the three invariants together from a cluster without records |
| Algebra.SyncIdempotent | controller.go:429-439 | two syncs on the same source equal one, cache aliasing included, if and only if the first is not a create over different existing endpoints |
| Algebra.RenameDecomposes | controller.go:303-338 | a sync that sees a new route name equals a sync with the source absent followed by one with the new name, in every branch |
| Algebra.SyncsCommute | controller.go:308-439 | syncs of two keys with disjoint old and new routes give the same stores, statuses and caches in either order, up to host order |
| Algebra.CreateThenRemove | controller.go:308-420 | create and then removal restore all stores exactly if and only if the route was free in every store and managed server |
| Algebra.LeftoverEndpoints | controller.go:381 | endpoints left under a free route name make the second sync differ from the first, and are lost in the round trip, at a state with sound leases |
| Algebra.RemovalPassesRun | controller.go:308-338 | giving up a lease at the end of a run of other keys equals giving it up before the run |
| Algebra.RoundTripAroundRun | controller.go:308-420 | a lease taken before and given up after a run of other keys leaves what the run alone leaves, up to host order |
| Convergence.TwoPassesSettle | controller.go:280-482 | with sources left alone, after two passes over all keys in any order no sync of any key changes stores, statuses or caches |
| Convergence.SettledForever | controller.go:280-482 | hence no further schedule changes anything |
| Convergence.HeldRoutesConfluent | controller.go:294-439 | the routes held after two passes are those of fresh records plus the eligible, non-foreign requests, for every order |
| Convergence.UncontestedOwnerWins | controller.go:360-420 | a key without a rival for a non-foreign route holds it after two passes, in every order |
| Convergence.FirstVisitorWins | controller.go:369-377 | the eligible key synced first on a route nobody has keeps it through every further schedule |
| Convergence.WinnerDependsOnOrder | controller.go:369-377 | so two passes that differ only in which of two rivals comes first leave different holders |
| OnePass.OnePassSettlesIff | controller.go:280-482 | every single pass settles the system if and only if each eligible key not yet holding its route asks for one that no other key's stale record names, and that is a service already, or absent from the endpoints, or there with the same subsets |
| OnePass.OnePassIsNotEnough | controller.go:381-428 | both ways of missing that condition occur with sound leases |
| Status.HolderShowsHost | controller.go:417-425 | after a sync a holder's status is its host exactly if it was before, or the key ends without the route, or the route was free and the gateway found |
| Status.SyncShowsTruth | controller.go:417-425 | and the status names exactly the held route, in all four cases, under an exact condition on the state before |
| Status.ClearedRouteStaysShown | controller.go:303-357 | a key whose route name is cleared gives its route up and goes on showing it |
| Status.UnwrittenStatusStays | controller.go:429-439 | while a source asks for the route its record names, no schedule ever changes its status |
| Status.CrashedCreateIsNeverShown | controller.go:377-419 | so after a create that stopped anywhere behind its record the held route is never shown |
| Status.SettledTruth | controller.go:277-425 | after two passes, in every order, a status is true exactly if: the key held its route at the start and showed it; or did not hold it and is eligible; or showed no host |
| Status.NothingShownWithoutGateway | controller.go:396-420 | without a gateway every status ends as it was or as no host |
| Calls.CrashedCreateIsCleanedUp | controller.go:296-300 | wherever a create stopped after its record, a sync with the source gone leads to one and the same state |
| Calls.CrashedCreateRestores | controller.go:377-415 | from any such point the stores are restored exactly if and only if the route was free before |
| Calls.CrashedReleaseIsFinished | controller.go:310-336 | a release that stopped anywhere is finished by the next sync as if it had not stopped; after the gateway write if and only if no managed server listed the host twice |
| Calls.WithdrawLeavesNothing | controller.go:310-336 | a withdrawal leaves no record and no object, and no host if and only if none was listed twice |
| Calls.CleanupFromCrash | controller.go:294-338 | from any crash point of a create or release, with duplicate-free hosts and the source gone, one sync leaves no record, object or host |
| Calls.HalfCreateStaysHalf | controller.go:429-439 | once the record exists, syncs of its key never make a missing object and never write virtual service, destination rule or gateway |
| Workers.StepKeepsCoverage | controller.go:308-394 | a single call of any worker keeps the coverage invariant if and only if it is no failed record create and no failed delete of a made object that no other record covers |
| Workers.WriteAheadCoverage | controller.go:372-394 | at every moment of every interleaved run with crashes, each object that was not there at the start is covered by a record naming its route whose deleter has not passed its kind |
| Workers.NoOrphans | controller.go:294-338 | so each such object can still be removed by a sync of that record's key with its source gone |
| Races.SoloWorkerIsReconcile | controller.go:280-439 | a worker whose calls all succeed undisturbed does exactly one Reconcile in at most fifteen calls |
| Races.UniqueUnlessLateRecord | controller.go:377 | a call breaks unique ownership if and only if it creates a record for a route another record names |
| Races.RaceGivesTwoHolders | controller.go:368-377 | two workers that check the same free route before either creates its record both hold it, without any failure |
| Races.SecondHolderLosesObjects | controller.go:310-315 | when one of two holders leaves, the other keeps its record and loses all four objects |
| Races.CrashLetsSecondHolderIn | controller.go:369-385 | after a crashed create another key gets the same route if and only if the service had not been created |
| Crashes.CrashFreesKey | controller.go:203-239 | a crash in any phase touches no store and ends the job, and its key can be taken again by the same or an idle worker |
| Crashes.CrashedCreate | controller.go:377-415 | a run in which a create is stopped by a crash after any number of its calls leaves exactly the effect of these calls, and idle workers |
| Crashes.CrashedRelease | controller.go:310-336 | the same for a release |
| Crashes.NextSync | controller.go:280-439 | after any run that leaves all workers idle, any worker can take any key and does one Reconcile of the stores as they are |
| Crashes.CrashedCreateIsCleaned | controller.go:294-338 | so after a crash in a create, whichever worker takes the key with its source gone leaves no record, object or host |
| Crashes.CrashedReleaseIsResumed | controller.go:294-440 | and after a crash in a release the next job of the key ends as if there had been no crash |
| Crashes.CrashLetsSecondKeyIn | controller.go:369-385 | and after a crash in a create another key gets the same route too exactly if the service had not been created |
| Updates.StepKeepsTrack | controller.go:292-372 | a step keeps every worker that may update on its own record's route if and only if it is not one of three: a failed first lookup on a record to give up, a failed second lookup without a record, a failed record delete |
| Updates.UpdatesStayWithinTheirLease | controller.go:429-436 | in every interleaved run without those three, the contents of existing services and endpoints are only rewritten by a worker whose own record names the route |
| Failures.FailedCallHasNoEffect | controller.go:312-437 | a call that fails changes nothing, and, the two lookups apart, the worker goes on as after a success |
| Failures.FailedServiceCheckTurnsAway | controller.go:369-428 | one failed lookup of the Istio service turns a key without a record away from any route, and does not keep a key with its record from updating |
| Failures.FailedDeleteOrphans | controller.go:312-336 | from idle workers: one failed delete, of any of the four kinds, and nothing else failing, leaves a new object that no record covers |
| Failures.FailedRecordOrphans | controller.go:377-394 | the same for one failed record create and each of the four objects made after it |
| Failures.FailedCheckOverwrites | controller.go:368-432 | from idle workers: one failed second record lookup of a key without a record overwrites the route's service |
| Failures.FailedLookOverwrites | controller.go:292-432 | the same for one failed first lookup of a key whose record names another route |
| Failures.FailedRecordDeleteOverwrites | controller.go:336-432 | the same for one failed record delete of such a key |
| Serial.InterleavingIsSerial | controller.go:280-439 | workers on different keys with disjoint old and new routes whose calls interleave in any way and do not fail leave, when all have ended, the five maps that whole syncs leave in any order |

## Left out

- The clientsets, REST calls, deep copies and informers: replaced by map operations with the outcomes stated above.
- The work queue, its retries and back-off, and `processNextWorkItem`: only that one key is never worked on twice at once.
- `handleObject`: it finds the ServiceRoute of the same namespace and name and enqueues it.
- Flags, kubeconfig, signals, logging, events, goroutine start-up and cache synchronisation.
- Fields the server fills in, such as resource versions and cluster addresses, and conflicts of concurrent gateway updates.
- Labels, protocols and further fields of ports, endpoints and servers: copied by the code without being read.
- Workers.CallStep: a gateway write is one step there, while the code reads and writes the gateway in two; nothing is claimed about the gateway of interleaved runs except for a worker left alone.
- Workers.Next: the caches are read once, together with the record lookup, and the conflict or success status is a step without effect on the stores.
- Status.SettledTruth: sources are left alone between the syncs; users may edit or recreate them, and then only what one sync writes is stated.
- Serial.InterleavingIsSerial: the gateway is left out, because the model's gateway write is one step where the code reads and then writes; statuses are no part of the interleaved machine, and the workers take one job each.
- The panic on a source service without ports: ruled out by the type of source ports; at the level of single calls it is one of the crashes.
