# A verified model of kube-haproxy

kube-haproxy is a kube-proxy derivative: change trackers accumulate the events of the Kubernetes API, incremental maps
are patched from the trackers, and a reconciler drives HAProxy until it matches the maps. This project models the three
layers in Dafny and proves what holds over every run.

**Trackers and maps.** `Services`, `Endpoints`, `EndpointSlices`, `SliceCache` and `EndpointTracker` hold the
classes of `controller/`, each method tied to a function of the old state (`ChangeTracking.Track`,
`ChangeTracking.PatchedBy`, `EndpointSlices.Pend`, `EndpointSlices.Overlay`). Visiting a Go map is a choice that no
contract depends on. `sort.Sort` is not stable, so normal forms and renderings are relations (`EndpointSlices.IsNormal`,
`Rendering.IsRendering`), and what does not depend on the order is proved about them. `ServicesRun`,
`EndpointsRun` and `SlicesRun` are the state machines of these parts: an endpoints apply takes the tracker lock twice and
merges one object at a time, and events may come in between any two steps.

**Gate and wake-up.** `Protocol` is the machine of the synced flags, `initialized`, the request bit of the sync
runner and any number of threads, each stopped between any two of its steps. `ProxierRun` puts trackers and maps back in
and shows that every move of the whole proxier is a step of the protocol; `EveryState` is the induction over runs.
`ProxierRest` adds what has been reconciled by the time the proxier rests. `SliceLabels` relates what is filed under a
service to the labels of the latest slices.

**Reconciler.** `Haproxy` is HAProxy as a store of frontends with binds and backends with servers. Every call is logged
and asks a fault plan whether it is served, refused, or has its effect while reporting a failure. `ProxierSync` holds
`syncService`, `syncEndpoint`, `cleanLegacyService` and `syncProxyRules` as methods whose contracts say, for every
fault plan, what becomes of each service port given the fate of its own calls (`SyncSteps`, `SyncOutcome`).
`Convergence` proves what runs without failures amount to when they are repeated, `Recovery` what one run without
failures restores after any history of failing ones, `EndToEnd` joins all layers, and `Witnesses` shows concrete inputs
on which the program falls short.

**In plain terms.** Each computed value is also described by the fields of what it is made from, without the functions
that compute it: `Services.ShowsService`, `Endpoints.ShowsEndpoints`, `EndpointSlices.ShowsSlice`,
`Rendering.ShowsSlices` and `ObjectsShown` say it of the API objects, `Shown` of the entries of HAProxy, and
`RestShown.RestShowsObjects` of the way from the one to the other.

## What the code does, where it is not what its comments say

- `graceTerminateSrvList.add` only stores an item the list already contains, so the termination list is always empty:
  a server whose deletion fails is not remembered for a later attempt
  (`haproxy/graceful_termination.go:48-58`). The next reconciliation tries again, because the server is still listed.
- `OnServiceSynced` looks at the endpoints flag only (`haproxy/proxier.go:525-533`). In EndpointSlice mode the proxier
  therefore stays uninitialised for good when the slices callback comes before the service callback.
- The frontend of a UDP port is in mode `udp`, and an entry in that mode is never replaced
  (`haproxy/proxier.go:229-231`). The encoded name does not contain the protocol, so a port that changes from UDP to
  another protocol under the same name keeps its old frontend for as long as the name is wanted
  (`Witnesses.ProtocolChangeShown`).
- A reconciliation deletes a server that differs from a wanted one with the same name and cannot add the wanted one
  while the old one is there, so such a clash takes two runs. Under one configuration it never arises, because the name
  holds address and port (`Reconciliation.SourcedNeverClash`). One endpoint whose health checks are switched on needs
  the second run (`Witnesses.ClashShown`); `Convergence.OneRunExact` has the exact condition.
- A service one of whose writes fails is not recorded as active, and cleanup deletes its frontend and backend if the
  list could be read (`haproxy/proxier.go:453-477`). A service in place is lost already when the read of its backend
  and the add that follows are refused (`Witnesses.LoseService`). That no write of its own fails is the exact condition
  for being active, and `SyncOutcome.KeyOutcome` says exactly when its entries go.
- Cleanup finds backends through frontends, so a backend without its frontend is never deleted. On a fresh HAProxy one
  refused add of a frontend leaves such a backend, which stays for as long as its key is not wanted again
  (`Witnesses.LeaveBackend`). An entry of a wanted port is left exactly if it was there or was made, and its deletion
  was not asked for or had no effect; for a backend without frontend it is not asked for (`SyncOutcome.KeyOutcome`). A
  later run adopts an orphan exactly if it wants its key (`Recovery.OrphanExact`).
- Nothing is cleaned up when there is no backend at all (`Recovery.Restorable` has the condition for that case).
- `NewServiceChangeTracker` never sets `isIPv6Mode` (`controller/service.go:235-242`). Services are therefore never
  filtered by IP family, while endpoints are.
- `EnsureHaproxy` always answers (`haproxy/haproxy.go:31-33`), so the branch that ends a run early
  (`haproxy/proxier.go:375-378`) is dead as the program is written. The model keeps it: were it taken, the run would
  have emptied the trackers and nothing would request another one, so HAProxy would stay behind until the next event.
  `EndToEnd.RestIsIdeal` covers both answers, `EndToEnd.RestAsWritten` is the program as it stands.
- Slices are filed by their service label, and an update looks at the new label only. A slice that moves to another
  label, or loses it, stays filed under the old service (`SliceLabels.RelabelledStays`). What is filed under every
  service is the latest slices with its label, at every point, exactly if no slice changes its label while it is filed
  (`SliceLabels.FiledExact`).
- `DeleteFrontend` and `DeleteBackend` return true on success, which `cleanLegacyService` logs as a failure.
- An update of a slice reports a change although nothing visible changed in exactly one case: a slice that is pending
  removal is removed again in a different form.

## Model

| member | source | states |
|---|---|---|
| RestShown.RestShowsObjects | haproxy/proxier.go:340-601 | whenever an initialised proxier comes to rest and the calls of its last reconciliation were served, every handled port of the latest services has its frontend, bind, backend and one server per latest endpoint, field by field from the API objects, and nothing else is there but what no frontend led to (if no port is handled and there was no backend, the store is as it was); only a udp frontend that was there keeps its configuration |
| EndToEnd.RestIsIdeal | haproxy/proxier.go:340-601 | whenever an initialised proxier comes to rest it has reconciled, last with the maps of the latest objects; whatever calls failed in earlier reconciliations, if those of the last were served a HAProxy that was fresh at the start then holds exactly what these objects call for, iff no orphan and no udp frontend was in the way |
| EndToEnd.RestAsWritten | haproxy/haproxy.go:31-33 | as EnsureHaproxy always answers, the last reconciliation before rest has acted on HAProxy, with the exact outcome for any failures and the ideal configuration if its calls were served |
| EndToEnd.ConfigurationFollowsObjects | haproxy/proxier.go:340-478 | the same after every single reconciliation whose calls are served, for the objects observed no earlier than its start, whatever failed before |
| EndToEnd.FullMapNames | controller/service.go:316-347 | Services with labels for names and one name per port render to service ports with Kubernetes names |
| Recovery.RunKeepsSound | haproxy/proxier.go:381-477 | a run under any failures keeps the store tidy, its backends out of mode udp, its servers those of the configuration, and the stats frontend as it is |
| Recovery.EveryHistoryRecovers | haproxy/proxier.go:381-477 | from a fresh HAProxy, after any runs under one configuration with any failures, a run whose calls are served ends in exactly the wanted configuration iff it finds no orphan and no udp frontend in the way, or has nothing to list and no frontend but stats is there |
| Recovery.OrphanExact | haproxy/proxier.go:466-477 | a run whose calls are served never deletes an orphaned backend and adopts it iff it wants its key |
| Recovery.OrphanStays | haproxy/proxier.go:466-477 | it stays an orphan through every sequence of such runs that do not want its key |
| ProxierRest.RestIsReconciled | haproxy/proxier.go:340-601 | at rest the last reconciliation carries the maps of the latest objects; an initialised proxier never rests without having reconciled |
| ProxierRest.SecondCallbackApplies | haproxy/proxier.go:525-565 | in Endpoints mode the run started by whichever callback comes second ends by reconciling with maps that account for every event received before the callback |
| ProxierRest.SlicesFirst | haproxy/proxier.go:525-601 | a run in EndpointSlice mode in which both callbacks have come, slices first, and the gate is shut |
| ProxierRun.EveryState | haproxy/proxier.go:340-601 | the combined invariant of trackers, maps, flags, threads and past reconciliations holds in every state of every interleaving |
| ProxierRun.NoLostWakeup | haproxy/proxier.go:498-601 | once initialised, a difference nobody has checked out has a request pending, or a thread that is about to request or start a run or has yet to check it out |
| ProxierRun.QuiescentIsCurrent | haproxy/proxier.go:340-358 | when an initialised proxier comes to rest, both maps are those of the latest objects, services of every family and endpoints of its own |
| ProxierRun.DrivesAreFaithful | haproxy/proxier.go:340-358 | HAProxy is only driven after the gate opened, with maps that equal a recomputation for objects no older than the start of that run |
| ProxierRun.GateHolds | haproxy/proxier.go:340-347 | before the service callback and one endpoint callback, both maps are empty and HAProxy has not been driven |
| ProxierRun.SliceGateExact | haproxy/proxier.go:525-601 | in EndpointSlice mode, with both callbacks done, the proxier is initialised iff the service callback came first; otherwise nothing is ever touched |
| ProxierRun.MoveRefines | haproxy/proxier.go:498-601 | every move of trackers, maps and threads is a step of the abstract protocol and keeps the coherence invariants |
| Protocol.WakefulKeeps | haproxy/proxier.go:498-601 | no step of any thread, callback or event loses a wake-up for either tracker |
| Protocol.StepKeeps | haproxy/proxier.go:340-601 | wake-ups, gate, mutual exclusion and the progress recorded by every thread are kept by every step |
| EndpointsRun.ObserveKeeps | controller/endpoints.go:148-194 | an event at any point of an apply keeps, for every object, the chain map entries, checked-out change, pending change, latest rendering |
| EndpointsRun.CheckoutKeeps | controller/endpoints.go:239-253 | the first locked section of an apply keeps the chain of every object |
| EndpointsRun.MergeOneKeeps | controller/endpoints.go:399-429 | merging one change keeps the chains of all objects, whatever the order |
| EndpointsRun.TakeTimesKeeps | controller/endpoints.go:257-270 | the second locked section keeps the chains and delivers the held trigger times |
| EndpointsRun.MapIsRecomputed | controller/endpoints.go:399-429 | once its changes are merged, an apply has made the map equal to the one recomputed from the objects as of its checkout, and of the latest objects if nothing is pending |
| EndpointsRun.ItemsFitMap | controller/endpoints.go:399-415 | pending changes start from what the map holds, so stale detection compares the true maps before and after |
| ChangeTracking.TrackKeepsChain | controller/endpoints.go:148-194 | accumulating an event, and dropping a change that cancels out, extends every chain to the new rendering |
| ChangeTracking.PatchedByDetermines | controller/endpoints.go:399-415 | the result of applying a batch does not depend on the order in which it is visited |
| EndpointTracker.EndpointChangeTracker.Update | controller/endpoints.go:148-194 | items follow Track; the time of an update, none for a deletion, is added at the end of those of its object, and all are dropped iff the object has no change left; the result says whether anything is pending |
| EndpointTracker.EndpointChangeTracker.EndpointSliceUpdate | controller/endpoints.go:199-235 | slices of other address types, without label or names change nothing; otherwise the normal form is pended, and the time of an update is added iff it is a change and no removal |
| EndpointTracker.EndpointChangeTracker.CheckoutChanges | controller/endpoints.go:239-253 | all pending changes are listed once each, in some order, and cleared, in both modes |
| EndpointTracker.EndpointChangeTracker.CheckoutTriggerTimes | controller/endpoints.go:257-270 | held times are appended per object and cleared, items are left alone |
| EndpointTracker.UpdateEndpointsMap | controller/endpoints.go:317-334 | a whole update patches the map, reports exactly the stale endpoints and services, delivers the times and counts local addresses |
| Endpoints.EndpointsToEndpointsMap | controller/endpoints.go:343-391 | e is listed under a service port iff some subset has a port with a number and an address of the family of the proxier that make e, local iff on this node; the nested loops group them in order |
| Endpoints.RenderingShowsEndpoints | controller/endpoints.go:343-391 | the same of the function that the tracker is specified by |
| Endpoints.GroupSnoc | controller/endpoints.go:343-391 | one more contribution extends the list of its service port and nothing else |
| Endpoints.ContributionsKeyed | controller/endpoints.go:343-391 | an object only ever renders to service ports of its own name |
| Endpoints.DetectStaleConnections | controller/endpoints.go:450-481 | the lists grow by exactly the UDP endpoints without a successor of the same address, port and locality, and the UDP service ports that went from none to some |
| Endpoints.EqualExact | haproxy/proxier.go:83-92 | endpoints are equal iff address, port and locality are |
| Endpoints.StaleExact | controller/endpoints.go:450-481 | over a whole batch, what is detected change by change is exactly the difference of the maps before and after |
| Endpoints.EndpointsMap.ApplyChanges | controller/endpoints.go:399-429 | unmerge and merge in any order patch the map; stale results are exact when the changes fit it |
| Endpoints.EndpointsMap.GetLocalEndpointIPs | controller/endpoints.go:432-446 | exactly the addresses of local endpoints per object, over all its ports |
| Triggers.RecordConserves | controller/endpoints.go:172-187 | recorded times equal delivered, dropped and held ones, per object and in order, after recording |
| Triggers.DropConserves | controller/endpoints.go:183-187 | the same after an update whose previous and current maps are equal drops the held times |
| Triggers.DeliverConserves | controller/endpoints.go:257-270 | the same after an apply: each time is delivered by at most one apply, in recording order |
| EndpointSlices.NewEndpointSliceInfo | controller/endpointsslice.go:110-135 | the ports of the slice by number and the endpoints not known to be unready, as often as they occur, by joined addresses; a removal keeps no endpoints |
| EndpointSlices.NormalFormUnique | controller/endpointsslice.go:110-135 | permuted slices with distinct ports and joined addresses have one normal form, although the sort is not stable |
| EndpointSlices.JoinedSnoc | controller/endpointsslice.go:360-362 | endpoints are compared by their addresses with commas between them |
| Sorting.StringLessExact | controller/endpointsslice.go:360-375 | and strings at the first character in which they differ, the shorter one first where there is none |
| EndpointSlices.RedeliveryUnchanged | controller/endpointsslice.go:279-305 | delivering a slice again in permuted form reports no change |
| EndpointSlices.PendOverlay | controller/endpointsslice.go:143-166 | an update moves pending-over-applied to the new slice and reports a change iff that moved or a pending removal is repeated in another form |
| SliceCache.EndpointSliceCache.UpdatePending | controller/endpointsslice.go:143-166 | the tracker of the service becomes Pend of the normal form, reporting InfoChanged |
| SliceCache.EndpointSliceCache.CheckoutChanges | controller/endpointsslice.go:170-200 | applied becomes the overlay and pending empty for every service; changes hold renderings before and after |
| SliceCache.ApplyPending | controller/endpointsslice.go:183-196 | applying pending slices in any order yields the overlay |
| SliceCache.EndpointInfoByServicePort | controller/endpointsslice.go:209-271 | the loops over slices, ports and endpoints group contributions by port and deduplicate them by address for some visiting order |
| SliceCache.GetEndpointsMap | controller/endpointsslice.go:203-206 | each listed endpoint comes from a named port with a number and an endpoint whose first address is of the family of the proxier, whatever such a pair gives is listed under its address, local iff some pair has the host name of the node, once each, in order of the strings |
| SliceCache.SortedList | controller/endpointsslice.go:309-328 | the list holds exactly the grouped endpoints, sorted by their strings |
| Rendering.PutAllDedups | controller/endpointsslice.go:238-271 | deduplication keeps one contribution per address, local if any is |
| Rendering.RenderingExact | controller/endpointsslice.go:209-271 | in any order, exactly the contributed service ports and addresses appear, local iff some contribution is |
| Rendering.RenderingShowsSlices | controller/endpointsslice.go:209-271 | the same of every rendering, whatever the order |
| Rendering.RenderingsAgree | controller/endpointsslice.go:309-328 | two visiting orders give the same service ports, addresses and locality |
| Rendering.RenderingUnique | controller/endpointsslice.go:309-328 | where contributions to an address agree on port and topology, every order gives the same map |
| SlicesRun.ObserveKeeps | controller/endpointsslice.go:143-166 | a slice event at any point keeps: pending over applied is the normal form of the latest slices, and the map is a rendering of the applied ones |
| SlicesRun.CheckoutKeeps | controller/endpointsslice.go:170-200 | checkout keeps these and leaves nothing pending |
| SlicesRun.UnmergeIsExact | controller/endpoints.go:425-429 | unmerge removes exactly the keys merged last time, although previous was rendered afresh |
| SlicesRun.MergeOneKeeps | controller/endpoints.go:399-429 | merging one service turns its part into a rendering of its applied slices and leaves the others |
| SlicesRun.MapIsRendered | controller/endpointsslice.go:203-235 | after an apply each part of the map is a rendering of the slices filed under the service as of the checkout, and of those filed now if nothing is pending |
| SlicesRun.RenderedPartUnique | controller/endpointsslice.go:203-235 | with distinct keys and agreeing contributions that part is determined |
| SliceLabels.FiledExact | controller/endpointsslice.go:143-166 | over all events, at every point what is filed under each service is the latest slices that belong to it, by namespace, label and address type, iff none stops belonging to its service while filed |
| SliceLabels.MapFollowsLabels | controller/endpointsslice.go:203-235 | where no slice has changed its label, each part of the map is a rendering of the latest slices with the label of the service |
| SliceLabels.ObserveFiles | controller/endpoints.go:199-235 | every slice event of a run is filed as the sequence of events says |
| SliceLabels.IgnoredFiles | controller/endpoints.go:199-213 | an event that is ignored changes nothing that is filed |
| SliceLabels.RelabelledStays | controller/endpointsslice.go:340-349 | two events that leave a slice filed under a service whose label no slice has |
| Services.ServiceToServiceMap | controller/service.go:316-347 | None iff there is no service, it is skipped or its address is of the other family; otherwise exactly the keys of its ports, each with the number, protocol, address and health check port of the last port with that key |
| Services.RenderingShowsService | controller/service.go:316-347 | the same of the function that the trackers are specified by |
| Services.LastPortWins | controller/service.go:316-347 | of two ports with one key the later one is kept |
| Services.ServiceChangeTracker.Update | controller/service.go:252-281 | items follow Track and the result says whether anything is pending |
| Services.ServiceMap.Apply | controller/service.go:352-368 | patches the map and reports exactly the addresses, as held before, of the UDP ports that went away |
| Services.ServiceMap.Unmerge | controller/service.go:417-430 | removes the given keys and adds the addresses held by the live map |
| PortMaps.MergeFilterUnmerge | controller/service.go:352-368 | merge, filter and unmerge amount to deleting previous and adding current |
| Services.PatchOneMore | controller/service.go:352-368 | one more change of a batch adds up, for the map and for the stale addresses |
| Services.UpdateServiceMap | controller/service.go:294-308 | additionally, exactly the services with a health check port are listed, with their port where it is uniform |
| ServicesRun.ObserveKeeps | controller/service.go:252-281 | a service event keeps the chain of every service |
| ServicesRun.ApplyKeeps | controller/service.go:352-368 | an apply keeps the chains, whatever the order |
| ServicesRun.MapIsRecomputed | controller/service.go:352-430 | the service map is the one recomputed from the objects as of the last apply, and of the latest if nothing is pending |
| ServicesRun.ItemsAreKeyed | controller/service.go:252-281 | in every run pending changes only hold ports of their own service, as an apply needs |
| ServicesRun.MapIsUniform | controller/service.go:294-308 | in every run the ports of a service agree on the health check port, so the reported one does not depend on the order |
| ObjectsShown.ServicesAreShown | controller/service.go:316-347 | the service map holds exactly the ports of the services that are not skipped, with the number, protocol, address and health check port of the last port with a key |
| ObjectsShown.PlainIsShown | controller/endpoints.go:343-391 | the endpoints map lists e under a service port iff a subset of its Endpoints object has a port and an eligible address that make e |
| ObjectsShown.SlicedIsShown | controller/endpointsslice.go:209-271 | in slice mode every listed endpoint comes from a port and an endpoint not known to be unready of a slice of the service, and every such pair is listed under its address, once, local if any is |
| Names.EncodedNameExact | haproxy/proxier.go:400-402 | two service ports of RFC 1123 labels share an encoded name iff service and port name are equal |
| Names.NamesInjective | api/types.go:50-59 | with port names unique per service, distinct service ports never share a backend, frontend or bind name |
| Names.NamesCollideWithoutHypotheses | haproxy/proxier.go:400-402 | without labels, or with one port name for two protocols, names collide |
| Names.DecodeExact | haproxy/haproxy.go:162-171 | trimming a frontend name returns its key iff neither end of the key is in the cutset |
| Names.EncodedNameDecodes | haproxy/proxier.go:194-207 | every encoded name is decoded to the key under which it is recorded as active |
| HostPorts.JoinHostPortInjective | haproxy/proxier.go:293-304 | the string of an endpoint determines address and port, so server names identify servers |
| HostPorts.JoinHostPortShows | controller/endpoints.go:85-97 | the string of an endpoint is its address, in brackets if it has a colon, a colon, and its port in decimal without leading zeros |
| GracefulTermination.ListNeverGrows | haproxy/graceful_termination.go:48-74 | no sequence of additions and removals puts anything on the termination list |
| GracefulTermination.GracefulTerminationManager.AddItem | haproxy/graceful_termination.go:48-58 | adding leaves the list as it is and succeeds iff the item was there already |
| GracefulTermination.GracefulTerminationManager.FlushList | haproxy/graceful_termination.go:76-90 | only listed servers go, the list shrinks, and success means it is empty |
| GracefulTermination.GracefulTerminationManager.TryDeleteSrv | haproxy/graceful_termination.go:158-162 | the periodic flush removes only listed servers, so with the list empty it leaves HAProxy alone |
| GracefulTermination.GracefulTerminationManager.DeleteSrvFunc | haproxy/graceful_termination.go:144-156 | reads before deleting; reports success only if the server went; without failures the server is gone |
| GracefulTermination.GracefulTerminationManager.GracefulDeleteSrv | haproxy/graceful_termination.go:125-142 | deletes at most this server and leaves the list alone |
| GracefulTermination.GracefulTerminationManager.MoveRSOutofGracefulDeleteList | haproxy/graceful_termination.go:165-180 | an unlisted server is an error without effect; a listed one leaves the list iff its deletion was confirmed |
| Haproxy.HaproxyHandle.GetServices | haproxy/haproxy.go:151-174 | exactly one service per frontend other than stats, joined with its default backend; none if either read fails or is empty |
| Haproxy.HaproxyHandle.AddFrontend | haproxy/haproxy.go:216-229 | an existing name is left alone and reported as success with an error |
| Reconciliation.WantsAt | haproxy/proxier.go:388-450 | for service ports with Kubernetes names, each unskipped port is called for under its own key with its own entries, none is lost to another one |
| Reconciliation.WantsAreProper | haproxy/proxier.go:388-450 | what is called for is named after its key, decodes back to it and is never in backend mode udp |
| Reconciliation.ServerNamesDetermine | haproxy/proxier.go:292-306 | endpoints ask for the same server iff they ask for the same server name |
| Reconciliation.RoundsConverge | haproxy/proxier.go:267-338 | one round reaches the wanted servers iff no current server has a wanted name and differs; two rounds always do |
| Reconciliation.MergedStep | haproxy/proxier.go:388-464 | the service loop may take any order: each port finds its entries as they were at the start |
| Reconciliation.SourcedNeverClash | haproxy/proxier.go:290-303 | servers made under one configuration never clash |
| ProxierSync.Proxier.SyncBackend | haproxy/proxier.go:210-227 | a backend is written exactly unless its read is served and shows it settled, and an error is reported exactly if that write is not served |
| ProxierSync.Proxier.SyncService | haproxy/proxier.go:209-265 | an error is reported exactly if a write of its own is not served; whatever fails only the entries of this port change, to old or wanted values; if all its calls are served they are as wanted unless in mode udp |
| ProxierSync.Proxier.SyncEndpoint | haproxy/proxier.go:267-338 | for every fault plan servers for the endpoints that are in place stay and each other one was there or is for an endpoint; an empty read deletes nothing; if all its calls are served exactly one server per endpoint is there, by fields, iff none that was there differs from the one with its name |
| ProxierSync.Proxier.SyncPort | haproxy/proxier.go:446-463 | a port is active exactly if its writes were served, its outcome depends on its own calls only, and its configurations are old or wanted |
| ProxierSync.Proxier.CleanLegacyService | haproxy/proxier.go:194-207 | asks for the deletion of exactly the inactive listed services, and exactly the deletions that are not refused show |
| ProxierSync.Proxier.Cleanup | haproxy/proxier.go:466-477 | for every fault plan the deletions asked for are exactly those of the frontends with inactive keys and of their backends, if both list reads are served, and none otherwise |
| ProxierSync.Proxier.SyncRules | haproxy/proxier.go:381-477 | for every fault plan RunOutcome and RunShows hold and the active keys are exactly those without a failed write; if all calls are served the store shows the service ports field by field and the active keys are their paths; from a quiet store nothing is written |
| ProxierSync.Proxier.SyncProxyRules | haproxy/proxier.go:340-478 | nothing happens before initialisation; then both maps are patched, in slice mode from a checkout of the cache, and, if HAProxy answers, the run has RunOutcome and RunShows for them, for every fault plan |
| ProxierSync.Proxier.OnServiceUpdate | haproxy/proxier.go:510-514 | once initialised, a sync is requested whenever something is pending after the event |
| ProxierSync.Proxier.OnEndpointsUpdate | haproxy/proxier.go:543-547 | the same for Endpoints objects |
| ProxierSync.Proxier.OnEndpointSliceUpdate | haproxy/proxier.go:569-589 | once initialised, a sync is requested whenever the normal form is a change |
| ProxierSync.Proxier.MarkSynced | haproxy/proxier.go:525-601 | the flag assignments are those of the protocol |
| SyncSteps.FailingRoundIsSafe | haproxy/proxier.go:267-338 | adds and deletes that fail in any pattern still make a safe round |
| SyncOutcome.OthersCalls | haproxy/proxier.go:388-464 | calls for other service ports neither make a port fail nor count against it |
| SyncOutcome.ProgressStep | haproxy/proxier.go:388-464 | one pass settles the outcome of its own port and leaves those of all others, for every fault plan and any order |
| SyncOutcome.DeadIsInactive | haproxy/proxier.go:194-207 | cleanup never hits the frontend or backend of an active key |
| SyncOutcome.CleanupIsExact | haproxy/proxier.go:466-477 | what cleanup deletes through the decoded service list is exactly the frontends with inactive keys and their backends |
| SyncOutcome.KeyFinishes | haproxy/proxier.go:388-477 | for every wanted port and every fault plan: its entries are there exactly if they were or were made and no deletion had effect, deletions are asked for exactly if an own write failed, the list was read and its frontend was found, configurations are old or wanted, and with own calls served it ends as in a run without failures |
| SyncOutcome.FrontendFinishes | haproxy/proxier.go:466-477 | an unwanted frontend goes exactly if its deletion had effect, and is asked for exactly if it is there, is not stats, the list was read and some backend is there |
| SyncOutcome.BackendFinishes | haproxy/proxier.go:466-477 | an unwanted backend is asked for exactly if the list was read and a frontend leads to it |
| SyncOutcome.RunFinishes | haproxy/proxier.go:381-477 | all of this together, for every fault plan |
| SyncOutcome.SettledServiceLost | haproxy/proxier.go:209-221 | two refused calls are enough to lose a settled service in place |
| SyncOutcome.HalfMade | haproxy/proxier.go:229-247 | a fresh port whose frontend write is refused, all else served, leaves its backend and no frontend |
| Witnesses.LoseService | haproxy/proxier.go:381-477 | a concrete service, put in place by one run and gone after the next, whose first two calls are refused |
| Witnesses.LeaveBackend | haproxy/proxier.go:466-477 | a concrete service on a fresh HAProxy, with one refused call, leaves a backend that is an orphan once the service is deleted and through every later run that does not want its key |
| Witnesses.ClashShown | haproxy/proxier.go:267-338 | a concrete service and endpoint whose health check is switched on takes two runs instead of one |
| Witnesses.ProtocolChangeShown | haproxy/proxier.go:229-247 | a concrete service that replaces its udp port by a tcp port of the same name and never gets its frontend |
| Convergence.ReconciledExact | haproxy/proxier.go:381-477 | a fault-free run leaves exactly stats and the frontends of the wanted ports, and exactly their backends beside orphans |
| Shown.ReconciledShows | haproxy/proxier.go:381-477 | the store after a run without failures, by fields: bind port and address, frontend mode the protocol in lower case, backend mode http exactly for protocol http with its check and forwardfor, one server per endpoint iff no current one differs under its name; no other frontends, and no other backends but unreached ones |
| Shown.OutcomeShows | haproxy/proxier.go:381-477 | whatever calls fail, each configuration, bind and server of a handled port is the one that was there or the one called for, by fields, and servers for an endpoint stay |
| Shown.SoundRunShows | haproxy/proxier.go:381-477 | after any failures under one configuration a served run leaves exactly the servers of the endpoints and the backend called for, without exception |
| Shown.RoundShows | haproxy/proxier.go:267-338 | one round leaves exactly one server per endpoint, with its address, port, name and check, iff no current server differs from the one with its name |
| Shown.WantedIsHandled | haproxy/proxier.go:388-450 | entries are called for exactly for the service ports that are handled; in mode of, those whose path holds default.kubernetes or kube-system.kube-dns are not |
| Shown.WantShows | haproxy/proxier.go:403-450 | every field of what a handled service port calls for |
| Convergence.OneRunExact | haproxy/proxier.go:381-477 | one run reaches the ideal configuration iff there is no orphan, no udp entry in the way and no clash of servers |
| Convergence.TwoRunsExact | haproxy/proxier.go:381-477 | two runs reach it iff there is no orphan and no udp entry in the way |
| Convergence.SecondRunQuiet | haproxy/proxier.go:209-265 | after one run from any tidy store, a second one with the same wants finds nothing to write in frontends, backends and binds |
| Convergence.EveryRunConverges | haproxy/proxier.go:381-477 | from a fresh HAProxy, after any sequence of runs under one configuration, every further run ends in the ideal configuration iff no udp frontend is in the way |
| Convergence.EveryTwoRunsConverge | haproxy/proxier.go:381-477 | under changing configurations two equal runs do |
| Convergence.EveryRunSpotless | haproxy/proxier.go:381-477 | fault-free runs never leave orphans, udp backends or foreign frontends |
| Convergence.UdpExact | haproxy/proxier.go:229-247 | a udp frontend survives a run exactly if the run wants its key, in whatever mode |
| Convergence.ProtocolChangeSticks | haproxy/proxier.go:229-247 | the frontend of a udp port is in the way of another mode under its key through every later run that wants the key |

## Left out

- HTTP, JSON, URLs, versions and transactions of `haproxy/haproxy.go`: replaced by the store and the fault plan. Calls
  have the effect their names promise, also where the URL in the source looks wrong (`ReplaceBackend`).
- `EnsureHaproxy`: its answer is the parameter `healthy`, which the program as written only takes as true.
- `server/`, `config/`, informers, flags, client construction and sysctl: only the event contract is kept, that the
  previous object of an event is the last one seen under that name.
- Real time: trigger times are opaque values, the bounded-frequency runner is a request bit cleared just before a run,
  and the periodic flush of the termination list is a method that may be called at any time.
- Event recording, logging and metrics.
- IP and CIDR parsing: addresses are strings with a given IPv6 test, and the address of an endpoint is the one its
  string was joined from.
- Most fields of a service (session affinity, load balancer ranges, external addresses, topology keys) are one opaque
  payload that takes part in comparisons.
- The union of stale UDP addresses with those of newly served services in `syncProxyRules`: computed and never used.
- `Algorithm`, `cidrTuple`, `nodeIPTuple`, `getProxyMode`: one-branch helpers.
- Nil dereferences on slice ports without a port or protocol: the sort order and the rendering require them
  (`EndpointSlices.PortsSortable`).
- Endpoint port numbers are natural numbers and do not wrap; health check ports are cut to 16 bits as in the source.
- `sort.Sort` is given by its contract and works on sequence values instead of in place.
- The maps inside a class are immutable map values in mutable fields: iteration while another goroutine writes is not
  modelled inside a method, it is modelled by the state machines.
- ProxierSync.Proxier.SyncProxyRules: describes a run without events in between; runs with events in between are those of
  `ProxierRun`.
- ProxierSync.Proxier.SyncEndpoint: safety and outcome are stated for an empty termination list, which is the only one
  that occurs; for others only the frame is stated.
- Convergence.TwoRunsExact: leaves out the store without any backend and without any wanted port, where a run changes
  nothing (`Convergence.UnlistableStays`); `Recovery.EveryHistoryRecovers` covers it.
- That the proxier eventually runs again is not stated: the protocol has no fairness, only what is pending or about to run.
