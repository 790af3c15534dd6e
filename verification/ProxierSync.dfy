/** The reconciler of haproxy/proxier.go: it drives HAProxy, whose calls may fail, towards what the maps call for. */
module ProxierSync {
  import opened Api
  import opened Names
  import opened Haproxy
  import opened GracefulTermination
  import opened Reconciliation
  import opened Convergence
  import opened SyncSteps
  import opened SyncOutcome
  import opened Endpoints
  import opened PortMaps
  import opened ChangeTracking
  import opened EndpointTracker
  import opened Shown
  import opened SliceCache
  import EndpointSlices
  import Protocol
  import Services

  class Proxier {
    const config: Config
    const handle: HaproxyHandle
    const graceful: GracefulTerminationManager
    const serviceChanges: Services.ServiceChangeTracker
    const endpointsChanges: EndpointChangeTracker
    const serviceMap: Services.ServiceMap
    const endpointsMap: EndpointsMap
    var servicesSynced: bool
    var endpointsSynced: bool
    var endpointSlicesSynced: bool
    var initialized: bool
    var syncRequested: bool

    constructor (config: Config, node: Node, endpointSlicesEnabled: bool, handle: HaproxyHandle)
      ensures this.config == config && this.handle == handle && Valid() && fresh(graceful)
      ensures fresh(serviceMap) && serviceMap.entries == map[] && fresh(endpointsMap) && endpointsMap.entries == map[]
      ensures fresh(serviceChanges) && fresh(endpointsChanges) && TrackersKeyed()
      ensures serviceChanges.node == node.AnyFamily() && endpointsChanges.node == node
      ensures endpointsChanges.endpointSliceCache != null <==> endpointSlicesEnabled
      ensures !initialized && !syncRequested && !servicesSynced && !endpointsSynced && !endpointSlicesSynced
    {
      this.config, this.handle := config, handle;
      graceful := new GracefulTerminationManager(handle);
      serviceChanges := new Services.ServiceChangeTracker(node.AnyFamily());
      endpointsChanges := new EndpointChangeTracker(node, endpointSlicesEnabled);
      serviceMap := new Services.ServiceMap(map[]);
      endpointsMap := new EndpointsMap();
      servicesSynced, endpointsSynced, endpointSlicesSynced, initialized, syncRequested :=
        false, false, false, false, false;
    }

    /** The termination list is empty. */
    ghost predicate Valid()
      reads graceful
    {
      graceful.handle == handle && graceful.list == {}
    }

    ghost predicate TrackersKeyed()
      reads serviceChanges, endpointsChanges
    {
      && Services.ItemsKeyed(serviceChanges.items)
      && (endpointsChanges.endpointSliceCache == null ==> Endpoints.ItemsKeyed(endpointsChanges.items))
    }

    // ---------- handlers ----------

    function Flags(c: Protocol.Control): Protocol.Control
      reads this
    {
      c.(servicesSynced := servicesSynced, endpointsSynced := endpointsSynced,
         endpointSlicesSynced := endpointSlicesSynced,
         initialized := initialized)
    }

    /** The locked section of the synced callbacks: it sets the flags as the step of the protocol does. */
    method MarkSynced(callback: Protocol.Callback)
      modifies this`servicesSynced, this`endpointsSynced, this`endpointSlicesSynced, this`initialized
      ensures forall c :: Flags(Protocol.Flagged(old(Flags(c)), callback)) == Protocol.Flagged(old(Flags(c)), callback)
    {
      match callback
      case OnServiceSynced =>
        servicesSynced := true;
        initialized := endpointsSynced;
      case OnEndpointsSynced =>
        endpointsSynced := true;
        initialized := servicesSynced;
      case OnEndpointSlicesSynced =>
        endpointSlicesSynced := true;
        initialized := servicesSynced;
    }

    /** Once initialised, whatever is pending after the event has a sync requested. */
    method OnServiceUpdate(oldService: Option<Services.Service>, service: Option<Services.Service>)
      requires TrackersKeyed()
      requires oldService.Some? && service.Some? ==> oldService.value.name == service.value.name
      modifies serviceChanges, this`syncRequested
      ensures TrackersKeyed()
      ensures oldService.Some? || service.Some? ==>
        && serviceChanges.items
             == Track(old(serviceChanges.items), (if service.Some? then service else oldService).value.name,
                      Services.ServiceToMap(serviceChanges.node, oldService),
                      Services.ServiceToMap(serviceChanges.node, service))
        && syncRequested == (old(syncRequested) || (initialized && serviceChanges.items != map[]))
    {
      var changed := serviceChanges.Update(oldService, service);
      Services.RenderedServiceKeyed(serviceChanges.node, oldService);
      Services.RenderedServiceKeyed(serviceChanges.node, service);
      if changed && initialized {
        syncRequested := true;
      }
    }

    method OnEndpointsUpdate(oldEndpoints: Option<EndpointsObject>, endpoints: Option<EndpointsObject>)
      requires TrackersKeyed()
      requires oldEndpoints.Some? && endpoints.Some? ==> oldEndpoints.value.name == endpoints.value.name
      modifies endpointsChanges, this`syncRequested
      ensures TrackersKeyed()
      ensures oldEndpoints.Some? || endpoints.Some? ==>
        && endpointsChanges.items
             == Track(old(endpointsChanges.items), (if endpoints.Some? then endpoints else oldEndpoints).value.name,
                      EndpointsToMap(endpointsChanges.node, oldEndpoints),
                      EndpointsToMap(endpointsChanges.node, endpoints))
        && syncRequested == (old(syncRequested) || (initialized && endpointsChanges.items != map[]))
    {
      ghost var items := endpointsChanges.items;
      var changed := endpointsChanges.Update(oldEndpoints, endpoints);
      RenderedMapKeyed(endpointsChanges.node, oldEndpoints);
      RenderedMapKeyed(endpointsChanges.node, endpoints);
      if endpointsChanges.endpointSliceCache == null && (oldEndpoints.Some? || endpoints.Some?) {
        TrackKeyed(items, (if endpoints.Some? then endpoints else oldEndpoints).value.name,
                   EndpointsToMap(endpointsChanges.node, oldEndpoints),
                   EndpointsToMap(endpointsChanges.node, endpoints));
      }
      if changed && initialized {
        syncRequested := true;
      }
    }

    method OnEndpointSliceUpdate(slice: EndpointSlices.Slice, remove: bool)
      returns (ghost info: EndpointSlices.SliceInfo)
      requires endpointsChanges.endpointSliceCache != null
      requires SliceTarget(slice).Some? ==> EndpointSlices.PortsSortable(slice)
      modifies endpointsChanges, endpointsChanges.endpointSliceCache, this`syncRequested
      ensures endpointsChanges.items == old(endpointsChanges.items)
      ensures SliceTarget(slice).None? ==>
        && syncRequested == old(syncRequested)
        && endpointsChanges.endpointSliceCache.trackers == old(endpointsChanges.endpointSliceCache.trackers)
      ensures SliceTarget(slice).Some? ==>
        var nn := SliceTarget(slice).value;
        var t := TrackerAt(old(endpointsChanges.endpointSliceCache.trackers), nn);
        && EndpointSlices.IsNormal(slice, remove, info)
        && endpointsChanges.endpointSliceCache.trackers
             == old(endpointsChanges.endpointSliceCache.trackers)[nn := EndpointSlices.Pend(t, slice.name, info)]
        && syncRequested == (old(syncRequested) || (initialized && EndpointSlices.InfoChanged(t, slice.name, info)))
    {
      var changed;
      changed, info := endpointsChanges.EndpointSliceUpdate(slice, remove);
      if changed && initialized {
        syncRequested := true;
      }
    }

    // ---------- syncProxyRules ----------

    /** A whole run while no event comes in: healthy is the outcome of EnsureHaproxy, services what the patched service
        map will be. */
    method SyncProxyRules(healthy: bool, ghost services: PortMap<Services.ServiceInfo>)
      returns (ghost flight: EndpointItems)
      requires Valid() && TrackersKeyed() && Tidy(handle.store)
      requires PatchedBy(serviceMap.entries, serviceChanges.items, services) && KubernetesNames(services.Keys)
      modifies serviceMap, serviceChanges, endpointsMap, endpointsChanges, endpointsChanges.endpointSliceCache
      modifies handle, graceful
      ensures Valid() && TrackersKeyed() && Tidy(handle.store)
      ensures !initialized ==>
        && handle.store == old(handle.store) && handle.log == old(handle.log)
        && serviceMap.entries == old(serviceMap.entries) && endpointsMap.entries == old(endpointsMap.entries)
        && serviceChanges.items == old(serviceChanges.items) && endpointsChanges.items == old(endpointsChanges.items)
        && (endpointsChanges.endpointSliceCache != null ==>
              endpointsChanges.endpointSliceCache.trackers == old(endpointsChanges.endpointSliceCache.trackers))
      ensures initialized ==> serviceMap.entries == services && serviceChanges.items == map[]
      ensures initialized && endpointsChanges.endpointSliceCache == null ==>
        flight == old(endpointsChanges.items) && endpointsChanges.items == map[]
      ensures initialized && endpointsChanges.endpointSliceCache != null ==>
        var cache := endpointsChanges.endpointSliceCache;
        && cache.trackers == CheckedOut(old(endpointsChanges.endpointSliceCache.trackers))
        && IsCheckout(cache.node, old(endpointsChanges.endpointSliceCache.trackers), flight)
      ensures initialized ==> PatchedBy(old(endpointsMap.entries), flight, endpointsMap.entries)
      ensures initialized && !healthy ==> handle.store == old(handle.store)
      ensures initialized && healthy ==> old(handle.log) <= handle.log
      ensures initialized && healthy ==>
        RunOutcome(handle.plan, |old(handle.log)|, handle.log, old(handle.store), handle.store,
                   WantsOf(config, serviceMap.entries, endpointsMap.entries))
      ensures initialized && healthy && handle.Served(|old(handle.log)|, |handle.log|) ==>
        handle.store == Reconciled(old(handle.store), WantsOf(config, serviceMap.entries, endpointsMap.entries))
      ensures initialized && healthy ==>
        RunShows(config, serviceMap.entries, endpointsMap.entries, handle.Served(|old(handle.log)|, |handle.log|),
                 old(handle.store), handle.store)
    {
      flight := map[];
      if !initialized {
        return;
      }
      ghost var entries, items := serviceMap.entries, serviceChanges.items;
      var _, _ := Services.UpdateServiceMap(serviceMap, serviceChanges);
      PatchedByDetermines(entries, items, services, serviceMap.entries);
      var _, _, _, _, taken := UpdateEndpointsMap(endpointsMap, endpointsChanges);
      flight := taken;
      if !healthy {
        return;
      }
      var _ := SyncRules(serviceMap.entries, endpointsMap.entries);
    }

    // ---------- syncService ----------

    method SyncBackend(b: Backend) returns (err: bool)
      requires WellNamed(handle.store) && b.name != ""
      modifies handle
      ensures handle.store.frontends == old(handle.store).frontends
      ensures BackendTouched(old(handle.store).backends, handle.store.backends, b)
      ensures b.name in handle.store.backends <==>
        b.name in old(handle.store).backends
        || (|handle.log| == |old(handle.log)| + 2 && !handle.plan(|old(handle.log)| + 1).Refused?)
      ensures !err ==> b.name in handle.store.backends
      ensures handle.log == old(handle.log) + StepCalls(handle.plan, |old(handle.log)|, ReadBackend(b.name),
                                                        WriteBackend(b.name), BackendSettled(old(handle.store), b))
      ensures err <==> |handle.log| == |old(handle.log)| + 2 && !handle.plan(|old(handle.log)| + 1).Served?
      ensures handle.Served(|old(handle.log)|, |handle.log|) ==> handle.store == PutBackend(old(handle.store), b)
      ensures handle.writes == old(handle.writes) + |handle.log| - |old(handle.log)| - 1
    {
      var st := handle.store;
      assert b.name in st.backends ==> BackendNamed(b.name, st.backends[b.name]);
      var backend := handle.GetBackend(b.name);
      if backend.mode != "udp" {
        if backend == NO_BACKEND {
          var ok, failed := handle.AddBackend(b);
          if failed && !ok {
            return true;
          }
        } else if backend != b {
          var _, failed := handle.ReplaceBackend(backend.name, b);
          assert (st.backends - {b.name})[b.name := st.backends[b.name].(conf := b)]
              == st.backends[b.name := st.backends[b.name].(conf := b)];
          if failed {
            return true;
          }
        }
      }
      return false;
    }

    method SyncFrontend(f: Frontend) returns (err: bool)
      requires WellNamed(handle.store) && f.name != ""
      modifies handle
      ensures handle.store.backends == old(handle.store).backends
      ensures FrontendTouched(old(handle.store).frontends, handle.store.frontends, f)
      ensures f.name in handle.store.frontends <==>
        f.name in old(handle.store).frontends
        || (|handle.log| == |old(handle.log)| + 2 && !handle.plan(|old(handle.log)| + 1).Refused?)
      ensures !err ==> f.name in handle.store.frontends
      ensures handle.log == old(handle.log) + StepCalls(handle.plan, |old(handle.log)|, ReadFrontend(f.name),
                                                        WriteFrontend(f.name), FrontendSettled(old(handle.store), f))
      ensures err <==> |handle.log| == |old(handle.log)| + 2 && !handle.plan(|old(handle.log)| + 1).Served?
      ensures handle.Served(|old(handle.log)|, |handle.log|) ==> handle.store == PutFrontend(old(handle.store), f)
      ensures handle.writes == old(handle.writes) + |handle.log| - |old(handle.log)| - 1
    {
      var st := handle.store;
      assert f.name in st.frontends ==> FrontendNamed(f.name, st.frontends[f.name]);
      var frontend := handle.GetFrontend(f.name);
      if frontend.mode != "udp" {
        if frontend == NO_FRONTEND {
          var ok, failed := handle.AddFrontend(f);
          if failed && !ok {
            return true;
          }
        } else if frontend != f {
          var _, failed := handle.ReplaceFrontend(frontend, f);
          assert (st.frontends - {f.name})[f.name := st.frontends[f.name].(conf := f)]
              == st.frontends[f.name := st.frontends[f.name].(conf := f)];
          if failed {
            return true;
          }
        }
      }
      return false;
    }

    method SyncBind(bind: Bind, frontend: string) returns (err: bool)
      requires WellNamed(handle.store) && bind.name != ""
      modifies handle
      ensures BindTouched(old(handle.store), handle.store, frontend, bind)
      ensures !err ==> bind.name in BindsOf(handle.store, frontend)
      ensures handle.log == old(handle.log) + StepCalls(handle.plan, |old(handle.log)|, ReadBind(bind.name),
                                                        WriteBind(bind.name),
                                                        BindSettled(old(handle.store), frontend, bind))
      ensures frontend in old(handle.store).frontends ==>
        (err <==> |handle.log| == |old(handle.log)| + 2 && !handle.plan(|old(handle.log)| + 1).Served?)
      ensures handle.Served(|old(handle.log)|, |handle.log|) && frontend in old(handle.store).frontends ==>
        handle.store == PutBind(old(handle.store), frontend, bind)
      ensures handle.writes == old(handle.writes) + |handle.log| - |old(handle.log)| - 1
    {
      var st := handle.store;
      assert frontend in st.frontends ==> FrontendNamed(frontend, st.frontends[frontend]);
      var current := handle.GetBind(bind.name, frontend);
      if current == NO_BIND {
        var ok, failed := handle.AddBind(bind, frontend);
        if failed && !ok {
          return true;
        }
      } else if bind != current {
        var _, failed := handle.ReplaceBind(current.name, frontend, bind);
        if failed {
          return true;
        }
      } else {
        assert st.frontends[frontend].binds[bind.name := bind] == st.frontends[frontend].binds;
      }
      return false;
    }

    method SyncBackendOf(info: HaproxyInfo) returns (err: bool)
      requires WellNamed(handle.store) && InfoNamed(info)
      modifies handle
      ensures WellNamed(handle.store) && OnlyConfigured(old(handle.store), handle.store, info)
      ensures handle.store.frontends == old(handle.store).frontends
      ensures BackendTouched(old(handle.store).backends, handle.store.backends, info.backend)
      ensures handle.log == old(handle.log) + BackendCalls(handle.plan, |old(handle.log)|, old(handle.store), info)
      ensures OwnCalls(old(handle.log), handle.log, info)
      ensures WriteFrontend(info.frontend.name) !in Effective(handle.plan, handle.log, |old(handle.log)|)
      ensures EntriesShow(handle.plan, handle.log, |old(handle.log)|, old(handle.store), handle.store, info)
      ensures StopsAtFailure(handle.plan, handle.log, |old(handle.log)|, info)
      ensures err <==> WriteFailed(handle.plan, handle.log, |old(handle.log)|, info)
      ensures err ==> StartsSync(handle.plan, handle.log, |old(handle.log)|, old(handle.store), info)
      ensures err ==> !handle.Served(|old(handle.log)|, |handle.log|)
      ensures !err ==> info.backend.name in handle.store.backends
      ensures handle.Served(|old(handle.log)|, |handle.log|) ==>
        handle.store == PutBackend(old(handle.store), info.backend)
      ensures handle.Served(|old(handle.log)|, |handle.log|) && BackendSettled(old(handle.store), info.backend) ==>
        handle.writes == old(handle.writes)
    {
      ghost var st, log := handle.store, handle.log;
      err := SyncBackend(info.backend);
      BackendStep(handle.plan, log, handle.log, st, handle.store, info);
    }

    /** The backend and the frontend. */
    method SyncEntries(info: HaproxyInfo) returns (err: bool)
      requires WellNamed(handle.store) && InfoNamed(info)
      modifies handle
      ensures WellNamed(handle.store) && OnlyConfigured(old(handle.store), handle.store, info)
      ensures BindsOf(handle.store, info.frontend.name) == BindsOf(old(handle.store), info.frontend.name)
      ensures OwnCalls(old(handle.log), handle.log, info)
      ensures StartsSync(handle.plan, handle.log, |old(handle.log)|, old(handle.store), info)
      ensures EntriesShow(handle.plan, handle.log, |old(handle.log)|, old(handle.store), handle.store, info)
      ensures StopsAtFailure(handle.plan, handle.log, |old(handle.log)|, info)
      ensures err <==> WriteFailed(handle.plan, handle.log, |old(handle.log)|, info)
      ensures !err ==> info.backend.name in handle.store.backends && info.frontend.name in handle.store.frontends
      ensures handle.Served(|old(handle.log)|, |handle.log|) ==>
        handle.store == PutFrontend(PutBackend(old(handle.store), info.backend), info.frontend)
      ensures handle.Served(|old(handle.log)|, |handle.log|) ==>
        BackendSettled(old(handle.store), info.backend) && FrontendSettled(old(handle.store), info.frontend) ==>
          handle.writes == old(handle.writes)
    {
      ghost var st, log := handle.store, handle.log;
      err := SyncBackendOf(info);
      ghost var st1, log1 := handle.store, handle.log;
      if err {
        return;
      }
      err := SyncFrontend(info.frontend);
      FrontendStep(handle.plan, log, log1, handle.log, st, st1, handle.store, info);
    }

    /** An error is reported exactly if one of the writes was not served; a failed read only causes a write. */
    method SyncService(info: HaproxyInfo) returns (err: bool)
      requires WellNamed(handle.store) && InfoNamed(info)
      modifies handle
      ensures OnlyConfigured(old(handle.store), handle.store, info)
      ensures OwnCalls(old(handle.log), handle.log, info)
      ensures StartsSync(handle.plan, handle.log, |old(handle.log)|, old(handle.store), info)
      ensures EntriesShow(handle.plan, handle.log, |old(handle.log)|, old(handle.store), handle.store, info)
      ensures StopsAtFailure(handle.plan, handle.log, |old(handle.log)|, info)
      ensures err <==> WriteFailed(handle.plan, handle.log, |old(handle.log)|, info)
      ensures !err ==>
        info.backend.name in handle.store.backends && info.bind.name in BindsOf(handle.store, info.frontend.name)
      ensures handle.Served(|old(handle.log)|, |handle.log|) ==> handle.store == Configured(old(handle.store), info)
      ensures handle.Served(|old(handle.log)|, |handle.log|) && Settled(old(handle.store), info) ==>
        handle.writes == old(handle.writes)
    {
      ghost var st, log := handle.store, handle.log;
      if Settled(st, info) {
        SettledStays(st, info);
      }
      err := SyncEntries(info);
      ghost var st1, log1 := handle.store, handle.log;
      if err {
        FailureShows(handle.plan, log, log1, info);
        return;
      }
      err := SyncBind(info.bind, info.frontend.name);
      BindStep(handle.plan, log, log1, handle.log, st, st1, handle.store, info);
    }

    // ---------- syncEndpoint ----------

    /** What happens to one wanted server. */
    method AddServer(item: Server, current: set<Server>, backendName: string)
      requires graceful.handle == handle
      modifies handle, graceful
      ensures graceful.list <= old(graceful.list) && handle.writes == old(handle.writes)
      ensures OnlyServers(old(handle.store), handle.store, backendName)
      ensures OnlyServerCalls(old(handle.log), handle.log, backendName)
      ensures handle.store in {old(handle.store), AddedServer(old(handle.store), backendName, item),
                               Without(old(handle.store), backendName, item.name)}
      ensures old(graceful.list) == {} ==>
        if item in current then handle.store == old(handle.store)
        else handle.store in {old(handle.store), AddedServer(old(handle.store), backendName, item)}
      ensures old(graceful.list) == {} && handle.Served(|old(handle.log)|, |handle.log|) && item !in current ==>
        handle.store == AddedServer(old(handle.store), backendName, item)
    {
      if item in current {
        if graceful.InTerminationList(item, backendName) {
          var _ := graceful.MoveRSOutofGracefulDeleteList(item, backendName);
        }
      } else {
        var _, _ := handle.AddServerToBackend(item, backendName);
      }
    }

    method AddNewServers(current: set<Server>, items: set<Server>, backendName: string, ghost wanted: Servers)
      requires graceful.handle == handle
      requires ServersNamed(wanted) && items == wanted.Values
      requires ServersNamed(ServersOf(handle.store, backendName))
      requires current <= ServersOf(handle.store, backendName).Values
      modifies handle, graceful
      ensures graceful.list <= old(graceful.list) && handle.writes == old(handle.writes)
      ensures OnlyServers(old(handle.store), handle.store, backendName)
      ensures ServersNamed(ServersOf(handle.store, backendName))
      ensures OnlyServerCalls(old(handle.log), handle.log, backendName)
      ensures old(graceful.list) == {} ==>
        && SubMap(ServersOf(old(handle.store), backendName), ServersOf(handle.store, backendName))
        && SubMap(ServersOf(handle.store, backendName), wanted + ServersOf(old(handle.store), backendName))
      ensures old(graceful.list) == {} && handle.Served(|old(handle.log)|, |handle.log|) ==>
        handle.store == WithServers(old(handle.store), backendName, wanted + ServersOf(old(handle.store), backendName))
    {
      ghost var st, log, now := handle.store, handle.log, ServersOf(handle.store, backendName);
      ghost var calm := graceful.list == {};
      GrowingEnds(now, wanted);
      var todo := items;
      while todo != {}
        invariant todo <= items
        invariant graceful.list <= old(graceful.list) && handle.writes == old(handle.writes)
        invariant OnlyServers(st, handle.store, backendName) && OnlyServerCalls(log, handle.log, backendName)
        invariant ServersNamed(ServersOf(handle.store, backendName))
        invariant calm ==> SubMap(now, ServersOf(handle.store, backendName))
        invariant calm ==> SubMap(ServersOf(handle.store, backendName), wanted + now)
        invariant calm && handle.Served(|log|, |handle.log|) ==>
          handle.store == WithServers(st, backendName, Growing(now, wanted, todo))
      {
        var item :| item in todo;
        ghost var before := ServersOf(handle.store, backendName);
        AddServer(item, current, backendName);
        GrowingStep(now, wanted, todo, item);
        if calm && item.name !in before {
          AddedGrows(now, wanted, before, item);
        }
        todo := todo - {item};
      }
    }

    method DeleteOldServers(items: set<Server>, backendName: string)
      requires graceful.handle == handle
      requires ServersNamed(ServersOf(handle.store, backendName))
      modifies handle, graceful
      ensures graceful.list == old(graceful.list) && handle.writes == old(handle.writes)
      ensures OnlyServers(old(handle.store), handle.store, backendName)
      ensures OnlyServerCalls(old(handle.log), handle.log, backendName)
      ensures SubMap(ServersOf(handle.store, backendName), ServersOf(old(handle.store), backendName))
      ensures ServersOf(old(handle.store), backendName).Keys - ServersOf(handle.store, backendName).Keys
           <= NamesOf(items)
      ensures old(graceful.list) == {} && handle.Served(|old(handle.log)|, |handle.log|) ==>
        handle.store == WithServers(old(handle.store), backendName,
                                    ServersOf(old(handle.store), backendName) - NamesOf(items))
    {
      ghost var st, log, now := handle.store, handle.log, ServersOf(handle.store, backendName);
      var todo := items;
      ghost var names: set<string> := {};
      DropNone(st, backendName);
      while todo != {}
        invariant todo <= items
        invariant graceful.list == old(graceful.list) && handle.writes == old(handle.writes)
        invariant OnlyServers(st, handle.store, backendName) && OnlyServerCalls(log, handle.log, backendName)
        invariant SubMap(ServersOf(handle.store, backendName), now)
        invariant now.Keys - ServersOf(handle.store, backendName).Keys <= names
        invariant names == NamesOf(items - todo)
        invariant graceful.list == {} && handle.Served(|log|, |handle.log|) ==>
          handle.store == WithServers(st, backendName, now - names)
      {
        var server :| server in todo;
        assert NamesOf(items - (todo - {server})) == NamesOf(items - todo) + {server.name} by {
          assert items - (todo - {server}) == (items - todo) + {server};
        }
        DropOneMore(st, backendName, names, server.name);
        names := names + {server.name};
        if !graceful.InTerminationList(server, backendName) {
          graceful.GracefulDeleteSrv(server, backendName);
        }
        todo := todo - {server};
      }
      assert items - todo == items;
    }

    /** The two loops: new servers first, then the old ones. */
    method SyncServers(current: set<Server>, items: set<Server>, backendName: string, ghost wanted: Servers)
      requires graceful.handle == handle
      requires ServersNamed(wanted) && items == wanted.Values
      requires ServersNamed(ServersOf(handle.store, backendName))
      requires current <= ServersOf(handle.store, backendName).Values
      modifies handle, graceful
      ensures graceful.list <= old(graceful.list) && handle.writes == old(handle.writes)
      ensures OnlyServers(old(handle.store), handle.store, backendName)
      ensures OnlyServerCalls(old(handle.log), handle.log, backendName)
      ensures old(graceful.list) == {} ==>
        SafeRound(ServersOf(old(handle.store), backendName), wanted, ServersOf(handle.store, backendName))
      ensures old(graceful.list) == {} && current == {} ==>
        SubMap(ServersOf(old(handle.store), backendName), ServersOf(handle.store, backendName))
      ensures old(graceful.list) == {} && handle.Served(|old(handle.log)|, |handle.log|) ==>
        current == ServersOf(old(handle.store), backendName).Values ==>
          handle.store == WithServers(old(handle.store), backendName,
                                      Round(ServersOf(old(handle.store), backendName), wanted))
    {
      ghost var st := handle.store;
      AddNewServers(current, items, backendName, wanted);
      ghost var grown := handle.store;
      DeleteOldServers(current - items, backendName);
      if old(graceful.list) == {} {
        FailingRoundIsSafe(st, grown, handle.store, backendName, current, wanted);
      }
      RoundIsExact(st, backendName, wanted);
    }

    method SyncEndpoint(eps: seq<Endpoint>, backendName: string)
      requires graceful.handle == handle
      requires ServersNamed(ServersOf(handle.store, backendName))
      modifies handle, graceful
      ensures graceful.list <= old(graceful.list) && handle.writes == old(handle.writes)
      ensures OnlyServers(old(handle.store), handle.store, backendName)
      ensures OnlyServerCalls(old(handle.log), handle.log, backendName)
      ensures old(graceful.list) == {} ==>
        SafeRound(ServersOf(old(handle.store), backendName), WantedServers(config, eps),
                  ServersOf(handle.store, backendName))
      ensures old(graceful.list) == {} ==>
        !handle.plan(|old(handle.log)|).Served? || ServersOf(old(handle.store), backendName) == map[] ==>
          SubMap(ServersOf(old(handle.store), backendName), ServersOf(handle.store, backendName))
      ensures old(graceful.list) == {} && handle.Served(|old(handle.log)|, |handle.log|) ==>
        handle.store == WithServers(old(handle.store), backendName,
                                    Round(ServersOf(old(handle.store), backendName), WantedServers(config, eps)))
      ensures old(graceful.list) == {} ==>
        OldOrShown(config, eps, ServersOf(old(handle.store), backendName), ServersOf(handle.store, backendName))
      ensures old(graceful.list) == {} && handle.Served(|old(handle.log)|, |handle.log|) ==>
        backendName in old(handle.store).backends ==>
          var before, after := ServersOf(old(handle.store), backendName), ServersOf(handle.store, backendName);
          ServersShow(config, eps, after) <==> NoneDiffers(config, eps, before)
    {
      ghost var before, wanted := ServersOf(handle.store, backendName), WantedServers(config, eps);
      ghost var calm := graceful.list == {};
      var current := CurrentServers(backendName);
      var items := NewServers(eps);
      SyncServers(current, items, backendName, wanted);
      RoundShows(config, eps, before);
      if calm {
        SafeRoundShows(config, eps, before, ServersOf(handle.store, backendName));
      }
    }

    /** The current servers, as far as they could be read. */
    method CurrentServers(backendName: string) returns (current: set<Server>)
      modifies handle`log
      ensures handle.log == old(handle.log) + [ReadServers(backendName)]
      ensures current == if handle.plan(|old(handle.log)|).Served? then ServersOf(handle.store, backendName).Values
                         else {}
    {
      current := {};
      var listed := handle.GetServers(backendName);
      for i := 0 to |listed|
        invariant current == set s | s in listed[..i]
      {
        current := current + {listed[i]};
      }
      assert listed[..|listed|] == listed;
    }

    method NewServers(eps: seq<Endpoint>) returns (items: set<Server>)
      ensures items == WantedServers(config, eps).Values
    {
      items := {};
      for i := 0 to |eps|
        invariant items == set e | e in eps[..i] :: ToServer(config, e)
      {
        assert eps[..i + 1] == eps[..i] + [eps[i]];
        items := items + {ToServer(config, eps[i])};
      }
      assert eps[..|eps|] == eps;
    }

    /** One pass of the loop over the service map; ok says whether the service counts as active. */
    method SyncPort(key: string, info: Services.ServiceInfo, eps: seq<Endpoint>, ghost want: Want) returns (ok: bool)
      requires Valid() && Tidy(handle.store)
      requires want == Want(InfoFor(config, key, info), WantedServers(config, eps)) && ProperAt(key, want)
      modifies handle, graceful
      ensures Valid() && Tidy(handle.store)
      ensures OnlyEntries(old(handle.store), handle.store, want.info)
      ensures OwnCalls(old(handle.log), handle.log, want.info)
      ensures StartsSync(handle.plan, handle.log, |old(handle.log)|, old(handle.store), want.info)
      ensures ok <==> !WriteFailed(handle.plan, handle.log, |old(handle.log)|, want.info)
      ensures PortOutcome(handle.plan, handle.log, |old(handle.log)|, old(handle.store), handle.store, want)
      ensures handle.Served(|old(handle.log)|, |handle.log|) ==> handle.store == Driven(old(handle.store), want)
      ensures handle.Served(|old(handle.log)|, |handle.log|) && Settled(old(handle.store), want.info) ==>
        handle.writes == old(handle.writes)
    {
      ghost var st, log, backend := handle.store, handle.log, BackendName(key);
      var obj := InfoFor(config, key, info);
      assert backend[0] == BindName(key)[0] == 'B' && FrontendName(key)[0] == 'F';
      var err := SyncService(obj);
      ghost var st1, log1 := handle.store, handle.log;
      ConfiguredTidy(st, st1, key, obj);
      if err {
        ServiceThenServers(st, st1, st1, want);
        FailedPort(handle.plan, log, log1, st, st1, want);
        return false;
      }
      assert backend in st1.backends ==> BackendNamed(backend, st1.backends[backend]);
      SyncEndpoint(eps, obj.backend.name);
      ServerCallsAreOwn(handle.plan, log1, handle.log, obj);
      CallsCombine(handle.plan, log, log1, handle.log, obj);
      StopsLater(handle.plan, log, log1, handle.log, obj);
      StartStays(handle.plan, log1, handle.log, |log|, st, obj);
      ServiceThenServers(st, st1, handle.store, want);
      EntriesStay(handle.plan, log, log1, handle.log, st, st1, handle.store, obj);
      SafeNamed(ServersOf(st1, backend), want.servers, ServersOf(handle.store, backend));
      ServersTidy(st1, handle.store, backend);
      DrivenIsExact(st, want);
      OwnWindow(handle.plan, log, handle.log, obj);
      return true;
    }

    // ---------- cleanup ----------

    /** Deletes a service. DeleteFrontend and DeleteBackend return true on success, which the source logs as a
        failure. */
    method DeleteService(svc: Service, ghost st: Store, ghost lo: nat, ghost fs: set<string>, ghost bs: set<string>)
      requires lo <= |handle.log| && Made(handle.log, lo) == Drops(fs, bs)
      requires handle.store == Undropped(st, Effective(handle.plan, handle.log, lo))
      modifies handle
      ensures old(handle.log) <= handle.log
      ensures Made(handle.log, lo) == Drops(fs + {svc.frontend.name}, bs + {svc.backend.name})
      ensures handle.store == Undropped(st, Effective(handle.plan, handle.log, lo))
    {
      ghost var log, before, f, b := handle.log, handle.store, svc.frontend.name, svc.backend.name;
      var _ := handle.DeleteFrontend(svc.frontend.name);
      var _ := handle.DeleteBackend(svc.backend.name);
      assert handle.log == log + [DropFrontend(f), DropBackend(b)];
      DropService(handle.plan, log, handle.log, f, b, lo);
      DropTwo(handle.plan, |log|, f, b, before, handle.store);
      DropMore(st, Effective(handle.plan, log, lo),
               Unless(handle.plan, |log|, DropFrontend(f)) + Unless(handle.plan, |log| + 1, DropBackend(b)));
      DropsStep(fs, bs, f, b);
    }

    /** Asks for the deletion of every listed service that is not active, and of nothing else. */
    method CleanLegacyService(active: set<string>, current: map<string, Service>)
      modifies handle
      ensures old(handle.log) <= handle.log
      ensures Made(handle.log, |old(handle.log)|)
           == Drops(DeadFrontends(active, current), DeadBackends(active, current))
      ensures handle.store == Undropped(old(handle.store), Effective(handle.plan, handle.log, |old(handle.log)|))
      ensures current.Keys <= active ==> handle.writes == old(handle.writes)
    {
      ghost var st, lo := handle.store, |handle.log|;
      ghost var fs: set<string>, bs: set<string> := {}, {};
      DropNothing(st, {});
      var todo := current.Keys;
      while todo != {}
        invariant todo <= current.Keys
        invariant fs == DeadFrontends(active, current - todo) && bs == DeadBackends(active, current - todo)
        invariant old(handle.log) <= handle.log && Made(handle.log, lo) == Drops(fs, bs)
        invariant handle.store == Undropped(st, Effective(handle.plan, handle.log, lo))
        invariant current.Keys <= active ==> handle.writes == old(handle.writes)
      {
        var cs :| cs in todo;
        DeadStep(active, current, todo, cs);
        if cs !in active {
          DeleteService(current[cs], st, lo, fs, bs);
          fs, bs := fs + {current[cs].frontend.name}, bs + {current[cs].backend.name};
        }
        todo := todo - {cs};
      }
      assert current - todo == current;
    }

    /** The listed services by name. */
    method CurrentServices() returns (current: map<string, Service>)
      modifies handle`log
      ensures handle.log == old(handle.log) + [ListBackends, ListFrontends]
      ensures FromList(handle.store, current)
      ensures handle.Served(|old(handle.log)|, |handle.log|) ==> AllListed(handle.store, current)
      ensures !handle.Served(|old(handle.log)|, |handle.log|) ==> current == map[]
    {
      var services := handle.GetServices();
      current := map[];
      for i := 0 to |services|
        invariant FromList(handle.store, current)
        invariant forall j | 0 <= j < i :: services[j].name in current
        invariant services == [] ==> current == map[]
      {
        current := current[services[i].name := services[i]];
      }
    }

    /** Lists the services and deletes those that are not active. */
    method Cleanup(active: set<string>)
      requires Tidy(handle.store)
      modifies handle
      ensures CleanupDone(handle.plan, old(handle.log), handle.log, old(handle.store), handle.store, active)
      ensures Legacy(old(handle.store), active) == {} ==> handle.writes == old(handle.writes)
    {
      ghost var st, log := handle.store, handle.log;
      var current := CurrentServices();
      assert |handle.log| == |log| + 2;
      CleanLegacyService(active, current);
      CleanupCombines(handle.plan, log, handle.log, st, handle.store, active, current);
      if handle.Served(|log|, |log| + 2) {
        QuietCleanup(st, active, current);
      }
    }

    // ---------- the loop over the service map ----------

    method SyncServices(services: PortMap<Services.ServiceInfo>, endpoints: EndpointEntries, ghost w: Wants)
      returns (active: set<string>)
      requires Valid() && Tidy(handle.store) && KubernetesNames(services.Keys) && Proper(w)
      requires w.Keys == KeysFor(config, services.Keys)
      requires AllCalled(config, services, endpoints, w)
      modifies handle, graceful
      ensures Valid() && old(handle.log) <= handle.log
      ensures Reached(handle.plan, |old(handle.log)|, handle.log, old(handle.store), handle.store, active, {}, w)
      ensures Unwritten(handle.plan, |old(handle.log)|, handle.log, old(handle.store), w,
                        handle.writes - old(handle.writes))
    {
      ghost var st, lo, left := handle.store, |handle.log|, w.Keys;
      active := {};
      ReachedAtStart(handle.plan, handle.log, st, w);
      var todo := services.Keys;
      while todo != {}
        invariant todo <= services.Keys && left == KeysFor(config, todo)
        invariant Valid() && old(handle.log) <= handle.log
        invariant Reached(handle.plan, lo, handle.log, st, handle.store, active, left, w)
        invariant Unwritten(handle.plan, lo, handle.log, st, w, handle.writes - old(handle.writes))
      {
        var p :| p in todo;
        active, left := SyncOne(p, services, endpoints, active, todo, st, lo, left, w, old(handle.writes));
        todo := todo - {p};
      }
      NoKeysLeft(config);
    }

    method SyncOne(p: ServicePortName, services: PortMap<Services.ServiceInfo>, endpoints: EndpointEntries,
                   active: set<string>, ghost todo: set<ServicePortName>, ghost st: Store, ghost lo: nat,
                   ghost left: set<string>, ghost w: Wants, ghost writes: int)
      returns (active': set<string>, ghost left': set<string>)
      requires Valid() && Reached(handle.plan, lo, handle.log, st, handle.store, active, left, w) && Proper(w)
      requires KubernetesNames(services.Keys) && AllCalled(config, services, endpoints, w)
      requires todo <= services.Keys && p in todo && left == KeysFor(config, todo)
      requires Unwritten(handle.plan, lo, handle.log, st, w, handle.writes - writes)
      modifies handle, graceful
      ensures Valid() && old(handle.log) <= handle.log && left' == KeysFor(config, todo - {p})
      ensures Reached(handle.plan, lo, handle.log, st, handle.store, active', left', w)
      ensures Unwritten(handle.plan, lo, handle.log, st, w, handle.writes - writes)
    {
      var key := EncodedName(p);
      NextPort(config, services, endpoints, w, todo, p);
      active', left' := active, left;
      if !Skipped(config, key) {
        active' := SyncNext(key, services[p], Listed(endpoints, p), active, st, lo, left, w, writes);
        left' := left - {key};
      }
    }

    method SyncNext(key: string, info: Services.ServiceInfo, eps: seq<Endpoint>, active: set<string>,
                    ghost st: Store, ghost lo: nat, ghost left: set<string>, ghost w: Wants, ghost writes: int)
      returns (active': set<string>)
      requires Valid() && Reached(handle.plan, lo, handle.log, st, handle.store, active, left, w) && Proper(w)
      requires key in w && key in left && ProperAt(key, w[key])
      requires w[key] == Want(InfoFor(config, key, info), WantedServers(config, eps))
      requires Unwritten(handle.plan, lo, handle.log, st, w, handle.writes - writes)
      modifies handle, graceful
      ensures Valid() && old(handle.log) <= handle.log
      ensures Reached(handle.plan, lo, handle.log, st, handle.store, active', left - {key}, w)
      ensures Unwritten(handle.plan, lo, handle.log, st, w, handle.writes - writes)
    {
      ghost var before, log := handle.store, handle.log;
      if handle.Served(lo, |log|) && AllSettled(st, w) {
        SettledHere(st, before, active, left, w, key);
      }
      var ok := SyncPort(key, info, eps, w[key]);
      ReachedStep(handle.plan, lo, log, handle.log, st, before, handle.store, active, left, w, key, ok);
      active' := if ok then active + {key} else active;
    }

    /** The part of syncProxyRules that drives HAProxy, for every plan: its outcome, and what the store shows. */
    method SyncRules(services: PortMap<Services.ServiceInfo>, endpoints: EndpointEntries) returns (active: set<string>)
      requires Valid() && Tidy(handle.store) && KubernetesNames(services.Keys)
      modifies handle, graceful
      ensures Valid() && Tidy(handle.store) && old(handle.log) <= handle.log
      ensures RunBegins(handle.plan, |old(handle.log)|, handle.log, old(handle.store),
                        WantsOf(config, services, endpoints))
      ensures RunOutcome(handle.plan, |old(handle.log)|, handle.log, old(handle.store), handle.store,
                         WantsOf(config, services, endpoints))
      ensures active == ActiveKeys(handle.plan, |old(handle.log)|, handle.log, WantsOf(config, services, endpoints))
      ensures RunShows(config, services, endpoints, handle.Served(|old(handle.log)|, |handle.log|), old(handle.store),
                       handle.store)
      ensures handle.Served(|old(handle.log)|, |handle.log|) ==>
        && handle.store == Reconciled(old(handle.store), WantsOf(config, services, endpoints))
        && ActiveShown(config, services, active)
      ensures handle.Served(|old(handle.log)|, |handle.log|) ==>
        Quiet(old(handle.store), WantsOf(config, services, endpoints)) ==> handle.writes == old(handle.writes)
    {
      ghost var st, log := handle.store, handle.log;
      active := SyncAndClean(services, endpoints);
      OutcomeShows(config, services, endpoints, handle.plan, |log|, handle.log, st, handle.store);
      ActiveIsShown(config, services, endpoints);
    }

    /** The loop over the service map, then the cleanup. */
    method SyncAndClean(services: PortMap<Services.ServiceInfo>, endpoints: EndpointEntries)
      returns (active: set<string>)
      requires Valid() && Tidy(handle.store) && KubernetesNames(services.Keys)
      modifies handle, graceful
      ensures Valid() && Tidy(handle.store) && old(handle.log) <= handle.log
      ensures var w := WantsOf(config, services, endpoints);
        && RunBegins(handle.plan, |old(handle.log)|, handle.log, old(handle.store), w)
        && RunOutcome(handle.plan, |old(handle.log)|, handle.log, old(handle.store), handle.store, w)
        && active == ActiveKeys(handle.plan, |old(handle.log)|, handle.log, w)
      ensures handle.Served(|old(handle.log)|, |handle.log|) ==>
        && handle.store == Reconciled(old(handle.store), WantsOf(config, services, endpoints))
        && active == WantsOf(config, services, endpoints).Keys
      ensures handle.Served(|old(handle.log)|, |handle.log|) ==>
        Quiet(old(handle.store), WantsOf(config, services, endpoints)) ==> handle.writes == old(handle.writes)
    {
      ghost var st, lo, w := handle.store, |handle.log|, WantsOf(config, services, endpoints);
      WantsCall(config, services, endpoints);
      active := SyncServices(services, endpoints, w);
      ghost var merged, log := handle.store, handle.log;
      Cleanup(active);
      RunFinishes(handle.plan, lo, log, handle.log, st, merged, handle.store, active, w);
      BegunStays(handle.plan, lo, log, handle.log, st, w);
      UndroppedTidy(merged, Effective(handle.plan, handle.log, |log|));
      if handle.Served(lo, |handle.log|) {
        ServedRun(handle.plan, lo, log, handle.log, st, merged, handle.store, active, w);
      }
    }
  }
}
