/** From the API objects to the fields of HAProxy's entries. */
module RestShown {
  import opened Api
  import opened Names
  import opened Haproxy
  import opened Reconciliation
  import opened Recovery
  import opened EndpointSide
  import opened ProxierRun
  import opened ProxierRest
  import opened ObjectsShown
  import opened Shown
  import opened EndToEnd
  import opened PortMaps
  import opened Services
  import V = ServicesRun

  /** The maps of a reconciliation are those of API objects, and HAProxy shows the maps. */
  ghost predicate ShowsObjects(node: Node, cfg: Config, objects: V.Objects, side: Side, i: int, d: Drive, before: Store,
                               after: Store) {
    && ServicesShown(objects, d.services) && EndpointsShown(node, side, i, d.endpoints)
    && SoundStoreShows(cfg, d.services, d.endpoints, before, after)
  }

  /** The last reconciliation had maps of the latest objects, and if its calls were served, HAProxy shows them. */
  ghost predicate LatestShown(node: Node, cfg: Config, s: Proxier, stores: seq<Store>) {
    && s.drives != [] && s.services.history != [] && |stores| == |s.drives| + 1
    && (WasServed(cfg, stores, s.drives, |s.drives| - 1) ==>
          ShowsObjects(node, cfg, V.Latest(s.services), s.side, Events(s.side) - 1, LastDrive(s),
                       stores[|s.drives| - 1], stores[|s.drives|]))
  }

  lemma LatestServicesShown(node: Node, v: V.State, services: PortMap<ServiceInfo>)
    requires V.Inv(node, v) && services == V.FullMap(node, V.Latest(v))
    ensures ServicesShown(V.Latest(v), services)
  {
    ServicesAreShown(node, V.Latest(v));
  }

  lemma MapsShow(node: Node, s: Proxier)
    requires RestsOn(node, s) && SidesInv(node, s)
    ensures ServicesShown(V.Latest(s.services), LastDrive(s).services)
    ensures EndpointsShown(node, s.side, Events(s.side) - 1, LastDrive(s).endpoints)
  {
    LatestServicesShown(node, s.services, LastDrive(s).services);
    EndpointsAreShown(node, s.side, Events(s.side) - 1, LastDrive(s).endpoints);
  }

  /** What a proxier at rest has reached, with the stores of its reconciliations. */
  ghost predicate AtRest(node: Node, cfg: Config, s: Proxier, stores: seq<Store>) {
    && RestsOn(node, s) && SidesInv(node, s) && |stores| == |s.drives| + 1
    && Sound(cfg, stores[|s.drives| - 1]) && KubernetesNames(LastDrive(s).services.Keys)
  }

  lemma ComesToBeAtRest(node: Node, cfg: Config, run: seq<Proxier>, i: nat, stores: seq<Store>)
    requires IsRun(node, run) && i < |run| && ObservedKubernetes(run[i].services)
    requires run[i].control.initialized && Quiescent(run[i].control)
    requires AreStores(cfg, stores, run[i].drives)
    ensures AtRest(node, cfg, run[i], stores)
  {
    RestOnLatest(node, run, i);
    ObservedNames(node, run, i);
    EveryState(node, run, i);
    StoresSound(cfg, stores, run[i].drives, |run[i].drives| - 1);
  }

  lemma LastShows(node: Node, cfg: Config, s: Proxier, stores: seq<Store>)
    requires AtRest(node, cfg, s, stores)
    ensures LatestShown(node, cfg, s, stores)
  {
    MapsShow(node, s);
    SoundRunShows(cfg, LastDrive(s).services, LastDrive(s).endpoints, stores[|s.drives| - 1]);
  }

  /** When an initialised proxier comes to rest and the calls of its last reconciliation were served, HAProxy holds for
      every port of the latest services the frontend, bind and backend of that port and one server for each of its
      latest endpoints, and nothing else but what no frontend led to, or what was there if nothing can be listed. What
      failed before does not matter. */
  lemma RestShowsObjects(node: Node, cfg: Config, run: seq<Proxier>, i: nat, stores: seq<Store>)
    requires IsRun(node, run) && i < |run| && ObservedKubernetes(run[i].services)
    requires run[i].control.initialized && Quiescent(run[i].control)
    requires AreStores(cfg, stores, run[i].drives)
    ensures LatestShown(node, cfg, run[i], stores)
  {
    ComesToBeAtRest(node, cfg, run, i, stores);
    LastShows(node, cfg, run[i], stores);
  }
}
