/** HAProxy as the proxier sees it through HaproxyHandle: a store of frontends with their binds and backends with their
    servers, reached by calls that may fail. */
module Haproxy {
  import opened Api
  import opened Names

  datatype Backend = Backend(name: string, algorithm: string, mode: string, checkTimeout: Option<int>,
                             httpchk: Option<(string, string)>, forwardfor: Option<string>)

  datatype Frontend = Frontend(name: string, defaultBackend: string, mode: string)

  datatype Bind = Bind(name: string, port: Option<int>, address: string)

  /** rest stands for the fields of a server that this program never sets. */
  datatype Server = Server(address: string, port: int, name: string, check: string, rest: string)

  // The zero values, which reads return for what is missing and for what they failed to read.
  const NO_BACKEND := Backend("", "", "", None, None, None)
  const NO_FRONTEND := Frontend("", "", "")
  const NO_BIND := Bind("", None, "")
  const NO_SERVER := Server("", 0, "", "", "")

  const STATS := "stats"

  type Servers = map<string, Server>

  datatype BackendEntry = BackendEntry(conf: Backend, servers: Servers)

  datatype FrontendEntry = FrontendEntry(conf: Frontend, binds: map<string, Bind>)

  datatype Store = Store(frontends: map<string, FrontendEntry>, backends: map<string, BackendEntry>)

  /** Every object is filed under its own, non-empty name. */
  ghost predicate WellNamed(st: Store) {
    && (forall f | f in st.frontends :: FrontendNamed(f, st.frontends[f]))
    && (forall b | b in st.backends :: BackendNamed(b, st.backends[b]))
  }

  ghost predicate FrontendNamed(f: string, e: FrontendEntry) {
    f != "" && e.conf.name == f && BindsNamed(e.binds)
  }

  ghost predicate BackendNamed(b: string, e: BackendEntry) {
    b != "" && e.conf.name == b && ServersNamed(e.servers)
  }

  ghost predicate BindsNamed(binds: map<string, Bind>) {
    forall n | n in binds :: n != "" && binds[n].name == n
  }

  ghost predicate ServersNamed(servers: Servers) {
    forall n | n in servers :: n != "" && servers[n].name == n
  }

  function ServersOf(st: Store, backend: string): Servers {
    if backend in st.backends then st.backends[backend].servers else map[]
  }

  function WithServers(st: Store, backend: string, servers: Servers): Store {
    if backend in st.backends
    then st.(backends := st.backends[backend := st.backends[backend].(servers := servers)])
    else st
  }

  function BindsOf(st: Store, frontend: string): map<string, Bind> {
    if frontend in st.frontends then st.frontends[frontend].binds else map[]
  }

  // ---------- answers ----------

  /** handleError: whether a response counts as successful and whether it counts as an error. None is a transport
      failure. Created and already present both count as successful; no content counts as successful and as an error. */
  function HandleError(code: Option<int>): (r: (bool, bool))
    ensures r.0 <==> code.Some? && code.value in {0, 200, 201, 202, 204, 409}
    ensures r.1 <==> code.None? || code.value !in {0, 200, 201, 202}
  {
    match code
    case None => (false, true)
    case Some(c) =>
      if c == 0 || c == 200 || c == 201 || c == 202 then (true, false)
      else if c == 204 || c == 409 then (true, true)
      else (false, true)
  }

  /** What becomes of a call: Refused has no effect, Unanswered has its effect but reports a failure. */
  datatype Fate = Served | Refused | Unanswered

  /** A call, by what it is about. Write is an add or a replace, Drop a deletion. */
  datatype Call =
    | ReadBackend(name: string) | WriteBackend(name: string) | DropBackend(name: string)
    | ReadFrontend(name: string) | WriteFrontend(name: string) | DropFrontend(name: string)
    | ReadBind(name: string) | WriteBind(name: string)
    | ReadServers(backend: string) | ReadServer(backend: string)
    | PutServer(backend: string) | DropServer(backend: string)
    | ListBackends | ListFrontends

  predicate IsWrite(call: Call) {
    call.WriteBackend? || call.WriteFrontend? || call.WriteBind?
  }

  predicate OnServers(call: Call, backend: string) {
    (call.ReadServers? || call.ReadServer? || call.PutServer? || call.DropServer?) && call.backend == backend
  }

  /** All calls made since log0 are about the servers of this backend. */
  ghost predicate OnlyServerCalls(log0: seq<Call>, log: seq<Call>, backend: string) {
    log0 <= log && forall n | |log0| <= n < |log| :: OnServers(log[n], backend)
  }

  ghost predicate AllServed(plan: nat -> Fate, lo: nat, hi: nat) {
    forall n | lo <= n < hi :: plan(n).Served?
  }

  /** The calls made from the lo-th on. */
  ghost function Made(log: seq<Call>, lo: nat): set<Call> {
    set n | lo <= n < |log| :: log[n]
  }

  /** Those among them that had their effect. */
  ghost function Effective(plan: nat -> Fate, log: seq<Call>, lo: nat): set<Call> {
    set n | lo <= n < |log| && !plan(n).Refused? :: log[n]
  }

  lemma MadeSnoc(plan: nat -> Fate, log: seq<Call>, lo: nat, call: Call)
    requires lo <= |log|
    ensures Made(log + [call], lo) == Made(log, lo) + {call}
    ensures Effective(plan, log + [call], lo) == Effective(plan, log, lo) + if plan(|log|).Refused? then {} else {call}
  {
    var log' := log + [call];
    assert log'[|log|] == call;
    assert forall n | lo <= n < |log| :: log'[n] == log[n];
  }

  // ---------- the effect of the calls ----------

  function AddedBackend(st: Store, b: Backend): Store {
    if b.name in st.backends then st else st.(backends := st.backends[b.name := BackendEntry(b, map[])])
  }

  function ReplacedBackend(st: Store, name: string, b: Backend): Store {
    if name in st.backends
    then st.(backends := (st.backends - {name})[b.name := st.backends[name].(conf := b)])
    else st
  }

  function AddedFrontend(st: Store, f: Frontend): Store {
    if f.name in st.frontends then st else st.(frontends := st.frontends[f.name := FrontendEntry(f, map[])])
  }

  function ReplacedFrontend(st: Store, name: string, f: Frontend): Store {
    if name in st.frontends
    then st.(frontends := (st.frontends - {name})[f.name := st.frontends[name].(conf := f)])
    else st
  }

  function PutBind(st: Store, frontend: string, bind: Bind): Store {
    if frontend in st.frontends
    then
      var e := st.frontends[frontend];
      st.(frontends := st.frontends[frontend := e.(binds := e.binds[bind.name := bind])])
    else st
  }

  function AddedBind(st: Store, frontend: string, bind: Bind): Store {
    if bind.name in BindsOf(st, frontend) then st else PutBind(st, frontend, bind)
  }

  function AddedServer(st: Store, backend: string, server: Server): Store {
    if server.name in ServersOf(st, backend) then st
    else WithServers(st, backend, ServersOf(st, backend)[server.name := server])
  }

  // ---------- the service list ----------

  /** One entry of the service list, named by what is left of the frontend's name after trimming. */
  datatype Service = Service(name: string, backend: Backend, frontend: Frontend)

  function ConfOf(st: Store, backend: string): Backend {
    if backend in st.backends then st.backends[backend].conf else NO_BACKEND
  }

  function ServiceOf(st: Store, f: string): Service
    requires f in st.frontends
  {
    var conf := st.frontends[f].conf;
    Service(Trim(conf.name), ConfOf(st, conf.defaultBackend), conf)
  }

  function ListedServices(st: Store): set<Service> {
    if st.frontends == map[] || st.backends == map[] then {}
    else set f | f in st.frontends && st.frontends[f].conf.name != STATS :: ServiceOf(st, f)
  }

  class HaproxyHandle {
    const plan: nat -> Fate
    /** The status with which HAProxy answers a successful deletion. */
    const deleteStatus: int
    var log: seq<Call>
    var store: Store
    /** How many times frontends, backends or binds were asked to change. */
    var writes: nat

    constructor (plan: nat -> Fate, deleteStatus: int, store: Store)
      ensures this.plan == plan && this.deleteStatus == deleteStatus && this.store == store
      ensures log == [] && writes == 0
    {
      this.plan, this.deleteStatus, this.store := plan, deleteStatus, store;
      log, writes := [], 0;
    }

    ghost predicate Served(lo: nat, hi: nat) {
      AllServed(plan, lo, hi)
    }

    function Answer(fate: Fate, code: int): (bool, bool) {
      HandleError(if fate.Served? then Some(code) else None)
    }

    method Perform(call: Call) returns (fate: Fate)
      modifies this`log
      ensures fate == plan(|old(log)|) && log == old(log) + [call]
    {
      fate := plan(|log|);
      log := log + [call];
    }

    method GetBackend(name: string) returns (r: Backend)
      modifies this`log
      ensures log == old(log) + [ReadBackend(name)]
      ensures r == if plan(|old(log)|).Served? then ConfOf(store, name) else NO_BACKEND
    {
      var fate := Perform(ReadBackend(name));
      r := if fate.Served? then ConfOf(store, name) else NO_BACKEND;
    }

    method AddBackend(b: Backend) returns (ok: bool, err: bool)
      modifies this
      ensures log == old(log) + [WriteBackend(b.name)]
      ensures store == if plan(|old(log)|).Refused? then old(store) else AddedBackend(old(store), b)
      ensures writes == old(writes) + 1
      ensures ok == plan(|old(log)|).Served?
      ensures err == !(plan(|old(log)|).Served? && b.name !in old(store).backends)
    {
      var fate := Perform(WriteBackend(b.name));
      writes := writes + 1;
      var code := if b.name in store.backends then 409 else 201;
      if !fate.Refused? {
        store := AddedBackend(store, b);
      }
      var answer := Answer(fate, code);
      return answer.0, answer.1;
    }

    method ReplaceBackend(name: string, b: Backend) returns (ok: bool, err: bool)
      modifies this
      ensures log == old(log) + [WriteBackend(name)]
      ensures store == if plan(|old(log)|).Refused? then old(store) else ReplacedBackend(old(store), name, b)
      ensures writes == old(writes) + 1
      ensures err == !(plan(|old(log)|).Served? && name in old(store).backends)
    {
      var fate := Perform(WriteBackend(name));
      writes := writes + 1;
      var code := if name in store.backends then 200 else 404;
      if !fate.Refused? {
        store := ReplacedBackend(store, name, b);
      }
      var answer := Answer(fate, code);
      return answer.0, answer.1;
    }

    method DeleteBackend(name: string) returns (ok: bool)
      modifies this
      ensures log == old(log) + [DropBackend(name)]
      ensures store == if plan(|old(log)|).Refused? then old(store)
                       else old(store).(backends := old(store).backends - {name})
      ensures writes == old(writes) + 1
    {
      var fate := Perform(DropBackend(name));
      writes := writes + 1;
      var code := if name in store.backends then deleteStatus else 404;
      if !fate.Refused? {
        store := store.(backends := store.backends - {name});
      }
      ok := Answer(fate, code).0;
    }

    method GetFrontend(name: string) returns (r: Frontend)
      modifies this`log
      ensures log == old(log) + [ReadFrontend(name)]
      ensures r == if plan(|old(log)|).Served? && name in store.frontends then store.frontends[name].conf
                   else NO_FRONTEND
    {
      var fate := Perform(ReadFrontend(name));
      r := if fate.Served? && name in store.frontends then store.frontends[name].conf else NO_FRONTEND;
    }

    method AddFrontend(f: Frontend) returns (ok: bool, err: bool)
      modifies this
      ensures log == old(log) + [WriteFrontend(f.name)]
      ensures store == if plan(|old(log)|).Refused? then old(store) else AddedFrontend(old(store), f)
      ensures writes == old(writes) + 1
      ensures ok == plan(|old(log)|).Served?
      ensures err == !(plan(|old(log)|).Served? && f.name !in old(store).frontends)
    {
      var fate := Perform(WriteFrontend(f.name));
      writes := writes + 1;
      var code := if f.name in store.frontends then 409 else 201;
      if !fate.Refused? {
        store := AddedFrontend(store, f);
      }
      var answer := Answer(fate, code);
      return answer.0, answer.1;
    }

    method ReplaceFrontend(old_: Frontend, f: Frontend) returns (ok: bool, err: bool)
      modifies this
      ensures log == old(log) + [WriteFrontend(old_.name)]
      ensures store == if plan(|old(log)|).Refused? then old(store) else ReplacedFrontend(old(store), old_.name, f)
      ensures writes == old(writes) + 1
      ensures err == !(plan(|old(log)|).Served? && old_.name in old(store).frontends)
    {
      var fate := Perform(WriteFrontend(old_.name));
      writes := writes + 1;
      var code := if old_.name in store.frontends then 200 else 404;
      if !fate.Refused? {
        store := ReplacedFrontend(store, old_.name, f);
      }
      var answer := Answer(fate, code);
      return answer.0, answer.1;
    }

    method DeleteFrontend(name: string) returns (ok: bool)
      modifies this
      ensures log == old(log) + [DropFrontend(name)]
      ensures store == if plan(|old(log)|).Refused? then old(store)
                       else old(store).(frontends := old(store).frontends - {name})
      ensures writes == old(writes) + 1
    {
      var fate := Perform(DropFrontend(name));
      writes := writes + 1;
      var code := if name in store.frontends then deleteStatus else 404;
      if !fate.Refused? {
        store := store.(frontends := store.frontends - {name});
      }
      ok := Answer(fate, code).0;
    }

    method GetBind(name: string, frontend: string) returns (r: Bind)
      modifies this`log
      ensures log == old(log) + [ReadBind(name)]
      ensures r == if plan(|old(log)|).Served? && name in BindsOf(store, frontend) then BindsOf(store, frontend)[name]
                   else NO_BIND
    {
      var fate := Perform(ReadBind(name));
      r := if fate.Served? && name in BindsOf(store, frontend) then BindsOf(store, frontend)[name] else NO_BIND;
    }

    method AddBind(bind: Bind, frontend: string) returns (ok: bool, err: bool)
      modifies this
      ensures log == old(log) + [WriteBind(bind.name)]
      ensures store == if plan(|old(log)|).Refused? then old(store) else AddedBind(old(store), frontend, bind)
      ensures writes == old(writes) + 1
      ensures ok == (plan(|old(log)|).Served? && frontend in old(store).frontends)
      ensures !err <==>
        plan(|old(log)|).Served? && frontend in old(store).frontends && bind.name !in BindsOf(old(store), frontend)
    {
      var fate := Perform(WriteBind(bind.name));
      writes := writes + 1;
      var code :=
        if frontend !in store.frontends then 404 else if bind.name in BindsOf(store, frontend) then 409 else 201;
      if !fate.Refused? {
        store := AddedBind(store, frontend, bind);
      }
      var answer := Answer(fate, code);
      return answer.0, answer.1;
    }

    method ReplaceBind(name: string, frontend: string, bind: Bind) returns (ok: bool, err: bool)
      requires bind.name == name
      modifies this
      ensures log == old(log) + [WriteBind(name)]
      ensures store == if plan(|old(log)|).Refused? || name !in BindsOf(old(store), frontend) then old(store)
                       else PutBind(old(store), frontend, bind)
      ensures writes == old(writes) + 1
      ensures err == !(plan(|old(log)|).Served? && name in BindsOf(old(store), frontend))
    {
      var fate := Perform(WriteBind(name));
      writes := writes + 1;
      var code := if name in BindsOf(store, frontend) then 200 else 404;
      if !fate.Refused? && name in BindsOf(store, frontend) {
        store := PutBind(store, frontend, bind);
      }
      var answer := Answer(fate, code);
      return answer.0, answer.1;
    }

    /** The servers of a backend in no particular order; none when the read fails. */
    method GetServers(backend: string) returns (r: seq<Server>)
      modifies this`log
      ensures log == old(log) + [ReadServers(backend)]
      ensures forall s :: s in r <==> plan(|old(log)|).Served? && s in ServersOf(store, backend).Values
    {
      r := [];
      var fate := Perform(ReadServers(backend));
      if fate.Served? {
        var servers := ServersOf(store, backend);
        var todo := servers.Values;
        while todo != {}
          invariant todo <= servers.Values
          invariant forall s :: s in r <==> s in servers.Values && s !in todo
        {
          var s :| s in todo;
          r := r + [s];
          todo := todo - {s};
        }
      }
    }

    method GetServer(backend: string, name: string) returns (r: Server)
      modifies this`log
      ensures log == old(log) + [ReadServer(backend)]
      ensures r == if plan(|old(log)|).Served? && name in ServersOf(store, backend) then ServersOf(store, backend)[name]
                   else NO_SERVER
    {
      var fate := Perform(ReadServer(backend));
      r := if fate.Served? && name in ServersOf(store, backend) then ServersOf(store, backend)[name] else NO_SERVER;
    }

    method AddServerToBackend(server: Server, backend: string) returns (ok: bool, err: bool)
      modifies this
      ensures log == old(log) + [PutServer(backend)]
      ensures store == if plan(|old(log)|).Refused? then old(store) else AddedServer(old(store), backend, server)
      ensures writes == old(writes)
    {
      var fate := Perform(PutServer(backend));
      var code :=
        if backend !in store.backends then 404 else if server.name in ServersOf(store, backend) then 409 else 201;
      if !fate.Refused? {
        store := AddedServer(store, backend, server);
      }
      var answer := Answer(fate, code);
      return answer.0, answer.1;
    }

    method DeleteServerFromBackend(name: string, backend: string) returns (ok: bool, err: bool)
      modifies this
      ensures log == old(log) + [DropServer(backend)]
      ensures store == if plan(|old(log)|).Refused? then old(store)
                       else WithServers(old(store), backend, ServersOf(old(store), backend) - {name})
      ensures writes == old(writes)
      ensures ok <==>
        plan(|old(log)|).Served? && name in ServersOf(old(store), backend) && HandleError(Some(deleteStatus)).0
      ensures err <==>
        !(plan(|old(log)|).Served? && name in ServersOf(old(store), backend) && !HandleError(Some(deleteStatus)).1)
    {
      var fate := Perform(DropServer(backend));
      var code := if name in ServersOf(store, backend) then deleteStatus else 404;
      if !fate.Refused? {
        store := WithServers(store, backend, ServersOf(store, backend) - {name});
      }
      var answer := Answer(fate, code);
      return answer.0, answer.1;
    }

    /** Joins frontends and backends. Nothing is listed when either read fails or finds nothing. */
    method GetServices() returns (services: seq<Service>)
      modifies this`log
      ensures log == old(log) + [ListBackends, ListFrontends]
      ensures Served(|old(log)|, |log|) ==> forall s :: s in services <==> s in ListedServices(store)
      ensures !Served(|old(log)|, |log|) ==> services == []
    {
      services := [];
      var backendsFate := Perform(ListBackends);
      var frontendsFate := Perform(ListFrontends);
      var backends := if backendsFate.Served? then store.backends else map[];
      var frontends := if frontendsFate.Served? then store.frontends else map[];
      if |frontends| == 0 || |backends| == 0 {
        return;
      }
      var bs: map<string, Backend> := map b | b in backends :: backends[b].conf;
      var todo := frontends.Keys;
      while todo != {}
        invariant todo <= frontends.Keys
        invariant forall s :: s in services <==>
          exists f | f in frontends && f !in todo :: frontends[f].conf.name != STATS && s == ServiceOf(store, f)
      {
        var f :| f in todo;
        ghost var before, left := services, todo;
        var item := frontends[f].conf;
        if item.name != STATS {
          var backend := if item.defaultBackend in bs then bs[item.defaultBackend] else NO_BACKEND;
          services := services + [Service(Trim(item.name), backend, item)];
        }
        todo := todo - {f};
        forall s ensures s in services <==>
          exists g | g in frontends && g !in todo :: frontends[g].conf.name != STATS && s == ServiceOf(store, g)
        {
          assert forall g :: g in frontends && g !in todo <==> g == f || (g in frontends && g !in left);
        }
      }
    }
  }
}
