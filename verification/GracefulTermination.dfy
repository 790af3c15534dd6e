/** haproxy/graceful_termination.go: the list of servers to delete later, and the deletions that consult it. */
module GracefulTermination {
  import opened Haproxy

  datatype SrvItem = SrvItem(backendName: string, srv: Server)

  // ---------- the list ----------

  datatype ListOp = Add(item: SrvItem) | Remove(item: SrvItem)

  /** add only stores what the list already contains. */
  function AfterOp(list: set<SrvItem>, op: ListOp): set<SrvItem> {
    match op
    case Add(item) => if item !in list then list else list + {item}
    case Remove(item) => if item in list then list - {item} else list
  }

  function AfterOps(list: set<SrvItem>, ops: seq<ListOp>): set<SrvItem> {
    if ops == [] then list else AfterOp(AfterOps(list, ops[..|ops| - 1]), ops[|ops| - 1])
  }

  /** No sequence of additions and removals puts anything on the list: as it starts empty, it stays empty. */
  lemma {:induction false} ListNeverGrows(list: set<SrvItem>, ops: seq<ListOp>)
    ensures AfterOps(list, ops) <= list
  {
    if ops == [] {
    } else {
      ListNeverGrows(list, ops[..|ops| - 1]);
    }
  }

  // ---------- what deletions may do to the store ----------

  function Without(st: Store, backend: string, name: string): Store {
    WithServers(st, backend, ServersOf(st, backend) - {name})
  }

  /** Only servers that were on the list have gone. */
  ghost predicate OnlyListedRemoved(st: Store, st': Store, list: set<SrvItem>) {
    && st'.frontends == st.frontends && st'.backends.Keys == st.backends.Keys
    && forall b | b in st.backends :: BackendShrunk(b, st.backends[b], st'.backends[b], list)
  }

  ghost predicate BackendShrunk(backend: string, e: BackendEntry, e': BackendEntry, list: set<SrvItem>) {
    && e'.conf == e.conf && e'.servers.Keys <= e.servers.Keys
    && (forall n | n in e'.servers :: e'.servers[n] == e.servers[n])
    && (forall n | n in e.servers && n !in e'.servers ::
          exists srv: Server :: srv.name == n && SrvItem(backend, srv) in list)
  }

  class GracefulTerminationManager {
    const handle: HaproxyHandle
    var list: set<SrvItem>

    constructor (handle: HaproxyHandle)
      ensures this.handle == handle && list == {}
    {
      this.handle := handle;
      list := {};
    }

    method AddItem(item: SrvItem) returns (ok: bool)
      modifies this
      ensures list == AfterOp(old(list), Add(item)) == old(list)
      ensures ok <==> item in old(list)
    {
      if item !in list {
        return false;
      }
      list := list + {item};
      return true;
    }

    method RemoveItem(item: SrvItem) returns (ok: bool)
      modifies this
      ensures list == AfterOp(old(list), Remove(item))
      ensures ok <==> item in old(list)
    {
      if item in list {
        list := list - {item};
        return true;
      }
      return false;
    }

    predicate InTerminationList(srv: Server, backendName: string)
      reads this
    {
      SrvItem(backendName, srv) in list
    }

    /** Reads before deleting. Answers without content count as errors although the server is gone. */
    method DeleteSrvFunc(item: SrvItem) returns (deleted: bool, err: bool)
      modifies handle
      ensures handle.store in {old(handle.store), Without(old(handle.store), item.backendName, item.srv.name)}
      ensures handle.writes == old(handle.writes)
      ensures deleted ==> handle.store == Without(old(handle.store), item.backendName, item.srv.name)
      ensures err <==> !deleted
      ensures OnlyServerCalls(old(handle.log), handle.log, item.backendName)
      ensures handle.Served(|old(handle.log)|, |handle.log|) ==>
        ServersNamed(ServersOf(old(handle.store), item.backendName)) ==>
          && handle.store == Without(old(handle.store), item.backendName, item.srv.name)
          && (deleted <==> item.srv.name in ServersOf(old(handle.store), item.backendName)
                           && handle.deleteStatus in {0, 200, 201, 202})
    {
      var rss := handle.GetServer(item.backendName, item.srv.name);
      if rss == NO_SERVER {
        NothingToRemove(handle.store, item.backendName, item.srv.name);
        return false, true;
      }
      var ok, failed := handle.DeleteServerFromBackend(item.srv.name, item.backendName);
      if failed || !ok {
        return false, true;
      }
      return ok, false;
    }

    /** Deletes at once if possible. What cannot be deleted is not remembered either. */
    method GracefulDeleteSrv(srv: Server, backendName: string)
      modifies this, handle
      ensures list == old(list) && handle.writes == old(handle.writes)
      ensures handle.store in {old(handle.store), Without(old(handle.store), backendName, srv.name)}
      ensures OnlyServerCalls(old(handle.log), handle.log, backendName)
      ensures handle.Served(|old(handle.log)|, |handle.log|) ==>
        ServersNamed(ServersOf(old(handle.store), backendName)) ==>
          handle.store == Without(old(handle.store), backendName, srv.name)
    {
      var item := SrvItem(backendName, srv);
      var deleted, _ := DeleteSrvFunc(item);
      if deleted {
        return;
      }
      var _ := AddItem(item);
    }

    method FlushList() returns (success: bool)
      modifies this, handle
      ensures list <= old(list) && handle.writes == old(handle.writes)
      ensures OnlyListedRemoved(old(handle.store), handle.store, old(list))
      ensures success <==> list == {}
    {
      success := true;
      var todo := list;
      while todo != {}
        invariant todo <= list <= old(list)
        invariant success <==> list == todo
        invariant OnlyListedRemoved(old(handle.store), handle.store, old(list))
        invariant handle.writes == old(handle.writes)
      {
        var item :| item in todo;
        ghost var st := handle.store;
        var deleted, err := DeleteSrvFunc(item);
        if handle.store != st {
          OneMoreRemoved(old(handle.store), st, old(list), item);
        }
        if err {
          success := false;
        }
        if deleted {
          var _ := RemoveItem(item);
        }
        todo := todo - {item};
      }
    }

    method TryDeleteSrv()
      modifies this, handle
      ensures list <= old(list) && OnlyListedRemoved(old(handle.store), handle.store, old(list))
      ensures old(list) == {} ==> handle.store == old(handle.store)
    {
      var _ := FlushList();
      if old(list) == {} {
        NothingListed(old(handle.store), handle.store);
      }
    }

    method MoveRSOutofGracefulDeleteList(srv: Server, backendName: string) returns (err: bool)
      modifies this, handle
      ensures handle.writes == old(handle.writes)
      ensures OnlyServerCalls(old(handle.log), handle.log, backendName)
      ensures SrvItem(backendName, srv) !in old(list) ==>
        err && handle.store == old(handle.store) && handle.log == old(handle.log)
      ensures handle.store in {old(handle.store), Without(old(handle.store), backendName, srv.name)}
      ensures list == if err then old(list) else old(list) - {SrvItem(backendName, srv)}
    {
      var item := SrvItem(backendName, srv);
      if item !in list {
        return true;
      }
      var _, failed := handle.DeleteServerFromBackend(srv.name, backendName);
      if failed {
        return true;
      }
      var _ := RemoveItem(item);
      return false;
    }
  }

  lemma NothingToRemove(st: Store, backend: string, name: string)
    ensures name !in ServersOf(st, backend) ==> Without(st, backend, name) == st
  {
    if name !in ServersOf(st, backend) {
      assert ServersOf(st, backend) - {name} == ServersOf(st, backend);
    }
  }

  lemma NothingListed(st: Store, st': Store)
    requires OnlyListedRemoved(st, st', {})
    ensures st' == st
  {
    forall b | b in st.backends ensures st'.backends[b] == st.backends[b] {
      assert BackendShrunk(b, st.backends[b], st'.backends[b], {});
      assert st'.backends[b].servers == st.backends[b].servers;
    }
  }

  lemma OneMoreRemoved(st0: Store, st: Store, list: set<SrvItem>, item: SrvItem)
    requires OnlyListedRemoved(st0, st, list) && item in list
    ensures OnlyListedRemoved(st0, Without(st, item.backendName, item.srv.name), list)
  {
    var st' := Without(st, item.backendName, item.srv.name);
    forall b | b in st0.backends ensures BackendShrunk(b, st0.backends[b], st'.backends[b], list) {
      assert BackendShrunk(b, st0.backends[b], st.backends[b], list);
      assert SrvItem(item.backendName, item.srv) in list;
    }
  }
}
