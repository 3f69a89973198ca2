/**
 The registries as the driver keeps them: module globals and Manager objects that
 are updated in place, searched with loops. Every method is one step of `Registry`.
 */
module RegistryProcess {
  import opened Keys
  import opened Registry

  class Process {
    const pid: int
    var persistentClients: seq<Entry<Hash, PClient>>
    var requestClients: Option<seq<PClient>>
    var managers: Option<seq<nat>>
    var objs: map<nat, Manager>
    var handles: map<nat, Handle>
    var nextObj: nat
    var serial: nat
    var alive: bool
    ghost var log: seq<Event>  // mongoc_client_reset() and mongoc_client_destroy()

    ghost function State(): Proc
      reads this
    {
      Proc(pid, persistentClients, requestClients, managers, objs, handles, nextObj, serial, alive, log)
    }

    constructor (p: int)
      ensures State() == Proc(p, [], None, None, map[], map[], 0, 0, true, [])
    {
      pid, persistentClients, requestClients, managers := p, [], None, None;
      objs, handles, nextObj, serial, alive, log := map[], map[], 0, 0, true, [];
    }

    /** php_phongo_find_persistent_client(): a client exactly if one is registered
        under the hash, and then that client. */
    method FindPersistentClient(hash: Hash) returns (client: Option<Client>)
      ensures client.Some? <==> HasKey(persistentClients, hash)
      ensures forall i: nat :: IsFirstEntry(persistentClients, hash, i) ==> client == Some(persistentClients[i].value.client)
    {
      var e := Lookup(persistentClients, hash);
      forall i: nat | IsFirstEntry(persistentClients, hash, i)
        ensures e == Some(persistentClients[i].value)
      {
        LookupIsFirst(persistentClients, hash, i);
      }
      client := if e.Some? then Some(e.value.client) else None;
    }

    /** php_phongo_client_register() */
    method ClientRegister(hash: Hash, client: Client, usePersistent: bool)
      requires requestClients.Some?
      modifies `persistentClients, `requestClients
      ensures State() == Register(old(State()), hash, client, usePersistent)
    {
      var pclient := PClient(client, pid, NO_PID, usePersistent);
      if usePersistent {
        persistentClients := Put(persistentClients, hash, pclient);
      } else {
        requestClients := Some(requestClients.value + [pclient]);
      }
    }

    /** phongo_manager_init() and the registration in Manager::__construct(). */
    method ManagerConstruct(config: string, usePersistent: bool, keyVault: Option<nat>, outcome: Outcome)
      requires CanConstruct(State(), keyVault)
      modifies this
      ensures State() == Construct(old(State()), config, usePersistent, keyVault, outcome)
    {
      var keyVaultHash := if keyVault.Some? then Some(objs[keyVault.value].hash) else None;
      var hash := Hash(pid, config, keyVaultHash);
      if usePersistent {
        var found := FindPersistentClient(hash);
        if found.Some? {
          var i := HasFirstEntry(persistentClients, hash);
          LookupIsFirst(persistentClients, hash, i);
          NewManager(Manager(hash, true, found.value, pid, None));
          return;
        }
      }
      if outcome == FailsEarly {
        return;
      }
      var n := serial;
      serial := serial + 1;
      if keyVault.Some? && objs[keyVault.value].usePersistent != usePersistent {
        return;
      }
      if outcome == FailsLate {
        return;
      }
      var uses := if keyVault.Some? then Some(objs[keyVault.value].client) else None;
      var client := Client(pid, n, uses);
      ClientRegister(hash, client, usePersistent);
      NewManager(Manager(hash, usePersistent, client, pid, keyVault));
    }

    method NewManager(m: Manager)
      modifies `objs, `nextObj, `managers
      ensures State() == AddManager(old(State()), m)
    {
      var registered := ManagerRegister(nextObj);
      objs, nextObj := objs[nextObj := m], nextObj + 1;
    }

    /** php_phongo_manager_exists() */
    method ManagerExists(id: nat) returns (found: bool, index: nat)
      ensures found <==> managers.Some? && id in managers.value
      ensures found ==> index == ManagerIndex(managers.value, id) < |managers.value|
    {
      found, index := false, 0;
      if managers.None? {
        return;
      }
      while index < |managers.value|
        invariant 0 <= index <= |managers.value|
        invariant id !in managers.value[..index]
      {
        if managers.value[index] == id {
          ManagerIndexIsFirst(managers.value, id, index);
          return true, index;
        }
        index := index + 1;
      }
      assert managers.value[..index] == managers.value;
    }

    method ManagerRegister(id: nat) returns (ok: bool)
      modifies `managers
      ensures State() == RegisterManager(old(State()), id)
      ensures ok <==> managers != old(managers)
    {
      if managers.None? {
        return false;
      }
      var found, index := ManagerExists(id);
      if found {
        return false;
      }
      managers := Some(managers.value + [id]);
      ok := true;
    }

    method ManagerUnregister(id: nat) returns (ok: bool)
      modifies `managers
      ensures State() == UnregisterManager(old(State()), id)
      ensures ok <==> managers != old(managers)
    {
      if managers.None? {
        return false;
      }
      var found, index := ManagerExists(id);
      if found {
        managers := Some(Without(managers.value, index));
        return true;
      }
      ok := false;
    }

    /** phongo_pclient_reset_once() */
    method PclientResetOnce(pclient: PClient) returns (updated: PClient)
      modifies `log
      ensures updated == ResetEntry(pclient, pid)
      ensures log == old(log) + ResetEvents(pclient, pid)
    {
      updated := pclient;
      if pclient.lastResetByPid != pid {
        log := log + [Reset(pclient.client)];
        updated := pclient.(lastResetByPid := pid);
      }
    }

    /** php_phongo_client_reset_once() */
    method ClientResetOnce(id: nat)
      requires KeyVaultsOlder(State()) && id in objs
      modifies `persistentClients, `requestClients, `log
      ensures State() == ResetOnce(old(State()), id)
      decreases id
    {
      var m := objs[id];
      if m.keyVault.Some? {
        ClientResetOnce(m.keyVault.value);
      }
      if m.usePersistent {
        var pclient := Lookup(persistentClients, m.hash);
        if pclient.Some? {
          var updated := PclientResetOnce(pclient.value);
          persistentClients := Put(persistentClients, m.hash, updated);
        }
        return;
      }
      if requestClients.None? {
        return;
      }
      var i := RequestIndex(m.client);
      if i < |requestClients.value| {
        var updated := PclientResetOnce(requestClients.value[i]);
        requestClients := Some(requestClients.value[i := updated]);
      }
    }

    /** The loop over the request-scoped registry that looks for a client. */
    method RequestIndex(client: Client) returns (i: nat)
      requires requestClients.Some?
      ensures i == IndexOf(requestClients.value, client)
    {
      i := 0;
      while i < |requestClients.value| && requestClients.value[i].client != client
        invariant 0 <= i <= |requestClients.value|
        invariant forall j :: 0 <= j < i ==> requestClients.value[j].client != client
      {
        i := i + 1;
      }
      IndexIsFirst(requestClients.value, client, i);
    }

    /** PHONGO_RESET_CLIENT_IF_PID_DIFFERS */
    method ResetClientIfPidDiffers(createdByPid: int, id: nat)
      requires KeyVaultsOlder(State()) && id in objs
      modifies `persistentClients, `requestClients, `log
      ensures State() == ResetIfPidDiffers(old(State()), createdByPid, id)
    {
      if createdByPid != pid {
        ClientResetOnce(id);
      }
    }

    /** php_phongo_pclient_destroy() */
    method PclientDestroy(pclient: PClient)
      modifies `log
      ensures log == old(log) + DestroyEvents(pclient, pid)
    {
      if pclient.createdByPid == pid {
        log := log + [Destroyed(pclient.client)];
      }
    }

    /** php_phongo_client_unregister() */
    method ClientUnregister(m: Manager) returns (ok: bool)
      modifies `requestClients, `log
      ensures State() == UnregisterClient(old(State()), m)
      ensures ok <==> requestClients != old(requestClients)
    {
      if m.usePersistent || requestClients.None? {
        return false;
      }
      var i := RequestIndex(m.client);
      if i == |requestClients.value| {
        return false;
      }
      PclientDestroy(requestClients.value[i]);
      requestClients := Some(Without(requestClients.value, i));
      ok := true;
    }

    /** php_phongo_manager_free_object(), on a Manager that nothing refers to: the
        client goes first, and only then is the key vault given up. */
    method FreeObject(id: nat)
      requires id in objs && Unreferenced(State(), id)
      modifies this
      ensures State() == Free(old(State()), id)
    {
      var m := objs[id];
      var wasRegistered := ManagerUnregister(id);
      var destroyed := ClientUnregister(m);
      objs := objs - {id};
    }

    /** RINIT */
    method RequestInit()
      modifies `requestClients, `managers
      ensures State() == RequestStartup(old(State()))
    {
      if requestClients.None? {
        requestClients := Some([]);
      }
      if managers.None? {
        managers := Some([]);
      }
    }

    /** RSHUTDOWN */
    method RequestEnd()
      modifies `requestClients, `managers, `log
      ensures State() == RequestShutdown(old(State()))
    {
      if requestClients.Some? {
        var i := 0;
        assert requestClients.value[0..] == requestClients.value;
        while i < |requestClients.value|
          invariant requestClients == old(requestClients) && 0 <= i <= |requestClients.value|
          invariant managers == old(managers)
          invariant log + DestroyForward(requestClients.value[i..], pid) == old(log) + DestroyForward(requestClients.value, pid)
        {
          assert requestClients.value[i..][1..] == requestClients.value[i + 1..];
          PclientDestroy(requestClients.value[i]);
          i := i + 1;
        }
        requestClients := None;
      }
      managers := None;
    }

    /** GSHUTDOWN: zend_hash_graceful_reverse_destroy() */
    method Shutdown()
      modifies `persistentClients, `alive, `log
      ensures State() == ProcessShutdown(old(State()))
    {
      while |persistentClients| > 0
        invariant log + DestroyReverse(persistentClients, pid) == old(log) + DestroyReverse(old(persistentClients), pid)
        invariant alive == old(alive)
        decreases |persistentClients|
      {
        var last := persistentClients[|persistentClients| - 1].value;
        ghost var before, rest := log, DestroyReverse(persistentClients[..|persistentClients| - 1], pid);
        assert before + (DestroyEvents(last, pid) + rest) == before + DestroyEvents(last, pid) + rest;
        PclientDestroy(last);
        persistentClients := persistentClients[..|persistentClients| - 1];
      }
      alive := false;
    }
  }

  /** Entry `i` is the first under the hash. */
  predicate IsFirstEntry(es: seq<Entry<Hash, PClient>>, hash: Hash, i: nat) {
    i < |es| && es[i].key == hash && forall j :: 0 <= j < i ==> es[j].key != hash
  }

  lemma {:induction false} LookupIsFirst(es: seq<Entry<Hash, PClient>>, hash: Hash, i: nat)
    requires IsFirstEntry(es, hash, i)
    ensures Lookup(es, hash) == Some(es[i].value)
  {
    if i > 0 {
      LookupIsFirst(es[1..], hash, i - 1);
    }
  }

  lemma {:induction false} HasFirstEntry(es: seq<Entry<Hash, PClient>>, hash: Hash) returns (i: nat)
    requires HasKey(es, hash)
    ensures IsFirstEntry(es, hash, i)
  {
    i := 0;
    if es[0].key != hash {
      var k :| 0 < k < |es| && es[k].key == hash;
      assert es[1..][k - 1] == es[k];
      var j := HasFirstEntry(es[1..], hash);
      i := j + 1;
    }
  }

  lemma {:induction false} IndexIsFirst(es: seq<PClient>, c: Client, i: nat)
    requires i <= |es| && (i < |es| ==> es[i].client == c)
    requires forall j :: 0 <= j < i ==> es[j].client != c
    ensures i == IndexOf(es, c)
  {
  }

  lemma {:induction false} ManagerIndexIsFirst(ids: seq<nat>, id: nat, i: nat)
    requires i < |ids| && ids[i] == id && id !in ids[..i]
    ensures i == ManagerIndex(ids, id)
  {
    assert forall j :: 0 <= j < i ==> ids[..i][j] == ids[j];
  }
}
