/**
 Runs of several processes that construct, use, free and fork: what every step
 keeps, and what therefore holds on every run.
 */
module RegistryRuns {
  import opened Keys
  import opened Registry

  // ----- Steps -----

  datatype Step =
    | DoConstruct(config: string, usePersistent: bool, keyVault: Option<nat>, outcome: Outcome)
    | DoExecute(id: nat)
    | DoNewHandle(manager: nat)
    | DoUseHandle(handle: nat)
    | DoDropHandle(handle: nat)
    | DoFree(id: nat)
    | DoRequestStartup
    | DoRequestShutdown
    | DoProcessShutdown

  /** A Manager is freed when nothing refers to it, a request ends when its objects
      are gone, and a process ends between requests. */
  predicate Enabled(p: Proc, step: Step) {
    && p.alive
    && match step
       case DoConstruct(_, _, keyVault, _) => CanConstruct(p, keyVault)
       case DoExecute(id) => id in p.objs && KeyVaultsOlder(p)
       case DoNewHandle(manager) => manager in p.objs
       case DoUseHandle(h) => h in p.handles && p.handles[h].manager in p.objs && KeyVaultsOlder(p)
       case DoDropHandle(h) => h in p.handles
       case DoFree(id) => id in p.objs && Unreferenced(p, id)
       case DoRequestStartup => true
       case DoRequestShutdown => p.objs == map[] && p.handles == map[]
       case DoProcessShutdown => p.request == None && p.objs == map[]
  }

  function Apply(p: Proc, step: Step): Proc
    requires Enabled(p, step)
  {
    match step
    case DoConstruct(config, usePersistent, keyVault, outcome) => Construct(p, config, usePersistent, keyVault, outcome)
    case DoExecute(id) => ResetIfPidDiffers(p, p.objs[id].createdByPid, id)
    case DoNewHandle(manager) => p.(handles := p.handles[p.nextObj := Handle(p.pid, manager)], nextObj := p.nextObj + 1)
    case DoUseHandle(h) => ResetIfPidDiffers(p, p.handles[h].createdByPid, p.handles[h].manager)
    case DoDropHandle(h) => p.(handles := p.handles - {h})
    case DoFree(id) => Free(p, id)
    case DoRequestStartup => RequestStartup(p)
    case DoRequestShutdown => RequestShutdown(p)
    case DoProcessShutdown => ProcessShutdown(p)
  }

  // ----- The invariant of one process -----

  predicate Known(p: Proc, c: Client) {
    c.creator == p.pid ==> c.serial < p.serial
  }

  /** An entry knows who created its client, and whether this process has reset
      it; its client has not been destroyed here. */
  predicate EntryOk(p: Proc, e: PClient) {
    && e.createdByPid == e.client.creator
    && Known(p, e.client)
    && (e.lastResetByPid == p.pid <==> Reset(e.client) in p.log)
    && Destroyed(e.client) !in p.log
  }

  function RequestEntries(p: Proc): seq<PClient> {
    if p.request.Some? then p.request.value else []
  }

  ghost predicate EntriesOk(p: Proc) {
    && (forall i :: 0 <= i < |p.persistent| ==> EntryOk(p, p.persistent[i].value) && p.persistent[i].value.isPersistent)
    && (forall i :: 0 <= i < |RequestEntries(p)| ==> EntryOk(p, RequestEntries(p)[i]) && !RequestEntries(p)[i].isPersistent)
  }

  /** No client has two entries. */
  ghost predicate OneEntryEach(p: Proc) {
    var r := RequestEntries(p);
    && (forall i, j :: 0 <= i < j < |p.persistent| ==> p.persistent[i].value.client != p.persistent[j].value.client)
    && (forall i, j :: 0 <= i < j < |r| ==> r[i].client != r[j].client)
    && (forall i, j :: 0 <= i < |p.persistent| && 0 <= j < |r| ==> p.persistent[i].value.client != r[j].client)
  }

  ghost predicate NoRepeats(log: seq<Event>) {
    forall i, j :: 0 <= i < j < |log| ==> log[i] != log[j]
  }

  /** Nothing happens twice; clients are destroyed in the process that created
      them, and reset in others only. */
  ghost predicate LogOk(p: Proc) {
    && NoRepeats(p.log)
    && (forall e :: e in p.log ==> Known(p, e.c))
    && (forall e :: e in p.log && e.Destroyed? ==> e.c.creator == p.pid)
    && (forall e :: e in p.log && e.Reset? ==> e.c.creator != p.pid)
  }

  /** Each hash has one entry, created by the process the hash names. */
  ghost predicate CacheOk(p: Proc) {
    && DistinctKeys(p.persistent)
    && forall i :: 0 <= i < |p.persistent| ==> p.persistent[i].key.pid == p.persistent[i].value.client.creator
  }

  predicate ManagerOk(p: Proc, id: nat)
    requires id in p.objs
  {
    var m := p.objs[id];
    && id < p.nextObj
    && m.hash.pid == m.createdByPid == m.client.creator
    && Known(p, m.client)
    && (if m.usePersistent then HasEntry(p.persistent, m.hash, m.client)
        else HasClient(RequestEntries(p), m.client))
    && (m.keyVault.Some? ==>
          && m.keyVault.value < id && m.keyVault.value in p.objs
          && p.objs[m.keyVault.value].usePersistent == m.usePersistent
          && (p.objs[m.keyVault.value].createdByPid == p.pid ==> m.createdByPid == p.pid))
  }

  predicate HasEntry(es: seq<Entry<Hash, PClient>>, hash: Hash, c: Client) {
    exists i :: 0 <= i < |es| && es[i].key == hash && es[i].value.client == c
  }

  predicate HasClient(es: seq<PClient>, c: Client) {
    exists i :: 0 <= i < |es| && es[i].client == c
  }

  ghost predicate ManagersOk(p: Proc) {
    && (forall id :: id in p.objs ==> ManagerOk(p, id))
    && (forall a, b :: a in p.objs && b in p.objs && a != b && !p.objs[a].usePersistent && !p.objs[b].usePersistent ==>
          p.objs[a].client != p.objs[b].client)
  }

  ghost predicate HandlesOk(p: Proc) {
    forall h :: h in p.handles ==>
      && h < p.nextObj && p.handles[h].manager in p.objs
      && (p.objs[p.handles[h].manager].createdByPid == p.pid ==> p.handles[h].createdByPid == p.pid)
  }

  ghost predicate Owned(p: Proc, c: Client) {
    exists id :: id in p.objs && !p.objs[id].usePersistent && p.objs[id].client == c
  }

  /** Every request-scoped client belongs to a Manager. */
  ghost predicate RequestOwned(p: Proc) {
    forall i :: 0 <= i < |RequestEntries(p)| ==> Owned(p, RequestEntries(p)[i].client)
  }

  /** No client is destroyed after the key-vault client it uses. */
  ghost predicate Ordered(log: seq<Event>) {
    forall i, j :: 0 <= i < j < |log| && log[i].Destroyed? && log[j].Destroyed? ==>
      log[j].c.keyVault != Some(log[i].c)
  }

  ghost predicate CachedBefore(p: Proc, c: Client, n: nat)
    requires n <= |p.persistent|
  {
    exists j :: 0 <= j < n && p.persistent[j].value.client == c
  }

  /** The key vault of a client that this process created and still has is here,
      too: registered earlier, or held by the client's Manager. */
  ghost predicate KeyVaultsLive(p: Proc) {
    && (forall i :: 0 <= i < |p.persistent| && p.persistent[i].value.client.creator == p.pid
                    && p.persistent[i].value.client.keyVault.Some? ==>
          CachedBefore(p, p.persistent[i].value.client.keyVault.value, i))
    && (forall id :: id in p.objs && !p.objs[id].usePersistent && p.objs[id].client.creator == p.pid
                     && p.objs[id].client.keyVault.Some? ==>
          && p.objs[id].keyVault.Some? && p.objs[id].keyVault.value in p.objs
          && p.objs[p.objs[id].keyVault.value].client == p.objs[id].client.keyVault.value)
  }

  ghost predicate RegistryOk(p: Proc) {
    p.pid > NO_PID && EntriesOk(p) && OneEntryEach(p) && LogOk(p) && CacheOk(p)
  }

  ghost predicate ObjectsOk(p: Proc) {
    ManagersOk(p) && HandlesOk(p) && RequestOwned(p)
  }

  ghost predicate Inv(p: Proc) {
    RegistryOk(p) && ObjectsOk(p) && KeyVaultsLive(p) && Ordered(p.log)
  }

  // ----- Constructing -----

  lemma NextObjFree(p: Proc)
    requires ManagersOk(p)
    ensures p.nextObj !in p.objs
  {
    forall id | id in p.objs ensures id != p.nextObj {
      assert ManagerOk(p, id);
    }
  }

  lemma AddManagerAdds(p: Proc, m: Manager)
    ensures AddManager(p, m) == p.(objs := p.objs[p.nextObj := m], nextObj := p.nextObj + 1,
                                   managers := AddManager(p, m).managers)
  {
  }

  lemma OwnedStays(p: Proc, q: Proc, c: Client)
    requires Owned(p, c) && forall id :: id in p.objs ==> id in q.objs && q.objs[id] == p.objs[id]
    ensures Owned(q, c)
  {
    var id :| id in p.objs && !p.objs[id].usePersistent && p.objs[id].client == c;
    assert id in q.objs;
  }

  lemma HasEntryStays(es: seq<Entry<Hash, PClient>>, fs: seq<Entry<Hash, PClient>>, hash: Hash, c: Client)
    requires HasEntry(es, hash, c) && |es| <= |fs|
    requires forall i :: 0 <= i < |es| ==> fs[i].key == es[i].key && fs[i].value.client == es[i].value.client
    ensures HasEntry(fs, hash, c)
  {
    var i :| 0 <= i < |es| && es[i].key == hash && es[i].value.client == c;
    assert fs[i].key == hash;
  }

  /** A Manager is added whose client is registered: a cached one, or one that has
      just been registered. */
  lemma AddManagerKeepsObjects(p: Proc, m: Manager)
    requires ObjectsOk(p) && p.managers.Some? && p.nextObj !in p.objs
    requires ManagerOk(AddManager(p, m), p.nextObj)
    requires m.usePersistent || forall a :: a in p.objs && !p.objs[a].usePersistent ==> p.objs[a].client != m.client
    ensures ObjectsOk(AddManager(p, m))
  {
    hide AddManager;
    AddManagerAdds(p, m);
    var q := AddManager(p, m);
    forall id | id in q.objs ensures ManagerOk(q, id) {
      if id != p.nextObj {
        assert ManagerOk(p, id);
      }
    }
    forall i | 0 <= i < |RequestEntries(q)| ensures Owned(q, RequestEntries(q)[i].client) {
      OwnedStays(p, q, RequestEntries(p)[i].client);
    }
  }

  lemma AddManagerKeepsInv(p: Proc, m: Manager)
    requires Inv(p) && p.managers.Some? && p.nextObj !in p.objs
    requires ManagerOk(AddManager(p, m), p.nextObj)
    requires m.usePersistent
    ensures Inv(AddManager(p, m))
  {
    hide AddManager, ObjectsOk, RegistryOk, KeyVaultsLive, Ordered, ManagerOk;
    AddManagerAdds(p, m);
    AddManagerKeepsObjects(p, m);
    SameRegistry(p, AddManager(p, m));
    AddManagerKeepsKeyVaults(p, AddManager(p, m), m);
  }

  lemma AddManagerKeepsKeyVaults(p: Proc, q: Proc, m: Manager)
    requires KeyVaultsLive(p) && m.usePersistent && p.nextObj !in p.objs
    requires q == p.(objs := p.objs[p.nextObj := m], nextObj := p.nextObj + 1, managers := q.managers)
    ensures KeyVaultsLive(q)
  {
    SameCache(p, q);
  }

  lemma SameRegistry(p: Proc, q: Proc)
    requires RegistryOk(p) && q.pid == p.pid && q.serial == p.serial && q.log == p.log
    requires q.persistent == p.persistent && RequestEntries(q) == RequestEntries(p)
    ensures RegistryOk(q)
  {
    assert forall i :: 0 <= i < |p.persistent| ==> EntryOk(p, p.persistent[i].value);
    assert forall i :: 0 <= i < |RequestEntries(p)| ==> EntryOk(p, RequestEntries(p)[i]);
    assert forall e :: e in p.log ==> Known(p, e.c);
  }

  lemma SameCache(p: Proc, q: Proc)
    requires q.persistent == p.persistent
    ensures forall c, i :: 0 <= i <= |p.persistent| ==> (CachedBefore(p, c, i) <==> CachedBefore(q, c, i))
  {
  }

  /** More clients than are registered may have been created. */
  lemma SerialGrows(p: Proc)
    requires Inv(p)
    ensures Inv(p.(serial := p.serial + 1))
  {
    hide KeyVaultsLive, RegistryOk, ObjectsOk;
    var q := p.(serial := p.serial + 1);
    SerialKeepsRegistry(p, q);
    SerialKeepsObjects(p, q);
    assert KeyVaultsLive(q) by {
      SerialKeepsKeyVaults(p, q);
    }
  }

  lemma SerialKeepsRegistry(p: Proc, q: Proc)
    requires RegistryOk(p) && q == p.(serial := p.serial + 1)
    ensures RegistryOk(q)
  {
    assert forall i :: 0 <= i < |p.persistent| ==> EntryOk(p, p.persistent[i].value);
    assert forall i :: 0 <= i < |RequestEntries(p)| ==> EntryOk(p, RequestEntries(p)[i]);
    assert forall e :: e in p.log ==> Known(p, e.c);
    assert RequestEntries(q) == RequestEntries(p);
  }

  lemma SerialKeepsObjects(p: Proc, q: Proc)
    requires ObjectsOk(p) && q == p.(serial := p.serial + 1)
    ensures ObjectsOk(q)
  {
    forall id | id in q.objs ensures ManagerOk(q, id) {
      assert ManagerOk(p, id);
    }
    forall i | 0 <= i < |RequestEntries(q)| ensures Owned(q, RequestEntries(q)[i].client) {
      OwnedStays(p, q, RequestEntries(p)[i].client);
    }
  }

  lemma SerialKeepsKeyVaults(p: Proc, q: Proc)
    requires KeyVaultsLive(p) && q == p.(serial := p.serial + 1)
    ensures KeyVaultsLive(q)
  {
    SameCache(p, q);
  }

  lemma CachedManagerOk(p: Proc, m: Manager, i: nat)
    requires RegistryOk(p) && i < |p.persistent| && p.persistent[i].key == m.hash && p.persistent[i].value.client == m.client
    requires m.usePersistent && m.keyVault == None && m.hash.pid == m.createdByPid
    ensures ManagerOk(AddManager(p, m), p.nextObj)
  {
    hide OneEntryEach, LogOk, AddManager;
    AddManagerAdds(p, m);
    assert HasEntry(p.persistent, m.hash, m.client);
    assert EntryOk(p, p.persistent[i].value);
  }

  lemma CachedConstruct(p: Proc, config: string, keyVault: Option<nat>, outcome: Outcome)
    requires Inv(p) && CanConstruct(p, keyVault)
    requires Lookup(p.persistent, HashFor(p, config, keyVault)).Some?
    ensures Inv(Construct(p, config, true, keyVault, outcome))
  {
    hide KeyVaultsLive, Ordered, RegistryOk, ManagerOk, RequestOwned, HandlesOk, AddManager;
    var hash := HashFor(p, config, keyVault);
    var e := Lookup(p.persistent, hash).value;
    var i :| 0 <= i < |p.persistent| && p.persistent[i] == Entry(hash, e);
    var m := Manager(hash, true, e.client, p.pid, None);
    NextObjFree(p);
    CachedManagerOk(p, m, i);
    AddManagerKeepsInv(p, m);
  }

  /** `q` is `p` with a client of its own at the end of the persistent registry. */
  ghost predicate Appends(p: Proc, q: Proc, hash: Hash, c: Client) {
    && c.creator == hash.pid == p.pid && c.serial == p.serial
    && !HasKey(p.persistent, hash)
    && q == p.(serial := p.serial + 1, persistent := p.persistent + [Entry(hash, PClient(c, p.pid, NO_PID, true))])
  }

  lemma AppendKeepsRegistry(p: Proc, q: Proc, hash: Hash, c: Client)
    requires RegistryOk(p) && Appends(p, q, hash, c)
    ensures RegistryOk(q)
  {
    assert RequestEntries(q) == RequestEntries(p);
    assert forall i :: 0 <= i < |p.persistent| ==> EntryOk(p, p.persistent[i].value);
    assert forall i :: 0 <= i < |RequestEntries(p)| ==> EntryOk(p, RequestEntries(p)[i]);
    assert forall e :: e in p.log ==> Known(p, e.c);
    assert Reset(c) !in p.log && Destroyed(c) !in p.log;
  }

  lemma AppendKeepsObjects(p: Proc, q: Proc, hash: Hash, c: Client)
    requires ObjectsOk(p) && Appends(p, q, hash, c)
    ensures ObjectsOk(q)
  {
    forall id | id in q.objs ensures ManagerOk(q, id) {
      assert ManagerOk(p, id);
      if q.objs[id].usePersistent {
        HasEntryStays(p.persistent, q.persistent, q.objs[id].hash, q.objs[id].client);
      }
    }
    forall i | 0 <= i < |RequestEntries(q)| ensures Owned(q, RequestEntries(q)[i].client) {
      OwnedStays(p, q, RequestEntries(p)[i].client);
    }
  }

  lemma AppendKeepsKeyVaults(p: Proc, q: Proc, hash: Hash, c: Client)
    requires KeyVaultsLive(p) && Appends(p, q, hash, c)
    requires c.keyVault.Some? ==> CachedBefore(p, c.keyVault.value, |p.persistent|)
    ensures KeyVaultsLive(q)
  {
    assert forall k, i :: 0 <= i <= |p.persistent| && CachedBefore(p, k, i) ==> CachedBefore(q, k, i) by {
      forall k, i | 0 <= i <= |p.persistent| && CachedBefore(p, k, i) ensures CachedBefore(q, k, i) {
        var j :| 0 <= j < i && p.persistent[j].value.client == k;
        assert q.persistent[j].value.client == k;
      }
    }
  }

  /** A key vault's Manager that persists has its client in the registry. */
  lemma KeyVaultCached(p: Proc, id: nat)
    requires ObjectsOk(p) && id in p.objs && p.objs[id].usePersistent
    ensures CachedBefore(p, p.objs[id].client, |p.persistent|)
  {
    assert ManagerOk(p, id);
    var j :| 0 <= j < |p.persistent| && p.persistent[j].key == p.objs[id].hash && p.persistent[j].value.client == p.objs[id].client;
    assert p.persistent[j].value.client == p.objs[id].client;
  }

  lemma PersistentConstructIs(p: Proc, config: string, keyVault: Option<nat>, q: Proc, m: Manager)
    requires CanConstruct(p, keyVault) && KeyVaultAllowed(p, true, keyVault)
    requires Lookup(p.persistent, m.hash).None? && Appends(p, q, m.hash, m.client)
    requires m == Manager(HashFor(p, config, keyVault), true, m.client, p.pid, keyVault)
    requires m.client.keyVault == if keyVault.Some? then Some(p.objs[keyVault.value].client) else None
    ensures Construct(p, config, true, keyVault, Succeeds) == AddManager(q, m)
  {
    PutFresh(p.persistent, m.hash, PClient(m.client, p.pid, NO_PID, true));
  }

  lemma PersistentManagerOk(p: Proc, q: Proc, m: Manager)
    requires ObjectsOk(p) && Appends(p, q, m.hash, m.client) && m.usePersistent && m.createdByPid == p.pid
    requires m.keyVault.Some? ==> m.keyVault.value in p.objs && p.objs[m.keyVault.value].usePersistent
    ensures ManagerOk(AddManager(q, m), q.nextObj)
  {
    AddManagerAdds(q, m);
    assert q.persistent[|p.persistent|].key == m.hash && q.persistent[|p.persistent|].value.client == m.client;
    if m.keyVault.Some? {
      assert ManagerOk(p, m.keyVault.value);
    }
  }

  lemma PersistentConstruct(p: Proc, config: string, keyVault: Option<nat>)
    requires Inv(p) && CanConstruct(p, keyVault) && KeyVaultAllowed(p, true, keyVault)
    requires Lookup(p.persistent, HashFor(p, config, keyVault)).None?
    ensures Inv(Construct(p, config, true, keyVault, Succeeds))
  {
    hide RegistryOk, ObjectsOk, KeyVaultsLive, Ordered, AddManager, Construct, ManagerOk;
    var hash := HashFor(p, config, keyVault);
    var c := Client(p.pid, p.serial, if keyVault.Some? then Some(p.objs[keyVault.value].client) else None);
    var q := p.(serial := p.serial + 1, persistent := p.persistent + [Entry(hash, PClient(c, p.pid, NO_PID, true))]);
    var m := Manager(hash, true, c, p.pid, keyVault);
    ObjectIdsFree(p);
    if keyVault.Some? {
      KeyVaultCached(p, keyVault.value);
    }
    AppendKeepsRegistry(p, q, hash, c);
    AppendKeepsObjects(p, q, hash, c);
    AppendKeepsKeyVaults(p, q, hash, c);
    PersistentManagerOk(p, q, m);
    AddManagerKeepsInv(q, m);
    PersistentConstructIs(p, config, keyVault, q, m);
  }

  /** `q` is `p` with a request-scoped client of its own, and its Manager. */
  ghost predicate AddsRequestClient(p: Proc, q: Proc, m: Manager) {
    && p.request.Some? && p.managers.Some? && !m.usePersistent
    && m.client.creator == m.createdByPid == p.pid && m.client.serial == p.serial
    && q == p.(serial := p.serial + 1, request := Some(p.request.value + [PClient(m.client, p.pid, NO_PID, false)]),
               objs := p.objs[p.nextObj := m], nextObj := p.nextObj + 1, managers := q.managers)
  }

  lemma RequestClientKeepsEntries(p: Proc, q: Proc, m: Manager)
    requires EntriesOk(p) && LogOk(p) && p.pid > NO_PID && AddsRequestClient(p, q, m)
    ensures EntriesOk(q) && LogOk(q)
  {
    var es, fs := RequestEntries(p), RequestEntries(q);
    assert fs == es + [PClient(m.client, p.pid, NO_PID, false)];
    assert Reset(m.client) !in p.log && Destroyed(m.client) !in p.log;
    forall i | 0 <= i < |q.persistent| ensures EntryOk(q, q.persistent[i].value) {
      assert EntryOk(p, p.persistent[i].value);
    }
    forall i | 0 <= i < |fs| ensures EntryOk(q, fs[i]) && !fs[i].isPersistent {
      if i < |es| {
        assert fs[i] == es[i] && EntryOk(p, es[i]);
      }
    }
    assert forall e :: e in p.log ==> Known(p, e.c);
  }

  lemma RequestClientKeepsOneEntry(p: Proc, q: Proc, m: Manager)
    requires EntriesOk(p) && OneEntryEach(p) && AddsRequestClient(p, q, m)
    ensures OneEntryEach(q)
  {
    var es, fs := RequestEntries(p), RequestEntries(q);
    assert fs == es + [PClient(m.client, p.pid, NO_PID, false)];
    assert forall i :: 0 <= i < |es| ==> fs[i] == es[i];
    forall i | 0 <= i < |es| ensures es[i].client != m.client {
      assert EntryOk(p, es[i]);
    }
    forall i | 0 <= i < |p.persistent| ensures p.persistent[i].value.client != m.client {
      assert EntryOk(p, p.persistent[i].value);
    }
  }

  lemma RequestClientKeepsRegistry(p: Proc, q: Proc, m: Manager)
    requires RegistryOk(p) && AddsRequestClient(p, q, m)
    ensures RegistryOk(q)
  {
    hide EntriesOk, OneEntryEach, LogOk;
    RequestClientKeepsEntries(p, q, m);
    RequestClientKeepsOneEntry(p, q, m);
  }

  lemma HasClientStays(es: seq<PClient>, fs: seq<PClient>, c: Client)
    requires HasClient(es, c) && |es| <= |fs|
    requires forall i :: 0 <= i < |es| ==> fs[i].client == es[i].client
    ensures HasClient(fs, c)
  {
    var i :| 0 <= i < |es| && es[i].client == c;
    assert fs[i].client == c;
  }

  lemma RequestClientKeepsManagers(p: Proc, q: Proc, m: Manager)
    requires ManagersOk(p) && AddsRequestClient(p, q, m) && p.nextObj !in p.objs && m.hash.pid == p.pid
    requires m.keyVault.Some? ==> m.keyVault.value in p.objs && !p.objs[m.keyVault.value].usePersistent
    ensures ManagersOk(q)
  {
    var n := |RequestEntries(p)|;
    assert RequestEntries(q)[n].client == m.client && q.objs[p.nextObj] == m;
    forall id | id in q.objs ensures ManagerOk(q, id) {
      if id != p.nextObj {
        assert ManagerOk(p, id);
        if !p.objs[id].usePersistent {
          HasClientStays(RequestEntries(p), RequestEntries(q), p.objs[id].client);
        }
      } else if m.keyVault.Some? {
        assert ManagerOk(p, m.keyVault.value);
      }
    }
    forall a | a in p.objs && !p.objs[a].usePersistent ensures p.objs[a].client != m.client {
      assert ManagerOk(p, a);
    }
  }

  lemma RequestClientKeepsObjects(p: Proc, q: Proc, m: Manager)
    requires ObjectsOk(p) && AddsRequestClient(p, q, m) && p.nextObj !in p.objs && m.hash.pid == p.pid
    requires m.keyVault.Some? ==> m.keyVault.value in p.objs && !p.objs[m.keyVault.value].usePersistent
    ensures ObjectsOk(q)
  {
    hide ManagersOk;
    RequestClientKeepsManagers(p, q, m);
    var n := |RequestEntries(p)|;
    assert RequestEntries(q)[n].client == m.client && q.objs[p.nextObj] == m;
    assert Owned(q, m.client);
    forall i | 0 <= i < |RequestEntries(q)| ensures Owned(q, RequestEntries(q)[i].client) {
      if i < n {
        assert RequestEntries(q)[i] == RequestEntries(p)[i];
        OwnedStays(p, q, RequestEntries(p)[i].client);
      }
    }
  }

  lemma RequestConstruct(p: Proc, config: string, keyVault: Option<nat>)
    requires Inv(p) && CanConstruct(p, keyVault) && KeyVaultAllowed(p, false, keyVault)
    ensures Inv(Construct(p, config, false, keyVault, Succeeds))
  {
    hide RegistryOk, ObjectsOk, Ordered;
    var c := Client(p.pid, p.serial, if keyVault.Some? then Some(p.objs[keyVault.value].client) else None);
    var m := Manager(HashFor(p, config, keyVault), false, c, p.pid, keyVault);
    var q := Construct(p, config, false, keyVault, Succeeds);
    AddManagerAdds(p.(serial := p.serial + 1, request := Some(p.request.value + [PClient(c, p.pid, NO_PID, false)])), m);
    ObjectIdsFree(p);
    RequestClientKeepsRegistry(p, q, m);
    RequestClientKeepsObjects(p, q, m);
    SameCache(p, q);
  }

  lemma ObjectIdsFree(p: Proc)
    requires ObjectsOk(p)
    ensures p.nextObj !in p.objs && KeyVaultsOlder(p)
  {
    NextObjFree(p);
    forall id | id in p.objs ensures p.objs[id].keyVault.Some? ==>
        p.objs[id].keyVault.value < id && p.objs[id].keyVault.value in p.objs {
      assert ManagerOk(p, id);
    }
  }

  // ----- Resetting -----

  lemma {:induction false} PutExisting(es: seq<Entry<Hash, PClient>>, i: nat, v: PClient)
    requires i < |es| && DistinctKeys(es)
    ensures Put(es, es[i].key, v) == es[i := Entry(es[i].key, v)]
  {
    if i > 0 {
      var rest := es[1..];
      assert forall a, b :: 0 <= a < b < |rest| ==> rest[a] == es[a + 1] && rest[b] == es[b + 1];
      PutExisting(rest, i - 1, v);
      assert es[0].key != es[i].key;
      assert es[i := Entry(es[i].key, v)] == [es[0]] + rest[i - 1 := Entry(es[i].key, v)];
    } else {
      assert es[0 := Entry(es[0].key, v)] == [Entry(es[0].key, v)] + es[1..];
    }
  }

  ghost predicate EntryReset(pid: int, c: Client, before: PClient, after: PClient) {
    after == if before.client == c then before.(lastResetByPid := pid) else before
  }

  /** `q` is `p` after client `c` has been reset, unless it had been before. */
  ghost predicate Resets(p: Proc, q: Proc, c: Client) {
    && q == p.(persistent := q.persistent, request := q.request, log := q.log)
    && |q.persistent| == |p.persistent| && |RequestEntries(q)| == |RequestEntries(p)|
    && (forall i :: 0 <= i < |p.persistent| ==>
          q.persistent[i].key == p.persistent[i].key && EntryReset(p.pid, c, p.persistent[i].value, q.persistent[i].value))
    && (forall i :: 0 <= i < |RequestEntries(p)| ==> EntryReset(p.pid, c, RequestEntries(p)[i], RequestEntries(q)[i]))
    && q.log == if Reset(c) in p.log then p.log else p.log + [Reset(c)]
  }

  lemma ResetKeepsLog(p: Proc, q: Proc, c: Client)
    requires LogOk(p) && Resets(p, q, c) && Known(p, c) && c.creator != p.pid
    ensures LogOk(q)
  {
    assert forall e :: e in q.log <==> e in p.log || e == Reset(c);
  }

  lemma ResetKeepsEntriesOk(p: Proc, q: Proc, c: Client)
    requires EntriesOk(p) && Resets(p, q, c)
    ensures EntriesOk(q)
  {
    assert forall e :: e in q.log <==> e in p.log || e == Reset(c);
    forall i | 0 <= i < |q.persistent| ensures EntryOk(q, q.persistent[i].value) {
      assert EntryOk(p, p.persistent[i].value);
    }
    forall i | 0 <= i < |RequestEntries(q)| ensures EntryOk(q, RequestEntries(q)[i]) {
      assert EntryOk(p, RequestEntries(p)[i]);
    }
  }

  lemma ResetKeepsRegistry(p: Proc, q: Proc, c: Client)
    requires RegistryOk(p) && Resets(p, q, c) && Known(p, c) && c.creator != p.pid
    ensures RegistryOk(q)
  {
    hide EntriesOk, LogOk, Known;
    ResetKeepsLog(p, q, c);
    ResetKeepsEntriesOk(p, q, c);
  }

  lemma ResetKeepsRest(p: Proc, q: Proc, c: Client)
    requires ObjectsOk(p) && KeyVaultsLive(p) && Ordered(p.log) && Resets(p, q, c)
    ensures ObjectsOk(q) && KeyVaultsLive(q) && Ordered(q.log)
  {
    forall id | id in q.objs ensures ManagerOk(q, id) {
      assert ManagerOk(p, id);
      if p.objs[id].usePersistent {
        HasEntryStays(p.persistent, q.persistent, p.objs[id].hash, p.objs[id].client);
      } else {
        HasClientStays(RequestEntries(p), RequestEntries(q), p.objs[id].client);
      }
    }
    forall i | 0 <= i < |RequestEntries(q)| ensures Owned(q, RequestEntries(q)[i].client) {
      assert EntryReset(p.pid, c, RequestEntries(p)[i], RequestEntries(q)[i]);
      OwnedStays(p, q, RequestEntries(p)[i].client);
    }
    forall k, i | 0 <= i <= |p.persistent| && CachedBefore(p, k, i) ensures CachedBefore(q, k, i) {
      var j :| 0 <= j < i && p.persistent[j].value.client == k;
      assert q.persistent[j].value.client == k;
    }
  }

  /** The Manager's client has one entry, and that is the one that is reset. */
  lemma ResetOwnResets(p: Proc, id: nat)
    requires RegistryOk(p) && id in p.objs && ManagerOk(p, id)
    ensures Resets(p, ResetOwn(p, p.objs[id]), p.objs[id].client)
  {
    hide LogOk;
    var m := p.objs[id];
    if m.usePersistent {
      var i :| 0 <= i < |p.persistent| && p.persistent[i].key == m.hash && p.persistent[i].value.client == m.client;
      ResetPersistentResets(p, m, i);
    } else {
      var k :| 0 <= k < |RequestEntries(p)| && RequestEntries(p)[k].client == m.client;
      ResetRequestResets(p, m, k);
    }
  }

  lemma ResetPersistentResets(p: Proc, m: Manager, i: nat)
    requires EntriesOk(p) && OneEntryEach(p) && DistinctKeys(p.persistent) && m.usePersistent
    requires i < |p.persistent| && p.persistent[i].key == m.hash && p.persistent[i].value.client == m.client
    ensures Resets(p, ResetOwn(p, m), m.client)
  {
    LookupFinds(p.persistent, i);
    PutExisting(p.persistent, i, ResetEntry(p.persistent[i].value, p.pid));
    assert EntryOk(p, p.persistent[i].value);
  }

  lemma ResetRequestResets(p: Proc, m: Manager, k: nat)
    requires EntriesOk(p) && OneEntryEach(p) && !m.usePersistent
    requires k < |RequestEntries(p)| && RequestEntries(p)[k].client == m.client
    ensures Resets(p, ResetOwn(p, m), m.client)
  {
    var i := IndexOf(RequestEntries(p), m.client);
    assert i == k;
    assert EntryOk(p, RequestEntries(p)[i]);
  }

  lemma {:induction false} LookupFinds(es: seq<Entry<Hash, PClient>>, i: nat)
    requires i < |es| && DistinctKeys(es)
    ensures Lookup(es, es[i].key) == Some(es[i].value)
  {
    var r := Lookup(es, es[i].key);
    assert HasKey(es, es[i].key);
    var j :| 0 <= j < |es| && es[j] == Entry(es[i].key, r.value);
    assert i == j;
  }

  lemma {:induction false} ResetOnceKeepsInv(p: Proc, id: nat)
    requires Inv(p) && KeyVaultsOlder(p) && id in p.objs && p.objs[id].createdByPid != p.pid
    ensures Inv(ResetOnce(p, id))
    decreases id
  {
    hide RegistryOk, KeyVaultsLive, Ordered;
    var m := p.objs[id];
    assert ManagerOk(p, id);
    var q := p;
    if m.keyVault.Some? {
      ResetOnceKeepsInv(p, m.keyVault.value);
      q := ResetOnce(p, m.keyVault.value);
    }
    assert ManagerOk(q, id);
    ResetOwnResets(q, id);
    ResetKeepsRegistry(q, ResetOwn(q, m), m.client);
    ResetKeepsRest(q, ResetOwn(q, m), m.client);
  }

  // ----- Freeing -----

  /** `q` is `p` without the request-scoped entry `i`. */
  ghost predicate Removes(p: Proc, q: Proc, i: nat) {
    && p.request.Some? && i < |p.request.value|
    && q == p.(request := Some(Without(p.request.value, i)), managers := q.managers, objs := q.objs,
               log := p.log + DestroyEvents(p.request.value[i], p.pid))
  }

  lemma RemoveKeepsLog(p: Proc, q: Proc, i: nat)
    requires EntriesOk(p) && LogOk(p) && Removes(p, q, i)
    ensures LogOk(q)
  {
    var e := RequestEntries(p)[i];
    assert EntryOk(p, e);
    assert forall v :: v in q.log <==> v in p.log || v in DestroyEvents(e, p.pid);
  }

  lemma RemoveKeepsEntries(p: Proc, q: Proc, i: nat)
    requires EntriesOk(p) && OneEntryEach(p) && Removes(p, q, i)
    ensures EntriesOk(q)
  {
    var es, e := RequestEntries(p), RequestEntries(p)[i];
    assert forall v :: v in q.log <==> v in p.log || v in DestroyEvents(e, p.pid);
    forall j | 0 <= j < |q.persistent| ensures EntryOk(q, q.persistent[j].value) {
      assert EntryOk(p, p.persistent[j].value) && p.persistent[j].value.client != e.client;
    }
    forall j | 0 <= j < |RequestEntries(q)| ensures EntryOk(q, RequestEntries(q)[j]) {
      var k := if j < i then j else j + 1;
      assert RequestEntries(q)[j] == es[k] && EntryOk(p, es[k]) && es[k].client != e.client;
    }
  }

  lemma RemoveKeepsRegistry(p: Proc, q: Proc, i: nat)
    requires RegistryOk(p) && Removes(p, q, i)
    ensures RegistryOk(q)
  {
    hide EntriesOk, LogOk, OneEntryEach;
    RemoveKeepsLog(p, q, i);
    RemoveKeepsEntries(p, q, i);
    RemoveKeepsOneEntry(p, q, i);
  }

  lemma RemoveKeepsOneEntry(p: Proc, q: Proc, i: nat)
    requires OneEntryEach(p) && Removes(p, q, i)
    ensures OneEntryEach(q)
  {
    var es, fs := RequestEntries(p), RequestEntries(q);
    assert q.persistent == p.persistent;
    assert forall j :: 0 <= j < |fs| ==> fs[j] == es[if j < i then j else j + 1];
    forall j, k | 0 <= j < k < |fs| ensures fs[j].client != fs[k].client {
      assert es[if j < i then j else j + 1].client != es[if k < i then k else k + 1].client;
    }
  }

  /** Freeing an unreferenced Manager keeps the others: their clients stay where
      they are, unless it is this Manager's client that goes. */
  lemma FreeKeepsManagers(p: Proc, q: Proc, id: nat)
    requires ManagersOk(p) && id in p.objs && Unreferenced(p, id)
    requires q == p.(request := q.request, managers := q.managers, objs := p.objs - {id}, log := q.log)
    requires forall o :: o in q.objs && !p.objs[o].usePersistent ==> HasClient(RequestEntries(q), p.objs[o].client)
    ensures ManagersOk(q)
  {
    forall o | o in q.objs ensures ManagerOk(q, o) {
      assert ManagerOk(p, o);
    }
  }

  lemma OthersKeepClients(p: Proc, q: Proc, id: nat, i: nat, o: nat)
    requires ManagersOk(p) && id in p.objs && Removes(p, q, i) && p.request.value[i].client == p.objs[id].client
    requires !p.objs[id].usePersistent
    requires o in p.objs && o != id && !p.objs[o].usePersistent
    ensures HasClient(RequestEntries(q), p.objs[o].client)
  {
    assert ManagerOk(p, o);
    var k :| 0 <= k < |p.request.value| && p.request.value[k].client == p.objs[o].client;
    assert q.request.value[if k < i then k else k - 1].client == p.objs[o].client;
  }

  lemma FreeKeepsOwners(p: Proc, q: Proc, id: nat, j: nat, k: nat)
    requires RequestOwned(p) && id in p.objs && q.objs == p.objs - {id}
    requires j < |RequestEntries(q)| && k < |RequestEntries(p)| && RequestEntries(q)[j] == RequestEntries(p)[k]
    requires p.objs[id].usePersistent || RequestEntries(p)[k].client != p.objs[id].client
    ensures Owned(q, RequestEntries(q)[j].client)
  {
    var c := RequestEntries(p)[k].client;
    assert Owned(p, c);
    var o :| o in p.objs && !p.objs[o].usePersistent && p.objs[o].client == c;
    assert o in q.objs;
  }

  /** The key vault's client is not destroyed before: the freed Manager held it. */
  lemma FreeKeepsOrder(p: Proc, id: nat, i: nat)
    requires RegistryOk(p) && ObjectsOk(p) && KeyVaultsLive(p) && Ordered(p.log)
    requires id in p.objs && !p.objs[id].usePersistent
    requires i < |RequestEntries(p)| && RequestEntries(p)[i].client == p.objs[id].client
    ensures Ordered(p.log + DestroyEvents(RequestEntries(p)[i], p.pid))
  {
    var e := RequestEntries(p)[i];
    assert EntryOk(p, e);
    if e.createdByPid == p.pid && e.client.keyVault.Some? {
      var kv := p.objs[id].keyVault.value;
      assert ManagerOk(p, id) && ManagerOk(p, kv);
      var k :| 0 <= k < |RequestEntries(p)| && RequestEntries(p)[k].client == p.objs[kv].client;
      assert EntryOk(p, RequestEntries(p)[k]);
      assert Destroyed(e.client.keyVault.value) !in p.log;
    }
  }

  lemma FreeKeepsHandles(p: Proc, q: Proc, id: nat)
    requires HandlesOk(p) && id in p.objs && Unreferenced(p, id)
    requires q.objs == p.objs - {id} && q.handles == p.handles && q.nextObj == p.nextObj && q.pid == p.pid
    ensures HandlesOk(q)
  {
  }

  lemma FreePersistentKeepsObjects(p: Proc, q: Proc, id: nat)
    requires ObjectsOk(p) && id in p.objs && Unreferenced(p, id) && p.objs[id].usePersistent
    requires q == p.(managers := q.managers, objs := p.objs - {id})
    ensures ObjectsOk(q)
  {
    hide HandlesOk, Unreferenced;
    FreeKeepsHandles(p, q, id);
    forall o | o in q.objs && !p.objs[o].usePersistent ensures HasClient(RequestEntries(q), p.objs[o].client) {
      assert ManagerOk(p, o);
    }
    FreeKeepsManagers(p, q, id);
    forall j | 0 <= j < |RequestEntries(q)| ensures Owned(q, RequestEntries(q)[j].client) {
      FreeKeepsOwners(p, q, id, j, j);
    }
  }

  lemma FreePersistentKeepsInv(p: Proc, id: nat)
    requires Inv(p) && id in p.objs && Unreferenced(p, id) && p.objs[id].usePersistent
    ensures Inv(Free(p, id))
  {
    hide RegistryOk, ObjectsOk, KeyVaultsLive, Ordered, Unreferenced;
    var q := Free(p, id);
    SameRegistry(p, q);
    FreePersistentKeepsObjects(p, q, id);
    FreeKeepsKeyVaults(p, q, id);
  }

  lemma RemovalKeepsObjects(p: Proc, q: Proc, id: nat, i: nat)
    requires ObjectsOk(p) && OneEntryEach(p) && id in p.objs && Unreferenced(p, id) && !p.objs[id].usePersistent
    requires Removes(p, q, i) && p.request.value[i].client == p.objs[id].client && q.objs == p.objs - {id}
    ensures ObjectsOk(q)
  {
    hide HandlesOk, Unreferenced;
    FreeKeepsHandles(p, q, id);
    forall o | o in q.objs && !p.objs[o].usePersistent ensures HasClient(RequestEntries(q), p.objs[o].client) {
      OthersKeepClients(p, q, id, i, o);
    }
    FreeKeepsManagers(p, q, id);
    forall j | 0 <= j < |RequestEntries(q)| ensures Owned(q, RequestEntries(q)[j].client) {
      FreeKeepsOwners(p, q, id, j, if j < i then j else j + 1);
    }
  }

  lemma FreeKeepsKeyVaults(p: Proc, q: Proc, id: nat)
    requires KeyVaultsLive(p) && id in p.objs && Unreferenced(p, id)
    requires q.pid == p.pid && q.persistent == p.persistent && q.objs == p.objs - {id}
    ensures KeyVaultsLive(q)
  {
    SameCache(p, q);
  }

  /** Freeing a request-scoped Manager removes the one entry of its client. */
  lemma FreeRemoves(p: Proc, id: nat) returns (i: nat)
    requires ObjectsOk(p) && id in p.objs && !p.objs[id].usePersistent
    ensures i < |RequestEntries(p)| && RequestEntries(p)[i].client == p.objs[id].client
    ensures Removes(p, Free(p, id), i) && Free(p, id).objs == p.objs - {id}
    ensures Free(p, id).persistent == p.persistent && Free(p, id).pid == p.pid
  {
    assert ManagerOk(p, id);
    var es := RequestEntries(p);
    var k :| 0 <= k < |es| && es[k].client == p.objs[id].client;
    i := IndexOf(es, p.objs[id].client);
  }

  lemma FreeRequestKeepsInv(p: Proc, id: nat)
    requires Inv(p) && id in p.objs && Unreferenced(p, id) && !p.objs[id].usePersistent
    ensures Inv(Free(p, id))
  {
    hide ObjectsOk, KeyVaultsLive, Ordered, Free, Unreferenced;
    var q := Free(p, id);
    var i := FreeRemoves(p, id);
    RemoveKeepsRegistry(p, q, i);
    FreeKeepsOrder(p, id, i);
    RemovalKeepsObjects(p, q, id, i);
    FreeKeepsKeyVaults(p, q, id);
  }

  // ----- Shutdown -----

  /** By the time a request ends, its registry of clients is empty. */
  lemma RequestRegistryEmpty(p: Proc)
    requires RequestOwned(p) && p.objs == map[]
    ensures RequestEntries(p) == []
  {
    assert RequestEntries(p) != [] ==> Owned(p, RequestEntries(p)[0].client);
  }

  /** Destroying the last persistent entry. */
  function PopPersistent(p: Proc): Proc
    requires |p.persistent| > 0
  {
    var n := |p.persistent| - 1;
    p.(persistent := p.persistent[..n], log := p.log + DestroyEvents(p.persistent[n].value, p.pid))
  }

  lemma PopKeepsRegistry(p: Proc)
    requires RegistryOk(p) && RequestEntries(p) == [] && |p.persistent| > 0
    ensures RegistryOk(PopPersistent(p))
  {
    var q, e := PopPersistent(p), p.persistent[|p.persistent| - 1].value;
    assert EntryOk(p, e);
    assert forall v :: v in q.log <==> v in p.log || v in DestroyEvents(e, p.pid);
    assert forall i :: 0 <= i < |q.persistent| ==> EntryOk(p, p.persistent[i].value) && EntryOk(q, q.persistent[i].value);
  }

  /** The key vault's client is registered before, so it is still there. */
  lemma PopKeepsOrder(p: Proc)
    requires RegistryOk(p) && KeyVaultsLive(p) && Ordered(p.log) && |p.persistent| > 0
    ensures Ordered(PopPersistent(p).log)
  {
    var n := |p.persistent| - 1;
    var e := p.persistent[n].value;
    assert EntryOk(p, e);
    if e.createdByPid == p.pid && e.client.keyVault.Some? {
      assert CachedBefore(p, e.client.keyVault.value, n);
      var j :| 0 <= j < n && p.persistent[j].value.client == e.client.keyVault.value;
      assert EntryOk(p, p.persistent[j].value);
    }
  }

  lemma PopKeepsInv(p: Proc)
    requires Inv(p) && p.objs == map[] && |p.persistent| > 0
    ensures Inv(PopPersistent(p))
  {
    hide RegistryOk, Ordered;
    var q, n := PopPersistent(p), |p.persistent| - 1;
    RequestRegistryEmpty(p);
    PopKeepsRegistry(p);
    PopKeepsOrder(p);
    forall i, c | 0 <= i <= n && CachedBefore(p, c, i) ensures CachedBefore(q, c, i) {
      var j :| 0 <= j < i && p.persistent[j].value.client == c;
      assert q.persistent[j].value.client == c;
    }
  }

  /** GSHUTDOWN's reverse order is one entry after the other. */
  lemma {:induction false} ShutdownKeepsInv(p: Proc)
    requires Inv(p) && p.objs == map[]
    ensures Inv(p.(persistent := [], log := p.log + DestroyReverse(p.persistent, p.pid)))
    decreases |p.persistent|
  {
    hide RegistryOk, ObjectsOk, KeyVaultsLive, Ordered;
    var n := |p.persistent|;
    if n == 0 {
      assert p.log + [] == p.log;
      assert p == p.(persistent := [], log := p.log + DestroyReverse(p.persistent, p.pid));
    } else {
      PopKeepsInv(p);
      ShutdownKeepsInv(PopPersistent(p));
      assert p.log + (DestroyEvents(p.persistent[n - 1].value, p.pid) + DestroyReverse(p.persistent[..n - 1], p.pid))
             == p.log + DestroyEvents(p.persistent[n - 1].value, p.pid) + DestroyReverse(p.persistent[..n - 1], p.pid);
    }
  }

  // ----- Every step -----

  lemma SameStateKeepsInv(p: Proc, q: Proc)
    requires Inv(p) && RequestEntries(q) == RequestEntries(p)
    requires q == p.(request := q.request, managers := q.managers, alive := q.alive)
    ensures Inv(q)
  {
    SameRegistry(p, q);
    forall id | id in q.objs ensures ManagerOk(q, id) {
      assert ManagerOk(p, id);
    }
    forall i | 0 <= i < |RequestEntries(q)| ensures Owned(q, RequestEntries(q)[i].client) {
      OwnedStays(p, q, RequestEntries(p)[i].client);
    }
    SameCache(p, q);
  }

  lemma HandleStepsKeepInv(p: Proc, handles: map<nat, Handle>, n: nat)
    requires Inv(p) && p.nextObj <= n
    requires HandlesOk(p.(handles := handles, nextObj := n))
    ensures Inv(p.(handles := handles, nextObj := n))
  {
    var q := p.(handles := handles, nextObj := n);
    SameRegistry(p, q);
    forall id | id in q.objs ensures ManagerOk(q, id) {
      assert ManagerOk(p, id);
    }
    forall i | 0 <= i < |RequestEntries(q)| ensures Owned(q, RequestEntries(q)[i].client) {
      OwnedStays(p, q, RequestEntries(p)[i].client);
    }
    SameCache(p, q);
  }

  lemma StepKeepsInv(p: Proc, step: Step)
    requires Inv(p) && Enabled(p, step)
    ensures Inv(Apply(p, step))
  {
    hide RegistryOk, ManagersOk, RequestOwned, KeyVaultsLive, Ordered;
    match step {
      case DoConstruct(config, usePersistent, keyVault, outcome) =>
        if usePersistent && Lookup(p.persistent, HashFor(p, config, keyVault)).Some? {
          CachedConstruct(p, config, keyVault, outcome);
        } else if outcome == FailsEarly {
        } else if outcome == FailsLate || !KeyVaultAllowed(p, usePersistent, keyVault) {
          SerialGrows(p);
        } else if usePersistent {
          PersistentConstruct(p, config, keyVault);
        } else {
          RequestConstruct(p, config, keyVault);
        }
      case DoExecute(id) =>
        if p.objs[id].createdByPid != p.pid {
          ResetOnceKeepsInv(p, id);
        }
      case DoNewHandle(manager) =>
        HandleStepsKeepInv(p, p.handles[p.nextObj := Handle(p.pid, manager)], p.nextObj + 1);
      case DoUseHandle(h) =>
        if p.handles[h].createdByPid != p.pid {
          ResetOnceKeepsInv(p, p.handles[h].manager);
        }
      case DoDropHandle(h) =>
        HandleStepsKeepInv(p, p.handles - {h}, p.nextObj);
      case DoFree(id) =>
        if p.objs[id].usePersistent {
          FreePersistentKeepsInv(p, id);
        } else {
          FreeRequestKeepsInv(p, id);
        }
      case DoRequestStartup =>
        SameStateKeepsInv(p, RequestStartup(p));
      case DoRequestShutdown =>
        RequestRegistryEmpty(p);
        assert p.log + [] == p.log;
        SameStateKeepsInv(p, RequestShutdown(p));
      case DoProcessShutdown =>
        ShutdownKeepsInv(p);
        SameStateKeepsInv(ProcessShutdown(p).(alive := p.alive), ProcessShutdown(p));
    }
  }

  // ----- Several processes -----

  datatype SystemStep = Local(pid: int, step: Step) | Fork(parent: int, child: int)

  /** All processes there have ever been, by process ID. */
  type System = map<int, Proc>

  /** A fork yields a process ID that was not used before. */
  predicate SystemEnabled(s: System, step: SystemStep) {
    match step
    case Local(pid, l) => pid in s && Enabled(s[pid], l)
    case Fork(parent, child) => parent in s && s[parent].alive && child !in s && child > NO_PID
  }

  function SystemApply(s: System, step: SystemStep): System
    requires SystemEnabled(s, step)
  {
    match step
    case Local(pid, l) => s[pid := Apply(s[pid], l)]
    case Fork(parent, child) => s[child := ForkChild(s[parent], child)]
  }

  /** A run; steps that are not enabled when their turn comes do not happen. */
  function Run(s: System, steps: seq<SystemStep>): System
    decreases |steps|
  {
    if |steps| == 0 then s
    else Run(if SystemEnabled(s, steps[0]) then SystemApply(s, steps[0]) else s, steps[1..])
  }

  function FirstProcess(pid: int): System {
    map[pid := Proc(pid, [], None, None, map[], map[], 0, 0, true, [])]
  }

  /** Every process that an entry or a Manager mentions is one of `pids`. */
  ghost predicate Mentions(p: Proc, pids: set<int>) {
    && (forall i :: 0 <= i < |p.persistent| ==> EntryMentions(p.persistent[i].value, pids))
    && (forall i :: 0 <= i < |RequestEntries(p)| ==> EntryMentions(RequestEntries(p)[i], pids))
    && (forall id :: id in p.objs ==> p.objs[id].createdByPid in pids)
  }

  predicate EntryMentions(e: PClient, pids: set<int>) {
    e.client.creator in pids && (e.lastResetByPid in pids || e.lastResetByPid == NO_PID)
  }

  ghost predicate SystemInv(s: System) {
    forall pid :: pid in s ==> s[pid].pid == pid && Inv(s[pid]) && Mentions(s[pid], s.Keys)
  }

  /** In the child, every client is another process's. */
  lemma ForkKeepsRegistry(p: Proc, pid: int, pids: set<int>)
    requires RegistryOk(p) && Mentions(p, pids) && pid !in pids && pid > NO_PID
    ensures RegistryOk(ForkChild(p, pid)) && KeyVaultsLive(ForkChild(p, pid).(objs := map[]))
  {
    assert forall i :: 0 <= i < |p.persistent| ==> EntryOk(p, p.persistent[i].value) && EntryMentions(p.persistent[i].value, pids);
    assert forall i :: 0 <= i < |RequestEntries(p)| ==> EntryOk(p, RequestEntries(p)[i]) && EntryMentions(RequestEntries(p)[i], pids);
    assert RequestEntries(ForkChild(p, pid)) == RequestEntries(p);
  }

  lemma ForkKeepsObjects(p: Proc, pid: int, pids: set<int>)
    requires ObjectsOk(p) && Mentions(p, pids) && pid !in pids
    ensures ObjectsOk(ForkChild(p, pid))
    ensures forall id :: id in p.objs ==> p.objs[id].client.creator != pid
  {
    var q := ForkChild(p, pid);
    forall id | id in q.objs ensures ManagerOk(q, id) && p.objs[id].client.creator != pid {
      assert ManagerOk(p, id);
    }
    forall i | 0 <= i < |RequestEntries(q)| ensures Owned(q, RequestEntries(q)[i].client) {
      OwnedStays(p, q, RequestEntries(p)[i].client);
    }
  }

  lemma ForkKeepsInv(p: Proc, pid: int, pids: set<int>)
    requires Inv(p) && Mentions(p, pids) && pid !in pids && pid > NO_PID
    ensures Inv(ForkChild(p, pid)) && Mentions(ForkChild(p, pid), pids)
  {
    hide RegistryOk, ObjectsOk;
    var q := ForkChild(p, pid);
    assert RequestEntries(q) == RequestEntries(p);
    ForkKeepsRegistry(p, pid, pids);
    ForkKeepsObjects(p, pid, pids);
    SameCache(q.(objs := map[]), q);
  }

  lemma {:induction false} ResetOnceMentions(p: Proc, id: nat, pids: set<int>)
    requires Inv(p) && KeyVaultsOlder(p) && id in p.objs && Mentions(p, pids) && p.pid in pids
    requires p.objs[id].createdByPid != p.pid
    ensures Mentions(ResetOnce(p, id), pids)
    decreases id
  {
    hide RegistryOk, KeyVaultsLive, Ordered;
    var m, q := p.objs[id], p;
    assert ManagerOk(p, id);
    if m.keyVault.Some? {
      ResetOnceMentions(p, m.keyVault.value, pids);
      ResetOnceKeepsInv(p, m.keyVault.value);
      q := ResetOnce(p, m.keyVault.value);
    }
    assert ManagerOk(q, id);
    ResetOwnResets(q, id);
    ResetMentions(q, ResetOwn(q, m), m.client, pids);
  }

  lemma ResetMentions(p: Proc, q: Proc, c: Client, pids: set<int>)
    requires Mentions(p, pids) && p.pid in pids && Resets(p, q, c)
    ensures Mentions(q, pids)
  {
  }

  lemma {:induction false} PutMentions(es: seq<Entry<Hash, PClient>>, k: Hash, v: PClient, pids: set<int>)
    requires forall i :: 0 <= i < |es| ==> EntryMentions(es[i].value, pids)
    requires EntryMentions(v, pids)
    ensures forall i :: 0 <= i < |Put(es, k, v)| ==> EntryMentions(Put(es, k, v)[i].value, pids)
  {
    if |es| > 0 && es[0].key != k {
      PutMentions(es[1..], k, v, pids);
    }
  }

  lemma AddManagerMentions(p: Proc, m: Manager, pids: set<int>)
    requires Mentions(p, pids) && m.createdByPid in pids
    ensures Mentions(AddManager(p, m), pids)
  {
    hide AddManager;
    AddManagerAdds(p, m);
    assert RequestEntries(AddManager(p, m)) == RequestEntries(p);
  }

  lemma RegisterMentions(p: Proc, hash: Hash, c: Client, persistent: bool, pids: set<int>)
    requires p.request.Some? && Mentions(p, pids) && c.creator in pids
    ensures Mentions(Register(p, hash, c, persistent), pids)
  {
    PutMentions(p.persistent, hash, PClient(c, p.pid, NO_PID, persistent), pids);
    var q := Register(p, hash, c, persistent);
    assert forall i :: 0 <= i < |RequestEntries(p)| ==> RequestEntries(q)[i] == RequestEntries(p)[i];
  }

  lemma ConstructMentions(p: Proc, config: string, usePersistent: bool, keyVault: Option<nat>, outcome: Outcome, pids: set<int>)
    requires CanConstruct(p, keyVault) && Mentions(p, pids) && p.pid in pids
    ensures Mentions(Construct(p, config, usePersistent, keyVault, outcome), pids)
  {
    hide AddManager, Register, EntryMentions;
    var q, hash := p.(serial := p.serial + 1), HashFor(p, config, keyVault);
    var c := Client(p.pid, p.serial, if keyVault.Some? then Some(p.objs[keyVault.value].client) else None);
    assert Mentions(q, pids) by {
      assert RequestEntries(q) == RequestEntries(p);
    }
    RegisterMentions(q, hash, c, usePersistent, pids);
    AddManagerMentions(Register(q, hash, c, usePersistent), Manager(hash, usePersistent, c, p.pid, keyVault), pids);
    var cached := Lookup(p.persistent, hash);
    if cached.Some? {
      AddManagerMentions(p, Manager(hash, true, cached.value.client, p.pid, None), pids);
    }
  }

  lemma FreeMentions(p: Proc, id: nat, pids: set<int>)
    requires id in p.objs && Mentions(p, pids)
    ensures Mentions(Free(p, id), pids)
  {
    var es := RequestEntries(p);
    var i := IndexOf(es, p.objs[id].client);
    if i < |es| {
      assert forall j :: 0 <= j < |es| - 1 ==> Without(es, i)[j] == es[if j < i then j else j + 1];
    }
  }

  lemma StepMentions(p: Proc, step: Step, pids: set<int>)
    requires Inv(p) && Enabled(p, step) && Mentions(p, pids) && p.pid in pids
    ensures Mentions(Apply(p, step), pids)
  {
    hide RegistryOk, ObjectsOk, KeyVaultsLive, Ordered;
    match step {
      case DoConstruct(config, usePersistent, keyVault, outcome) =>
        ConstructMentions(p, config, usePersistent, keyVault, outcome, pids);
      case DoExecute(id) =>
        if p.objs[id].createdByPid != p.pid {
          ResetOnceMentions(p, id, pids);
        }
      case DoUseHandle(h) =>
        HandleOlder(p, h);
        if p.handles[h].createdByPid != p.pid {
          ResetOnceMentions(p, p.handles[h].manager, pids);
        }
      case DoFree(id) => FreeMentions(p, id, pids);
      case DoRequestShutdown =>
        assert RequestEntries(Apply(p, step)) == [];
      case _ =>
        assert RequestEntries(Apply(p, step)) == RequestEntries(p);
    }
  }

  lemma HandleOlder(p: Proc, h: nat)
    requires ObjectsOk(p) && h in p.handles
    ensures p.handles[h].manager in p.objs
    ensures p.handles[h].createdByPid != p.pid ==> p.objs[p.handles[h].manager].createdByPid != p.pid
  {
  }

  lemma MorePids(p: Proc, pids: set<int>, more: set<int>)
    requires Mentions(p, pids) && pids <= more
    ensures Mentions(p, more)
  {
  }

  lemma SystemStepKeepsInv(s: System, step: SystemStep)
    requires SystemInv(s) && SystemEnabled(s, step)
    ensures SystemInv(SystemApply(s, step))
  {
    hide Inv, Mentions, Enabled, Apply;
    var t := SystemApply(s, step);
    match step {
      case Local(pid, l) =>
        StepKeepsInv(s[pid], l);
        StepMentions(s[pid], l, s.Keys);
        StepKeepsPid(s[pid], l);
        assert t.Keys == s.Keys;
      case Fork(parent, child) =>
        ForkKeepsInv(s[parent], child, s.Keys);
        assert t.Keys == s.Keys + {child};
        forall pid | pid in t ensures t[pid].pid == pid && Inv(t[pid]) && Mentions(t[pid], t.Keys) {
          MorePids(t[pid], s.Keys, t.Keys);
        }
    }
  }

  lemma StepKeepsPid(p: Proc, step: Step)
    requires Enabled(p, step)
    ensures Apply(p, step).pid == p.pid
  {
  }

  /** The invariant holds on every run. */
  lemma {:induction false} RunKeepsInv(s: System, steps: seq<SystemStep>)
    requires SystemInv(s)
    ensures SystemInv(Run(s, steps))
    decreases |steps|
  {
    if |steps| > 0 {
      if SystemEnabled(s, steps[0]) {
        SystemStepKeepsInv(s, steps[0]);
        RunKeepsInv(SystemApply(s, steps[0]), steps[1..]);
      } else {
        RunKeepsInv(s, steps[1..]);
      }
    }
  }

  lemma RunInv(first: int, steps: seq<SystemStep>)
    requires first > NO_PID
    ensures SystemInv(Run(FirstProcess(first), steps))
  {
    var s := FirstProcess(first);
    assert SystemInv(s) by {
      assert RequestEntries(s[first]) == [];
    }
    RunKeepsInv(s, steps);
  }

  // ----- The main results -----

  /** On every run, in every process: a client is destroyed only by the process that
      created it, and once; it is reset only by other processes, and once in each. */
  lemma ClientsDestroyedAndResetOnce(first: int, steps: seq<SystemStep>)
    requires first > NO_PID
    ensures var s := Run(FirstProcess(first), steps);
            && (forall pid, i :: pid in s && 0 <= i < |s[pid].log| && s[pid].log[i].Destroyed? ==> s[pid].log[i].c.creator == pid)
            && (forall pid, i :: pid in s && 0 <= i < |s[pid].log| && s[pid].log[i].Reset? ==> s[pid].log[i].c.creator != pid)
            && (forall pid, i, j :: pid in s && 0 <= i < j < |s[pid].log| ==> s[pid].log[i] != s[pid].log[j])
            && (forall a, b, c :: a in s && b in s && Destroyed(c) in s[a].log && Destroyed(c) in s[b].log ==> a == b)
  {
    RunInv(first, steps);
    var s := Run(FirstProcess(first), steps);
    forall pid, i | pid in s && 0 <= i < |s[pid].log|
      ensures s[pid].log[i].Destroyed? ==> s[pid].log[i].c.creator == pid
      ensures s[pid].log[i].Reset? ==> s[pid].log[i].c.creator != pid
    {
      assert s[pid].log[i] in s[pid].log;
    }
  }

  /** On every run, no client outlives the key vault's client it uses: a client
      that its process still has finds its key vault's client not destroyed, and a
      process destroys a client before its key vault's, at shutdown as well. */
  lemma KeyVaultsOutliveClients(first: int, steps: seq<SystemStep>, pid: int)
    requires first > NO_PID && pid in Run(FirstProcess(first), steps)
    ensures var p := Run(FirstProcess(first), steps)[pid];
            && Ordered(p.log)
            && (forall i :: 0 <= i < |p.persistent| && p.persistent[i].value.client.creator == pid
                            && p.persistent[i].value.client.keyVault.Some? ==>
                  Destroyed(p.persistent[i].value.client.keyVault.value) !in p.log)
            && (forall i :: 0 <= i < |RequestEntries(p)| && RequestEntries(p)[i].client.creator == pid
                            && RequestEntries(p)[i].client.keyVault.Some? ==>
                  Destroyed(RequestEntries(p)[i].client.keyVault.value) !in p.log)
  {
    RunInv(first, steps);
    var p := Run(FirstProcess(first), steps)[pid];
    forall i | 0 <= i < |p.persistent| && p.persistent[i].value.client.creator == pid && p.persistent[i].value.client.keyVault.Some?
      ensures Destroyed(p.persistent[i].value.client.keyVault.value) !in p.log
    {
      assert CachedBefore(p, p.persistent[i].value.client.keyVault.value, i);
      var j :| 0 <= j < i && p.persistent[j].value.client == p.persistent[i].value.client.keyVault.value;
      assert EntryOk(p, p.persistent[j].value);
    }
    forall i | 0 <= i < |RequestEntries(p)| && RequestEntries(p)[i].client.creator == pid && RequestEntries(p)[i].client.keyVault.Some?
      ensures Destroyed(RequestEntries(p)[i].client.keyVault.value) !in p.log
    {
      RequestKeyVaultLive(p, i);
    }
  }

  lemma RequestKeyVaultLive(p: Proc, i: nat)
    requires Inv(p) && i < |RequestEntries(p)| && RequestEntries(p)[i].client.creator == p.pid
    requires RequestEntries(p)[i].client.keyVault.Some?
    ensures Destroyed(RequestEntries(p)[i].client.keyVault.value) !in p.log
  {
    var c := RequestEntries(p)[i].client;
    assert Owned(p, c);
    var id :| id in p.objs && !p.objs[id].usePersistent && p.objs[id].client == c;
    var kv := p.objs[id].keyVault.value;
    assert ManagerOk(p, id) && ManagerOk(p, kv);
    var k :| 0 <= k < |RequestEntries(p)| && RequestEntries(p)[k].client == p.objs[kv].client;
    assert EntryOk(p, RequestEntries(p)[k]);
  }

  /** On every run, the client of a persistent Manager is the one registered for
      its hash, two persistent Managers of a process share a client if and only if
      their hashes are equal, and a Manager's client was created by the process
      that constructed the Manager, never by a parent. */
  lemma PersistentCache(first: int, steps: seq<SystemStep>, pid: int)
    requires first > NO_PID && pid in Run(FirstProcess(first), steps)
    ensures var p := Run(FirstProcess(first), steps)[pid];
            && (forall id :: id in p.objs && p.objs[id].usePersistent ==>
                  Lookup(p.persistent, p.objs[id].hash).Some?
                  && Lookup(p.persistent, p.objs[id].hash).value.client == p.objs[id].client)
            && (forall a, b :: a in p.objs && b in p.objs && p.objs[a].usePersistent && p.objs[b].usePersistent ==>
                  (p.objs[a].client == p.objs[b].client <==> p.objs[a].hash == p.objs[b].hash))
            && (forall id :: id in p.objs ==> p.objs[id].client.creator == p.objs[id].createdByPid == p.objs[id].hash.pid)
  {
    RunInv(first, steps);
    CacheOfInv(Run(FirstProcess(first), steps)[pid]);
  }

  lemma CacheOfInv(p: Proc)
    requires RegistryOk(p) && ObjectsOk(p)
    ensures forall id :: id in p.objs && p.objs[id].usePersistent ==>
              Lookup(p.persistent, p.objs[id].hash).Some?
              && Lookup(p.persistent, p.objs[id].hash).value.client == p.objs[id].client
    ensures forall a, b :: a in p.objs && b in p.objs && p.objs[a].usePersistent && p.objs[b].usePersistent ==>
              (p.objs[a].client == p.objs[b].client <==> p.objs[a].hash == p.objs[b].hash)
    ensures forall id :: id in p.objs ==> p.objs[id].client.creator == p.objs[id].createdByPid == p.objs[id].hash.pid
  {
    forall id | id in p.objs && p.objs[id].usePersistent
      ensures Lookup(p.persistent, p.objs[id].hash).Some?
      ensures Lookup(p.persistent, p.objs[id].hash).value.client == p.objs[id].client
    {
      var i := EntryOfManager(p, id);
      LookupFinds(p.persistent, i);
    }
    forall a, b | a in p.objs && b in p.objs && p.objs[a].usePersistent && p.objs[b].usePersistent
      ensures p.objs[a].client == p.objs[b].client <==> p.objs[a].hash == p.objs[b].hash
    {
      var i := EntryOfManager(p, a);
      var j := EntryOfManager(p, b);
    }
    forall id | id in p.objs ensures p.objs[id].client.creator == p.objs[id].createdByPid == p.objs[id].hash.pid {
      assert ManagerOk(p, id);
    }
  }

  lemma EntryOfManager(p: Proc, id: nat) returns (i: nat)
    requires ObjectsOk(p) && id in p.objs && p.objs[id].usePersistent
    ensures i < |p.persistent| && p.persistent[i].key == p.objs[id].hash && p.persistent[i].value.client == p.objs[id].client
  {
    assert ManagerOk(p, id);
    i :| 0 <= i < |p.persistent| && p.persistent[i].key == p.objs[id].hash && p.persistent[i].value.client == p.objs[id].client;
  }

  /** The entries of `p` are still there in `q`, with the same clients. */
  ghost predicate KeepsEntries(p: Proc, q: Proc) {
    && |p.persistent| <= |q.persistent|
    && forall i :: 0 <= i < |p.persistent| ==>
         q.persistent[i].key == p.persistent[i].key && q.persistent[i].value.client == p.persistent[i].value.client
  }

  lemma KeepsEntriesThrough(p: Proc, q: Proc, r: Proc, c: Client)
    requires KeepsEntries(p, q) && Resets(q, r, c)
    ensures KeepsEntries(p, r) && |r.persistent| == |q.persistent|
  {
    assert forall i :: 0 <= i < |q.persistent| ==> EntryReset(q.pid, c, q.persistent[i].value, r.persistent[i].value);
  }

  lemma {:induction false} ResetKeepsEntries(p: Proc, id: nat)
    requires Inv(p) && KeyVaultsOlder(p) && id in p.objs && p.objs[id].createdByPid != p.pid
    ensures KeepsEntries(p, ResetOnce(p, id)) && |ResetOnce(p, id).persistent| == |p.persistent|
    decreases id
  {
    hide RegistryOk, HandlesOk, RequestOwned, KeyVaultsLive, Ordered, Resets, ResetOwn;
    var m, q := p.objs[id], p;
    assert ManagerOk(p, id);
    if m.keyVault.Some? {
      ResetKeepsEntries(p, m.keyVault.value);
      ResetOnceKeepsInv(p, m.keyVault.value);
      q := ResetOnce(p, m.keyVault.value);
    }
    assert ManagerOk(q, id);
    ResetOwnResets(q, id);
    KeepsEntriesThrough(p, q, ResetOwn(q, m), m.client);
  }

  /** Until the process shuts down, no step takes an entry out of the persistent
      registry or puts another client in its place. */
  lemma EntriesAreNeverOverwritten(p: Proc, step: Step)
    requires Inv(p) && Enabled(p, step) && !step.DoProcessShutdown?
    ensures KeepsEntries(p, Apply(p, step))
  {
    hide RegistryOk, ManagersOk, RequestOwned, KeyVaultsLive, Ordered;
    match step {
      case DoConstruct(config, usePersistent, keyVault, outcome) =>
        var hash := HashFor(p, config, keyVault);
        if !HasKey(p.persistent, hash) {
          var c := Client(p.pid, p.serial, if keyVault.Some? then Some(p.objs[keyVault.value].client) else None);
          PutFresh(p.persistent, hash, PClient(c, p.pid, NO_PID, true));
        }
      case DoExecute(id) =>
        if p.objs[id].createdByPid != p.pid {
          ResetKeepsEntries(p, id);
        }
      case DoUseHandle(h) =>
        HandleOlder(p, h);
        if p.handles[h].createdByPid != p.pid {
          ResetKeepsEntries(p, p.handles[h].manager);
        }
      case _ =>
    }
  }
}
