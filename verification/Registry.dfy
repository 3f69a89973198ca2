/**
 The registries of clients and Managers in one PHP process (php_phongo.c,
 src/MongoDB/Manager.c), as a state with one function per step.

 A client is identified by the process that created it and a serial number, and
 carries the key-vault client it was configured with. Resets and destructions of
 clients are recorded in a log.
 */
module Registry {
  import opened Keys

  datatype Client = Client(creator: int, serial: nat, keyVault: Option<Client>)

  /** The client hash: a serialisation of the process ID and the constructor's
      arguments, in which a key-vault Manager is replaced by its own hash. */
  datatype Hash = Hash(pid: int, config: string, keyVault: Option<Hash>)

  datatype PClient = PClient(client: Client, createdByPid: int, lastResetByPid: int, isPersistent: bool)

  datatype Manager = Manager(hash: Hash, usePersistent: bool, client: Client, createdByPid: int, keyVault: Option<nat>)

  /** A Cursor, Session or Server: an object that refers to a Manager. */
  datatype Handle = Handle(createdByPid: int, manager: nat)

  datatype Event =
    | Reset(c: Client)
    | Destroyed(c: Client)

  /** A process: the persistent registry, the request-scoped registries (NULL
      between requests), the PHP objects, and what happened so far. */
  datatype Proc = Proc(
    pid: int,
    persistent: seq<Entry<Hash, PClient>>,
    request: Option<seq<PClient>>,
    managers: Option<seq<nat>>,
    objs: map<nat, Manager>,
    handles: map<nat, Handle>,
    nextObj: nat,
    serial: nat,
    alive: bool,
    log: seq<Event>)

  const NO_PID: int := 0

  function Lookup<K(==), V>(es: seq<Entry<K, V>>, k: K): (r: Option<V>)
    ensures r.Some? <==> HasKey(es, k)
    ensures r.Some? ==> Entry(k, r.value) in es
  {
    if |es| == 0 then None
    else if es[0].key == k then Some(es[0].value)
    else
      assert forall i :: 0 <= i < |es[1..]| ==> es[1..][i] == es[i + 1];
      assert forall i :: 0 < i < |es| ==> es[i] == es[1..][i - 1];
      Lookup(es[1..], k)
  }

  /** The first entry of the request-scoped registry with this client. */
  function IndexOf(es: seq<PClient>, c: Client): (i: nat)
    ensures i <= |es| && (i < |es| ==> es[i].client == c)
    ensures forall j :: 0 <= j < i ==> es[j].client != c
  {
    if |es| == 0 || es[0].client == c then 0 else 1 + IndexOf(es[1..], c)
  }

  function Without<T>(s: seq<T>, i: nat): (r: seq<T>)
    requires i < |s|
    ensures |r| == |s| - 1
    ensures forall j :: 0 <= j < |r| ==> r[j] == if j < i then s[j] else s[j + 1]
  {
    s[..i] + s[i + 1..]
  }

  // ----- Constructing a Manager -----

  /** How far phongo_manager_init() gets when no client is cached: it can fail
      before there is a client, after, or not at all. */
  datatype Outcome = FailsEarly | FailsLate | Succeeds

  function HashFor(p: Proc, config: string, keyVault: Option<nat>): Hash
    requires keyVault.Some? ==> keyVault.value in p.objs
  {
    Hash(p.pid, config, if keyVault.Some? then Some(p.objs[keyVault.value].hash) else None)
  }

  /** Hashes are equal exactly when process, arguments and the key vault's hash
      are. */
  lemma SameHash(p: Proc, config: string, keyVault: Option<nat>, q: Proc, other: string, otherKeyVault: Option<nat>)
    requires keyVault.Some? ==> keyVault.value in p.objs
    requires otherKeyVault.Some? ==> otherKeyVault.value in q.objs
    ensures HashFor(p, config, keyVault) == HashFor(q, other, otherKeyVault) <==>
            && p.pid == q.pid && config == other
            && (keyVault.Some? <==> otherKeyVault.Some?)
            && (keyVault.Some? && otherKeyVault.Some? ==> p.objs[keyVault.value].hash == q.objs[otherKeyVault.value].hash)
  {
  }

  /** A Manager and its key vault must agree on persistence. */
  predicate KeyVaultAllowed(p: Proc, usePersistent: bool, keyVault: Option<nat>)
    requires keyVault.Some? ==> keyVault.value in p.objs
  {
    keyVault.Some? ==> p.objs[keyVault.value].usePersistent == usePersistent
  }

  predicate CanConstruct(p: Proc, keyVault: Option<nat>) {
    && p.alive && p.request.Some? && p.managers.Some?
    && (keyVault.Some? ==> keyVault.value in p.objs)
  }

  /** php_phongo_manager_register() */
  function RegisterManager(p: Proc, id: nat): Proc {
    if p.managers.None? || id in p.managers.value then p else p.(managers := Some(p.managers.value + [id]))
  }

  function AddManager(p: Proc, m: Manager): Proc {
    var q := RegisterManager(p, p.nextObj);
    q.(objs := q.objs[q.nextObj := m], nextObj := q.nextObj + 1)
  }

  /** php_phongo_client_register() */
  function Register(p: Proc, hash: Hash, c: Client, persistent: bool): Proc
    requires p.request.Some?
  {
    var entry := PClient(c, p.pid, NO_PID, persistent);
    if persistent then p.(persistent := Put(p.persistent, hash, entry))
    else p.(request := Some(p.request.value + [entry]))
  }

  function Construct(p: Proc, config: string, usePersistent: bool, keyVault: Option<nat>, outcome: Outcome): Proc
    requires CanConstruct(p, keyVault)
  {
    var hash := HashFor(p, config, keyVault);
    var cached := if usePersistent then Lookup(p.persistent, hash) else None;
    if cached.Some? then AddManager(p, Manager(hash, true, cached.value.client, p.pid, None))
    else if outcome == FailsEarly then p
    else
      var q := p.(serial := p.serial + 1);
      if outcome == FailsLate || !KeyVaultAllowed(p, usePersistent, keyVault) then q
      else
        var c := Client(p.pid, p.serial, if keyVault.Some? then Some(p.objs[keyVault.value].client) else None);
        AddManager(Register(q, hash, c, usePersistent), Manager(hash, usePersistent, c, p.pid, keyVault))
  }

  // ----- Using and freeing Managers -----

  /** Key vaults are older than the Managers that use them. */
  predicate KeyVaultsOlder(p: Proc) {
    forall id :: id in p.objs && p.objs[id].keyVault.Some? ==>
      p.objs[id].keyVault.value < id && p.objs[id].keyVault.value in p.objs
  }

  /** phongo_pclient_reset_once() on an entry: the entry afterwards and whether the
      client was reset. */
  function ResetEntry(e: PClient, pid: int): PClient {
    e.(lastResetByPid := pid)
  }

  function ResetEvents(e: PClient, pid: int): seq<Event> {
    if e.lastResetByPid != pid then [Reset(e.client)] else []
  }

  function ResetOwn(p: Proc, m: Manager): Proc {
    if m.usePersistent then
      var e := Lookup(p.persistent, m.hash);
      if e.None? then p
      else p.(persistent := Put(p.persistent, m.hash, ResetEntry(e.value, p.pid)),
              log := p.log + ResetEvents(e.value, p.pid))
    else if p.request.None? then p
    else
      var es := p.request.value;
      var i := IndexOf(es, m.client);
      if i == |es| then p
      else p.(request := Some(es[i := ResetEntry(es[i], p.pid)]), log := p.log + ResetEvents(es[i], p.pid))
  }

  /** php_phongo_client_reset_once(): the key vault's client first. */
  function ResetOnce(p: Proc, id: nat): (q: Proc)
    requires KeyVaultsOlder(p) && id in p.objs
    ensures q == p.(persistent := q.persistent, request := q.request, log := q.log)
    decreases id
  {
    var m := p.objs[id];
    ResetOwn(if m.keyVault.Some? then ResetOnce(p, m.keyVault.value) else p, m)
  }

  /** PHONGO_RESET_CLIENT_IF_PID_DIFFERS, on behalf of an object. */
  function ResetIfPidDiffers(p: Proc, createdByPid: int, id: nat): Proc
    requires KeyVaultsOlder(p) && id in p.objs
  {
    if createdByPid != p.pid then ResetOnce(p, id) else p
  }

  /** php_phongo_pclient_destroy(): the client is destroyed in the process that
      created it, and leaked elsewhere. */
  function DestroyEvents(e: PClient, pid: int): seq<Event> {
    if e.createdByPid == pid then [Destroyed(e.client)] else []
  }

  /** No Manager or handle holds a reference. */
  predicate Unreferenced(p: Proc, id: nat) {
    && (forall m :: m in p.objs ==> p.objs[m].keyVault != Some(id))
    && (forall h :: h in p.handles ==> p.handles[h].manager != id)
  }

  function ManagerIndex(ids: seq<nat>, id: nat): (i: nat)
    ensures i <= |ids| && (i < |ids| ==> ids[i] == id)
    ensures forall j :: 0 <= j < i ==> ids[j] != id
  {
    if |ids| == 0 || ids[0] == id then 0 else 1 + ManagerIndex(ids[1..], id)
  }

  function UnregisterManager(p: Proc, id: nat): Proc {
    if p.managers.None? then p
    else
      var i := ManagerIndex(p.managers.value, id);
      if i == |p.managers.value| then p else p.(managers := Some(Without(p.managers.value, i)))
  }

  /** php_phongo_client_unregister() */
  function UnregisterClient(p: Proc, m: Manager): Proc {
    if m.usePersistent || p.request.None? then p
    else
      var es := p.request.value;
      var i := IndexOf(es, m.client);
      if i == |es| then p
      else p.(request := Some(Without(es, i)), log := p.log + DestroyEvents(es[i], p.pid))
  }

  /** php_phongo_manager_free_object(); giving up the key vault may then make the
      key vault's Manager the next one to be freed. */
  function Free(p: Proc, id: nat): Proc
    requires id in p.objs
  {
    var q := UnregisterClient(UnregisterManager(p, id), p.objs[id]);
    q.(objs := q.objs - {id})
  }

  // ----- Requests and processes -----

  /** RINIT: registries that are there stay. */
  function RequestStartup(p: Proc): (q: Proc)
    ensures q.request == if p.request.Some? then p.request else Some([])
    ensures q.managers == if p.managers.Some? then p.managers else Some([])
  {
    p.(request := if p.request.None? then Some([]) else p.request,
       managers := if p.managers.None? then Some([]) else p.managers)
  }

  /** Entries that are left are destroyed first to last. (There are none: see
      RegistryRuns.RequestRegistryEmpty.) */
  function DestroyForward(es: seq<PClient>, pid: int): seq<Event> {
    if |es| == 0 then [] else DestroyEvents(es[0], pid) + DestroyForward(es[1..], pid)
  }

  /** Of a process's own clients, one after the other, from the first on. */
  lemma {:induction false} DestroyForwardIs(es: seq<PClient>, pid: int)
    requires forall i :: 0 <= i < |es| ==> es[i].createdByPid == pid
    ensures |DestroyForward(es, pid)| == |es|
    ensures forall i :: 0 <= i < |es| ==> DestroyForward(es, pid)[i] == Destroyed(es[i].client)
  {
    if |es| > 0 {
      DestroyForwardIs(es[1..], pid);
    }
  }

  function RequestShutdown(p: Proc): Proc {
    p.(request := None, managers := None,
       log := p.log + if p.request.Some? then DestroyForward(p.request.value, p.pid) else [])
  }

  /** Clients left in the request-scoped registry would be destroyed, first to last. */
  lemma RequestShutdownDestroysRest(p: Proc)
    requires p.request.Some? && forall i :: 0 <= i < |p.request.value| ==> p.request.value[i].createdByPid == p.pid
    ensures var q := RequestShutdown(p);
            && q.request == None && q.managers == None
            && |q.log| == |p.log| + |p.request.value|
            && forall i :: 0 <= i < |p.request.value| ==> q.log[|p.log| + i] == Destroyed(p.request.value[i].client)
  {
    DestroyForwardIs(p.request.value, p.pid);
  }

  /** Destruction of the persistent registry, last entry first. */
  function DestroyReverse(es: seq<Entry<Hash, PClient>>, pid: int): seq<Event> {
    if |es| == 0 then []
    else DestroyEvents(es[|es| - 1].value, pid) + DestroyReverse(es[..|es| - 1], pid)
  }

  /** Of a process's own clients, one after the other, from the last on. */
  lemma {:induction false} DestroyReverseIs(es: seq<Entry<Hash, PClient>>, pid: int)
    requires forall i :: 0 <= i < |es| ==> es[i].value.createdByPid == pid
    ensures |DestroyReverse(es, pid)| == |es|
    ensures forall i :: 0 <= i < |es| ==> DestroyReverse(es, pid)[i] == Destroyed(es[|es| - 1 - i].value.client)
  {
    if |es| > 0 {
      DestroyReverseIs(es[..|es| - 1], pid);
    }
  }

  function ProcessShutdown(p: Proc): Proc {
    p.(persistent := [], alive := false, log := p.log + DestroyReverse(p.persistent, p.pid))
  }

  /** The child's copy of the parent's memory. */
  function ForkChild(p: Proc, pid: int): Proc {
    p.(pid := pid, serial := 0, log := [])
  }
}
