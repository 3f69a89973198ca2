/**
 What becomes of the clients: one that was registered stays registered until its
 creator destroys it, and is destroyed by the time the creator has shut down; and
 clients of a parent are reset when a child uses them.
 */
module RegistryConservation {
  import opened Keys
  import opened Registry
  import opened RegistryRuns
  import opened RegistryOrigins

  predicate InPersistent(p: Proc, c: Client) {
    exists i :: 0 <= i < |p.persistent| && p.persistent[i].value.client == c
  }

  predicate IsRegistered(p: Proc, c: Client) {
    InPersistent(p, c) || HasClient(RequestEntries(p), c)
  }

  /** What was registered is still, or this process has destroyed it; and what has
      happened stays so. */
  ghost predicate Accounts(p: Proc, q: Proc) {
    && q.pid == p.pid
    && (forall c: Client :: c.creator == p.pid && IsRegistered(p, c) ==> IsRegistered(q, c) || Destroyed(c) in q.log)
    && (forall e :: e in p.log ==> e in q.log)
  }

  lemma AccountsThrough(p: Proc, q: Proc, r: Proc)
    requires Accounts(p, q) && Accounts(q, r)
    ensures Accounts(p, r)
  {
  }

  /** The registries keep their clients, and may get more. */
  lemma KeepingAccounts(p: Proc, q: Proc)
    requires q.pid == p.pid && KeepsEntries(p, q) && p.log <= q.log
    requires |RequestEntries(p)| <= |RequestEntries(q)|
    requires forall i :: 0 <= i < |RequestEntries(p)| ==> RequestEntries(q)[i].client == RequestEntries(p)[i].client
    ensures Accounts(p, q)
  {
    forall c: Client | c.creator == p.pid && IsRegistered(p, c) ensures IsRegistered(q, c) {
      if InPersistent(p, c) {
        var i :| 0 <= i < |p.persistent| && p.persistent[i].value.client == c;
        assert q.persistent[i].value.client == c;
      } else {
        HasClientStays(RequestEntries(p), RequestEntries(q), c);
      }
    }
  }

  // ----- The steps -----

  lemma ConstructAccounts(p: Proc, step: Step)
    requires Inv(p) && Enabled(p, step) && step.DoConstruct?
    ensures Accounts(p, Apply(p, step))
  {
    hide Inv;
    EntriesAreNeverOverwritten(p, step);
    KeepingAccounts(p, Apply(p, step));
  }

  /** A construction that succeeds registers its client. */
  lemma SuccessRegisters(p: Proc, step: Step)
    requires Inv(p) && Constructs(p, step)
    ensures IsRegistered(Apply(p, step), NewClient(p, step.keyVault)) && NewClient(p, step.keyVault).creator == p.pid
  {
    hide Inv;
    var q, c := Apply(p, step), NewClient(p, step.keyVault);
    if step.usePersistent {
      PutFresh(p.persistent, HashFor(p, step.config, step.keyVault), PClient(c, p.pid, NO_PID, true));
      assert q.persistent[|p.persistent|].value.client == c;
    } else {
      assert RequestEntries(q)[|RequestEntries(p)|].client == c;
    }
  }

  lemma ResetsAccount(p: Proc, q: Proc, c: Client)
    requires Resets(p, q, c)
    ensures Accounts(p, q) && Reset(c) in q.log
  {
    assert forall i :: 0 <= i < |p.persistent| ==> EntryReset(p.pid, c, p.persistent[i].value, q.persistent[i].value);
    assert forall i :: 0 <= i < |RequestEntries(p)| ==> EntryReset(p.pid, c, RequestEntries(p)[i], RequestEntries(q)[i]);
    KeepingAccounts(p, q);
  }

  /** Resetting a Manager's client resets that of its key vault, and of that one's
      key vault, and so on, and forgets no client. */
  lemma {:induction false} ResetOnceResets(p: Proc, id: nat)
    requires Inv(p) && KeyVaultsOlder(p) && id in p.objs && p.objs[id].createdByPid != p.pid
    ensures Accounts(p, ResetOnce(p, id))
    ensures forall k :: IsKeyVaultOf(p, k, id) ==> Reset(p.objs[k].client) in ResetOnce(p, id).log
    decreases id
  {
    hide RegistryOk, HandlesOk, RequestOwned, KeyVaultsLive, Ordered, Resets, ResetOwn, Accounts;
    var m, q := p.objs[id], p;
    assert ManagerOk(p, id);
    assert Accounts(p, p) by {
      SameAccounts(p);
    }
    if m.keyVault.Some? {
      ResetOnceResets(p, m.keyVault.value);
      ResetOnceKeepsInv(p, m.keyVault.value);
      q := ResetOnce(p, m.keyVault.value);
    }
    assert ManagerOk(q, id);
    ResetOwnResets(q, id);
    ResetsAccount(q, ResetOwn(q, m), m.client);
    AccountsThrough(p, q, ResetOwn(q, m));
    LogGrows(q, ResetOwn(q, m));
  }

  lemma SameAccounts(p: Proc)
    ensures Accounts(p, p)
  {
  }

  lemma LogGrows(p: Proc, q: Proc)
    requires Accounts(p, q)
    ensures forall e :: e in p.log ==> e in q.log
  {
  }

  /** `k` is the Manager `id` itself, or its key vault, or that one's, and so on. */
  predicate IsKeyVaultOf(p: Proc, k: nat, id: nat)
    requires KeyVaultsOlder(p) && id in p.objs
    ensures IsKeyVaultOf(p, k, id) ==> k in p.objs
    decreases id
  {
    k == id || (p.objs[id].keyVault.Some? && IsKeyVaultOf(p, k, p.objs[id].keyVault.value))
  }

  lemma FreeAccounts(p: Proc, id: nat)
    requires Inv(p) && id in p.objs && Unreferenced(p, id)
    ensures Accounts(p, Free(p, id))
    ensures !p.objs[id].usePersistent && p.objs[id].client.creator == p.pid ==>
              Destroyed(p.objs[id].client) in Free(p, id).log
  {
    hide KeyVaultsLive, Ordered, HandlesOk, RequestOwned, OneEntryEach, LogOk, CacheOk;
    var q := Free(p, id);
    if p.objs[id].usePersistent {
      KeepingAccounts(p, q);
    } else {
      hide Free;
      var i := FreeRemoves(p, id);
      RemovalAccounts(p, q, i);
    }
  }

  lemma RemovalAccounts(p: Proc, q: Proc, i: nat)
    requires EntriesOk(p) && Removes(p, q, i)
    ensures Accounts(p, q)
    ensures RequestEntries(p)[i].client.creator == p.pid ==> Destroyed(RequestEntries(p)[i].client) in q.log
  {
    var es, fs := RequestEntries(p), RequestEntries(q);
    assert EntryOk(p, es[i]);
    forall c: Client | c.creator == p.pid && IsRegistered(p, c) ensures IsRegistered(q, c) || Destroyed(c) in q.log {
      if InPersistent(p, c) {
        assert InPersistent(q, c);
      } else {
        var k :| 0 <= k < |es| && es[k].client == c;
        if k != i {
          assert fs[if k < i then k else k - 1].client == c;
        }
      }
    }
  }

  /** Shutdown destroys every client in the registry that this process created. */
  lemma {:induction false} AllAreDestroyed(es: seq<Entry<Hash, PClient>>, pid: int, i: nat)
    requires i < |es| && es[i].value.createdByPid == pid
    ensures Destroyed(es[i].value.client) in DestroyReverse(es, pid)
  {
    var n := |es| - 1;
    if i < n {
      AllAreDestroyed(es[..n], pid, i);
    }
  }

  lemma ShutdownAccounts(p: Proc)
    requires Inv(p) && p.request == None
    ensures Accounts(p, ProcessShutdown(p))
  {
    hide LogOk, OneEntryEach, CacheOk, ObjectsOk, KeyVaultsLive, Ordered;
    forall c: Client | c.creator == p.pid && IsRegistered(p, c) ensures Destroyed(c) in ProcessShutdown(p).log {
      var i :| 0 <= i < |p.persistent| && p.persistent[i].value.client == c;
      assert EntryOk(p, p.persistent[i].value);
      AllAreDestroyed(p.persistent, p.pid, i);
    }
  }

  lemma StepAccounts(p: Proc, step: Step)
    requires Inv(p) && Enabled(p, step)
    ensures Accounts(p, Apply(p, step))
  {
    hide RegistryOk, HandlesOk, ManagersOk, KeyVaultsLive, Ordered, Accounts, Construct, ResetOnce, Free, ProcessShutdown;
    match step {
      case DoConstruct(_, _, _, _) => ConstructAccounts(p, step);
      case DoExecute(id) => UseAccounts(p, p.objs[id].createdByPid, id);
      case DoUseHandle(h) =>
        HandleOlder(p, h);
        UseAccounts(p, p.handles[h].createdByPid, p.handles[h].manager);
      case DoFree(id) => FreeAccounts(p, id);
      case DoProcessShutdown => ShutdownAccounts(p);
      case DoRequestShutdown =>
        RequestRegistryEmpty(p);
        KeepingAccounts(p, Apply(p, step));
      case _ => KeepingAccounts(p, Apply(p, step));
    }
  }

  lemma UseAccounts(p: Proc, createdByPid: int, id: nat)
    requires Inv(p) && KeyVaultsOlder(p) && id in p.objs && (createdByPid != p.pid ==> p.objs[id].createdByPid != p.pid)
    ensures Accounts(p, ResetIfPidDiffers(p, createdByPid, id))
  {
    hide Inv, ResetOnce;
    if createdByPid != p.pid {
      ResetOnceResets(p, id);
    }
  }

  // ----- Runs -----

  /** Process `pid` has the client registered, or has destroyed it; and a process
      that has shut down has nothing registered. */
  ghost predicate Accounted(s: System, pid: int, c: Client) {
    && pid in s && c.creator == pid
    && (IsRegistered(s[pid], c) || Destroyed(c) in s[pid].log)
    && (!s[pid].alive ==> s[pid].persistent == [] && s[pid].request == None)
  }

  lemma StaysAccounted(s: System, step: SystemStep, pid: int, c: Client)
    requires SystemInv(s) && SystemEnabled(s, step) && Accounted(s, pid, c)
    ensures Accounted(SystemApply(s, step), pid, c)
  {
    hide Inv, Mentions, IsRegistered, Enabled, Apply;
    if step.Local? && step.pid == pid {
      StepAccounts(s[pid], step.step);
      ShutdownEmpties(s[pid], step.step);
    }
  }

  lemma ShutdownEmpties(p: Proc, step: Step)
    requires Enabled(p, step)
    ensures !Apply(p, step).alive ==> Apply(p, step).persistent == [] && Apply(p, step).request == None
  {
  }

  lemma {:induction false} AccountedOn(s: System, steps: seq<SystemStep>, n: nat, m: nat, pid: int, c: Client)
    requires SystemInv(s) && n <= m <= |steps| && Accounted(Run(s, steps[..n]), pid, c)
    ensures Accounted(Run(s, steps[..m]), pid, c)
    decreases m - n
  {
    if n < m {
      hide Accounted, SystemInv, Run, SystemEnabled, SystemApply;
      assert steps[..n + 1] == steps[..n] + [steps[n]];
      RunOneMore(s, steps[..n], steps[n]);
      RunKeepsInv(s, steps[..n]);
      if SystemEnabled(Run(s, steps[..n]), steps[n]) {
        StaysAccounted(Run(s, steps[..n]), steps[n], pid, c);
      }
      AccountedOn(s, steps, n + 1, m, pid, c);
    }
  }

  /** Step `k` of the run is a construction that creates client `c` and succeeds. */
  ghost predicate CreatesAt(s: System, steps: seq<SystemStep>, k: nat, pid: int, c: Client) {
    && k < |steps| && steps[k].Local? && steps[k].pid == pid && pid in Run(s, steps[..k])
    && Constructs(Run(s, steps[..k])[pid], steps[k].step)
    && c == NewClient(Run(s, steps[..k])[pid], steps[k].step.keyVault)
  }

  /** No client leaks: on every run, a client that a construction has registered is
      registered still, or its creator has destroyed it; and once the creator has
      shut down, it has been destroyed. */
  lemma NoClientLeaks(first: int, steps: seq<SystemStep>, k: nat, pid: int, c: Client)
    requires first > NO_PID && CreatesAt(FirstProcess(first), steps, k, pid, c)
    ensures pid in Run(FirstProcess(first), steps)
    ensures var p := Run(FirstProcess(first), steps)[pid];
            && (IsRegistered(p, c) || Destroyed(c) in p.log)
            && (!p.alive ==> Destroyed(c) in p.log)
  {
    var s := FirstProcess(first);
    RunInv(first, []);
    CreationIsAccounted(s, steps, k, pid, c);
    AccountedOn(s, steps, k + 1, |steps|, pid, c);
    assert steps[..|steps|] == steps;
  }

  lemma CreationIsAccounted(s: System, steps: seq<SystemStep>, k: nat, pid: int, c: Client)
    requires SystemInv(s) && CreatesAt(s, steps, k, pid, c)
    ensures Accounted(Run(s, steps[..k + 1]), pid, c)
  {
    hide Run, Inv, Mentions, Apply, IsRegistered;
    var now := Run(s, steps[..k]);
    assert steps[..k + 1] == steps[..k] + [steps[k]];
    RunOneMore(s, steps[..k], steps[k]);
    RunKeepsInv(s, steps[..k]);
    assert SystemEnabled(now, steps[k]);
    SuccessRegisters(now[pid], steps[k].step);
    ShutdownEmpties(now[pid], steps[k].step);
  }

  /** On every run, freeing a Manager with a client of its own destroys the client
      in the process that created it. */
  lemma FreeDestroys(first: int, steps: seq<SystemStep>, pid: int, id: nat)
    requires first > NO_PID && pid in Run(FirstProcess(first), steps)
    requires Enabled(Run(FirstProcess(first), steps)[pid], DoFree(id))
    ensures var p := Run(FirstProcess(first), steps)[pid];
            !p.objs[id].usePersistent && p.objs[id].client.creator == pid ==>
              Destroyed(p.objs[id].client) in Apply(p, DoFree(id)).log
  {
    RunInv(first, steps);
    hide Inv, Run;
    FreeAccounts(Run(FirstProcess(first), steps)[pid], id);
  }

  /** The clients of a Manager and of its key vaults have been reset. */
  ghost predicate HasReset(p: Proc, id: nat, q: Proc)
    requires KeyVaultsOlder(p) && id in p.objs
  {
    forall k :: IsKeyVaultOf(p, k, id) ==> Reset(p.objs[k].client) in q.log
  }

  lemma ExecuteResets(p: Proc, id: nat)
    requires Inv(p) && Enabled(p, DoExecute(id)) && p.objs[id].createdByPid != p.pid
    ensures HasReset(p, id, Apply(p, DoExecute(id)))
  {
    hide Inv, ResetOnce, IsKeyVaultOf;
    ResetOnceResets(p, id);
  }

  lemma HandleResets(p: Proc, h: nat)
    requires Inv(p) && Enabled(p, DoUseHandle(h)) && p.handles[h].createdByPid != p.pid
    ensures HasReset(p, p.handles[h].manager, Apply(p, DoUseHandle(h)))
  {
    hide RegistryOk, ManagersOk, RequestOwned, KeyVaultsLive, Ordered, ResetOnce, IsKeyVaultOf;
    HandleOlder(p, h);
    ResetOnceResets(p, p.handles[h].manager);
  }

  /** On every run, a process that uses a Manager it did not construct has reset its
      client, and those of its key vaults; and so has one that uses a Cursor or
      Session it did not make. */
  lemma UseInChildResets(first: int, steps: seq<SystemStep>, pid: int)
    requires first > NO_PID && pid in Run(FirstProcess(first), steps)
    ensures var p := Run(FirstProcess(first), steps)[pid];
            && (forall id :: Enabled(p, DoExecute(id)) && p.objs[id].createdByPid != pid ==>
                  HasReset(p, id, Apply(p, DoExecute(id))))
            && (forall h :: Enabled(p, DoUseHandle(h)) && p.handles[h].createdByPid != pid ==>
                  HasReset(p, p.handles[h].manager, Apply(p, DoUseHandle(h))))
  {
    RunInv(first, steps);
    hide Run, Inv, HasReset, Apply;
    var p := Run(FirstProcess(first), steps)[pid];
    forall id | Enabled(p, DoExecute(id)) && p.objs[id].createdByPid != pid
      ensures HasReset(p, id, Apply(p, DoExecute(id)))
    {
      ExecuteResets(p, id);
    }
    forall h | Enabled(p, DoUseHandle(h)) && p.handles[h].createdByPid != pid
      ensures HasReset(p, p.handles[h].manager, Apply(p, DoUseHandle(h)))
    {
      HandleResets(p, h);
    }
  }

  /** An object that a child makes from its parent's Manager, such as a Server, is
      the child's: using it resets nothing. */
  lemma HandleOfChildResetsNothing(p: Proc, id: nat)
    requires Inv(p) && Enabled(p, DoNewHandle(id))
    ensures var q := Apply(p, DoNewHandle(id));
            Enabled(q, DoUseHandle(p.nextObj)) && Apply(q, DoUseHandle(p.nextObj)) == q
  {
    ObjectIdsFree(p);
  }

  // ----- The list of Managers -----

  /** The request's list has exactly the Managers there are, each once, in the order
      of construction. */
  ghost predicate ManagersListed(p: Proc) {
    if p.managers.None? then p.objs == map[]
    else Lists(p.managers.value, p.objs.Keys) && forall id :: id in p.objs ==> id < p.nextObj
  }

  ghost predicate Lists(ids: seq<nat>, objs: set<nat>) {
    && (forall id :: id in ids <==> id in objs)
    && (forall i, j :: 0 <= i < j < |ids| ==> ids[i] < ids[j])
  }

  lemma AddManagerLists(p: Proc, m: Manager)
    requires ManagersListed(p) && p.managers.Some?
    ensures ManagersListed(AddManager(p, m))
  {
    var before, after := p.managers.value, AddManager(p, m).managers.value;
    assert p.nextObj !in before;
    assert after == before + [p.nextObj];
    forall i, j | 0 <= i < j < |after| ensures after[i] < after[j] {
      assert after[i] in before;
    }
  }

  lemma WithoutOne(before: seq<nat>, i: nat, objs: set<nat>)
    requires i < |before| && Lists(before, objs)
    ensures Lists(Without(before, i), objs - {before[i]})
  {
    var after := Without(before, i);
    forall o | o in before && o != before[i] ensures o in after {
      var j :| 0 <= j < |before| && before[j] == o;
      assert after[if j < i then j else j - 1] == o;
    }
  }

  lemma FreeLists(p: Proc, id: nat)
    requires ManagersListed(p) && id in p.objs
    ensures ManagersListed(Free(p, id))
  {
    hide UnregisterClient, Lists;
    var before, i := p.managers.value, ManagerIndex(p.managers.value, id);
    ListsHas(before, p.objs.Keys, id);
    WithoutOne(before, i, p.objs.Keys);
    var q := UnregisterManager(p, id);
    UnregisterKeepsManagers(q, p.objs[id]);
    assert q.managers == Some(Without(before, i));
    assert Free(p, id).managers == q.managers && Free(p, id).nextObj == p.nextObj;
    assert Free(p, id).objs.Keys == p.objs.Keys - {id};
  }

  lemma ListsHas(ids: seq<nat>, objs: set<nat>, id: nat)
    requires Lists(ids, objs) && id in objs
    ensures ManagerIndex(ids, id) < |ids|
  {
    var k :| 0 <= k < |ids| && ids[k] == id;
  }

  lemma UnregisterKeepsManagers(p: Proc, m: Manager)
    ensures UnregisterClient(p, m) == p.(request := UnregisterClient(p, m).request, log := UnregisterClient(p, m).log)
  {
  }

  lemma StepLists(p: Proc, step: Step)
    requires Inv(p) && Enabled(p, step) && ManagersListed(p)
    ensures ManagersListed(Apply(p, step))
  {
    hide Inv, AddManager, Free, ManagersListed;
    match step {
      case DoConstruct(config, usePersistent, keyVault, outcome) => ConstructLists(p, config, usePersistent, keyVault, outcome);
      case DoFree(id) => FreeLists(p, id);
      case _ => OtherStepLists(p, step);
    }
  }

  lemma ConstructLists(p: Proc, config: string, usePersistent: bool, keyVault: Option<nat>, outcome: Outcome)
    requires CanConstruct(p, keyVault) && ManagersListed(p)
    ensures ManagersListed(Construct(p, config, usePersistent, keyVault, outcome))
  {
    hide AddManager;
    var hash := HashFor(p, config, keyVault);
    var c := NewClient(p, keyVault);
    var e := Lookup(p.persistent, hash);
    if usePersistent && e.Some? {
      AddManagerLists(p, Manager(hash, true, e.value.client, p.pid, None));
    } else {
      AddManagerLists(Register(p.(serial := p.serial + 1), hash, c, usePersistent),
                      Manager(hash, usePersistent, c, p.pid, keyVault));
    }
  }

  lemma OtherStepLists(p: Proc, step: Step)
    requires Enabled(p, step) && ManagersListed(p) && !step.DoConstruct? && !step.DoFree?
    ensures ManagersListed(Apply(p, step))
  {
  }

  lemma {:induction false} ListedOnRun(s: System, steps: seq<SystemStep>)
    requires SystemInv(s) && forall pid :: pid in s ==> ManagersListed(s[pid])
    ensures forall pid :: pid in Run(s, steps) ==> ManagersListed(Run(s, steps)[pid])
    decreases |steps|
  {
    if |steps| > 0 {
      hide Inv, Mentions, ManagersListed, Enabled, Apply;
      if SystemEnabled(s, steps[0]) {
        var t := SystemApply(s, steps[0]);
        SystemStepKeepsInv(s, steps[0]);
        forall pid | pid in t ensures ManagersListed(t[pid]) {
          ListedAfter(s, steps[0], pid);
        }
        ListedOnRun(t, steps[1..]);
      } else {
        ListedOnRun(s, steps[1..]);
      }
    }
  }

  lemma ListedAfter(s: System, step: SystemStep, pid: int)
    requires SystemInv(s) && SystemEnabled(s, step) && pid in SystemApply(s, step)
    requires forall q :: q in s ==> ManagersListed(s[q])
    ensures ManagersListed(SystemApply(s, step)[pid])
  {
    hide Inv, Mentions, Enabled, Apply;
    if step.Local? && step.pid == pid {
      StepLists(s[pid], step.step);
    }
  }

  /** On every run, the Managers that events are dispatched for are those there
      are, in the order of construction. */
  lemma ManagersAreListed(first: int, steps: seq<SystemStep>, pid: int)
    requires first > NO_PID && pid in Run(FirstProcess(first), steps)
    ensures ManagersListed(Run(FirstProcess(first), steps)[pid])
  {
    RunInv(first, []);
    ListedOnRun(FirstProcess(first), steps);
  }
}
