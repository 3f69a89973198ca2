/**
 Where the entries and Managers that a run leads to come from: constructions that
 registered a client or found a cached one, and never ones that failed.
 */
module RegistryOrigins {
  import opened Keys
  import opened Registry
  import opened RegistryRuns

  /** The client a construction creates. */
  function NewClient(p: Proc, keyVault: Option<nat>): Client
    requires keyVault.Some? ==> keyVault.value in p.objs
  {
    Client(p.pid, p.serial, if keyVault.Some? then Some(p.objs[keyVault.value].client) else None)
  }

  /** The step is a construction that gets through, and no client is cached. */
  predicate Constructs(p: Proc, step: Step) {
    && step.DoConstruct? && Enabled(p, step)
    && step.outcome.Succeeds?
    && (step.keyVault.Some? ==> p.objs[step.keyVault.value].usePersistent == step.usePersistent)
    && (step.usePersistent ==> !HasKey(p.persistent, HashFor(p, step.config, step.keyVault)))
  }

  /** The step registers a new client under a hash that had none. */
  predicate Registers(p: Proc, step: Step, hash: Hash, c: Client) {
    && Constructs(p, step) && step.usePersistent
    && hash == HashFor(p, step.config, step.keyVault) && c == NewClient(p, step.keyVault)
  }

  /** The step makes Manager `id`, with a new client or a cached one. */
  predicate Makes(p: Proc, step: Step, id: nat, m: Manager) {
    && step.DoConstruct? && Enabled(p, step)
    && id == p.nextObj && m.hash == HashFor(p, step.config, step.keyVault)
    && m.usePersistent == step.usePersistent && m.createdByPid == p.pid
    && (if Constructs(p, step) then m.client == NewClient(p, step.keyVault) && m.keyVault == step.keyVault
        else step.usePersistent && HasEntry(p.persistent, m.hash, m.client) && m.keyVault == None)
  }

  // ----- One step -----

  /** What is there after a step was there before, or the step brought it. */
  ghost predicate Stems(p: Proc, q: Proc, step: Step) {
    && (forall i :: 0 <= i < |q.persistent| ==>
          var e := q.persistent[i];
          HasEntry(p.persistent, e.key, e.value.client) || Registers(p, step, e.key, e.value.client))
    && (forall id :: id in q.objs ==> (id in p.objs && p.objs[id] == q.objs[id]) || Makes(p, step, id, q.objs[id]))
  }

  lemma SameEntriesStem(p: Proc, q: Proc, step: Step)
    requires KeepsEntries(p, q) && |q.persistent| == |p.persistent| && q.objs == p.objs
    ensures Stems(p, q, step)
  {
  }

  /** A Manager is added to a state with the same entries, or with one more. */
  lemma AddedStems(p: Proc, q: Proc, m: Manager, step: Step)
    requires q.objs == p.objs && q.nextObj == p.nextObj && Makes(p, step, p.nextObj, m)
    requires Stems(p, q, step)
    ensures Stems(p, AddManager(q, m), step)
  {
    hide Makes, Registers, AddManager;
    AddManagerAdds(q, m);
  }

  lemma CachedStems(p: Proc, step: Step, e: PClient)
    requires step.DoConstruct? && Enabled(p, step) && step.usePersistent
    requires Lookup(p.persistent, HashFor(p, step.config, step.keyVault)) == Some(e)
    ensures Stems(p, Apply(p, step), step)
  {
    hide Stems;
    var hash := HashFor(p, step.config, step.keyVault);
    var i :| 0 <= i < |p.persistent| && p.persistent[i] == Entry(hash, e);
    assert HasEntry(p.persistent, hash, e.client);
    SameEntriesStem(p, p, step);
    AddedStems(p, p, Manager(hash, true, e.client, p.pid, None), step);
  }

  lemma NewStems(p: Proc, step: Step)
    requires Constructs(p, step)
    ensures Stems(p, Apply(p, step), step)
  {
    hide Stems, AddManager;
    var hash, c := HashFor(p, step.config, step.keyVault), NewClient(p, step.keyVault);
    var q := Register(p.(serial := p.serial + 1), hash, c, step.usePersistent);
    RegisterStems(p, q, hash, c, step);
    AddedStems(p, q, Manager(hash, step.usePersistent, c, p.pid, step.keyVault), step);
  }

  lemma RegisterStems(p: Proc, q: Proc, hash: Hash, c: Client, step: Step)
    requires Constructs(p, step) && hash == HashFor(p, step.config, step.keyVault) && c == NewClient(p, step.keyVault)
    requires q == Register(p.(serial := p.serial + 1), hash, c, step.usePersistent)
    ensures Stems(p, q, step)
  {
    hide Makes;
    if step.usePersistent {
      PutFresh(p.persistent, hash, PClient(c, p.pid, NO_PID, true));
    }
    forall i | 0 <= i < |q.persistent|
      ensures HasEntry(p.persistent, q.persistent[i].key, q.persistent[i].value.client)
              || Registers(p, step, q.persistent[i].key, q.persistent[i].value.client)
    {
      if i < |p.persistent| {
        assert p.persistent[i] == q.persistent[i];
      }
    }
  }

  lemma StepStems(p: Proc, step: Step)
    requires Inv(p) && Enabled(p, step)
    ensures Stems(p, Apply(p, step), step)
  {
    hide Stems, Inv, RegistryOk, KeyVaultsLive, Ordered;
    match step {
      case DoConstruct(config, usePersistent, keyVault, _) =>
        var e := Lookup(p.persistent, HashFor(p, config, keyVault));
        if usePersistent && e.Some? {
          CachedStems(p, step, e.value);
        } else if Constructs(p, step) {
          NewStems(p, step);
        } else {
          SameEntriesStem(p, Apply(p, step), step);
        }
      case DoExecute(id) => ResetStems(p, p.objs[id].createdByPid, id, step);
      case DoUseHandle(h) => UseStems(p, h, step);
      case DoFree(id) => FreeStems(p, id, step);
      case DoProcessShutdown => ShutdownStems(p, step);
      case _ => SameEntriesStem(p, Apply(p, step), step);
    }
  }

  lemma ResetStems(p: Proc, createdByPid: int, id: nat, step: Step)
    requires Inv(p) && KeyVaultsOlder(p) && id in p.objs && (createdByPid != p.pid ==> p.objs[id].createdByPid != p.pid)
    ensures Stems(p, ResetIfPidDiffers(p, createdByPid, id), step)
  {
    hide Stems, Inv;
    if createdByPid != p.pid {
      ResetKeepsEntries(p, id);
    }
    SameEntriesStem(p, ResetIfPidDiffers(p, createdByPid, id), step);
  }

  lemma UseStems(p: Proc, h: nat, step: Step)
    requires Inv(p) && h in p.handles && p.handles[h].manager in p.objs && KeyVaultsOlder(p)
    ensures Stems(p, ResetIfPidDiffers(p, p.handles[h].createdByPid, p.handles[h].manager), step)
  {
    HandleOlder(p, h);
    ResetStems(p, p.handles[h].createdByPid, p.handles[h].manager, step);
  }

  lemma FreeStems(p: Proc, id: nat, step: Step)
    requires id in p.objs
    ensures Stems(p, Free(p, id), step)
  {
    SameEntriesStem(p, Free(p, id).(objs := p.objs), step);
  }

  lemma ShutdownStems(p: Proc, step: Step)
    ensures Stems(p, ProcessShutdown(p), step)
  {
  }

  // ----- Runs -----

  lemma {:induction false} RunOneMore(s: System, steps: seq<SystemStep>, x: SystemStep)
    ensures Run(s, steps + [x]) ==
            if SystemEnabled(Run(s, steps), x) then SystemApply(Run(s, steps), x) else Run(s, steps)
    decreases |steps|
  {
    if |steps| == 0 {
      assert steps + [x] == [x] && [x][1..] == [];
    } else {
      assert (steps + [x])[1..] == steps[1..] + [x];
      RunOneMore(if SystemEnabled(s, steps[0]) then SystemApply(s, steps[0]) else s, steps[1..], x);
    }
  }

  /** Step `k` of the run, taken by some process, registers the client. */
  ghost predicate RegistersAt(s: System, steps: seq<SystemStep>, k: nat, hash: Hash, c: Client) {
    && k < |steps| && steps[k].Local? && steps[k].pid in Run(s, steps[..k])
    && Registers(Run(s, steps[..k])[steps[k].pid], steps[k].step, hash, c)
  }

  ghost predicate MakesAt(s: System, steps: seq<SystemStep>, k: nat, id: nat, m: Manager) {
    && k < |steps| && steps[k].Local? && steps[k].pid in Run(s, steps[..k])
    && Makes(Run(s, steps[..k])[steps[k].pid], steps[k].step, id, m)
  }

  ghost predicate RegisteredBefore(s: System, steps: seq<SystemStep>, n: nat, hash: Hash, c: Client) {
    exists k: nat :: k < n && RegistersAt(s, steps, k, hash, c)
  }

  ghost predicate MadeBefore(s: System, steps: seq<SystemStep>, n: nat, id: nat, m: Manager) {
    exists k: nat :: k < n && MakesAt(s, steps, k, id, m)
  }

  /** Every entry and Manager of a process stems from one of the first `n` steps. */
  ghost predicate Origins(s: System, steps: seq<SystemStep>, n: nat, p: Proc) {
    && (forall i :: 0 <= i < |p.persistent| ==>
          RegisteredBefore(s, steps, n, p.persistent[i].key, p.persistent[i].value.client))
    && (forall id :: id in p.objs ==> MadeBefore(s, steps, n, id, p.objs[id]))
  }

  ghost predicate AllOrigins(s: System, steps: seq<SystemStep>, n: nat)
    requires n <= |steps|
  {
    forall pid :: pid in Run(s, steps[..n]) ==> Origins(s, steps, n, Run(s, steps[..n])[pid])
  }

  lemma {:induction false} OriginsUpTo(s: System, steps: seq<SystemStep>, n: nat)
    requires SystemInv(s) && n <= |steps|
    requires forall pid :: pid in s ==> s[pid].persistent == [] && s[pid].objs == map[]
    ensures AllOrigins(s, steps, n)
  {
    if n == 0 {
      assert steps[..0] == [];
    } else {
      hide *;
      OriginsUpTo(s, steps, n - 1);
      OriginsNext(s, steps, n - 1);
    }
  }

  lemma OriginsNext(s: System, steps: seq<SystemStep>, n: nat)
    requires n < |steps| && SystemInv(s) && AllOrigins(s, steps, n)
    ensures AllOrigins(s, steps, n + 1)
  {
    hide Origins, SystemInv, Run, SystemEnabled, SystemApply;
    assert steps[..n + 1] == steps[..n] + [steps[n]];
    RunOneMore(s, steps[..n], steps[n]);
    RunKeepsInv(s, steps[..n]);
    var next := Run(s, steps[..n + 1]);
    forall pid | pid in next ensures Origins(s, steps, n + 1, next[pid]) {
      OriginsOneMore(s, steps, n, pid);
    }
  }

  lemma OriginsOneMore(s: System, steps: seq<SystemStep>, n: nat, pid: int)
    requires n < |steps| && SystemInv(Run(s, steps[..n]))
    requires AllOrigins(s, steps, n)
    requires Run(s, steps[..n + 1]) == if SystemEnabled(Run(s, steps[..n]), steps[n])
                                       then SystemApply(Run(s, steps[..n]), steps[n]) else Run(s, steps[..n])
    requires pid in Run(s, steps[..n + 1])
    ensures Origins(s, steps, n + 1, Run(s, steps[..n + 1])[pid])
  {
    hide Origins, Run, Inv, Mentions, Enabled, Apply;
    var now, next := Run(s, steps[..n]), Run(s, steps[..n + 1]);
    if SystemEnabled(now, steps[n]) && steps[n].Local? && pid == steps[n].pid {
      StepStems(now[pid], steps[n].step);
      OriginsStem(s, steps, n, now[pid], next[pid]);
    } else if SystemEnabled(now, steps[n]) && steps[n].Fork? && pid == steps[n].child {
      MoreOrigins(s, steps, n, now[steps[n].parent], next[pid]);
    } else {
      MoreOrigins(s, steps, n, now[pid], next[pid]);
    }
  }

  lemma MoreOrigins(s: System, steps: seq<SystemStep>, n: nat, p: Proc, q: Proc)
    requires Origins(s, steps, n, p) && q.persistent == p.persistent && q.objs == p.objs
    ensures Origins(s, steps, n + 1, q)
  {
    hide RegistersAt, MakesAt;
    forall hash, c | RegisteredBefore(s, steps, n, hash, c) ensures RegisteredBefore(s, steps, n + 1, hash, c) {
      var k: nat :| k < n && RegistersAt(s, steps, k, hash, c);
    }
    forall id, m | MadeBefore(s, steps, n, id, m) ensures MadeBefore(s, steps, n + 1, id, m) {
      var k: nat :| k < n && MakesAt(s, steps, k, id, m);
    }
  }

  lemma OriginsStem(s: System, steps: seq<SystemStep>, n: nat, p: Proc, q: Proc)
    requires n < |steps| && steps[n].Local? && steps[n].pid in Run(s, steps[..n]) && p == Run(s, steps[..n])[steps[n].pid]
    requires Origins(s, steps, n, p) && Stems(p, q, steps[n].step)
    ensures Origins(s, steps, n + 1, q)
  {
    hide Run, Registers, Makes;
    MoreOrigins(s, steps, n, p, p);
    forall i | 0 <= i < |q.persistent|
      ensures RegisteredBefore(s, steps, n + 1, q.persistent[i].key, q.persistent[i].value.client)
    {
      var e := q.persistent[i];
      if HasEntry(p.persistent, e.key, e.value.client) {
        var j :| 0 <= j < |p.persistent| && p.persistent[j].key == e.key && p.persistent[j].value.client == e.value.client;
        assert RegisteredBefore(s, steps, n + 1, p.persistent[j].key, p.persistent[j].value.client);
      } else {
        assert RegistersAt(s, steps, n, e.key, e.value.client);
      }
    }
    forall id | id in q.objs ensures MadeBefore(s, steps, n + 1, id, q.objs[id]) {
      if !(id in p.objs && p.objs[id] == q.objs[id]) {
        assert MakesAt(s, steps, n, id, q.objs[id]);
      }
    }
  }

  /** On every run, each persistent entry was registered by a construction that
      succeeded when the hash had no entry, and each Manager was made by one that
      succeeded or found a cached client: constructions that fail leave nothing. */
  lemma FailedConstructionsLeaveNothing(first: int, steps: seq<SystemStep>, pid: int)
    requires first > NO_PID && pid in Run(FirstProcess(first), steps)
    ensures Origins(FirstProcess(first), steps, |steps|, Run(FirstProcess(first), steps)[pid])
  {
    assert steps[..|steps|] == steps;
    RunInv(first, []);
    OriginsUpTo(FirstProcess(first), steps, |steps|);
  }
}
