/**
 Notifying event subscribers (src/phongo_apm.c). A table of subscribers lists
 object handles in the order of registration.
 */
module Apm {
  import opened Keys

  datatype ManagerRec = ManagerRec(client: nat, subscribers: Option<seq<nat>>)

  /** `to` followed by the wanted subscribers of `from` that it lacks. */
  function AddNew(to: seq<nat>, from: seq<nat>, wanted: nat -> bool): seq<nat>
    decreases |from|
  {
    if |from| == 0 then to
    else AddNew(Extend(to, from[0], wanted), from[1..], wanted)
  }

  /** All registrations that concern a client: the global ones, then those on
      Managers with this client. */
  function OnManagers(managers: seq<ManagerRec>, client: nat): seq<nat> {
    if |managers| == 0 then []
    else (if managers[0].client == client && managers[0].subscribers.Some? then managers[0].subscribers.value else [])
         + OnManagers(managers[1..], client)
  }

  function Registrations(global: Option<seq<nat>>, managers: Option<seq<ManagerRec>>, client: nat): seq<nat> {
    (if global.Some? then global.value else [])
    + (if managers.Some? then OnManagers(managers.value, client) else [])
  }

  predicate Distinct(s: seq<nat>) {
    forall i, j :: 0 <= i < j < |s| ==> s[i] != s[j]
  }

  function FirstIndex(s: seq<nat>, x: nat): (i: nat)
    requires x in s
    ensures i < |s| && s[i] == x && x !in s[..i]
  {
    if s[0] == x then 0 else 1 + FirstIndex(s[1..], x)
  }

  lemma {:induction false} AddNewAppend(to: seq<nat>, a: seq<nat>, b: seq<nat>, wanted: nat -> bool)
    ensures AddNew(to, a + b, wanted) == AddNew(AddNew(to, a, wanted), b, wanted)
    decreases |a|
  {
    if |a| == 0 {
      assert a + b == b;
    } else {
      assert (a + b)[1..] == a[1..] + b;
      AddNewAppend(Extend(to, a[0], wanted), a[1..], b, wanted);
    }
  }

  /** `to` extended by `x`, if it is wanted and new. */
  function Extend(to: seq<nat>, x: nat, wanted: nat -> bool): seq<nat> {
    if wanted(x) && x !in to then to + [x] else to
  }

  lemma {:induction false} AddNewMembers(to: seq<nat>, from: seq<nat>, wanted: nat -> bool)
    requires Distinct(to)
    ensures Distinct(AddNew(to, from, wanted))
    ensures forall h :: h in AddNew(to, from, wanted) <==> h in to || (h in from && wanted(h))
    decreases |from|
  {
    if |from| > 0 {
      var next := Extend(to, from[0], wanted);
      assert forall h :: h in next <==> h in to || (h == from[0] && wanted(h));
      AddNewMembers(next, from[1..], wanted);
      assert forall h :: h in from <==> h == from[0] || h in from[1..];
    }
  }

  /** In the order of their first registration. */
  ghost predicate InOrder(list: seq<nat>, registrations: seq<nat>) {
    forall i, j :: 0 <= i < j < |list| ==>
      list[i] in registrations && list[j] in registrations
      && FirstIndex(registrations, list[i]) < FirstIndex(registrations, list[j])
  }

  lemma ExtendKeepsOrder(before: seq<nat>, front: seq<nat>, x: nat, wanted: nat -> bool)
    requires InOrder(before, front) && forall h :: h in before <==> h in front && wanted(h)
    ensures InOrder(Extend(before, x, wanted), front + [x])
  {
    var list, all := Extend(before, x, wanted), front + [x];
    forall i, j | 0 <= i < j < |list|
      ensures list[i] in all && list[j] in all && FirstIndex(all, list[i]) < FirstIndex(all, list[j])
    {
      assert list[i] in before;
      FirstIndexOfPrefix(front, x, list[i]);
      if j < |before| {
        assert list[j] in before;
        FirstIndexOfPrefix(front, x, list[j]);
      }
    }
  }

  /** The notify list is exactly the distinct wanted subscribers among the
      registrations, in the order of their first registration. */
  lemma {:induction false} NotifyListIs(registrations: seq<nat>, wanted: nat -> bool)
    ensures var list := AddNew([], registrations, wanted);
            && Distinct(list)
            && (forall h :: h in list <==> h in registrations && wanted(h))
            && InOrder(list, registrations)
    decreases |registrations|
  {
    AddNewMembers([], registrations, wanted);
    var n := |registrations|;
    if n > 0 {
      hide InOrder;
      var front, x := registrations[..n - 1], registrations[n - 1];
      assert registrations == front + [x];
      NotifyListIs(front, wanted);
      AddNewAppend([], front, [x], wanted);
      assert [x][1..] == [];
      assert AddNew([], registrations, wanted) == Extend(AddNew([], front, wanted), x, wanted);
      ExtendKeepsOrder(AddNew([], front, wanted), front, x, wanted);
    }
  }

  lemma {:induction false} FirstIndexOfPrefix(front: seq<nat>, x: nat, y: nat)
    requires y in front
    ensures FirstIndex(front + [x], y) == FirstIndex(front, y)
  {
    if front[0] != y {
      assert (front + [x])[1..] == front[1..] + [x];
      FirstIndexOfPrefix(front[1..], x, y);
    }
  }

  // ----- Whose registrations concern a client -----

  predicate OnManager(m: ManagerRec, client: nat, h: nat) {
    m.client == client && m.subscribers.Some? && h in m.subscribers.value
  }

  /** A subscriber is registered globally, or on a Manager with the client. */
  predicate Concerns(global: Option<seq<nat>>, managers: Option<seq<ManagerRec>>, client: nat, h: nat) {
    || (global.Some? && h in global.value)
    || (managers.Some? && exists i :: 0 <= i < |managers.value| && OnManager(managers.value[i], client, h))
  }

  /** Table 0 is the global one; table `t` is that of Manager `t - 1`, if it has
      the client and a table. */
  function TableAt(global: Option<seq<nat>>, managers: Option<seq<ManagerRec>>, client: nat, t: nat): seq<nat> {
    if t == 0 then if global.Some? then global.value else []
    else if managers.Some? && t <= |managers.value| && managers.value[t - 1].client == client
            && managers.value[t - 1].subscribers.Some?
    then managers.value[t - 1].subscribers.value else []
  }

  predicate IsAt(global: Option<seq<nat>>, managers: Option<seq<ManagerRec>>, client: nat, h: nat, t: nat, k: nat) {
    k < |TableAt(global, managers, client, t)| && TableAt(global, managers, client, t)[k] == h
  }

  /** A place of `g` comes before every place of `h`, by table and then within. */
  ghost predicate RegisteredBefore(global: Option<seq<nat>>, managers: Option<seq<ManagerRec>>, client: nat, g: nat, h: nat) {
    exists t: nat, k: nat :: IsAt(global, managers, client, g, t, k)
      && forall u: nat, l: nat :: IsAt(global, managers, client, h, u, l) ==> t < u || (t == u && k < l)
  }

  /** The first `n` tables, one behind the other. */
  ghost function Tables(global: Option<seq<nat>>, managers: Option<seq<ManagerRec>>, client: nat, n: nat): seq<nat> {
    if n == 0 then [] else Tables(global, managers, client, n - 1) + TableAt(global, managers, client, n - 1)
  }

  ghost function TableCount(managers: Option<seq<ManagerRec>>): nat {
    if managers.Some? then |managers.value| + 1 else 1
  }

  lemma {:induction false} OnManagersAppend(a: seq<ManagerRec>, m: ManagerRec, client: nat)
    ensures OnManagers(a + [m], client)
            == OnManagers(a, client) + if m.client == client && m.subscribers.Some? then m.subscribers.value else []
  {
    if |a| == 0 {
      assert a + [m] == [m] && [m][1..] == [];
      assert OnManagers([m][1..], client) == [];
    } else {
      assert (a + [m])[1..] == a[1..] + [m];
      OnManagersAppend(a[1..], m, client);
    }
  }

  lemma {:induction false} TablesOfManagers(global: Option<seq<nat>>, managers: seq<ManagerRec>, client: nat, n: nat)
    requires n <= |managers|
    ensures Tables(global, Some(managers), client, n + 1)
            == TableAt(global, Some(managers), client, 0) + OnManagers(managers[..n], client)
  {
    var first := TableAt(global, Some(managers), client, 0);
    if n == 0 {
      assert Tables(global, Some(managers), client, 0) == [];
      assert managers[..0] == [] && [] + first == first + [];
    } else {
      hide OnManagers;
      TablesOfManagers(global, managers, client, n - 1);
      assert managers[..n] == managers[..n - 1] + [managers[n - 1]];
      OnManagersAppend(managers[..n - 1], managers[n - 1], client);
      TablesNext(global, Some(managers), client, n);
      ghost var before, table := OnManagers(managers[..n - 1], client), TableAt(global, Some(managers), client, n);
      assert first + before + table == first + (before + table);
    }
  }

  lemma TablesNext(global: Option<seq<nat>>, managers: Option<seq<ManagerRec>>, client: nat, n: nat)
    ensures Tables(global, managers, client, n + 1)
            == Tables(global, managers, client, n) + TableAt(global, managers, client, n)
  {
  }

  lemma RegistrationsAreTables(global: Option<seq<nat>>, managers: Option<seq<ManagerRec>>, client: nat)
    ensures Registrations(global, managers, client) == Tables(global, managers, client, TableCount(managers))
  {
    if managers.Some? {
      assert managers.value[..|managers.value|] == managers.value;
      TablesOfManagers(global, managers.value, client, |managers.value|);
    } else {
      assert Tables(global, managers, client, 0) == [];
    }
  }

  lemma {:induction false} TablesGrow(global: Option<seq<nat>>, managers: Option<seq<ManagerRec>>, client: nat, t: nat, n: nat)
    requires t <= n
    ensures Tables(global, managers, client, t) <= Tables(global, managers, client, n)
  {
    if t < n {
      TablesGrow(global, managers, client, t, n - 1);
    }
  }

  /** An index among the registrations is a place in a table. */
  lemma {:induction false} PlaceOf(global: Option<seq<nat>>, managers: Option<seq<ManagerRec>>, client: nat, n: nat, x: nat)
    returns (t: nat, k: nat)
    requires x < |Tables(global, managers, client, n)|
    ensures t < n && x == |Tables(global, managers, client, t)| + k
    ensures IsAt(global, managers, client, Tables(global, managers, client, n)[x], t, k)
  {
    var front := Tables(global, managers, client, n - 1);
    if x < |front| {
      t, k := PlaceOf(global, managers, client, n - 1, x);
    } else {
      t, k := n - 1, x - |front|;
    }
  }

  /** And a place in a table is an index among the registrations. */
  lemma IndexOfPlace(global: Option<seq<nat>>, managers: Option<seq<ManagerRec>>, client: nat, h: nat, t: nat, k: nat)
    requires IsAt(global, managers, client, h, t, k)
    ensures var x := |Tables(global, managers, client, t)| + k;
            var all := Registrations(global, managers, client);
            x < |all| && all[x] == h
  {
    hide Registrations, OnManagers, Tables;
    RegistrationsAreTables(global, managers, client);
    assert t < TableCount(managers);
    TablesNext(global, managers, client, t);
    TablesGrow(global, managers, client, t + 1, TableCount(managers));
  }

  lemma RegisteredConcerns(global: Option<seq<nat>>, managers: Option<seq<ManagerRec>>, client: nat, h: nat)
    requires h in Registrations(global, managers, client)
    ensures Concerns(global, managers, client, h)
  {
    hide Registrations, Tables, OnManagers;
    RegistrationsAreTables(global, managers, client);
    var all := Registrations(global, managers, client);
    var x :| 0 <= x < |all| && all[x] == h;
    var t, k := PlaceOf(global, managers, client, TableCount(managers), x);
    if t > 0 {
      assert OnManager(managers.value[t - 1], client, h);
    }
  }

  lemma ConcernedIsRegistered(global: Option<seq<nat>>, managers: Option<seq<ManagerRec>>, client: nat, h: nat)
    requires Concerns(global, managers, client, h)
    ensures h in Registrations(global, managers, client)
  {
    hide Registrations, Tables, OnManagers;
    var t := 0;
    if !(global.Some? && h in global.value) {
      var i: nat :| i < |managers.value| && OnManager(managers.value[i], client, h);
      t := i + 1;
    }
    var table := TableAt(global, managers, client, t);
    var k :| 0 <= k < |table| && table[k] == h;
    IndexOfPlace(global, managers, client, h, t, k);
  }

  lemma EarlierIsBefore(global: Option<seq<nat>>, managers: Option<seq<ManagerRec>>, client: nat, g: nat, h: nat)
    requires var all := Registrations(global, managers, client);
             g in all && h in all && FirstIndex(all, g) < FirstIndex(all, h)
    ensures RegisteredBefore(global, managers, client, g, h)
  {
    hide Registrations, Tables, OnManagers, IsAt;
    var all := Registrations(global, managers, client);
    RegistrationsAreTables(global, managers, client);
    var x := FirstIndex(all, g);
    var t, k := PlaceOf(global, managers, client, TableCount(managers), x);
    forall u: nat, l: nat | IsAt(global, managers, client, h, u, l) ensures t < u || (t == u && k < l) {
      IndexOfPlace(global, managers, client, h, u, l);
      NotBeforeFirst(all, h, |Tables(global, managers, client, u)| + l);
      if u < t {
        PlacesGrow(global, managers, client, h, u, l, t);
      }
    }
  }

  lemma {:induction false} NotBeforeFirst(s: seq<nat>, x: nat, i: nat)
    requires i < |s| && s[i] == x
    ensures FirstIndex(s, x) <= i
  {
    if s[0] != x {
      assert s[1..][i - 1] == x;
      NotBeforeFirst(s[1..], x, i - 1);
    }
  }

  lemma PlacesGrow(global: Option<seq<nat>>, managers: Option<seq<ManagerRec>>, client: nat, h: nat, u: nat, l: nat, t: nat)
    requires IsAt(global, managers, client, h, u, l) && u < t
    ensures |Tables(global, managers, client, u)| + l < |Tables(global, managers, client, t)|
  {
    TablesGrow(global, managers, client, u + 1, t);
  }

  /** The subscribers to notify of an event on a client are the wanted ones that
      are registered globally or on a Manager with this client, each once: global
      ones first, then Manager by Manager, each in the order of its table. */
  lemma NotifyListConcerns(global: Option<seq<nat>>, managers: Option<seq<ManagerRec>>, client: nat, wanted: nat -> bool)
    ensures var list := AddNew([], Registrations(global, managers, client), wanted);
            && Distinct(list)
            && (forall h :: h in list <==> wanted(h) && Concerns(global, managers, client, h))
            && (forall i, j :: 0 <= i < j < |list| ==> RegisteredBefore(global, managers, client, list[i], list[j]))
  {
    hide Concerns, RegisteredBefore, AddNew;
    var all := Registrations(global, managers, client);
    var list := AddNew([], all, wanted);
    NotifyListIs(all, wanted);
    forall h ensures h in list <==> wanted(h) && Concerns(global, managers, client, h) {
      if h in all {
        RegisteredConcerns(global, managers, client, h);
      }
      if Concerns(global, managers, client, h) {
        ConcernedIsRegistered(global, managers, client, h);
      }
    }
    forall i, j | 0 <= i < j < |list| ensures RegisteredBefore(global, managers, client, list[i], list[j]) {
      assert list[i] in all && list[j] in all && FirstIndex(all, list[i]) < FirstIndex(all, list[j]);
      EarlierIsBefore(global, managers, client, list[i], list[j]);
    }
  }

  // ----- Reference counts -----

  type Counts = map<nat, nat>

  predicate Counted(counts: Counts, s: seq<nat>) {
    forall h :: h in s ==> h in counts
  }

  /** One more reference to every subscriber in `s`. */
  ghost predicate Raised(before: Counts, after: Counts, s: seq<nat>) {
    && after.Keys == before.Keys
    && forall h :: h in before ==> after[h] == before[h] + if h in s then 1 else 0
  }

  predicate HasManager(managers: Option<seq<ManagerRec>>, client: nat) {
    managers.Some? && exists i :: 0 <= i < |managers.value| && managers.value[i].client == client
  }

  /** `n` subscribers have been called: all, and none has thrown, or all up to the
      first that throws. */
  predicate CalledUntilThrown(list: seq<nat>, throws: nat -> bool, n: nat, exception: bool) {
    && n <= |list|
    && (forall j :: 0 <= j < n ==> (throws(list[j]) <==> exception && j == n - 1))
    && (if exception then n > 0 else n == |list|)
  }

  class Monitor {
    var subscribers: Option<seq<nat>>  // the global table
    var managers: Option<seq<ManagerRec>>
    var refCounts: Counts
    ghost var called: seq<nat>  // calls of subscribers' methods

    /** Every registered subscriber is an object with a reference count. */
    ghost predicate Valid()
      reads this
    {
      && (subscribers.Some? ==> Counted(refCounts, subscribers.value))
      && (managers.Some? ==> forall i :: 0 <= i < |managers.value| && managers.value[i].subscribers.Some? ==>
            Counted(refCounts, managers.value[i].subscribers.value))
    }

    constructor ()
      ensures Valid() && subscribers == Some([]) && managers == Some([]) && called == []
    {
      subscribers, managers, refCounts, called := Some([]), Some([]), map[], [];
    }

    /** phongo_apm_add_subscribers_to_notify() */
    method AddSubscribersToNotify(wanted: nat -> bool, from: seq<nat>, to: seq<nat>, ghost before: Counts)
      returns (list: seq<nat>)
      requires Counted(refCounts, from) && Counted(refCounts, to) && Raised(before, refCounts, to)
      modifies `refCounts
      ensures list == AddNew(to, from, wanted)
      ensures Raised(before, refCounts, list) && Counted(refCounts, list) && refCounts.Keys == old(refCounts).Keys
    {
      list := to;
      var i := 0;
      assert from[0..] == from;
      while i < |from|
        invariant 0 <= i <= |from|
        invariant AddNew(list, from[i..], wanted) == AddNew(to, from, wanted)
        invariant Raised(before, refCounts, list) && Counted(refCounts, list)
        invariant refCounts.Keys == old(refCounts).Keys
      {
        var subscriber := from[i];
        assert from[i..][1..] == from[i + 1..];
        i := i + 1;
        if !wanted(subscriber) {
          continue;
        }
        if subscriber in list {
          continue;
        }
        list := list + [subscriber];
        refCounts := refCounts[subscriber := refCounts[subscriber] + 1];
      }
    }

    /** phongo_apm_get_subscribers_to_notify() */
    method GetSubscribersToNotify(wanted: nat -> bool, client: nat) returns (list: seq<nat>)
      requires Valid()
      modifies `refCounts
      ensures Valid() && list == AddNew([], Registrations(subscribers, managers, client), wanted)
      ensures forall h :: h in list <==> wanted(h) && Concerns(subscribers, managers, client, h)
      ensures Raised(old(refCounts), refCounts, list) && Counted(refCounts, list)
    {
      NotifyListConcerns(subscribers, managers, client, wanted);
      hide Concerns, RegisteredBefore;
      ghost var before := refCounts;
      list := [];
      if subscribers.Some? {
        list := AddSubscribersToNotify(wanted, subscribers.value, list, before);
      }
      ghost var global := if subscribers.Some? then subscribers.value else [];
      assert list == AddNew([], global, wanted);
      if managers.Some? {
        var i := 0;
        assert managers.value[0..] == managers.value;
        while i < |managers.value|
          invariant 0 <= i <= |managers.value|
          invariant Valid() && refCounts.Keys == before.Keys && Raised(before, refCounts, list) && Counted(refCounts, list)
          invariant AddNew(list, OnManagers(managers.value[i..], client), wanted)
                    == AddNew(AddNew([], global, wanted), OnManagers(managers.value, client), wanted)
        {
          var manager := managers.value[i];
          assert managers.value[i..][1..] == managers.value[i + 1..];
          ghost var here := if manager.client == client && manager.subscribers.Some? then manager.subscribers.value else [];
          AddNewAppend(list, here, OnManagers(managers.value[i + 1..], client), wanted);
          if manager.client == client && manager.subscribers.Some? {
            list := AddSubscribersToNotify(wanted, manager.subscribers.value, list, before);
          }
          i := i + 1;
        }
        AddNewAppend([], global, OnManagers(managers.value, client), wanted);
      } else {
        assert global + [] == global;
      }
    }

    /** phongo_apm_dispatch_event(): stops when an exception is pending. */
    method DispatchEvent(list: seq<nat>, throws: nat -> bool, pending: bool) returns (exception: bool, ghost n: nat)
      modifies `called
      ensures n <= |list| && called == old(called) + list[..n]
      ensures if pending then n == 0 && exception else CalledUntilThrown(list, throws, n, exception)
    {
      exception := pending;
      var i := 0;
      while i < |list|
        invariant 0 <= i <= |list|
        invariant called == old(called) + list[..i]
        invariant pending ==> i == 0 && exception
        invariant !pending ==> forall j :: 0 <= j < i ==> (throws(list[j]) <==> exception && j == i - 1)
        invariant !pending && exception ==> i > 0
      {
        if exception {
          break;
        }
        called := called + [list[i]];
        exception := throws(list[i]);
        i := i + 1;
      }
      n := i;
    }

    /** zend_hash_destroy() on the notify list gives the references back. */
    method DestroyList(list: seq<nat>, ghost before: Counts)
      requires Distinct(list) && Counted(before, list) && Raised(before, refCounts, list)
      modifies `refCounts
      ensures refCounts == before
    {
      var i := 0;
      assert list[0..] == list;
      while i < |list|
        invariant 0 <= i <= |list|
        invariant Raised(before, refCounts, list[i..])
      {
        assert list[i] in list && list[i] in list[i..];
        assert forall h :: h in list[i..] <==> h == list[i] || h in list[i + 1..];
        assert list[i] !in list[i + 1..];
        refCounts := refCounts[list[i] := refCounts[list[i]] - 1];
        i := i + 1;
      }
      assert list[i..] == [];
      assert forall h :: h in before ==> refCounts[h] == before[h];
    }

    /** phongo_apm_copy_manager_for_client(): the first registered Manager with
        the client, if there is any. */
    method FindManagerForClient(client: nat) returns (index: Option<nat>)
      ensures index.Some? <==> HasManager(managers, client)
      ensures index.Some? ==>
                && index.value < |managers.value| && managers.value[index.value].client == client
                && forall j :: 0 <= j < index.value ==> managers.value[j].client != client
    {
      index := None;
      if managers.None? {
        return;
      }
      var i := 0;
      while i < |managers.value|
        invariant 0 <= i <= |managers.value|
        invariant forall j :: 0 <= j < i ==> managers.value[j].client != client
      {
        if managers.value[i].client == client {
          return Some(i);
        }
        i := i + 1;
      }
    }

    /** phongo_apm_command_started() and its siblings: the first `n` subscribers of
        the notify list are called, all of them if none throws, up to the first
        that does otherwise; and afterwards nobody holds a reference more than
        before. */
    method CommandEvent(wanted: nat -> bool, throws: nat -> bool, client: nat) returns (exception: bool, ghost n: nat)
      requires Valid()
      modifies `refCounts, `called
      ensures Valid() && refCounts == old(refCounts)
      ensures var list := AddNew([], Registrations(subscribers, managers, client), wanted);
              && Distinct(list) && n <= |list| && called == old(called) + list[..n]
              && (forall h :: h in list <==> wanted(h) && Concerns(subscribers, managers, client, h))
              && (if HasManager(managers, client) then CalledUntilThrown(list, throws, n, exception)
                  else n == 0 && (exception <==> list != []))
              && (managers.Some? && (exists i :: 0 <= i < |managers.value| && managers.value[i].client == client) ==>
                    && (exception <==> n > 0 && throws(list[n - 1]))
                    && (!exception ==> n == |list|)
                    && forall j :: 0 <= j < n - 1 ==> !throws(list[j]))
    {
      ghost var before := refCounts;
      var list := GetSubscribersToNotify(wanted, client);
      AddNewMembers([], Registrations(subscribers, managers, client), wanted);
      exception, n := false, 0;
      assert list[..0] == [];
      if |list| > 0 {
        var manager := FindManagerForClient(client);
        if manager.Some? {
          exception, n := DispatchEvent(list, throws, false);
        } else {
          exception := true;
        }
      }
      DestroyList(list, before);
    }

    // ----- Registration -----

    /** phongo_apm_add_subscriber() on the global table: registering twice is
        registering once. */
    method AddSubscriber(subscriber: nat) returns (ok: bool)
      requires Valid() && subscriber in refCounts
      modifies `subscribers, `refCounts
      ensures Valid()
      ensures ok <==> old(subscribers).Some?
      ensures ok ==> subscribers == Some(AddNew(old(subscribers).value, [subscriber], _ => true))
      ensures ok && subscriber !in old(subscribers).value ==>
                refCounts == old(refCounts)[subscriber := old(refCounts)[subscriber] + 1]
      ensures !ok || subscriber in old(subscribers).value ==> refCounts == old(refCounts) && subscribers == old(subscribers)
    {
      if subscribers.None? {
        return false;
      }
      assert AddNew(subscribers.value, [subscriber], _ => true) ==
             if subscriber !in subscribers.value then subscribers.value + [subscriber] else subscribers.value by {
        assert [subscriber][1..] == [];
      }
      if subscriber in subscribers.value {
        return true;
      }
      subscribers := Some(subscribers.value + [subscriber]);
      refCounts := refCounts[subscriber := refCounts[subscriber] + 1];
      ok := true;
    }

    /** phongo_apm_remove_subscriber() on the global table: a NOP for a subscriber
        that is not there. The table's reference is given back. */
    method RemoveSubscriber(subscriber: nat) returns (ok: bool)
      requires Valid() && subscriber in refCounts && refCounts[subscriber] > 0
      requires subscribers.Some? ==> Distinct(subscribers.value)
      modifies `subscribers, `refCounts
      ensures Valid()
      ensures ok <==> old(subscribers).Some?
      ensures ok ==> subscribers == Some(Drop(old(subscribers).value, subscriber))
      ensures !ok ==> subscribers == None
      ensures refCounts == if ok && subscriber in old(subscribers).value
                           then old(refCounts)[subscriber := (old(refCounts)[subscriber] - 1) as nat] else old(refCounts)
    {
      if subscribers.None? {
        return false;
      }
      DropMembers(subscribers.value, subscriber);
      if subscriber in subscribers.value {
        refCounts := refCounts[subscriber := refCounts[subscriber] - 1];
      }
      subscribers := Some(Drop(subscribers.value, subscriber));
      ok := true;
    }
  }

  /** The table without an object. */
  function Drop(s: seq<nat>, x: nat): seq<nat> {
    if |s| == 0 then [] else (if s[0] == x then [] else [s[0]]) + Drop(s[1..], x)
  }

  lemma {:induction false} DropMembers(s: seq<nat>, x: nat)
    ensures forall h :: h in Drop(s, x) <==> h in s && h != x
    ensures x !in s ==> Drop(s, x) == s
  {
    if |s| > 0 {
      DropMembers(s[1..], x);
      assert s == [s[0]] + s[1..];
    }
  }

  /** Removing undoes adding. */
  lemma {:induction false} DropUndoesAdd(s: seq<nat>, x: nat)
    requires x !in s
    ensures Drop(AddNew(s, [x], _ => true), x) == s
  {
    assert [x][1..] == [] && AddNew(s, [x], _ => true) == s + [x];
    DropAppended(s, x);
  }

  lemma {:induction false} DropAppended(s: seq<nat>, x: nat)
    requires x !in s
    ensures Drop(s + [x], x) == s
  {
    if |s| == 0 {
      assert s + [x] == [x] && [x][1..] == [];
    } else {
      assert (s + [x])[1..] == s[1..] + [x];
      DropAppended(s[1..], x);
    }
  }
}
