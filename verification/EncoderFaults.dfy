/**
 When encoding a graph of hash tables fails, and what it says then.
 */
module EncoderFaults {
  import opened Keys
  import opened Values
  import opened FieldPaths
  import opened TreeEncoder
  import opened Encoder

  /** Following the entry numbers in `walk` from a table leads to an entry that
      cannot be encoded, with error `e`. The tables entered on the way are added
      to `enclosing`: an entry whose table is among them is a recursion. */
  predicate FaultAt(h: Heap, rt: Runtime, view: View, path: seq<cstring>, enclosing: set<nat>,
                    walk: seq<nat>, e: EncodeError)
    requires Closed(h) && SlotsInHeap(h, view.slots)
    decreases |walk|
  {
    && |walk| > 0 && walk[0] < |view.slots|
    && var slot := view.slots[walk[0]];
       var key := KeyString(slot.key);
       && !IsSkipped(slot.key, view.fromProps, view.skipOdm)
       && if '\0' in key then |walk| == 1 && e == NullByteInKey(UpToNul(key))
          else ValueFaultAt(h, rt, slot.value, path + [key], enclosing, walk, e)
  }

  predicate ValueFaultAt(h: Heap, rt: Runtime, z: Zval, path: seq<cstring>, enclosing: set<nat>,
                         walk: seq<nat>, e: EncodeError)
    requires Closed(h) && InHeap(h, z) && |walk| > 0
    decreases |walk|, 0
  {
    DerefInHeap(h, z);
    PlanFacts(h, rt, Deref(z), Join(path), enclosing, false);
    match PlanOf(h, rt, Deref(z), Join(path), enclosing, false)
    case Throw(error) => |walk| == 1 && e == error
    case Nest(table, isArray, prefix, Abandon(thrown)) => |walk| == 1 && e in thrown
    case Nest(table, isArray, prefix, Iterate(_, view)) =>
      FaultAt(h, rt, view, path, enclosing + {table}, walk[1..], e)
    case _ => false
  }

  // ----- Errors accumulate -----

  /** The errors of an embedded table are those of its entries. */
  lemma NestedErrs(h: Heap, rt: Runtime, key: cstring, plan: Plan, path: seq<cstring>,
                   enclosing: set<nat>, errs: seq<EncodeError>)
    requires Closed(h) && plan.Nest? && SourceInHeap(h, plan.source)
    ensures EncodeNested(h, rt, key, plan.isArray, plan.prefix, plan.source, path, enclosing, errs).errs ==
            match plan.source
            case Abandon(thrown) => errs + thrown
            case Iterate(_, view) => EncodeView(h, rt, view, path, enclosing, errs).errs
  {
    assert EncodeSource(h, rt, plan.source, path, enclosing, errs).errs ==
           match plan.source
           case Abandon(thrown) => errs + thrown
           case Iterate(_, view) => EncodeView(h, rt, view, path, enclosing, errs).errs;
  }

  lemma {:induction false} ValueErrsGrow(h: Heap, rt: Runtime, key: cstring, z: Zval, path: seq<cstring>,
                                         enclosing: set<nat>, errs: seq<EncodeError>)
    requires Closed(h) && InHeap(h, z)
    ensures errs <= EncodeValue(h, rt, key, z, path, enclosing, errs).errs
    decreases h.tables.Keys - enclosing, 0, 0
  {
    DerefInHeap(h, z);
    var here := path + [key];
    PlanFacts(h, rt, Deref(z), Join(here), enclosing, errs != []);
    var plan := PlanOf(h, rt, Deref(z), Join(here), enclosing, errs != []);
    if plan.Nest? {
      NestedErrs(h, rt, key, plan, here, enclosing + {plan.table}, errs);
      if plan.source.Iterate? {
        ViewErrsGrow(h, rt, plan.source.view, here, enclosing + {plan.table}, errs);
      }
    }
  }

  lemma {:induction false} ViewErrsGrow(h: Heap, rt: Runtime, view: View, path: seq<cstring>,
                                        enclosing: set<nat>, errs: seq<EncodeError>)
    requires Closed(h) && SlotsInHeap(h, view.slots)
    ensures errs <= EncodeView(h, rt, view, path, enclosing, errs).errs
    decreases h.tables.Keys - enclosing, 1, |view.slots|
  {
    if |view.slots| > 0 {
      var first := view.slots[0];
      var key := KeyString(first.key);
      if IsSkipped(first.key, view.fromProps, view.skipOdm) {
        ViewErrsGrow(h, rt, Tail(view), path, enclosing, errs);
      } else if '\0' !in key {
        ValueErrsGrow(h, rt, key, first.value, path, enclosing, errs);
        ViewErrsGrow(h, rt, Tail(view), path, enclosing,
                     EncodeValue(h, rt, key, first.value, path, enclosing, errs).errs);
      }
    }
  }

  /** A pending exception only silences calls of bsonSerialize(). */
  lemma PendingPlan(h: Heap, rt: Runtime, z: Zval, path: string, enclosing: set<nat>)
    requires Closed(h) && InHeap(h, z) && !z.ZReference?
    ensures PlanOf(h, rt, z, path, enclosing, true) == Nothing
            || PlanOf(h, rt, z, path, enclosing, true) == PlanOf(h, rt, z, path, enclosing, false)
  {
  }

  /** A private or protected property in the table of an object makes no
      difference: no field, no error. */
  lemma {:induction false} PrivateSlotIsLeftOut(h: Heap, rt: Runtime, view: View, rest: View, i: nat, name: string,
                                                path: seq<cstring>, enclosing: set<nat>, errs: seq<EncodeError>)
    requires Closed(h) && SlotsInHeap(h, view.slots) && SlotsInHeap(h, rest.slots)
    requires view.fromProps && i < |view.slots| && view.slots[i].key == StrKey(name) && |name| > 0 && name[0] == '\0'
    requires rest == view.(slots := view.slots[..i] + view.slots[i + 1..])
    ensures EncodeView(h, rt, view, path, enclosing, errs) == EncodeView(h, rt, rest, path, enclosing, errs)
    decreases i
  {
    if i == 0 {
      assert rest == Tail(view);
    } else {
      hide EncodeValue;
      var first := view.slots[0];
      assert rest.slots[0] == first;
      assert Tail(rest).slots == Tail(view).slots[..i - 1] + Tail(view).slots[i..];
      var key := KeyString(first.key);
      if IsSkipped(first.key, view.fromProps, view.skipOdm) {
        PrivateSlotIsLeftOut(h, rt, Tail(view), Tail(rest), i - 1, name, path, enclosing, errs);
      } else if '\0' !in key {
        var v := EncodeValue(h, rt, key, first.value, path, enclosing, errs);
        PrivateSlotIsLeftOut(h, rt, Tail(view), Tail(rest), i - 1, name, path, enclosing, v.errs);
      }
    }
  }

  // ----- Every error reported is a fault of the graph -----

  lemma {:induction false} ValueErrorIsFault(h: Heap, rt: Runtime, key: cstring, z: Zval, path: seq<cstring>,
                                             enclosing: set<nat>, errs: seq<EncodeError>, e: EncodeError)
    returns (walk: seq<nat>)
    requires Closed(h) && InHeap(h, z)
    requires errs <= EncodeValue(h, rt, key, z, path, enclosing, errs).errs
    requires e in EncodeValue(h, rt, key, z, path, enclosing, errs).errs[|errs|..]
    ensures |walk| > 0 && walk[0] == 0 && ValueFaultAt(h, rt, z, path + [key], enclosing, walk, e)
    decreases h.tables.Keys - enclosing, 0, 0
  {
    DerefInHeap(h, z);
    var here := path + [key];
    PlanFacts(h, rt, Deref(z), Join(here), enclosing, errs != []);
    PendingPlan(h, rt, Deref(z), Join(here), enclosing);
    var plan := PlanOf(h, rt, Deref(z), Join(here), enclosing, errs != []);
    walk := [0];
    if plan.Nest? {
      var inner := enclosing + {plan.table};
      NestedErrs(h, rt, key, plan, here, inner, errs);
      if plan.source.Iterate? {
        ViewErrsGrow(h, rt, plan.source.view, here, inner, errs);
        var rest := ErrorIsFault(h, rt, plan.source.view, here, inner, errs, e);
        walk := [0] + rest;
        assert walk[1..] == rest;
      } else {
        assert (errs + plan.source.thrown)[|errs|..] == plan.source.thrown;
      }
    }
  }

  /** Each error thrown while a table is appended names, key by key, a walk to an
      entry that cannot be encoded. */
  lemma {:induction false} ErrorIsFault(h: Heap, rt: Runtime, view: View, path: seq<cstring>,
                                        enclosing: set<nat>, errs: seq<EncodeError>, e: EncodeError)
    returns (walk: seq<nat>)
    requires Closed(h) && SlotsInHeap(h, view.slots)
    requires errs <= EncodeView(h, rt, view, path, enclosing, errs).errs
    requires e in EncodeView(h, rt, view, path, enclosing, errs).errs[|errs|..]
    ensures FaultAt(h, rt, view, path, enclosing, walk, e)
    decreases h.tables.Keys - enclosing, 1, |view.slots|
  {
    var first := view.slots[0];
    var key := KeyString(first.key);
    walk := [0];
    if IsSkipped(first.key, view.fromProps, view.skipOdm) {
      var rest := ErrorIsFault(h, rt, Tail(view), path, enclosing, errs, e);
      walk := LaterFault(h, rt, view, path, enclosing, rest, e);
    } else if '\0' !in key {
      var v := EncodeValue(h, rt, key, first.value, path, enclosing, errs);
      ValueErrsGrow(h, rt, key, first.value, path, enclosing, errs);
      ViewErrsGrow(h, rt, Tail(view), path, enclosing, v.errs);
      var all := EncodeView(h, rt, Tail(view), path, enclosing, v.errs).errs;
      assert all[|errs|..] == v.errs[|errs|..] + all[|v.errs|..];
      if e in v.errs[|errs|..] {
        walk := ValueErrorIsFault(h, rt, key, first.value, path, enclosing, errs, e);
      } else {
        var rest := ErrorIsFault(h, rt, Tail(view), path, enclosing, v.errs, e);
        walk := LaterFault(h, rt, view, path, enclosing, rest, e);
      }
    }
  }

  /** A walk among the later entries, seen from the whole table. */
  lemma LaterFault(h: Heap, rt: Runtime, view: View, path: seq<cstring>, enclosing: set<nat>,
                   rest: seq<nat>, e: EncodeError)
    returns (walk: seq<nat>)
    requires Closed(h) && SlotsInHeap(h, view.slots) && |view.slots| > 0
    requires FaultAt(h, rt, Tail(view), path, enclosing, rest, e)
    ensures FaultAt(h, rt, view, path, enclosing, walk, e)
  {
    walk := [rest[0] + 1] + rest[1..];
    assert walk[1..] == rest[1..];
  }

  // ----- A fault makes the encoding fail -----

  lemma {:induction false} ValueFaultIsReported(h: Heap, rt: Runtime, key: cstring, z: Zval, path: seq<cstring>,
                                                enclosing: set<nat>, walk: seq<nat>, e: EncodeError)
    requires Closed(h) && InHeap(h, z) && |walk| > 0
    requires ValueFaultAt(h, rt, z, path + [key], enclosing, walk, e)
    ensures EncodeValue(h, rt, key, z, path, enclosing, []).errs != []
    decreases h.tables.Keys - enclosing, 0, 0
  {
    DerefInHeap(h, z);
    var here := path + [key];
    PlanFacts(h, rt, Deref(z), Join(here), enclosing, false);
    var plan := PlanOf(h, rt, Deref(z), Join(here), enclosing, false);
    if plan.Nest? {
      NestedErrs(h, rt, key, plan, here, enclosing + {plan.table}, []);
    }
    if plan.Nest? && plan.source.Iterate? {
      FaultIsReported(h, rt, plan.source.view, here, enclosing + {plan.table}, walk[1..], e);
    }
  }

  /** If some walk leads to an entry that cannot be encoded, an exception is
      thrown. */
  lemma {:induction false} FaultIsReported(h: Heap, rt: Runtime, view: View, path: seq<cstring>,
                                           enclosing: set<nat>, walk: seq<nat>, e: EncodeError)
    requires Closed(h) && SlotsInHeap(h, view.slots)
    requires FaultAt(h, rt, view, path, enclosing, walk, e)
    ensures EncodeView(h, rt, view, path, enclosing, []).errs != []
    decreases h.tables.Keys - enclosing, 1, |view.slots|
  {
    hide EncodeValue, PlanOf;
    var first := view.slots[0];
    var key := KeyString(first.key);
    if walk[0] > 0 {
      var rest := [walk[0] - 1] + walk[1..];
      assert rest[1..] == walk[1..];
      assert FaultAt(h, rt, Tail(view), path, enclosing, rest, e);
      FaultIsReported(h, rt, Tail(view), path, enclosing, rest, e);
    }
    if !IsSkipped(first.key, view.fromProps, view.skipOdm) && '\0' !in key {
      var v := EncodeValue(h, rt, key, first.value, path, enclosing, []);
      ViewErrsGrow(h, rt, Tail(view), path, enclosing, v.errs);
      if walk[0] == 0 {
        ValueFaultIsReported(h, rt, key, first.value, path, enclosing, walk, e);
      }
    }
  }

  /** The order in which the encoder comes by the ends of two walks. */
  predicate Before(a: seq<nat>, b: seq<nat>) {
    |a| > 0 && |b| > 0 && (a[0] < b[0] || (a[0] == b[0] && Before(a[1..], b[1..])))
  }

  /** A fault of the later entries, or of all. */
  lemma FaultOfTail(h: Heap, rt: Runtime, view: View, path: seq<cstring>, enclosing: set<nat>, walk: seq<nat>, e: EncodeError)
    requires Closed(h) && SlotsInHeap(h, view.slots) && |view.slots| > 0 && |walk| > 0 && walk[0] > 0
    ensures FaultAt(h, rt, view, path, enclosing, walk, e)
            <==> FaultAt(h, rt, Tail(view), path, enclosing, [walk[0] - 1] + walk[1..], e)
  {
    var rest := [walk[0] - 1] + walk[1..];
    assert rest[1..] == walk[1..];
  }

  /** `walk` leads to a fault, with error `e`, and no other faulty walk ends before
      it. */
  ghost predicate IsFirstFault(h: Heap, rt: Runtime, view: View, path: seq<cstring>, enclosing: set<nat>,
                               walk: seq<nat>, e: EncodeError)
    requires Closed(h) && SlotsInHeap(h, view.slots)
  {
    && FaultAt(h, rt, view, path, enclosing, walk, e)
    && forall w, f :: FaultAt(h, rt, view, path, enclosing, w, f) ==> (w == walk && f == e) || Before(walk, w)
  }

  ghost predicate IsFirstFaultOfValue(h: Heap, rt: Runtime, z: Zval, path: seq<cstring>, enclosing: set<nat>,
                                      walk: seq<nat>, e: EncodeError)
    requires Closed(h) && InHeap(h, z)
  {
    && |walk| > 0 && walk[0] == 0 && ValueFaultAt(h, rt, z, path, enclosing, walk, e)
    && forall w, f :: |w| > 0 && w[0] == 0 && ValueFaultAt(h, rt, z, path, enclosing, w, f) ==>
         (w == walk && f == e) || Before(walk, w)
  }

  lemma {:induction false} FirstErrorOfValue(h: Heap, rt: Runtime, key: cstring, z: Zval, path: seq<cstring>, enclosing: set<nat>)
    returns (walk: seq<nat>)
    requires Closed(h) && InHeap(h, z) && EncodeValue(h, rt, key, z, path, enclosing, []).errs != []
    ensures IsFirstFaultOfValue(h, rt, z, path + [key], enclosing, walk, EncodeValue(h, rt, key, z, path, enclosing, []).errs[0])
    decreases h.tables.Keys - enclosing, 0, 0
  {
    hide FaultAt, EncodeView;
    DerefInHeap(h, z);
    var here := path + [key];
    PlanFacts(h, rt, Deref(z), Join(here), enclosing, false);
    var plan := PlanOf(h, rt, Deref(z), Join(here), enclosing, false);
    walk := [0];
    if plan.Nest? {
      var inner := enclosing + {plan.table};
      NestedErrs(h, rt, key, plan, here, inner, []);
      if plan.source.Iterate? {
        var rest := FirstError(h, rt, plan.source.view, here, inner);
        walk := [0] + rest;
        assert walk[1..] == rest;
        forall w, f | |w| > 0 && w[0] == 0 && ValueFaultAt(h, rt, z, here, enclosing, w, f)
          ensures (w == walk && f == EncodeValue(h, rt, key, z, path, enclosing, []).errs[0]) || Before(walk, w)
        {
          assert FaultAt(h, rt, plan.source.view, here, inner, w[1..], f);
          assert w == [0] + w[1..];
        }
      }
    }
  }

  /** The first error thrown is that of the first fault in the order of the
      entries. */
  lemma {:induction false} FirstError(h: Heap, rt: Runtime, view: View, path: seq<cstring>, enclosing: set<nat>)
    returns (walk: seq<nat>)
    requires Closed(h) && SlotsInHeap(h, view.slots) && EncodeView(h, rt, view, path, enclosing, []).errs != []
    ensures IsFirstFault(h, rt, view, path, enclosing, walk, EncodeView(h, rt, view, path, enclosing, []).errs[0])
    decreases h.tables.Keys - enclosing, 1, |view.slots|
  {
    hide ValueFaultAt, EncodeValue;
    var first := view.slots[0];
    var key := KeyString(first.key);
    walk := [0];
    if IsSkipped(first.key, view.fromProps, view.skipOdm) {
      var rest := FirstError(h, rt, Tail(view), path, enclosing);
      walk := FirstErrorLater(h, rt, view, path, enclosing, rest);
    } else if '\0' !in key {
      var v := EncodeValue(h, rt, key, first.value, path, enclosing, []);
      if v.errs == [] {
        var rest := FirstError(h, rt, Tail(view), path, enclosing);
        forall w, f | |w| > 0 && w[0] == 0 ensures !FaultAt(h, rt, view, path, enclosing, w, f) {
          if FaultAt(h, rt, view, path, enclosing, w, f) {
            ValueFaultIsReported(h, rt, key, first.value, path, enclosing, w, f);
          }
        }
        walk := FirstErrorLater(h, rt, view, path, enclosing, rest);
      } else {
        ViewErrsGrow(h, rt, Tail(view), path, enclosing, v.errs);
        walk := FirstErrorOfValue(h, rt, key, first.value, path, enclosing);
        FirstOfEntry(h, rt, view, path, enclosing, walk, v.errs[0]);
      }
    } else {
      FirstOfEntry(h, rt, view, path, enclosing, walk, NullByteInKey(UpToNul(key)));
    }
  }

  /** A fault in the first entry comes before those of the others. */
  lemma FirstOfEntry(h: Heap, rt: Runtime, view: View, path: seq<cstring>, enclosing: set<nat>, walk: seq<nat>, e: EncodeError)
    requires Closed(h) && SlotsInHeap(h, view.slots) && |view.slots| > 0
    requires !IsSkipped(view.slots[0].key, view.fromProps, view.skipOdm)
    requires var key := KeyString(view.slots[0].key);
             if '\0' in key then walk == [0] && e == NullByteInKey(UpToNul(key))
             else IsFirstFaultOfValue(h, rt, view.slots[0].value, path + [key], enclosing, walk, e)
    ensures IsFirstFault(h, rt, view, path, enclosing, walk, e)
  {
    hide ValueFaultAt;
    forall w, f | FaultAt(h, rt, view, path, enclosing, w, f) ensures (w == walk && f == e) || Before(walk, w) {
      var key := KeyString(view.slots[0].key);
      if w[0] == 0 {
        if '\0' in key {
          assert w == [0];
        } else {
          assert ValueFaultAt(h, rt, view.slots[0].value, path + [key], enclosing, w, f);
        }
      } else {
        assert walk[0] < w[0];
      }
    }
  }

  /** Without a fault in the first entry, the first fault is a later entry's. */
  lemma FirstErrorLater(h: Heap, rt: Runtime, view: View, path: seq<cstring>, enclosing: set<nat>, rest: seq<nat>)
    returns (walk: seq<nat>)
    requires Closed(h) && SlotsInHeap(h, view.slots) && |view.slots| > 0
    requires EncodeView(h, rt, Tail(view), path, enclosing, []).errs != []
    requires IsFirstFault(h, rt, Tail(view), path, enclosing, rest, EncodeView(h, rt, Tail(view), path, enclosing, []).errs[0])
    requires forall w, f :: |w| > 0 && w[0] == 0 ==> !FaultAt(h, rt, view, path, enclosing, w, f)
    ensures IsFirstFault(h, rt, view, path, enclosing, walk, EncodeView(h, rt, Tail(view), path, enclosing, []).errs[0])
  {
    hide EncodeView;
    var e := EncodeView(h, rt, Tail(view), path, enclosing, []).errs[0];
    walk := [rest[0] + 1] + rest[1..];
    assert [walk[0] - 1] + walk[1..] == rest;
    FaultOfTail(h, rt, view, path, enclosing, walk, e);
    forall w, f | FaultAt(h, rt, view, path, enclosing, w, f) ensures (w == walk && f == e) || Before(walk, w) {
      var u := [w[0] - 1] + w[1..];
      FaultOfTail(h, rt, view, path, enclosing, w, f);
      assert u[1..] == w[1..] && walk[1..] == rest[1..];
      if u == rest {
        assert w == [u[0] + 1] + u[1..];
      }
    }
  }

  // ----- When every fault is reported -----

  predicate IsSerializableObject(h: Heap, rt: Runtime, z: Zval)
    requires InHeap(h, z)
  {
    z.ZObject? && IsUserSerializable(rt, h.objects[z.obj])
  }

  /** The walk meets no Serializable object, and no key with a null byte stops a
      loop before the walk goes on. */
  ghost predicate Unobstructed(h: Heap, rt: Runtime, view: View, walk: seq<nat>)
    requires Closed(h) && SlotsInHeap(h, view.slots)
    decreases |walk|
  {
    && |walk| > 0 && walk[0] < |view.slots|
    && (forall j :: 0 <= j < walk[0] ==>
          IsSkipped(view.slots[j].key, view.fromProps, view.skipOdm) || '\0' !in KeyString(view.slots[j].key))
    && (var z := view.slots[walk[0]].value;
        DerefInHeap(h, z);
        PlanFacts(h, rt, Deref(z), "", {}, false);
        && !IsSerializableObject(h, rt, Deref(z))
        && match PlanOf(h, rt, Deref(z), "", {}, false)
        case Nest(_, _, _, Iterate(_, inner)) => |walk| > 1 ==> Unobstructed(h, rt, inner, walk[1..])
        case _ => true)
  }

  /** Every fault is reported that the encoder gets to past no Serializable object,
      whose calls a pending exception silences, and no earlier null byte; whatever
      other errors there are. */
  lemma {:induction false} EveryFaultIsReported(h: Heap, rt: Runtime, view: View, path: seq<cstring>, enclosing: set<nat>,
                                                errs: seq<EncodeError>, walk: seq<nat>, e: EncodeError)
    requires Closed(h) && SlotsInHeap(h, view.slots)
    requires FaultAt(h, rt, view, path, enclosing, walk, e) && Unobstructed(h, rt, view, walk)
    ensures errs <= EncodeView(h, rt, view, path, enclosing, errs).errs
    ensures e in EncodeView(h, rt, view, path, enclosing, errs).errs[|errs|..]
    decreases h.tables.Keys - enclosing, 1, |view.slots|
  {
    hide EncodeValue, ValueFaultAt, PlanOf;
    var first := view.slots[0];
    var key := KeyString(first.key);
    ViewErrsGrow(h, rt, view, path, enclosing, errs);
    var rest := if walk[0] > 0 then [walk[0] - 1] + walk[1..] else [];
    if walk[0] > 0 {
      FaultOfTail(h, rt, view, path, enclosing, walk, e);
      UnobstructedTail(h, rt, view, walk);
    }
    if IsSkipped(first.key, view.fromProps, view.skipOdm) {
      EveryFaultIsReported(h, rt, Tail(view), path, enclosing, errs, rest, e);
    } else if '\0' !in key {
      var v := EncodeValue(h, rt, key, first.value, path, enclosing, errs);
      var all := EncodeView(h, rt, Tail(view), path, enclosing, v.errs).errs;
      ValueErrsGrow(h, rt, key, first.value, path, enclosing, errs);
      ViewErrsGrow(h, rt, Tail(view), path, enclosing, v.errs);
      assert all[|errs|..] == v.errs[|errs|..] + all[|v.errs|..];
      if walk[0] > 0 {
        EveryFaultIsReported(h, rt, Tail(view), path, enclosing, v.errs, rest, e);
      } else {
        EveryFaultOfValueIsReported(h, rt, key, view, path, enclosing, errs, walk, e);
      }
    }
  }

  lemma UnobstructedTail(h: Heap, rt: Runtime, view: View, walk: seq<nat>)
    requires Closed(h) && SlotsInHeap(h, view.slots) && Unobstructed(h, rt, view, walk) && walk[0] > 0
    ensures Unobstructed(h, rt, Tail(view), [walk[0] - 1] + walk[1..])
  {
    var rest := [walk[0] - 1] + walk[1..];
    assert rest[1..] == walk[1..];
    assert Tail(view).slots[rest[0]] == view.slots[walk[0]];
  }

  lemma {:induction false} EveryFaultOfValueIsReported(h: Heap, rt: Runtime, key: cstring, view: View, path: seq<cstring>,
                                                       enclosing: set<nat>, errs: seq<EncodeError>, walk: seq<nat>, e: EncodeError)
    requires Closed(h) && SlotsInHeap(h, view.slots)
    requires Unobstructed(h, rt, view, walk)
    requires ValueFaultAt(h, rt, view.slots[walk[0]].value, path + [key], enclosing, walk, e)
    ensures var z := view.slots[walk[0]].value;
            && errs <= EncodeValue(h, rt, key, z, path, enclosing, errs).errs
            && e in EncodeValue(h, rt, key, z, path, enclosing, errs).errs[|errs|..]
    decreases h.tables.Keys - enclosing, 0, 0
  {
    hide EncodeView;
    var z, here := view.slots[walk[0]].value, path + [key];
    DerefInHeap(h, z);
    ValueErrsGrow(h, rt, key, z, path, enclosing, errs);
    PlanFacts(h, rt, Deref(z), Join(here), enclosing, errs != []);
    PlanFacts(h, rt, Deref(z), "", {}, false);
    PlanUnmarked(h, rt, Deref(z), Join(here), enclosing);
    var plan := PlanOf(h, rt, Deref(z), Join(here), enclosing, false);
    NeverPending(h, rt, Deref(z), Join(here), enclosing);
    if plan.Nest? {
      var inner := enclosing + {plan.table};
      NestedErrs(h, rt, key, plan, here, inner, errs);
      if plan.source.Iterate? {
        EveryFaultIsReported(h, rt, plan.source.view, here, inner, errs, walk[1..], e);
      }
    }
  }

  lemma NeverPending(h: Heap, rt: Runtime, z: Zval, path: string, enclosing: set<nat>)
    requires Closed(h) && InHeap(h, z) && !z.ZReference? && !IsSerializableObject(h, rt, z)
    ensures PlanOf(h, rt, z, path, enclosing, true) == PlanOf(h, rt, z, path, enclosing, false)
  {
  }

  /** What can be wrong with a root value. */
  ghost predicate RootFault(h: Heap, rt: Runtime, z: Zval, e: EncodeError)
    requires Closed(h) && InHeap(h, z)
  {
    SourceFacts(h, rt, z, false);
    match SourceOf(h, rt, z, false)
    case Abandon(thrown) => e in thrown
    case Iterate(_, view) => exists walk :: FaultAt(h, rt, view, [], {}, walk, e)
  }

  /** Encoding a graph throws no exception exactly when it has no fault: no
      unsupported or malformed value, no key with a null byte, no failing
      bsonSerialize(), and no table inside itself. */
  lemma SucceedsIffNoFault(h: Heap, rt: Runtime, z: Zval)
    requires Closed(h) && InHeap(h, z)
    ensures EncodeGraph(h, rt, z).errs == [] <==> forall e :: !RootFault(h, rt, z, e)
    ensures forall e :: e in EncodeGraph(h, rt, z).errs ==> RootFault(h, rt, z, e)
  {
    SourceFacts(h, rt, z, false);
    var source := SourceOf(h, rt, z, false);
    var errs := EncodeGraph(h, rt, z).errs;
    forall e | e in errs ensures RootFault(h, rt, z, e) {
      if source.Iterate? {
        assert errs[0..] == errs;
        var walk := ErrorIsFault(h, rt, source.view, [], {}, [], e);
      }
    }
    if errs != [] {
      assert errs[0] in errs;
    }
    forall e | RootFault(h, rt, z, e) ensures errs != [] {
      if source.Iterate? {
        var walk :| FaultAt(h, rt, source.view, [], {}, walk, e);
        FaultIsReported(h, rt, source.view, [], {}, walk, e);
      }
    }
  }

  // ----- Faults without marks -----

  /** Where a walk leads: the keys on the way and the last one, the tables entered,
      and the value found there. */
  datatype Trail = Trail(keys: seq<cstring>, last: string, tables: seq<nat>, value: Zval)

  /** Follows a walk through the graph, whatever it goes through twice. */
  function Follow(h: Heap, rt: Runtime, view: View, walk: seq<nat>): (trail: Option<Trail>)
    requires Closed(h) && SlotsInHeap(h, view.slots)
    ensures trail.Some? ==> InHeap(h, trail.value.value)
    decreases |walk|
  {
    if |walk| == 0 || walk[0] >= |view.slots| then None
    else
      var slot := view.slots[walk[0]];
      var key := KeyString(slot.key);
      var z := Deref(slot.value);
      DerefInHeap(h, slot.value);
      if IsSkipped(slot.key, view.fromProps, view.skipOdm) then None
      else if |walk| == 1 then Some(Trail([], key, [], z))
      else if '\0' in key then None
      else
        PlanFacts(h, rt, z, "", {}, false);
        match PlanOf(h, rt, z, "", {}, false)
        case Nest(table, _, _, Iterate(_, inner)) =>
          (match Follow(h, rt, inner, walk[1..])
           case Some(rest) => Some(Prepend(key, table, rest))
           case None => None)
        case _ => None
  }

  /** Behind a reference a walk leads to the same place, and to the same fault. */
  lemma FollowReference(h: Heap, rt: Runtime, view: View, i: nat, z: Zval, walk: seq<nat>)
    requires Closed(h) && SlotsInHeap(h, view.slots) && i < |view.slots| && view.slots[i].value == z
    ensures var behind := view.(slots := view.slots[i := Entry(view.slots[i].key, ZReference(z))]);
            SlotsInHeap(h, behind.slots) && Follow(h, rt, behind, walk) == Follow(h, rt, view, walk)
  {
    DerefInHeap(h, z);
  }

  lemma FaultBehindReference(h: Heap, rt: Runtime, z: Zval, path: seq<cstring>, enclosing: set<nat>,
                             walk: seq<nat>, e: EncodeError)
    requires Closed(h) && InHeap(h, z) && |walk| > 0
    ensures ValueFaultAt(h, rt, ZReference(z), path, enclosing, walk, e) <==> ValueFaultAt(h, rt, z, path, enclosing, walk, e)
  {
    DerefInHeap(h, z);
  }

  predicate EntersNew(tables: seq<nat>, enclosing: set<nat>) {
    forall i :: 0 <= i < |tables| ==> tables[i] !in enclosing && tables[i] !in tables[..i]
  }

  /** An object of a Serializable class, Persistable ones included, by name. */
  predicate IsSerializableOf(h: Heap, rt: Runtime, o: nat, cls: string) {
    o in h.objects && h.objects[o].cls == User(cls) && (rt.serializable(cls) || rt.persistable(cls))
  }

  /** Its bsonSerialize() throws. */
  predicate ThrowsIn(h: Heap, rt: Runtime, o: nat, cls: string) {
    IsSerializableOf(h, rt, o, cls) && h.objects[o].serialized.Throws?
  }

  /** Its bsonSerialize() returns neither an array nor a stdClass object. */
  predicate ReturnsOther(h: Heap, rt: Runtime, o: nat, cls: string) {
    && IsSerializableOf(h, rt, o, cls) && h.objects[o].serialized.Returns?
    && var v := h.objects[o].serialized.v;
       !v.ZArray? && !(v.ZObject? && v.obj in h.objects && h.objects[v.obj].isStd)
  }

  /** It returns stdClass object `d`. */
  predicate HandsOnTo(h: Heap, rt: Runtime, o: nat, d: nat) {
    && o in h.objects && h.objects[o].cls.User? && IsSerializableOf(h, rt, o, h.objects[o].cls.name)
    && h.objects[o].serialized == Returns(ZObject(d)) && d in h.objects && h.objects[d].isStd
  }

  /** What is wrong with a value: malformed text, an unsupported type, an array or
      object whose table is one of `inside`, a bsonSerialize() that throws or
      returns something else, or one that hands on to another object's that does. */
  ghost predicate Offends(h: Heap, rt: Runtime, z: Zval, inside: set<nat>, path: string, e: EncodeError)
    requires InHeap(h, z)
  {
    match e
    case InvalidUtf8(text) => z.ZString? && !rt.validUtf8(z.s) && text == path
    case UnsupportedPhpType(text) => z.ZResource? && text == path
    case RecursionDetected(text) => (z.ZArray? || z.ZObject?) && TableOf(h, z) in inside && text == path
    case UserException(cls) =>
      && z.ZObject? && TableOf(h, z) !in inside
      && (ThrowsIn(h, rt, z.obj, cls) || exists d :: HandsOnTo(h, rt, z.obj, d) && ThrowsIn(h, rt, d, cls))
    case UnexpectedReturn(cls) =>
      && z.ZObject? && TableOf(h, z) !in inside
      && (ReturnsOther(h, rt, z.obj, cls) || exists d :: HandsOnTo(h, rt, z.obj, d) && ReturnsOther(h, rt, d, cls))
    case TypeAsRoot =>
      && z.ZObject? && TableOf(h, z) !in inside
      && exists d :: HandsOnTo(h, rt, z.obj, d) && h.objects[d].cls.BsonType?
    case NullByteInKey(_) => false
  }

  /** The error names what is in front of the first null byte. */
  predicate IsNullByteError(key: string, e: EncodeError) {
    e.NullByteInKey? && '\0' !in e.prefix && e.prefix + ['\0'] <= key
  }

  /** A trail that enters no table twice, and ends in front of something that
      cannot be encoded. */
  ghost predicate TrailOffends(h: Heap, rt: Runtime, trail: Trail, path: seq<cstring>, enclosing: set<nat>, e: EncodeError)
    requires InHeap(h, trail.value)
  {
    && EntersNew(trail.tables, enclosing)
    && if '\0' in trail.last then IsNullByteError(trail.last, e)
       else Offends(h, rt, trail.value, enclosing + (set t | t in trail.tables), Join(path + trail.keys + [trail.last]), e)
  }

  function Prepend(key: cstring, table: nat, rest: Trail): Trail {
    Trail([key] + rest.keys, rest.last, [table] + rest.tables, rest.value)
  }

  lemma OffendsFurther(h: Heap, rt: Runtime, key: cstring, table: nat, rest: Trail, path: seq<cstring>,
                       enclosing: set<nat>, e: EncodeError)
    requires InHeap(h, rest.value)
    ensures TrailOffends(h, rt, Prepend(key, table, rest), path, enclosing, e)
            <==> table !in enclosing && TrailOffends(h, rt, rest, path + [key], enclosing + {table}, e)
  {
    hide EntersNew, Offends, IsNullByteError;
    EntersFurther(table, rest.tables, enclosing);
    assert path + ([key] + rest.keys) == (path + [key]) + rest.keys;
    assert enclosing + (set t | t in [table] + rest.tables) == (enclosing + {table}) + (set t | t in rest.tables);
  }

  lemma EntersFurther(table: nat, rest: seq<nat>, enclosing: set<nat>)
    ensures EntersNew([table] + rest, enclosing) <==> table !in enclosing && EntersNew(rest, enclosing + {table})
  {
    var all := [table] + rest;
    forall i | 0 <= i < |rest|
      ensures rest[i] == all[i + 1]
      ensures rest[i] in all[..i + 1] <==> rest[i] == table || rest[i] in rest[..i]
    {
      assert all[..i + 1] == [table] + rest[..i];
    }
    if EntersNew(all, enclosing) {
      assert all[0] == table;
    } else {
      var i :| 0 <= i < |all| && !(all[i] !in enclosing && all[i] !in all[..i]);
      if i > 0 {
        assert all[i] == rest[i - 1];
      }
    }
  }

  /** Marks turn plans for their tables into recursions, and nothing else. */
  lemma PlanUnmarked(h: Heap, rt: Runtime, z: Zval, path: string, enclosing: set<nat>)
    requires Closed(h) && InHeap(h, z) && !z.ZReference?
    ensures var plan, unmarked := PlanOf(h, rt, z, path, enclosing, false), PlanOf(h, rt, z, "", {}, false);
            if unmarked.Nest? then plan == if unmarked.table in enclosing then Throw(RecursionDetected(path)) else unmarked
            else !plan.Nest?
  {
  }

  lemma EndOfTrail(h: Heap, rt: Runtime, z: Zval, key: cstring, path: seq<cstring>, enclosing: set<nat>,
                   walk: seq<nat>, e: EncodeError)
    requires Closed(h) && InHeap(h, z) && InHeap(h, Deref(z)) && |walk| == 1
    ensures ValueFaultAt(h, rt, z, path + [key], enclosing, walk, e)
            <==> TrailOffends(h, rt, Trail([], key, [], Deref(z)), path, enclosing, e)
  {
    var none: seq<nat> := [];
    assert enclosing + (set t | t in none) == enclosing;
    assert path + [] + [key] == path + [key];
    PlanFacts(h, rt, Deref(z), Join(path + [key]), enclosing, false);
    PlanFails(h, rt, Deref(z), Join(path + [key]), enclosing, e);
  }

  /** A plan that fails on the spot. */
  predicate FailsAtOnce(plan: Plan, e: EncodeError) {
    match plan
    case Throw(error) => e == error
    case Nest(_, _, _, Abandon(thrown)) => e in thrown
    case _ => false
  }

  lemma PlanFails(h: Heap, rt: Runtime, z: Zval, path: string, enclosing: set<nat>, e: EncodeError)
    requires Closed(h) && InHeap(h, z) && !z.ZReference?
    ensures FailsAtOnce(PlanOf(h, rt, z, path, enclosing, false), e) <==> Offends(h, rt, z, enclosing, path, e)
  {
    if z.ZObject? && IsUserSerializable(rt, h.objects[z.obj]) && h.objects[z.obj].serialized.Returns? {
      var v := h.objects[z.obj].serialized.v;
      if v.ZObject? && h.objects[v.obj].isStd {
        assert HandsOnTo(h, rt, z.obj, v.obj);
      }
    }
  }

  lemma EndAtNullByte(h: Heap, rt: Runtime, view: View, path: seq<cstring>, enclosing: set<nat>, walk: seq<nat>, e: EncodeError)
    requires Closed(h) && SlotsInHeap(h, view.slots) && |walk| > 0 && walk[0] < |view.slots|
    requires '\0' in KeyString(view.slots[walk[0]].key)
    ensures FaultAt(h, rt, view, path, enclosing, walk, e) <==>
            Follow(h, rt, view, walk).Some? && TrailOffends(h, rt, Follow(h, rt, view, walk).value, path, enclosing, e)
  {
    hide Offends;
    var key := KeyString(view.slots[walk[0]].key);
    var prefix := UpToNul(key);
    assert e.NullByteInKey? && IsNullByteError(key, e) ==> e.prefix == prefix by {
      if e.NullByteInKey? && IsNullByteError(key, e) {
        FirstNullByte(key, e.prefix, prefix);
      }
    }
    assert IsNullByteError(key, NullByteInKey(prefix)) by {
      assert prefix == key[..|prefix|] && key[..|key|] == key;
      assert |prefix| < |key|;
      assert prefix + ['\0'] == key[..|prefix| + 1];
    }
  }

  lemma {:induction false} FirstNullByte(key: string, a: string, b: string)
    requires '\0' !in a && '\0' !in b && a + ['\0'] <= key && b <= key && (|b| < |key| ==> key[|b|] == '\0')
    ensures a == b
  {
    assert key[|a|] == (a + ['\0'])[|a|];
    assert |a| > 0 ==> a[0] == (a + ['\0'])[0] == key[0];
    if |a| > 0 && |b| > 0 {
      assert (a + ['\0'])[1..] == a[1..] + ['\0'];
      FirstNullByte(key[1..], a[1..], b[1..]);
      assert a == [a[0]] + a[1..] && b == [b[0]] + b[1..];
    }
  }

  /** All errors, without the encoder's marks: a walk that enters no table twice
      leads to a value that offends, for recursion to a table among those entered;
      and the path is the keys on the walk. */
  lemma {:induction false} FaultIffTrailOffends(h: Heap, rt: Runtime, view: View, path: seq<cstring>,
                                                enclosing: set<nat>, walk: seq<nat>, e: EncodeError)
    requires Closed(h) && SlotsInHeap(h, view.slots)
    ensures FaultAt(h, rt, view, path, enclosing, walk, e) <==>
            Follow(h, rt, view, walk).Some? && TrailOffends(h, rt, Follow(h, rt, view, walk).value, path, enclosing, e)
    decreases |walk|
  {
    hide TrailOffends, PlanOf;
    if |walk| > 0 && walk[0] < |view.slots| {
      var slot := view.slots[walk[0]];
      var key := KeyString(slot.key);
      if '\0' in key {
        EndAtNullByte(h, rt, view, path, enclosing, walk, e);
      } else if !IsSkipped(slot.key, view.fromProps, view.skipOdm) {
        DerefInHeap(h, slot.value);
        if |walk| == 1 {
          EndOfTrail(h, rt, slot.value, key, path, enclosing, walk, e);
        } else {
          NestedTrail(h, rt, slot.value, key, path, enclosing, walk, e);
          PlanFacts(h, rt, Deref(slot.value), "", {}, false);
          assert FaultAt(h, rt, view, path, enclosing, walk, e)
                 <==> ValueFaultAt(h, rt, slot.value, path + [key], enclosing, walk, e);
          var plan := PlanOf(h, rt, Deref(slot.value), "", {}, false);
          if plan.Nest? && plan.source.Iterate? {
            var rest := Follow(h, rt, plan.source.view, walk[1..]);
            assert Follow(h, rt, view, walk) == if rest.Some? then Some(Prepend(key, plan.table, rest.value)) else None;
          }
        }
      }
    }
  }

  lemma {:induction false} NestedTrail(h: Heap, rt: Runtime, z: Zval, key: cstring, path: seq<cstring>,
                                       enclosing: set<nat>, walk: seq<nat>, e: EncodeError)
    requires Closed(h) && InHeap(h, z) && InHeap(h, Deref(z)) && |walk| > 1
    ensures ValueFaultAt(h, rt, z, path + [key], enclosing, walk, e) <==>
            var plan := PlanOf(h, rt, Deref(z), "", {}, false);
            && plan.Nest? && SourceInHeap(h, plan.source) && plan.source.Iterate?
            && Follow(h, rt, plan.source.view, walk[1..]).Some?
            && TrailOffends(h, rt, Prepend(key, plan.table, Follow(h, rt, plan.source.view, walk[1..]).value), path, enclosing, e)
    decreases |walk|, 0
  {
    hide TrailOffends, PlanOf, Follow;
    PlanFacts(h, rt, Deref(z), "", {}, false);
    PlanFacts(h, rt, Deref(z), Join(path + [key]), enclosing, false);
    PlanUnmarked(h, rt, Deref(z), Join(path + [key]), enclosing);
    var plan := PlanOf(h, rt, Deref(z), "", {}, false);
    if plan.Nest? && plan.source.Iterate? {
      var rest := Follow(h, rt, plan.source.view, walk[1..]);
      FaultIffTrailOffends(h, rt, plan.source.view, path + [key], enclosing + {plan.table}, walk[1..], e);
      if rest.Some? {
        OffendsFurther(h, rt, key, plan.table, rest.value, path, enclosing, e);
      }
    }
  }

  /** What is wrong with a root: a bsonSerialize() that throws or returns something
      else, or a value of the driver's own BSON types. */
  lemma RootFails(h: Heap, rt: Runtime, z: Zval, e: EncodeError)
    requires Closed(h) && InHeap(h, z) && SourceOf(h, rt, z, false).Abandon?
    ensures RootFault(h, rt, z, e) <==>
            && z.ZObject?
            && match e
               case UserException(cls) => ThrowsIn(h, rt, z.obj, cls)
               case UnexpectedReturn(cls) => ReturnsOther(h, rt, z.obj, cls)
               case TypeAsRoot => h.objects[z.obj].cls.BsonType?
               case _ => false
  {
  }

  /** Only these, and values that are neither array nor object, are no root. */
  lemma RootIsTable(h: Heap, rt: Runtime, z: Zval)
    requires Closed(h) && InHeap(h, z)
    ensures SourceOf(h, rt, z, false).Iterate? <==>
            || z.ZArray?
            || (z.ZObject? && !h.objects[z.obj].cls.BsonType?
                && forall cls :: !ThrowsIn(h, rt, z.obj, cls) && !ReturnsOther(h, rt, z.obj, cls))
  {
    if z.ZObject? && IsUserSerializable(rt, h.objects[z.obj]) {
      var cls := h.objects[z.obj].cls.name;
      assert SourceOf(h, rt, z, false).Abandon? <==> ThrowsIn(h, rt, z.obj, cls) || ReturnsOther(h, rt, z.obj, cls);
    }
  }
}
