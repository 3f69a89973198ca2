/**
 On graphs without cycles, sharing or not, the graph encoder computes the tree
 encoding of the value the graph unfolds to, and so the canonical form of a
 decoded document.
 */
module EncoderTrees {
  import opened Keys
  import opened Values
  import opened FieldPaths
  import opened TypeMaps
  import opened Decoder
  import opened TreeEncoder
  import opened RoundTrip
  import opened Encoder
  import opened EncoderFaults

  predicate IsTable(z: Zval) {
    z.ZArray? || z.ZObject?
  }

  /** All tables the slots lead to rank below `r`. */
  ghost predicate SlotsBelow(h: Heap, rank: map<nat, nat>, slots: seq<Slot>, r: nat)
    requires SlotsInHeap(h, slots)
  {
    forall i :: 0 <= i < |slots| ==> ValueBelow(h, rank, slots[i].value, r)
  }

  ghost predicate ValueBelow(h: Heap, rank: map<nat, nat>, z: Zval, r: nat)
    requires InHeap(h, z)
  {
    DerefInHeap(h, z);
    var v := Deref(z);
    IsTable(v) ==> TableOf(h, v) in rank && rank[TableOf(h, v)] < r
  }

  /** The ranks witness that no table leads back to itself, neither through its
      entries nor through what bsonSerialize() returns. */
  ghost predicate Ranked(h: Heap, rt: Runtime, rank: map<nat, nat>)
    requires Closed(h)
  {
    && (forall t :: t in h.tables ==> t in rank && SlotsBelow(h, rank, h.tables[t], rank[t]))
    && (forall o :: o in h.objects ==> ObjectRanked(h, rt, rank, o))
  }

  /** What is embedded for an object ranks below the object's table. */
  ghost predicate ObjectRanked(h: Heap, rt: Runtime, rank: map<nat, nat>, o: nat)
    requires Closed(h) && o in h.objects && h.objects[o].props in rank
  {
    PlanFacts(h, rt, ZObject(o), "", {}, false);
    var plan := ObjectPlan(h, rt, o, false);
    plan.Nest? && plan.source.Iterate? ==> SlotsBelow(h, rank, plan.source.view.slots, rank[h.objects[o].props])
  }

  // ----- The value a graph unfolds to -----

  ghost function Unfold(h: Heap, rt: Runtime, rank: map<nat, nat>, z: Zval, r: nat): Php
    requires Closed(h) && Ranked(h, rt, rank) && InHeap(h, z) && ValueBelow(h, rank, z, r)
    decreases r, 0
  {
    DerefInHeap(h, z);
    match Deref(z)
    case ZNull => PhpNull
    case ZBool(b) => PhpBool(b)
    case ZLong(i) => PhpLong(i)
    case ZDouble(bits) => PhpDouble(bits)
    case ZString(s) => PhpString(s)
    case ZResource => PhpResource
    case ZArray(t) => PhpArray(UnfoldAll(h, rt, rank, h.tables[t], rank[t]))
    case ZObject(o) => UnfoldObject(h, rt, rank, o)
  }

  /** An object of a Serializable class stands for what it returns. */
  ghost function UnfoldObject(h: Heap, rt: Runtime, rank: map<nat, nat>, o: nat): Php
    requires Closed(h) && Ranked(h, rt, rank) && o in h.objects
    decreases rank[h.objects[o].props], 2
  {
    var obj := h.objects[o];
    if obj.cls.CursorId? then Typed(Int64Obj(obj.cls.id))
    else if obj.cls.BsonType? then Typed(obj.cls.obj)
    else if !IsUserSerializable(rt, obj) then PhpObject(UnfoldAll(h, rt, rank, h.tables[obj.props], rank[obj.props]))
    else if obj.serialized.Throws? || !IsDataOf(h, rt, obj.serialized.v) then PhpResource
    else
      assert ObjectRanked(h, rt, rank, o);
      var v := obj.serialized.v;
      var entries := UnfoldAll(h, rt, rank, h.tables[TableOf(h, v)], rank[obj.props]);
      Instance(obj.cls.name, if v.ZArray? then PhpArray(entries) else PhpObject(entries))
  }

  /** An array, or a stdClass object that does not itself implement Serializable. */
  predicate IsDataOf(h: Heap, rt: Runtime, z: Zval)
    requires InHeap(h, z)
  {
    z.ZArray? || (z.ZObject? && h.objects[z.obj].isStd && IsPlainStd(h, rt, z.obj))
  }

  predicate IsPlainStd(h: Heap, rt: Runtime, o: nat)
    requires o in h.objects
  {
    h.objects[o].cls.StdClass? || (h.objects[o].cls.User? && !IsSerializable(rt, h.objects[o].cls.name))
  }

  /** No bsonSerialize() hands on to another object's. */
  ghost predicate NoDelegates(h: Heap, rt: Runtime)
    requires Closed(h)
  {
    forall o :: o in h.objects && IsUserSerializable(rt, h.objects[o]) && h.objects[o].serialized.Returns?
                && IsArrayOrStd(h, h.objects[o].serialized.v) ==>
      IsDataOf(h, rt, h.objects[o].serialized.v)
  }

  ghost function UnfoldAll(h: Heap, rt: Runtime, rank: map<nat, nat>, slots: seq<Slot>, r: nat): (entries: seq<Bucket>)
    requires Closed(h) && Ranked(h, rt, rank) && SlotsInHeap(h, slots) && SlotsBelow(h, rank, slots, r)
    ensures |entries| == |slots|
    ensures forall i :: 0 <= i < |slots| ==> entries[i].key == slots[i].key
    decreases r, 1, |slots|
  {
    if |slots| == 0 then []
    else [Entry(slots[0].key, Unfold(h, rt, rank, slots[0].value, r))] + UnfoldAll(h, rt, rank, slots[1..], r)
  }

  lemma UnfoldReference(h: Heap, rt: Runtime, rank: map<nat, nat>, z: Zval, r: nat)
    requires Closed(h) && Ranked(h, rt, rank) && InHeap(h, z) && ValueBelow(h, rank, z, r)
    ensures ValueBelow(h, rank, ZReference(z), r)
    ensures Unfold(h, rt, rank, ZReference(z), r) == Unfold(h, rt, rank, z, r)
  {
  }

  /** Tables being encoded rank at least `r`, so nothing below `r` is among them. */
  ghost predicate AllAtLeast(rank: map<nat, nat>, enclosing: set<nat>, r: nat) {
    forall t :: t in enclosing && t in rank ==> rank[t] >= r
  }

  // ----- The refinement -----

  /** The outcome of the graph encoder is that of the tree encoder: the same fields
      without errors, or errors. */
  ghost predicate IsTreeOut(h: Heap, rt: Runtime, o: Out, tree: Option<seq<Field>>)
    requires Closed(h)
  {
    if tree.Some? then o == Out(tree.value, [], false) else NoDelegates(h, rt) ==> o.errs != []
  }

  ghost function OneField(key: cstring, value: Option<Bson>): Option<seq<Field>> {
    if value.Some? then Some([Entry(key, value.value)]) else None
  }

  lemma {:induction false} ViewIsTree(h: Heap, rt: Runtime, rank: map<nat, nat>, view: View, r: nat,
                                      path: seq<cstring>, enclosing: set<nat>)
    requires Closed(h) && Ranked(h, rt, rank) && SlotsInHeap(h, view.slots) && SlotsBelow(h, rank, view.slots, r)
    requires AllAtLeast(rank, enclosing, r)
    ensures IsTreeOut(h, rt, EncodeView(h, rt, view, path, enclosing, []),
                      EncodeAll(rt, UnfoldAll(h, rt, rank, view.slots, r), view.fromProps, view.skipOdm))
    decreases r, 1, |view.slots|
  {
    if |view.slots| > 0 {
      hide EncodeValue, Encode, Unfold, NoDelegates, Ranked;
      var first := view.slots[0];
      var key := KeyString(first.key);
      var entries := UnfoldAll(h, rt, rank, view.slots, r);
      assert First(entries) == Entry(first.key, Unfold(h, rt, rank, first.value, r));
      assert entries[1..] == UnfoldAll(h, rt, rank, Tail(view).slots, r);
      ViewIsTree(h, rt, rank, Tail(view), r, path, enclosing);
      if !IsSkipped(first.key, view.fromProps, view.skipOdm) && '\0' !in key {
        ValueIsTree(h, rt, rank, key, first.value, r, path, enclosing);
        ViewErrsGrow(h, rt, Tail(view), path, enclosing, EncodeValue(h, rt, key, first.value, path, enclosing, []).errs);
      }
    }
  }

  lemma {:induction false} ValueIsTree(h: Heap, rt: Runtime, rank: map<nat, nat>, key: cstring, z: Zval, r: nat,
                                       path: seq<cstring>, enclosing: set<nat>)
    requires Closed(h) && Ranked(h, rt, rank) && InHeap(h, z) && ValueBelow(h, rank, z, r)
    requires AllAtLeast(rank, enclosing, r)
    ensures IsTreeOut(h, rt, EncodeValue(h, rt, key, z, path, enclosing, []),
                      OneField(key, Encode(rt, Unfold(h, rt, rank, z, r))))
    decreases r, 0
  {
    hide EncodeNested, EncodeAll, UnfoldAll, SlotsBelow;
    DerefInHeap(h, z);
    var here := path + [key];
    var v := Deref(z);
    PlanFacts(h, rt, v, Join(here), enclosing, false);
    if IsTable(v) {
      var t := TableOf(h, v);
      assert t !in enclosing;
      var plan := PlanOf(h, rt, v, Join(here), enclosing, false);
      if plan.Nest? && PlanIsData(h, rt, v) {
        NestedIsTree(h, rt, rank, key, v, plan, here, enclosing + {t});
      }
    }
  }

  /** The entered table, or what the object returns, unfolds to data. */
  predicate PlanIsData(h: Heap, rt: Runtime, v: Zval)
    requires Closed(h) && InHeap(h, v)
  {
    v.ZObject? && IsUserSerializable(rt, h.objects[v.obj]) ==>
      h.objects[v.obj].serialized.Returns? && IsDataOf(h, rt, h.objects[v.obj].serialized.v)
  }

  lemma {:induction false} NestedIsTree(h: Heap, rt: Runtime, rank: map<nat, nat>, key: cstring, v: Zval, plan: Plan,
                                        path: seq<cstring>, enclosing: set<nat>)
    requires Closed(h) && Ranked(h, rt, rank) && InHeap(h, v) && IsTable(v)
    requires plan.Nest? && plan == EnteredPlan(h, rt, v, false) && PlanIsData(h, rt, v)
    requires AllAtLeast(rank, enclosing, rank[TableOf(h, v)])
    ensures IsTreeOut(h, rt, EncodeNested(h, rt, key, plan.isArray, plan.prefix, plan.source, path, enclosing, []),
                      OneField(key, Encode(rt, Unfold(h, rt, rank, v, rank[TableOf(h, v)] + 1))))
    decreases rank[TableOf(h, v)], 2
  {
    hide EncodeView, EncodeNested, UnfoldAll, EncodeAll;
    assert v.ZObject? ==> ObjectRanked(h, rt, rank, v.obj);
    var view, r := plan.source.view, rank[TableOf(h, v)];
    ViewIsTree(h, rt, rank, view, r, path, enclosing);
    NestedUnfolds(h, rt, key, plan, path, enclosing);
  }

  lemma NestedUnfolds(h: Heap, rt: Runtime, key: cstring, plan: Plan, path: seq<cstring>, enclosing: set<nat>)
    requires Closed(h) && plan.Nest? && SourceInHeap(h, plan.source) && plan.source.Iterate? && plan.source.prefix == []
    ensures var o := EncodeView(h, rt, plan.source.view, path, enclosing, []);
            var fields := plan.prefix + o.fields;
            EncodeNested(h, rt, key, plan.isArray, plan.prefix, plan.source, path, enclosing, []) ==
            Out([Entry(key, if plan.isArray then Array(fields) else Document(fields))], o.errs, false)
    ensures plan.prefix == [] ==> plan.prefix + EncodeView(h, rt, plan.source.view, path, enclosing, []).fields
                                  == EncodeView(h, rt, plan.source.view, path, enclosing, []).fields
  {
    var o := EncodeView(h, rt, plan.source.view, path, enclosing, []);
    assert [] + o.fields == o.fields;
    assert EncodeSource(h, rt, plan.source, path, enclosing, []) == o;
  }

  // ----- The main results -----

  /** The graph encoder computes the tree encoding. */
  lemma GraphIsTree(h: Heap, rt: Runtime, rank: map<nat, nat>, z: Zval, r: nat)
    requires Closed(h) && Ranked(h, rt, rank) && InHeap(h, z) && ValueBelow(h, rank, z, r) && !z.ZReference?
    ensures var tree := EncodeRoot(rt, Unfold(h, rt, rank, z, r));
            && (tree.Some? ==> EncodeGraph(h, rt, z).errs == [] && EncodeGraph(h, rt, z).fields == tree.value)
            && (IsTable(z) && !IsCursorId(h, z) && NoDelegates(h, rt) ==> (EncodeGraph(h, rt, z).errs == [] <==> tree.Some?))
  {
    SourceFacts(h, rt, z, false);
    if IsTable(z) && !IsCursorId(h, z) && SourceOf(h, rt, z, false).Iterate? && PlanIsData(h, rt, z) {
      RootTableIsTree(h, rt, rank, z, r);
    }
  }

  lemma RootTableIsTree(h: Heap, rt: Runtime, rank: map<nat, nat>, z: Zval, r: nat)
    requires Closed(h) && Ranked(h, rt, rank) && InHeap(h, z) && ValueBelow(h, rank, z, r)
    requires IsTable(z) && !IsCursorId(h, z) && SourceOf(h, rt, z, false).Iterate? && PlanIsData(h, rt, z)
    ensures IsTreeOut(h, rt, EncodeGraph(h, rt, z), EncodeRoot(rt, Unfold(h, rt, rank, z, r)))
  {
    hide EncodeView, EncodeAll, UnfoldAll, NoDelegates;
    SourceFacts(h, rt, z, false);
    var source := SourceOf(h, rt, z, false);
    assert z.ZObject? ==> ObjectRanked(h, rt, rank, z.obj);
    ViewIsTree(h, rt, rank, source.view, rank[TableOf(h, z)], [], {});
    var o := EncodeView(h, rt, source.view, [], {}, []);
    assert [] + o.fields == o.fields;
  }

  /** The root value the tree encoder does not know: a CursorId, whose properties
      the graph encoder writes. */
  predicate IsCursorId(h: Heap, z: Zval)
    requires InHeap(h, z)
  {
    z.ZObject? && h.objects[z.obj].cls.CursorId?
  }

  /** A document decoded with the default map, laid out in memory in any acyclic
      way, is encoded as its canonical form. */
  lemma GraphRoundTrip(h: Heap, rt: Runtime, rank: map<nat, nat>, z: Zval, r: nat, fields: seq<Field>)
    requires Closed(h) && Ranked(h, rt, rank) && InHeap(h, z) && ValueBelow(h, rank, z, r) && !z.ZReference?
    requires Plain(rt, Document(fields))
    requires DecodeRoot(rt, DEFAULT_MAP, fields) == Ok(Unfold(h, rt, rank, z, r))
    ensures EncodeGraph(h, rt, z).errs == [] && EncodeGraph(h, rt, z).fields == CanonFields(fields)
  {
    DefaultRoundTrip(rt, DEFAULT_MAP, fields);
    GraphIsTree(h, rt, rank, z, r);
  }

  /** Tables that are shared but do not enclose themselves are never taken for a
      recursion, whatever else may be wrong with the graph. */
  lemma {:induction false} NoRecursionWithoutCycle(h: Heap, rt: Runtime, rank: map<nat, nat>, view: View, r: nat,
                                                   path: seq<cstring>, enclosing: set<nat>, walk: seq<nat>, e: EncodeError)
    requires Closed(h) && Ranked(h, rt, rank) && SlotsInHeap(h, view.slots) && SlotsBelow(h, rank, view.slots, r)
    requires AllAtLeast(rank, enclosing, r) && FaultAt(h, rt, view, path, enclosing, walk, e)
    ensures !e.RecursionDetected?
    decreases |walk|
  {
    var slot := view.slots[walk[0]];
    var key := KeyString(slot.key);
    if '\0' !in key {
      DerefInHeap(h, slot.value);
      var z, here := Deref(slot.value), path + [key];
      PlanFacts(h, rt, z, Join(here), enclosing, false);
      var plan := PlanOf(h, rt, z, Join(here), enclosing, false);
      assert ValueBelow(h, rank, slot.value, r);
      if plan.Nest? {
        NestedBelow(h, rt, rank, z, plan);
        if plan.source.Iterate? {
          NoRecursionWithoutCycle(h, rt, rank, plan.source.view, rank[plan.table], here, enclosing + {plan.table}, walk[1..], e);
        }
      }
    }
  }

  /** What is embedded ranks below the table that is entered for it. */
  lemma NestedBelow(h: Heap, rt: Runtime, rank: map<nat, nat>, z: Zval, plan: Plan)
    requires Closed(h) && Ranked(h, rt, rank) && InHeap(h, z) && IsTable(z)
    requires plan == EnteredPlan(h, rt, z, false) && plan.Nest?
    ensures plan.table == TableOf(h, z) && plan.table in rank
    ensures plan.source.Abandon? ==> forall e :: e in plan.source.thrown ==> !e.RecursionDetected?
    ensures plan.source.Iterate? ==> SlotsBelow(h, rank, plan.source.view.slots, rank[plan.table])
  {
  }
}
