/**
 Encoding PHP values as BSON (src/bson-encode.c). A PHP value is a graph: hash
 tables can be shared, and can contain themselves. The encoder marks every table
 it is inside of as recursive (phongo_compat.c) and refuses to enter one twice.

 `EncodeValue`, `EncodeSource` and `EncodeView` say what the encoder produces, with
 the enclosing tables as an argument; the class `GraphEncoder` is the encoder, with
 the marks and the field path as state. An error does not end the encoding: the
 exception stays pending while the remaining entries are appended.
 */
module Encoder {
  import opened Keys
  import opened Values
  import opened FieldPaths
  import opened TreeEncoder

  // ----- PHP values as a graph -----

  datatype Zval =
    | ZNull
    | ZBool(b: bool)
    | ZLong(i: int64)
    | ZDouble(bits: nat)
    | ZString(s: string)
    | ZArray(table: nat)
    | ZObject(obj: nat)
    | ZReference(target: Zval)
    | ZResource

  type Slot = Entry<Key, Zval>

  datatype ClassInfo =
    | StdClass
    | User(name: string)
    | CursorId(id: int64)
    | BsonType(obj: TypeObject)

  /** What a call of bsonSerialize() does. */
  datatype SerializeResult = Throws | Returns(v: Zval)

  /** `isStd`: an instance of stdClass or of a subclass. */
  datatype ObjectRec = ObjectRec(cls: ClassInfo, isStd: bool, props: nat, serialized: SerializeResult)

  datatype Heap = Heap(tables: map<nat, seq<Slot>>, objects: map<nat, ObjectRec>)

  predicate InHeap(h: Heap, z: Zval) {
    match z
    case ZArray(table) => table in h.tables
    case ZObject(obj) => obj in h.objects
    case ZReference(target) => InHeap(h, target)
    case _ => true
  }

  predicate SlotsInHeap(h: Heap, slots: seq<Slot>) {
    forall i :: 0 <= i < |slots| ==> InHeap(h, slots[i].value)
  }

  /** Every table and object that is referred to exists. */
  ghost predicate Closed(h: Heap) {
    && (forall t :: t in h.tables ==> SlotsInHeap(h, h.tables[t]))
    && (forall o :: o in h.objects ==>
          && h.objects[o].props in h.tables
          && (h.objects[o].serialized.Returns? ==> InHeap(h, h.objects[o].serialized.v)))
  }

  function Deref(z: Zval): (r: Zval)
    ensures !r.ZReference?
  {
    match z
    case ZReference(target) => Deref(target)
    case _ => z
  }

  lemma {:induction false} DerefInHeap(h: Heap, z: Zval)
    requires InHeap(h, z)
    ensures InHeap(h, Deref(z))
  {
    if z.ZReference? {
      DerefInHeap(h, z.target);
    }
  }

  // ----- What the encoder produces -----

  /** What C code sees of a string. */
  function UpToNul(s: string): (r: cstring)
    ensures r <= s && (|r| < |s| ==> s[|r|] == '\0')
  {
    if |s| == 0 || s[0] == '\0' then "" else [s[0]] + UpToNul(s[1..])
  }

  datatype EncodeError =
    | InvalidUtf8(path: string)
    | RecursionDetected(path: string)
    | UnsupportedPhpType(path: string)
    | NullByteInKey(prefix: string)
    | UnexpectedReturn(cls: string)
    | UserException(cls: string)
    | TypeAsRoot

  /** A table to append, and which of its entries to pass over. */
  datatype View = View(slots: seq<Slot>, fromProps: bool, skipOdm: bool)

  /** What php_phongo_zval_to_bson_internal() makes of its argument: a class field
      and a table to append, or nothing. */
  datatype Source = Iterate(prefix: seq<Field>, view: View) | Abandon(thrown: seq<EncodeError>)

  predicate IsUserSerializable(rt: Runtime, obj: ObjectRec) {
    obj.cls.User? && IsSerializable(rt, obj.cls.name)
  }

  predicate IsArrayOrStd(h: Heap, z: Zval)
    requires InHeap(h, z)
  {
    z.ZArray? || (z.ZObject? && h.objects[z.obj].isStd)
  }

  predicate SourceInHeap(h: Heap, source: Source) {
    source.Iterate? ==> SlotsInHeap(h, source.view.slots)
  }

  /** HASH_OF(): the table of an array or object. */
  function TableOf(h: Heap, z: Zval): nat
    requires InHeap(h, z) && (z.ZArray? || z.ZObject?)
  {
    if z.ZArray? then z.table else h.objects[z.obj].props
  }

  function ClassField(rt: Runtime, cls: string): seq<Field> {
    if rt.persistable(cls) then [OdmField(cls)] else []
  }

  /** With an exception pending, PHP refuses to call bsonSerialize(). */
  function SourceOf(h: Heap, rt: Runtime, z: Zval, pending: bool): Source
    requires Closed(h) && InHeap(h, z)
  {
    match z
    case ZArray(table) => Iterate([], View(h.tables[table], false, false))
    case ZObject(o) =>
      var obj := h.objects[o];
      if IsUserSerializable(rt, obj) then
        if pending then Abandon([])
        else if obj.serialized.Throws? then Abandon([UserException(obj.cls.name)])
        else if !IsArrayOrStd(h, obj.serialized.v) then Abandon([UnexpectedReturn(obj.cls.name)])
        else Iterate(ClassField(rt, obj.cls.name),
                     View(h.tables[TableOf(h, obj.serialized.v)], false, rt.persistable(obj.cls.name)))
      else if obj.cls.BsonType? then Abandon([TypeAsRoot])
      else Iterate([], View(h.tables[obj.props], true, false))
    case _ => Abandon([])
  }

  /** What becomes of one entry: nothing, a value, an error, or an embedded
      document or array, appended with `table` marked. */
  datatype Plan =
    | Nothing
    | Emit(value: Bson)
    | Throw(error: EncodeError)
    | Nest(table: nat, isArray: bool, prefix: seq<Field>, source: Source)

  function PlanOf(h: Heap, rt: Runtime, z: Zval, path: string, enclosing: set<nat>, pending: bool): Plan
    requires Closed(h) && InHeap(h, z) && !z.ZReference?
  {
    match z
    case ZNull => Emit(Null)
    case ZBool(b) => Emit(Bool(b))
    case ZLong(i) => Emit(IntegerBson(i))
    case ZDouble(bits) => Emit(Double(bits))
    case ZString(s) => if rt.validUtf8(s) then Emit(Utf8(s)) else Throw(InvalidUtf8(path))
    case ZResource => Throw(UnsupportedPhpType(path))
    case ZArray(table) =>
      if table in enclosing then Throw(RecursionDetected(path))
      else Nest(table, IsList(h.tables[table]), [], SourceOf(h, rt, z, pending))
    case ZObject(o) =>
      if h.objects[o].props in enclosing then Throw(RecursionDetected(path))
      else ObjectPlan(h, rt, o, pending)
  }

  /** php_phongo_bson_append_object() */
  function ObjectPlan(h: Heap, rt: Runtime, o: nat, pending: bool): Plan
    requires Closed(h) && o in h.objects
  {
    var obj := h.objects[o];
    if obj.cls.CursorId? then Emit(Int64(obj.cls.id))
    else if obj.cls.BsonType? then Emit(TypeObjectBson(obj.cls.obj))
    else if !IsUserSerializable(rt, obj) then Nest(obj.props, false, [], SourceOf(h, rt, ZObject(o), pending))
    else if pending then Nothing
    else if obj.serialized.Throws? then Throw(UserException(obj.cls.name))
    else if !IsArrayOrStd(h, obj.serialized.v) then Throw(UnexpectedReturn(obj.cls.name))
    else
      var v := obj.serialized.v;
      var isArray := !rt.persistable(obj.cls.name) && v.ZArray? && IsList(h.tables[v.table]);
      Nest(obj.props, isArray, ClassField(rt, obj.cls.name), SourceOf(h, rt, v, pending))
  }

  lemma SourceFacts(h: Heap, rt: Runtime, z: Zval, pending: bool)
    requires Closed(h) && InHeap(h, z)
    ensures SourceInHeap(h, SourceOf(h, rt, z, pending))
  {
  }

  lemma PlanFacts(h: Heap, rt: Runtime, z: Zval, path: string, enclosing: set<nat>, pending: bool)
    requires Closed(h) && InHeap(h, z) && !z.ZReference?
    ensures var plan := PlanOf(h, rt, z, path, enclosing, pending);
            plan.Nest? ==> plan.table in h.tables && plan.table !in enclosing && SourceInHeap(h, plan.source)
  {
  }

  /** Fields appended, all exceptions thrown so far, and whether the loop over the
      entries was abandoned. */
  datatype Out = Out(fields: seq<Field>, errs: seq<EncodeError>, stopped: bool)

  function EncodeValue(h: Heap, rt: Runtime, key: cstring, z: Zval, path: seq<cstring>,
                       enclosing: set<nat>, errs: seq<EncodeError>): Out
    requires Closed(h) && InHeap(h, z)
    decreases h.tables.Keys - enclosing, 0, 0
  {
    DerefInHeap(h, z);
    var here := path + [key];
    PlanFacts(h, rt, Deref(z), Join(here), enclosing, errs != []);
    match PlanOf(h, rt, Deref(z), Join(here), enclosing, errs != [])
    case Nothing => Out([], errs, false)
    case Emit(value) => Out([Entry(key, value)], errs, false)
    case Throw(error) => Out([], errs + [error], false)
    case Nest(table, isArray, prefix, source) =>
      EncodeNested(h, rt, key, isArray, prefix, source, here, enclosing + {table}, errs)
  }

  function EncodeNested(h: Heap, rt: Runtime, key: cstring, isArray: bool, prefix: seq<Field>, source: Source,
                        path: seq<cstring>, enclosing: set<nat>, errs: seq<EncodeError>): Out
    requires Closed(h) && SourceInHeap(h, source)
    decreases h.tables.Keys - enclosing, 3, 0
  {
    var inner := EncodeSource(h, rt, source, path, enclosing, errs);
    var fields := prefix + inner.fields;
    Out([Entry(key, if isArray then Array(fields) else Document(fields))], inner.errs, false)
  }

  function EncodeSource(h: Heap, rt: Runtime, source: Source, path: seq<cstring>,
                        enclosing: set<nat>, errs: seq<EncodeError>): Out
    requires Closed(h) && SourceInHeap(h, source)
    decreases h.tables.Keys - enclosing, 2, 0
  {
    match source
    case Abandon(thrown) => Out([], errs + thrown, true)
    case Iterate(prefix, view) =>
      var o := EncodeView(h, rt, view, path, enclosing, errs);
      o.(fields := prefix + o.fields)
  }

  function EncodeView(h: Heap, rt: Runtime, view: View, path: seq<cstring>,
                      enclosing: set<nat>, errs: seq<EncodeError>): Out
    requires Closed(h) && SlotsInHeap(h, view.slots)
    decreases h.tables.Keys - enclosing, 1, |view.slots|
  {
    if |view.slots| == 0 then Out([], errs, false)
    else
      var first := view.slots[0];
      var key := KeyString(first.key);
      if IsSkipped(first.key, view.fromProps, view.skipOdm) then
        EncodeView(h, rt, Tail(view), path, enclosing, errs)
      else if '\0' in key then Out([], errs + [NullByteInKey(UpToNul(key))], true)
      else
        var v := EncodeValue(h, rt, key, first.value, path, enclosing, errs);
        var rest := EncodeView(h, rt, Tail(view), path, enclosing, v.errs);
        rest.(fields := v.fields + rest.fields)
  }

  /** References are transparent: what is behind them is encoded. */
  lemma ReferencesAreTransparent(h: Heap, rt: Runtime, key: cstring, z: Zval, path: seq<cstring>,
                                 enclosing: set<nat>, errs: seq<EncodeError>)
    requires Closed(h) && InHeap(h, z)
    ensures EncodeValue(h, rt, key, ZReference(z), path, enclosing, errs) == EncodeValue(h, rt, key, z, path, enclosing, errs)
    ensures !z.ZReference? ==> Deref(ZReference(z)) == z
  {
    DerefInHeap(h, z);
  }

  function Tail(view: View): (tail: View)
    requires |view.slots| > 0
    ensures |tail.slots| == |view.slots| - 1
    ensures forall i :: 0 <= i < |tail.slots| ==> tail.slots[i] == view.slots[i + 1]
  {
    view.(slots := view.slots[1..])
  }

  /** Encoding a root value, "_id" aside. */
  function EncodeGraph(h: Heap, rt: Runtime, z: Zval): Out
    requires Closed(h) && InHeap(h, z)
  {
    SourceFacts(h, rt, z, false);
    EncodeSource(h, rt, SourceOf(h, rt, z, false), [], {}, [])
  }

  const ID_FIELD_NAME: cstring := "_id"

  /** The loop over the entries comes by one named "_id". */
  predicate SeesId(view: View) {
    exists i :: 0 <= i < |view.slots| && IsIdSlot(view, view.slots[i])
  }

  predicate IsIdSlot(view: View, slot: Slot) {
    slot.key == StrKey(ID_FIELD_NAME) && !IsSkipped(slot.key, view.fromProps, view.skipOdm)
  }

  /** The root document: with ADD_ID, and no "_id" seen, a generated one at its
      end, unless the loop was abandoned. */
  function RootFields(h: Heap, rt: Runtime, z: Zval, addId: bool, oid: string): seq<Field>
    requires Closed(h) && InHeap(h, z)
  {
    var o := EncodeGraph(h, rt, z);
    if addId && !o.stopped && !SeesId(SourceOf(h, rt, z, false).view)
    then o.fields + [Entry(ID_FIELD_NAME, ObjectId(oid))] else o.fields
  }

  /** bson_iter_init_find(): the first field of that name, as a document. */
  function FindField(fields: seq<Field>, key: string): (found: seq<Field>)
    ensures found == [] <==> !HasKey(fields, key)
    ensures found != [] ==> |found| == 1 && found[0] in fields && found[0].key == key
  {
    if |fields| == 0 then []
    else if fields[0].key == key then [fields[0]]
    else
      assert forall i :: 0 <= i < |fields[1..]| ==> fields[1..][i] == fields[i + 1];
      assert forall i :: 0 < i < |fields| ==> fields[i] == fields[1..][i - 1];
      FindField(fields[1..], key)
  }

  /** It is the first one. */
  lemma {:induction false} FindFieldIsFirst(fields: seq<Field>, i: nat)
    requires i < |fields| && forall j :: 0 <= j < i ==> fields[j].key != fields[i].key
    ensures FindField(fields, fields[i].key) == [fields[i]]
  {
    if i > 0 {
      FindFieldIsFirst(fields[1..], i - 1);
    }
  }

  /** Carrying out a plan at `path`; a table that the plan enters is in
      `enclosing` already. */
  function CarryOut(h: Heap, rt: Runtime, plan: Plan, key: cstring, path: seq<cstring>,
                    enclosing: set<nat>, errs: seq<EncodeError>): Out
    requires Closed(h) && (plan.Nest? ==> SourceInHeap(h, plan.source))
  {
    match plan
    case Nothing => Out([], errs, false)
    case Emit(value) => Out([Entry(key, value)], errs, false)
    case Throw(error) => Out([], errs + [error], false)
    case Nest(table, isArray, prefix, source) => EncodeNested(h, rt, key, isArray, prefix, source, path, enclosing, errs)
  }

  /** The plan for an array or object whose table has been entered. */
  function EnteredPlan(h: Heap, rt: Runtime, z: Zval, pending: bool): (plan: Plan)
    requires Closed(h) && InHeap(h, z) && (z.ZArray? || z.ZObject?)
    ensures plan.Nest? ==> SourceInHeap(h, plan.source)
    ensures forall path, enclosing :: TableOf(h, z) !in enclosing ==> plan == PlanOf(h, rt, z, path, enclosing, pending)
  {
    if z.ZArray? then Nest(z.table, IsList(h.tables[z.table]), [], SourceOf(h, rt, z, pending))
    else ObjectPlan(h, rt, z.obj, pending)
  }

  // ----- The encoder -----

  class BsonBuilder {
    var fields: seq<Field>

    constructor ()
      ensures fields == []
    {
      fields := [];
    }
  }

  class GraphEncoder {
    const heap: Heap
    const rt: Runtime
    const path: FieldPath
    var recursive: set<nat>  // the tables marked as recursive
    var exceptions: seq<EncodeError>  // thrown so far

    ghost predicate Valid()
      reads this, path, path.Repr
    {
      Closed(heap) && path.Valid() && this !in path.Repr
    }

    constructor (h: Heap, runtime: Runtime)
      requires Closed(h)
      ensures Valid() && fresh(path) && fresh(path.Repr) && heap == h && rt == runtime
      ensures recursive == {} && exceptions == [] && path.keys == []
    {
      heap, rt, recursive, exceptions := h, runtime, {}, [];
      path := new FieldPath();
    }

    /** Marks a table; refused if it is marked already. */
    method ApplyProtectionBegin(table: nat) returns (ok: bool)
      modifies `recursive
      ensures ok <==> table !in old(recursive)
      ensures recursive == old(recursive) + {table}
    {
      if table in recursive {
        return false;
      }
      recursive := recursive + {table};
      ok := true;
    }

    method ApplyProtectionEnd(table: nat) returns (ok: bool)
      modifies `recursive
      ensures ok <==> table in old(recursive)
      ensures recursive == old(recursive) - {table}
    {
      if table !in recursive {
        return false;
      }
      recursive := recursive - {table};
      ok := true;
    }

    /** The field path of the entry being appended. */
    method PathString() returns (text: string)
      requires Valid() && path.Current().Some?
      ensures text == Join(path.keys + [path.Current().value])
    {
      PresentOfSet(path.elements[..path.size + 1], path.keys + [path.Current().value]);
      text := path.AsString();
    }

    method Throws(error: EncodeError)
      modifies `exceptions
      ensures exceptions == old(exceptions) + [error]
    {
      exceptions := exceptions + [error];
    }

    /** php_phongo_bson_append(): appends one entry under `key`. All marks and the
        path are as before afterwards, with or without errors. */
    method Append(bson: BsonBuilder, key: cstring, entry: Zval)
      requires Valid() && InHeap(heap, entry) && bson !in path.Repr
      modifies this, path.Repr, bson
      ensures Valid() && fresh(path.Repr - old(path.Repr)) && path.keys == old(path.keys)
      ensures recursive == old(recursive)
      ensures var o := EncodeValue(heap, rt, key, entry, old(path.keys), old(recursive), old(exceptions));
              bson.fields == old(bson.fields) + o.fields && exceptions == o.errs
      decreases heap.tables.Keys - recursive, 1
    {
      DerefInHeap(heap, entry);
      path.WriteItemAtCurrentLevel(key);
      var z := Deref(entry);
      if z.ZArray? || z.ZObject? {
        AppendCompound(bson, key, z);
      } else {
        AppendScalar(bson, key, z);
      }
    }

    method AppendScalar(bson: BsonBuilder, key: cstring, z: Zval)
      requires Valid() && path.Current() == Some(key)
      requires !z.ZArray? && !z.ZObject? && !z.ZReference?
      modifies `exceptions, bson
      ensures Valid()
      ensures var plan := PlanOf(heap, rt, z, Join(path.keys + [key]), recursive, old(exceptions) != []);
              if plan.Throw? then exceptions == old(exceptions) + [plan.error] && bson.fields == old(bson.fields)
              else plan.Emit? && exceptions == old(exceptions) && bson.fields == old(bson.fields) + [Entry(key, plan.value)]
    {
      match z {
        case ZNull =>
          bson.fields := bson.fields + [Entry(key, Null)];
        case ZBool(b) =>
          bson.fields := bson.fields + [Entry(key, Bool(b))];
        case ZLong(i) =>
          if i > 0x7FFF_FFFF || i < -0x8000_0000 {
            bson.fields := bson.fields + [Entry(key, Int64(i))];
          } else {
            bson.fields := bson.fields + [Entry(key, Int32(i))];
          }
        case ZDouble(bits) =>
          bson.fields := bson.fields + [Entry(key, Double(bits))];
        case ZString(s) =>
          if rt.validUtf8(s) {
            bson.fields := bson.fields + [Entry(key, Utf8(s))];
          } else {
            var text := PathString();
            Throws(InvalidUtf8(text));
          }
        case ZResource =>
          var text := PathString();
          Throws(UnsupportedPhpType(text));
      }
    }

    /** The cases of arrays and objects: enter the table unless it encloses the
        entry already. */
    method AppendCompound(bson: BsonBuilder, key: cstring, z: Zval)
      requires Valid() && InHeap(heap, z) && bson !in path.Repr && path.Current() == Some(key)
      requires z.ZArray? || z.ZObject?
      modifies this, path.Repr, bson
      ensures Valid() && fresh(path.Repr - old(path.Repr)) && path.keys == old(path.keys)
      ensures recursive == old(recursive)
      ensures var o := EncodeValue(heap, rt, key, z, old(path.keys), old(recursive), old(exceptions));
              bson.fields == old(bson.fields) + o.fields && exceptions == o.errs
      decreases heap.tables.Keys - recursive, 0
    {
      hide EncodeNested;
      var table := TableOf(heap, z);
      var entered := ApplyProtectionBegin(table);
      if !entered {
        var text := PathString();
        Throws(RecursionDetected(text));
        assert bson.fields == old(bson.fields) + [];
        return;
      }
      AppendEntered(bson, key, z);
      var left := ApplyProtectionEnd(table);
    }

    /** The value goes one level down the path. */
    method AppendEntered(bson: BsonBuilder, key: cstring, z: Zval)
      requires Valid() && InHeap(heap, z) && bson !in path.Repr && path.Current() == Some(key)
      requires z.ZArray? || z.ZObject?
      modifies this, path.Repr, bson
      ensures Valid() && fresh(path.Repr - old(path.Repr)) && path.keys == old(path.keys)
      ensures recursive == old(recursive)
      ensures var o := CarryOut(heap, rt, EnteredPlan(heap, rt, z, old(exceptions) != []), key,
                                old(path.keys) + [key], old(recursive), old(exceptions));
              bson.fields == old(bson.fields) + o.fields && exceptions == o.errs
      decreases heap.tables.Keys - recursive, 6
    {
      ghost var keys := path.keys;
      if z.ZArray? && IsList(heap.tables[z.table]) {
        path.WriteTypeAtCurrentLevel(ItemArray);
        path.Descend();
        AppendList(bson, key, z);
      } else {
        path.WriteTypeAtCurrentLevel(ItemDocument);
        path.Descend();
        AppendObject(bson, key, z);
      }
      path.Ascend();
      assert path.keys == keys;
    }

    /** A list becomes a BSON array. */
    method AppendList(bson: BsonBuilder, key: cstring, z: Zval)
      requires Valid() && InHeap(heap, z) && bson !in path.Repr
      requires z.ZArray? && IsList(heap.tables[z.table])
      modifies this, path.Repr, bson
      ensures Valid() && fresh(path.Repr - old(path.Repr)) && path.keys == old(path.keys)
      ensures recursive == old(recursive)
      ensures var o := CarryOut(heap, rt, EnteredPlan(heap, rt, z, old(exceptions) != []), key,
                                old(path.keys), old(recursive), old(exceptions));
              bson.fields == old(bson.fields) + o.fields && exceptions == o.errs
      decreases heap.tables.Keys - recursive, 4
    {
      var child := new BsonBuilder();
      var completed, addIdLeft := ZvalToBsonInternal(z, child, false);
      bson.fields := bson.fields + [Entry(key, Array(child.fields))];
    }

    /** php_phongo_bson_append_object() */
    method AppendObject(bson: BsonBuilder, key: cstring, z: Zval)
      requires Valid() && InHeap(heap, z) && bson !in path.Repr
      requires z.ZArray? || z.ZObject?
      requires z.ZArray? ==> !IsList(heap.tables[z.table])
      modifies this, path.Repr, bson
      ensures Valid() && fresh(path.Repr - old(path.Repr)) && path.keys == old(path.keys)
      ensures recursive == old(recursive)
      ensures var o := CarryOut(heap, rt, EnteredPlan(heap, rt, z, old(exceptions) != []), key,
                                old(path.keys), old(recursive), old(exceptions));
              bson.fields == old(bson.fields) + o.fields && exceptions == o.errs
      decreases heap.tables.Keys - recursive, 5
    {
      if z.ZObject? && heap.objects[z.obj].cls.CursorId? {
        bson.fields := bson.fields + [Entry(key, Int64(heap.objects[z.obj].cls.id))];
        return;
      }
      if z.ZObject? && IsUserSerializable(rt, heap.objects[z.obj]) {
        AppendSerializable(bson, key, z);
        return;
      }
      if z.ZObject? && heap.objects[z.obj].cls.BsonType? {
        bson.fields := bson.fields + [Entry(key, TypeObjectBson(heap.objects[z.obj].cls.obj))];
        return;
      }
      var child := new BsonBuilder();
      var completed, addIdLeft := ZvalToBsonInternal(z, child, false);
      bson.fields := bson.fields + [Entry(key, Document(child.fields))];
    }

    /** The Serializable branch: the return value of bsonSerialize() is embedded as
        a document with a class field, as a document, or as an array. */
    method AppendSerializable(bson: BsonBuilder, key: cstring, z: Zval)
      requires Valid() && InHeap(heap, z) && bson !in path.Repr
      requires z.ZObject? && IsUserSerializable(rt, heap.objects[z.obj])
      modifies this, path.Repr, bson
      ensures Valid() && fresh(path.Repr - old(path.Repr)) && path.keys == old(path.keys)
      ensures recursive == old(recursive)
      ensures var o := CarryOut(heap, rt, EnteredPlan(heap, rt, z, old(exceptions) != []), key,
                                old(path.keys), old(recursive), old(exceptions));
              bson.fields == old(bson.fields) + o.fields && exceptions == o.errs
      decreases heap.tables.Keys - recursive, 4
    {
      var obj := heap.objects[z.obj];
      if exceptions != [] {
        return;
      }
      if obj.serialized.Throws? {
        Throws(UserException(obj.cls.name));
        return;
      }
      var data := obj.serialized.v;
      if !IsArrayOrStd(heap, data) {
        Throws(UnexpectedReturn(obj.cls.name));
        return;
      }
      var child := new BsonBuilder();
      if rt.persistable(obj.cls.name) || !(data.ZArray? && IsList(heap.tables[data.table])) {
        if rt.persistable(obj.cls.name) {
          child.fields := [OdmField(obj.cls.name)];
        }
        var completed, addIdLeft := ZvalToBsonInternal(data, child, false);
        bson.fields := bson.fields + [Entry(key, Document(child.fields))];
      } else {
        var completed, addIdLeft := ZvalToBsonInternal(data, child, false);
        bson.fields := bson.fields + [Entry(key, Array(child.fields))];
      }
    }

    /** php_phongo_zval_to_bson_internal() up to the handling of "_id": appends the
        table of an array or object to a document. */
    method ZvalToBsonInternal(data: Zval, bson: BsonBuilder, addId: bool) returns (completed: bool, addIdLeft: bool)
      requires Valid() && InHeap(heap, data) && bson !in path.Repr
      modifies this, path.Repr, bson
      ensures Valid() && fresh(path.Repr - old(path.Repr)) && path.keys == old(path.keys)
      ensures recursive == old(recursive)
      ensures var source := SourceOf(heap, rt, data, old(exceptions) != []);
              && SourceInHeap(heap, source)
              && var o := EncodeSource(heap, rt, source, old(path.keys), old(recursive), old(exceptions));
                 && bson.fields == old(bson.fields) + o.fields && exceptions == o.errs
                 && completed == !o.stopped && (completed ==> addIdLeft == (addId && !SeesId(source.view)))
      decreases heap.tables.Keys - recursive, 3
    {
      hide EncodeView;
      var viewed: View;
      SourceFacts(heap, rt, data, exceptions != []);
      match data {
        case ZArray(table) =>
          viewed := View(heap.tables[table], false, false);
        case ZObject(o) =>
          var obj := heap.objects[o];
          if IsUserSerializable(rt, obj) {
            if exceptions != [] {
              return false, addId;
            }
            if obj.serialized.Throws? {
              Throws(UserException(obj.cls.name));
              return false, addId;
            }
            if !IsArrayOrStd(heap, obj.serialized.v) {
              Throws(UnexpectedReturn(obj.cls.name));
              return false, addId;
            }
            viewed := View(heap.tables[TableOf(heap, obj.serialized.v)], false, rt.persistable(obj.cls.name));
            if rt.persistable(obj.cls.name) {
              bson.fields := bson.fields + [OdmField(obj.cls.name)];
            }
          } else if obj.cls.BsonType? {
            Throws(TypeAsRoot);
            return false, addId;
          } else {
            viewed := View(heap.tables[obj.props], true, false);
          }
        case _ =>
          return false, addId;
      }
      completed, addIdLeft := AppendView(viewed, bson, addId);
    }

    /** php_phongo_zval_to_bson(): encodes a root value into an empty document.
        ADD_ID adds an "_id" if the loop met none; RETURN_ID copies the document's
        "_id". */
    method ZvalToBson(data: Zval, addId: bool, returnId: bool, oid: string, bson: BsonBuilder)
      returns (bsonOut: Option<seq<Field>>)
      requires Valid() && InHeap(heap, data) && bson !in path.Repr
      requires recursive == {} && exceptions == [] && path.keys == [] && bson.fields == []
      modifies this, path.Repr, bson
      ensures Valid() && fresh(path.Repr - old(path.Repr)) && recursive == {} && path.keys == []
      ensures bson.fields == RootFields(heap, rt, data, addId, oid)
      ensures exceptions == EncodeGraph(heap, rt, data).errs
      ensures bsonOut == if returnId && !EncodeGraph(heap, rt, data).stopped
                         then Some(FindField(bson.fields, ID_FIELD_NAME)) else None
    {
      SourceFacts(heap, rt, data, false);
      ghost var o := EncodeGraph(heap, rt, data);
      var completed, addIdLeft := ZvalToBsonInternal(data, bson, addId);
      assert [] + o.fields == o.fields;
      if !completed {
        return None;
      }
      if addIdLeft {
        bson.fields := bson.fields + [Entry(ID_FIELD_NAME, ObjectId(oid))];
      }
      bsonOut := if returnId then Some(FindField(bson.fields, ID_FIELD_NAME)) else None;
    }

    /** The loop over a table's entries. The flag ADD_ID is dropped once an entry
        named "_id" comes by. */
    method AppendView(view: View, bson: BsonBuilder, addId: bool) returns (completed: bool, addIdLeft: bool)
      requires Valid() && SlotsInHeap(heap, view.slots) && bson !in path.Repr
      modifies this, path.Repr, bson
      ensures Valid() && fresh(path.Repr - old(path.Repr)) && path.keys == old(path.keys)
      ensures recursive == old(recursive)
      ensures var o := EncodeView(heap, rt, view, old(path.keys), old(recursive), old(exceptions));
              && bson.fields == old(bson.fields) + o.fields && exceptions == o.errs && completed == !o.stopped
      ensures completed ==> addIdLeft == (addId && !SeesId(view))
      decreases heap.tables.Keys - recursive, 2, 1
    {
      addIdLeft := addId;
      hide EncodeView;
      ghost var all, done := EncodeView(heap, rt, view, path.keys, recursive, exceptions), [];
      ghost var rest := all;
      assert From(view, 0) == view;
      var i := 0;
      while i < |view.slots|
        invariant 0 <= i <= |view.slots|
        invariant Valid() && fresh(path.Repr - old(path.Repr)) && bson !in path.Repr
        invariant path.keys == old(path.keys) && recursive == old(recursive)
        invariant bson.fields == old(bson.fields) + done
        invariant Continues(all, done, rest)
        invariant rest == EncodeView(heap, rt, From(view, i), path.keys, recursive, exceptions)
        invariant addIdLeft <==> addId && forall j :: 0 <= j < i ==> !IsIdSlot(view, view.slots[j])
      {
        ghost var more, after;
        completed, addIdLeft, more, after := AppendSlot(view, i, bson, addIdLeft);
        ContinuesAfter(all, done, more, rest, after);
        done, rest := done + more, after;
        if !completed {
          assert done + [] == done;
          return;
        }
        i := i + 1;
      }
      EncodeViewEnd(heap, rt, From(view, i), path.keys, recursive, exceptions);
      assert done + [] == done;
      completed := true;
    }

    /** One round of the loop. */
    method AppendSlot(view: View, i: nat, bson: BsonBuilder, addId: bool)
      returns (proceed: bool, addIdLeft: bool, ghost more: seq<Field>, ghost rest: Out)
      requires Valid() && i < |view.slots| && SlotsInHeap(heap, view.slots) && bson !in path.Repr
      modifies this, path.Repr, bson
      ensures Valid() && fresh(path.Repr - old(path.Repr)) && path.keys == old(path.keys)
      ensures recursive == old(recursive)
      ensures bson.fields == old(bson.fields) + more
      ensures Continues(EncodeView(heap, rt, From(view, i), old(path.keys), old(recursive), old(exceptions)), more, rest)
      ensures rest == if proceed then EncodeView(heap, rt, From(view, i + 1), path.keys, recursive, exceptions)
                      else Out([], exceptions, true)
      ensures proceed ==> addIdLeft == (addId && !IsIdSlot(view, view.slots[i]))
      decreases heap.tables.Keys - recursive, 2, 0
    {
      assert Tail(From(view, i)) == From(view, i + 1);
      proceed, addIdLeft, more := true, addId, [];
      var slot := view.slots[i];
      if IsSkipped(slot.key, view.fromProps, view.skipOdm) {
        rest := EncodeView(heap, rt, From(view, i + 1), path.keys, recursive, exceptions);
        return;
      }
      var key := KeyString(slot.key);
      if '\0' in key {
        Throws(NullByteInKey(UpToNul(key)));
        proceed, rest := false, Out([], exceptions, true);
        return;
      }
      if addId && slot.key == StrKey(ID_FIELD_NAME) {
        addIdLeft := false;
      }
      ghost var o := EncodeValue(heap, rt, key, slot.value, path.keys, recursive, exceptions);
      rest := EncodeView(heap, rt, From(view, i + 1), path.keys, recursive, o.errs);
      more := o.fields;
      Append(bson, key, slot.value);
    }
  }

  function From(view: View, i: nat): (r: View)
    requires i <= |view.slots|
    ensures |r.slots| == |view.slots| - i
    ensures forall j :: 0 <= j < |r.slots| ==> r.slots[j] == view.slots[i + j]
  {
    view.(slots := view.slots[i..])
  }

  lemma EncodeViewEnd(h: Heap, rt: Runtime, view: View, path: seq<cstring>, enclosing: set<nat>, errs: seq<EncodeError>)
    requires Closed(h) && view.slots == []
    ensures EncodeView(h, rt, view, path, enclosing, errs) == Out([], errs, false)
  {
  }

  /** `done` has been appended, and `rest` is still to come. */
  predicate Continues(all: Out, done: seq<Field>, rest: Out) {
    all == rest.(fields := done + rest.fields)
  }

  lemma ContinuesAfter(all: Out, done: seq<Field>, more: seq<Field>, rest: Out, after: Out)
    requires Continues(all, done, rest) && Continues(rest, more, after)
    ensures Continues(all, done + more, after)
  {
    assert done + (more + after.fields) == done + more + after.fields;
  }
}
