/**
 Decoding: BSON documents to PHP values under a type map (src/bson.c).

 `Decode` is the meaning of the decoder: a recursive function that passes the
 path of every node down. The driver computes it with visitors that share one
 mutable path; the methods at the end of this module are those visitors, proved
 to compute `Decode`.
 */
module Decoder {
  import opened Keys
  import opened Values
  import opened FieldPaths
  import opened TypeMaps

  datatype DecodeError = UnsupportedType(typeCode: nat, path: string)

  predicate IsCompound(v: Bson) {
    v.Document? || v.Array?
  }

  /** The PHP value of a BSON value that has no children. */
  function LeafValue(v: Bson): Php
    requires !IsCompound(v) && !v.Unsupported?
  {
    match v
    case Double(bits) => PhpDouble(bits)
    case Utf8(text) => PhpString(text)
    case Binary(subtype, bytes) => Typed(BinaryObj(bytes, subtype))
    case Undefined => Typed(UndefinedObj)
    case ObjectId(oid) => Typed(ObjectIdObj(oid))
    case Bool(b) => PhpBool(b)
    case DateTime(millis) => Typed(UTCDateTimeObj(millis))
    case Null => PhpNull
    case Regex(pattern, options) => Typed(RegexObj(pattern, options))
    case DBPointer(ref, oid) => Typed(DBPointerObj(ref, oid))
    case Code(code) => Typed(JavascriptObj(code, None))
    case Symbol(symbol) => Typed(SymbolObj(symbol))
    case CodeWithScope(code, scope) => Typed(JavascriptObj(code, Some(scope)))
    case Int32(i) => PhpLong(i)
    case Timestamp(seconds, increment) => Typed(TimestampObj(increment, seconds))
    case Int64(i) => PhpLong(i)
    case Decimal128(decimal) => Typed(Decimal128Obj(decimal))
    case MaxKey => Typed(MaxKeyObj)
    case MinKey => Typed(MinKeyObj)
  }

  /** The Persistable class an element names, if it is an ODM field that does. */
  function OdmOf(rt: Runtime, key: string, v: Bson): Option<string> {
    if v.Binary? && v.subtype == ODM_SUBTYPE && key == ODM_FIELD_NAME && rt.persistable(v.bytes)
    then Some(v.bytes) else None
  }

  /** The class named by the last such element of a document. */
  function OdmClass(rt: Runtime, fields: seq<Field>): Option<string> {
    if |fields| == 0 then None
    else
      var last := Last(fields);
      var odm := OdmOf(rt, last.key, last.value);
      if odm.Some? then odm else OdmClass(rt, Front(fields))
  }

  /** convert_to_object(): integer keys become property names. */
  function ToProps(entries: seq<Bucket>): (props: seq<Bucket>)
    ensures |props| == |entries|
    ensures forall i :: 0 <= i < |entries| ==> props[i] == Entry(StrKey(KeyString(entries[i].key)), entries[i].value)
  {
    seq(|entries|, i requires 0 <= i < |entries| => Entry(StrKey(KeyString(entries[i].key)), entries[i].value))
  }

  /** A class found in the document supersedes a default or named class, but not
      a native type. */
  function DocumentValue(kind: TypeKind, odm: Option<string>, entries: seq<Bucket>): Php {
    match kind
    case NativeArray => PhpArray(entries)
    case NativeObject => PhpObject(ToProps(entries))
    case Class(name) => Instance(if odm.Some? then odm.value else name, PhpArray(entries))
    case Unset => if odm.Some? then Instance(odm.value, PhpArray(entries)) else PhpObject(ToProps(entries))
  }

  function ArrayValue(kind: TypeKind, entries: seq<Bucket>): Php {
    match kind
    case NativeObject => PhpObject(ToProps(entries))
    case Class(name) => Instance(name, PhpArray(entries))
    case _ => PhpArray(entries)
  }

  /** Arrays disregard BSON keys; documents file them as PHP keys. */
  function Store(entries: seq<Bucket>, key: string, value: Php, isArray: bool): seq<Bucket> {
    if isArray then entries + [Entry(IntKey(|entries|), value)] else Put(entries, KeyOf(key), value)
  }

  /** The value of the node at `path`. */
  function Decode(rt: Runtime, m: TypeMap, v: Bson, path: seq<cstring>): Result<Php, DecodeError>
    decreases v
  {
    match v
    case Unsupported(typeCode) => Err(UnsupportedType(typeCode, Join(path)))
    case Document(fields) =>
      var entries :- DecodeAll(rt, m, fields, path, false);
      Ok(DocumentValue(KindAt(m.fieldPaths, path, m.documentType), OdmClass(rt, fields), entries))
    case Array(elements) =>
      var entries :- DecodeAll(rt, m, elements, path, true);
      Ok(ArrayValue(KindAt(m.fieldPaths, path, m.arrayType), entries))
    case CodeWithScope(code, scope) =>
      var checked :- DecodeAll(rt, DEFAULT_MAP, scope, [], false);
      Ok(LeafValue(v))
    case _ => Ok(LeafValue(v))
  }

  /** The PHP array holding the children of the node at `path`. */
  function DecodeAll(rt: Runtime, m: TypeMap, fields: seq<Field>, path: seq<cstring>, isArray: bool)
    : (r: Result<seq<Bucket>, DecodeError>)
    decreases fields
  {
    if |fields| == 0 then Ok([])
    else
      var last := Last(fields);
      var front :- DecodeAll(rt, m, Front(fields), path, isArray);
      var value :- Decode(rt, m, last.value, path + [last.key]);
      Ok(Store(front, last.key, value, isArray))
  }

  /** How many elements are decoded before the first error. */
  function DecodedBefore(rt: Runtime, m: TypeMap, fields: seq<Field>, path: seq<cstring>): (n: nat)
    ensures n <= |fields|
    decreases |fields|
  {
    if |fields| == 0 then 0
    else
      var n := DecodedBefore(rt, m, Front(fields), path);
      if n < |fields| - 1 || Decode(rt, m, Last(fields).value, path + [Last(fields).key]).Err? then n else |fields|
  }

  lemma {:induction false} DecodedBeforeAll(rt: Runtime, m: TypeMap, fields: seq<Field>, path: seq<cstring>, isArray: bool)
    ensures DecodeAll(rt, m, fields, path, isArray).Ok? <==> DecodedBefore(rt, m, fields, path) == |fields|
    decreases |fields|
  {
    if |fields| > 0 {
      DecodedBeforeAll(rt, m, Front(fields), path, isArray);
    }
  }

  /** The class found last in the elements up to the first error, or before. */
  function OdmAfter(rt: Runtime, m: TypeMap, fields: seq<Field>, path: seq<cstring>, before: Option<string>): Option<string> {
    var odm := OdmClass(rt, fields[..DecodedBefore(rt, m, fields, path)]);
    if odm.Some? then odm else before
  }

  /** A whole document; field paths do not apply to the root. */
  function DecodeRoot(rt: Runtime, m: TypeMap, fields: seq<Field>): Result<Php, DecodeError> {
    var entries :- DecodeAll(rt, m, fields, [], false);
    Ok(DocumentValue(m.rootType, OdmClass(rt, fields), entries))
  }

  // ----- How nodes are shown -----

  lemma {:induction false} ElementsAreNumbered(rt: Runtime, m: TypeMap, elements: seq<Field>, path: seq<cstring>)
    requires DecodeAll(rt, m, elements, path, true).Ok?
    ensures var children := DecodeAll(rt, m, elements, path, true).value;
            && |children| == |elements|
            && forall i :: 0 <= i < |elements| ==>
                 && children[i].key == IntKey(i)
                 && Decode(rt, m, elements[i].value, path + [elements[i].key]) == Ok(children[i].value)
    decreases |elements|
  {
    if |elements| > 0 {
      ElementsAreNumbered(rt, m, Front(elements), path);
    }
  }

  /** An array is a PHP array, unless its type says stdClass, and then its elements
      are properties "0", "1", ..., or names a class, whose instance is made from
      the elements. */
  lemma ArrayIsShown(rt: Runtime, m: TypeMap, elements: seq<Field>, path: seq<cstring>)
    requires DecodeAll(rt, m, elements, path, true).Ok?
    ensures var children := DecodeAll(rt, m, elements, path, true).value;
            var shown := Decode(rt, m, Array(elements), path);
            shown.Ok? && match KindAt(m.fieldPaths, path, m.arrayType)
            case Unset => shown.value == PhpArray(children)
            case NativeArray => shown.value == PhpArray(children)
            case Class(name) => shown.value == Instance(name, PhpArray(children))
            case NativeObject =>
              && shown.value.PhpObject? && |shown.value.props| == |elements|
              && forall i :: 0 <= i < |elements| ==> shown.value.props[i] == Entry(StrKey(Dec(i)), children[i].value)
  {
    ElementsAreNumbered(rt, m, elements, path);
  }

  /** A document is what a class field in it says, unless its type is native; else
      what its type says; else stdClass. */
  lemma DocumentIsShown(rt: Runtime, m: TypeMap, fields: seq<Field>, path: seq<cstring>)
    requires DecodeAll(rt, m, fields, path, false).Ok?
    ensures var children := DecodeAll(rt, m, fields, path, false).value;
            var shown := Decode(rt, m, Document(fields), path);
            var kind := KindAt(m.fieldPaths, path, m.documentType);
            && shown.Ok?
            && (kind == NativeArray ==> shown.value == PhpArray(children))
            && (kind == NativeObject || (kind == Unset && OdmClass(rt, fields) == None) ==>
                  && shown.value.PhpObject? && |shown.value.props| == |children|
                  && forall i :: 0 <= i < |children| ==>
                       shown.value.props[i] == Entry(StrKey(KeyString(children[i].key)), children[i].value))
            && (!(kind == NativeArray || kind == NativeObject) && OdmClass(rt, fields).Some? ==>
                  shown.value == Instance(OdmClass(rt, fields).value, PhpArray(children)))
            && (kind.Class? && OdmClass(rt, fields) == None ==> shown.value == Instance(kind.name, PhpArray(children)))
  {
  }

  // ----- An override concerns the nodes it matches -----

  /** The maps treat every node strictly below `path` alike. */
  ghost predicate AgreeBelow(m: TypeMap, n: TypeMap, path: seq<cstring>) {
    forall q: seq<cstring> :: path < q ==>
      && KindAt(m.fieldPaths, q, m.documentType) == KindAt(n.fieldPaths, q, n.documentType)
      && KindAt(m.fieldPaths, q, m.arrayType) == KindAt(n.fieldPaths, q, n.arrayType)
  }

  /** What is below a node does not depend on the entries for the node itself,
      its ancestors or its siblings. */
  lemma {:induction false} ChildrenDependOnPathsBelow(rt: Runtime, m: TypeMap, n: TypeMap, fields: seq<Field>,
                                                      path: seq<cstring>, isArray: bool)
    requires AgreeBelow(m, n, path)
    ensures DecodeAll(rt, m, fields, path, isArray) == DecodeAll(rt, n, fields, path, isArray)
    decreases fields
  {
    if |fields| > 0 {
      var last := Last(fields);
      ChildrenDependOnPathsBelow(rt, m, n, Front(fields), path, isArray);
      var q := path + [last.key];
      assert path < q;
      if last.value.Document? {
        ChildrenDependOnPathsBelow(rt, m, n, last.value.fields, q, false);
      } else if last.value.Array? {
        ChildrenDependOnPathsBelow(rt, m, n, last.value.elements, q, true);
      }
    }
  }

  /** A type map decides how a value is shown, not whether it can be decoded. */
  lemma {:induction false} FailsUnderEveryMap(rt: Runtime, m: TypeMap, n: TypeMap, v: Bson, path: seq<cstring>)
    ensures Decode(rt, m, v, path).Ok? <==> Decode(rt, n, v, path).Ok?
    ensures Decode(rt, m, v, path).Err? ==> Decode(rt, m, v, path) == Decode(rt, n, v, path)
    decreases v
  {
    if v.Document? {
      ChildrenFailUnderEveryMap(rt, m, n, v.fields, path, false);
    } else if v.Array? {
      ChildrenFailUnderEveryMap(rt, m, n, v.elements, path, true);
    }
  }

  lemma {:induction false} DecodedBeforeUnderEveryMap(rt: Runtime, m: TypeMap, n: TypeMap, fields: seq<Field>, path: seq<cstring>)
    ensures DecodedBefore(rt, m, fields, path) == DecodedBefore(rt, n, fields, path)
    decreases |fields|
  {
    if |fields| > 0 {
      DecodedBeforeUnderEveryMap(rt, m, n, Front(fields), path);
      FailsUnderEveryMap(rt, m, n, Last(fields).value, path + [Last(fields).key]);
    }
  }

  lemma {:induction false} ChildrenFailUnderEveryMap(rt: Runtime, m: TypeMap, n: TypeMap, fields: seq<Field>,
                                                     path: seq<cstring>, isArray: bool)
    ensures var r, s := DecodeAll(rt, m, fields, path, isArray), DecodeAll(rt, n, fields, path, isArray);
            (r.Ok? <==> s.Ok?) && (r.Err? ==> r == s)
    decreases fields
  {
    if |fields| > 0 {
      var last := Last(fields);
      ChildrenFailUnderEveryMap(rt, m, n, Front(fields), path, isArray);
      FailsUnderEveryMap(rt, m, n, last.value, path + [last.key]);
    }
  }

  /** `n` is `m` with one more entry in front of the others. */
  predicate AddsEntry(m: TypeMap, n: TypeMap, e: PathEntry) {
    n == m.(fieldPaths := [e] + m.fieldPaths)
  }

  /** The entry matches `path`, or can match something below it. */
  predicate LeadsTo(segments: seq<cstring>, path: seq<cstring>) {
    |path| <= |segments| && Matches(segments[..|path|], path)
  }

  /** On a way that the entry can match, the next key goes on. */
  predicate Toward(segments: seq<cstring>, path: seq<cstring>, key: string) {
    LeadsTo(segments, path) && |path| < |segments| && (segments[|path|] == "$" || segments[|path|] == key)
  }

  lemma TowardLeadsTo(segments: seq<cstring>, path: seq<cstring>, key: cstring)
    ensures LeadsTo(segments, path + [key]) <==> Toward(segments, path, key)
  {
    if |path| < |segments| {
      var s, q := segments[..|path| + 1], path + [key];
      assert forall i :: 0 <= i < |path| ==> s[i] == segments[..|path|][i] && q[i] == path[i];
      assert s[|path|] == segments[|path|] && q[|path|] == key;
    }
  }

  lemma MatchesBelowLead(segments: seq<cstring>, path: seq<cstring>)
    ensures forall q: seq<cstring> :: path <= q && Matches(segments, q) ==> LeadsTo(segments, path)
  {
    forall q: seq<cstring> | path <= q && Matches(segments, q) ensures LeadsTo(segments, path) {
      assert forall i :: 0 <= i < |path| ==> segments[..|path|][i] == segments[i] && path[i] == q[i];
    }
  }

  lemma KindsWithEntry(m: TypeMap, n: TypeMap, e: PathEntry)
    requires AddsEntry(m, n, e)
    ensures forall q, d :: KindAt(n.fieldPaths, q, d) ==
              if !Matches(e.segments, q) then KindAt(m.fieldPaths, q, d) else if e.kind == Unset then d else e.kind
  {
    assert n.fieldPaths[1..] == m.fieldPaths;
  }

  /** An entry re-wraps every node it matches around the same children and the
      same ODM class, whatever the other entries say. */
  lemma OverrideRewrapsItsNodes(rt: Runtime, m: TypeMap, n: TypeMap, e: PathEntry, path: seq<cstring>, fields: seq<Field>)
    requires AddsEntry(m, n, e) && Matches(e.segments, path) && e.kind != Unset
    ensures Decode(rt, n, Document(fields), path) ==
            match DecodeAll(rt, m, fields, path, false)
            case Ok(entries) => Ok(DocumentValue(e.kind, OdmClass(rt, fields), entries))
            case Err(error) => Err(error)
    ensures Decode(rt, n, Array(fields), path) ==
            match DecodeAll(rt, m, fields, path, true)
            case Ok(entries) => Ok(ArrayValue(e.kind, entries))
            case Err(error) => Err(error)
  {
    KindsWithEntry(m, n, e);
    ChildrenDependOnPathsBelow(rt, m, n, fields, path, false);
    ChildrenDependOnPathsBelow(rt, m, n, fields, path, true);
  }

  /** Nodes that the entry does not match, and that contain none it could match,
      decode as before: siblings and descendants among them. */
  lemma OverrideLeavesOthers(rt: Runtime, m: TypeMap, n: TypeMap, e: PathEntry, v: Bson, other: seq<cstring>)
    requires AddsEntry(m, n, e) && !LeadsTo(e.segments, other)
    ensures Decode(rt, n, v, other) == Decode(rt, m, v, other)
  {
    KindsWithEntry(m, n, e);
    MatchesBelowLead(e.segments, other);
    if v.Document? {
      ChildrenDependOnPathsBelow(rt, m, n, v.fields, other, false);
    } else if v.Array? {
      ChildrenDependOnPathsBelow(rt, m, n, v.elements, other, true);
    }
  }

  /** The same keys, and values that differ only toward a match. An array's
      children are known by their elements' BSON keys. */
  ghost predicate ChangedToward(e: PathEntry, path: seq<cstring>, fields: seq<Field>, isArray: bool,
                                a: seq<Bucket>, b: seq<Bucket>) {
    && |a| == |b| && (isArray ==> |a| == |fields|)
    && forall i :: 0 <= i < |a| ==>
         && a[i].key == b[i].key
         && (a[i].value == b[i].value || Toward(e.segments, path, if isArray then fields[i].key else KeyString(a[i].key)))
  }

  lemma {:induction false} PutChangesToward(e: PathEntry, path: seq<cstring>, a: seq<Bucket>, b: seq<Bucket>,
                                            key: string, v: Php, w: Php)
    requires ChangedToward(e, path, [], false, a, b) && (v == w || Toward(e.segments, path, key))
    ensures ChangedToward(e, path, [], false, Put(a, KeyOf(key), v), Put(b, KeyOf(key), w))
  {
    hide Toward, KeyOf;
    if |a| > 0 && a[0].key != KeyOf(key) {
      assert forall i :: 0 <= i < |a[1..]| ==> a[1..][i] == a[i + 1] && b[1..][i] == b[i + 1];
      PutChangesToward(e, path, a[1..], b[1..], key, v, w);
    }
  }

  lemma ChildChangesToward(rt: Runtime, m: TypeMap, n: TypeMap, e: PathEntry, f: Field, path: seq<cstring>)
    requires AddsEntry(m, n, e) && Decode(rt, m, f.value, path + [f.key]).Ok?
    ensures Decode(rt, n, f.value, path + [f.key]).Ok?
    ensures Decode(rt, n, f.value, path + [f.key]) == Decode(rt, m, f.value, path + [f.key]) || Toward(e.segments, path, f.key)
  {
    hide Decode, LeadsTo;
    FailsUnderEveryMap(rt, m, n, f.value, path + [f.key]);
    TowardLeadsTo(e.segments, path, f.key);
    if !Toward(e.segments, path, f.key) {
      OverrideLeavesOthers(rt, m, n, e, f.value, path + [f.key]);
    }
  }

  lemma StoreChangesToward(e: PathEntry, path: seq<cstring>, fields: seq<Field>, isArray: bool,
                           a: seq<Bucket>, b: seq<Bucket>, v: Php, w: Php)
    requires |fields| > 0 && ChangedToward(e, path, Front(fields), isArray, a, b)
    requires v == w || Toward(e.segments, path, Last(fields).key)
    ensures ChangedToward(e, path, fields, isArray, Store(a, Last(fields).key, v, isArray), Store(b, Last(fields).key, w, isArray))
  {
    hide Toward;
    if !isArray {
      PutChangesToward(e, path, a, b, Last(fields).key, v, w);
    }
  }

  lemma {:induction false} ChildrenChangeToward(rt: Runtime, m: TypeMap, n: TypeMap, e: PathEntry, fields: seq<Field>,
                                                path: seq<cstring>, isArray: bool)
    requires AddsEntry(m, n, e) && DecodeAll(rt, m, fields, path, isArray).Ok?
    ensures DecodeAll(rt, n, fields, path, isArray).Ok?
    ensures ChangedToward(e, path, fields, isArray,
                          DecodeAll(rt, m, fields, path, isArray).value, DecodeAll(rt, n, fields, path, isArray).value)
    decreases |fields|
  {
    if |fields| > 0 {
      hide Decode, ChangedToward, Store, Toward;
      var last, front := Last(fields), Front(fields);
      var here := path + [last.key];
      ChildrenChangeToward(rt, m, n, e, front, path, isArray);
      ChildChangesToward(rt, m, n, e, last, path);
      StoreChangesToward(e, path, fields, isArray,
                         DecodeAll(rt, m, front, path, isArray).value, DecodeAll(rt, n, front, path, isArray).value,
                         Decode(rt, m, last.value, here).value, Decode(rt, n, last.value, here).value);
    }
  }

  /** A node that the entry does not match itself keeps its kind, its class and
      its keys, and changes only in the children on the way to a match. */
  lemma OverrideKeepsAncestors(rt: Runtime, m: TypeMap, n: TypeMap, e: PathEntry, fields: seq<Field>,
                               path: seq<cstring>, isArray: bool)
    requires AddsEntry(m, n, e) && !Matches(e.segments, path)
    ensures var v := if isArray then Array(fields) else Document(fields);
            match DecodeAll(rt, m, fields, path, isArray)
            case Err(error) => Decode(rt, m, v, path) == Err(error) && Decode(rt, n, v, path) == Err(error)
            case Ok(a) =>
              && DecodeAll(rt, n, fields, path, isArray).Ok?
              && var b := DecodeAll(rt, n, fields, path, isArray).value;
                 && ChangedToward(e, path, fields, isArray, a, b)
                 && var kind := KindAt(m.fieldPaths, path, if isArray then m.arrayType else m.documentType);
                    && Decode(rt, m, v, path) == Ok(if isArray then ArrayValue(kind, a) else DocumentValue(kind, OdmClass(rt, fields), a))
                    && Decode(rt, n, v, path) == Ok(if isArray then ArrayValue(kind, b) else DocumentValue(kind, OdmClass(rt, fields), b))
  {
    KindsWithEntry(m, n, e);
    ChildrenFailUnderEveryMap(rt, m, n, fields, path, isArray);
    if DecodeAll(rt, m, fields, path, isArray).Ok? {
      ChildrenChangeToward(rt, m, n, e, fields, path, isArray);
    }
  }

  // ----- The visitors -----

  /** php_phongo_bson_state: the PHP array under construction, the map, the ODM
      class found so far, and the path shared with the other states. */
  class BsonState {
    var zchild: seq<Bucket>
    var map_: TypeMap
    var odm: Option<string>
    var isVisitingArray: bool
    var fieldPath: FieldPath?

    constructor (m: TypeMap)
      ensures zchild == [] && map_ == m && odm == None && !isVisitingArray && fieldPath == null
    {
      zchild, map_, odm, isVisitingArray, fieldPath := [], m, None, false, null;
    }

    /** The state for the children of a node, sharing its parent's map and path. */
    constructor Copy(parent: BsonState, visitingArray: bool)
      requires parent.fieldPath != null && parent.fieldPath.Valid()
      modifies parent.fieldPath`refCount
      ensures zchild == [] && map_ == parent.map_ && odm == None && isVisitingArray == visitingArray
      ensures fieldPath == parent.fieldPath && fieldPath.refCount == old(parent.fieldPath.refCount) + 1
      ensures fieldPath.Valid() && fieldPath.keys == old(parent.fieldPath.keys)
    {
      zchild, map_, odm, isVisitingArray := [], parent.map_, None, visitingArray;
      fieldPath := parent.fieldPath;
      new;
      fieldPath.refCount := fieldPath.refCount + 1;
    }

    /** Gives up this state's share of the path. */
    method Dtor()
      requires fieldPath != null && fieldPath.Valid() && fieldPath.refCount > 0 && this !in fieldPath.Repr
      modifies this`fieldPath, fieldPath`refCount
      ensures fieldPath == null && old(fieldPath).refCount == old(fieldPath.refCount) - 1
      ensures old(fieldPath).Valid() && old(fieldPath).keys == old(fieldPath.keys)
    {
      fieldPath.refCount := fieldPath.refCount - 1;
      fieldPath := null;
    }
  }

  /** Visits one element: files its value under construction, and writes its key
      at the path's current level. */
  method VisitElement(rt: Runtime, state: BsonState, path: FieldPath, key: cstring, v: Bson)
    returns (err: Option<DecodeError>)
    requires state.fieldPath == path && path.Valid() && path.refCount > 0 && state !in path.Repr
    modifies state, path.Repr
    ensures path.Valid() && fresh(path.Repr - old(path.Repr)) && path.refCount == old(path.refCount)
    ensures state.fieldPath == path && state !in path.Repr
    ensures state.map_ == old(state.map_) && state.isVisitingArray == old(state.isVisitingArray)
    ensures err.Some? ==> state.odm == old(state.odm)
    ensures var r := Decode(rt, old(state.map_), v, old(path.keys) + [key]);
            if err.None? then
              && path.keys == old(path.keys)
              && r.Ok? && state.zchild == Store(old(state.zchild), key, r.value, old(state.isVisitingArray))
              && state.odm == (if OdmOf(rt, key, v).Some? then OdmOf(rt, key, v) else old(state.odm))
            else r == Err(err.value)
    decreases v
  {
    err := None;
    if IsCompound(v) {
      var value: Php;
      if v.Document? {
        value, err := VisitDocument(rt, state, path, key, v.fields);
      } else {
        value, err := VisitArray(rt, state, path, key, v.elements);
      }
      if err.None? {
        state.zchild := Store(state.zchild, key, value, state.isVisitingArray);
      }
      return;
    }
    if v.Unsupported? {
      err := VisitUnsupportedType(path, key, v.typeCode);
      return;
    }
    if v.CodeWithScope? {
      err := VisitScope(rt, v.scope);
      if err.Some? {
        return;
      }
    }
    VisitLeaf(rt, state, path, key, v);
  }

  /** The visitors of single values. */
  method VisitLeaf(rt: Runtime, state: BsonState, path: FieldPath, key: cstring, v: Bson)
    requires state.fieldPath == path && path.Valid() && state !in path.Repr
    requires !IsCompound(v) && !v.Unsupported?
    modifies state, path.Repr
    ensures path.Valid() && fresh(path.Repr - old(path.Repr)) && path.refCount == old(path.refCount)
    ensures state.fieldPath == path && state !in path.Repr && path.keys == old(path.keys)
    ensures state.map_ == old(state.map_) && state.isVisitingArray == old(state.isVisitingArray)
    ensures state.zchild == Store(old(state.zchild), key, LeafValue(v), old(state.isVisitingArray))
    ensures state.odm == if OdmOf(rt, key, v).Some? then OdmOf(rt, key, v) else old(state.odm)
  {
    if OdmOf(rt, key, v).Some? {
      state.odm := OdmOf(rt, key, v);
    }
    state.zchild := Store(state.zchild, key, LeafValue(v), state.isVisitingArray);
    path.WriteItemAtCurrentLevel(key);
  }

  /** Reports an element of a type the driver does not know, naming its path. */
  method VisitUnsupportedType(path: FieldPath, key: cstring, typeCode: nat) returns (err: Option<DecodeError>)
    requires path.Valid()
    modifies path.Repr
    ensures path.Valid() && fresh(path.Repr - old(path.Repr)) && path.refCount == old(path.refCount)
    ensures err == Some(UnsupportedType(typeCode, Join(old(path.keys) + [key])))
  {
    path.WriteItemAtCurrentLevel(key);
    PresentOfSet(path.elements[..path.size + 1], path.keys + [key]);
    var text := path.AsString();
    err := Some(UnsupportedType(typeCode, text));
  }

  /** Visits the elements of a document or array, front to back, until one fails. */
  method VisitAll(rt: Runtime, state: BsonState, path: FieldPath, fields: seq<Field>) returns (err: Option<DecodeError>)
    requires state.fieldPath == path && path.Valid() && path.refCount > 0 && state !in path.Repr
    requires state.zchild == []
    modifies state, path.Repr
    ensures path.Valid() && fresh(path.Repr - old(path.Repr)) && path.refCount == old(path.refCount)
    ensures state.fieldPath == path && state !in path.Repr
    ensures state.map_ == old(state.map_) && state.isVisitingArray == old(state.isVisitingArray)
    ensures state.odm == OdmAfter(rt, old(state.map_), fields, old(path.keys), old(state.odm))
    ensures var r := DecodeAll(rt, old(state.map_), fields, old(path.keys), old(state.isVisitingArray));
            if err.None? then
              && path.keys == old(path.keys)
              && r == Ok(state.zchild)
              && state.odm == (if OdmClass(rt, fields).Some? then OdmClass(rt, fields) else old(state.odm))
            else r == Err(err.value)
    decreases fields, 0
  {
    hide Decode, Store, OdmOf, DecodedBefore;
    ghost var m, keys, isArray := state.map_, path.keys, state.isVisitingArray;
    var i := 0;
    assert fields[..0] == [];
    while i < |fields|
      invariant 0 <= i <= |fields|
      invariant path.Valid() && fresh(path.Repr - old(path.Repr)) && path.refCount == old(path.refCount)
      invariant state.fieldPath == path && state !in path.Repr
      invariant state.map_ == m && state.isVisitingArray == isArray && path.keys == keys
      invariant DecodeAll(rt, m, fields[..i], keys, isArray) == Ok(state.zchild)
      invariant state.odm == (if OdmClass(rt, fields[..i]).Some? then OdmClass(rt, fields[..i]) else old(state.odm))
    {
      assert Front(fields[..i + 1]) == fields[..i] && Last(fields[..i + 1]) == fields[i];
      assert (fields decreases to fields[i].value) by {
        assert (fields decreases to fields[i]);
      }
      err := VisitElement(rt, state, path, fields[i].key, fields[i].value);
      if err.Some? {
        DecodeAllFails(rt, m, fields, keys, isArray, i + 1);
        DecodedBeforeIs(rt, m, fields, keys, isArray, i);
        return;
      }
      i := i + 1;
    }
    assert fields[..i] == fields;
    DecodedBeforeAll(rt, m, fields, keys, isArray);
    err := None;
  }

  lemma {:induction false} DecodedBeforeIs(rt: Runtime, m: TypeMap, fields: seq<Field>, path: seq<cstring>, isArray: bool, i: nat)
    requires i < |fields| && DecodeAll(rt, m, fields[..i], path, isArray).Ok?
    requires Decode(rt, m, fields[i].value, path + [fields[i].key]).Err?
    ensures DecodedBefore(rt, m, fields, path) == i
    decreases |fields|
  {
    if i < |fields| - 1 {
      assert Front(fields)[..i] == fields[..i];
      DecodedBeforeIs(rt, m, Front(fields), path, isArray, i);
    } else {
      DecodedBeforeAll(rt, m, Front(fields), path, isArray);
    }
  }

  /** The first error stops the decoding. */
  lemma {:induction false} DecodeAllFails(rt: Runtime, m: TypeMap, fields: seq<Field>, path: seq<cstring>,
                                          isArray: bool, n: nat)
    requires n <= |fields| && DecodeAll(rt, m, fields[..n], path, isArray).Err?
    ensures DecodeAll(rt, m, fields, path, isArray) == DecodeAll(rt, m, fields[..n], path, isArray)
  {
    if n < |fields| {
      assert Front(fields)[..n] == fields[..n];
      DecodeAllFails(rt, m, Front(fields), path, isArray, n);
    } else {
      assert fields[..n] == fields;
    }
  }

  method VisitDocument(rt: Runtime, parent: BsonState, path: FieldPath, key: cstring, fields: seq<Field>)
    returns (value: Php, err: Option<DecodeError>)
    requires parent.fieldPath == path && path.Valid() && path.refCount > 0 && parent !in path.Repr
    modifies path.Repr
    ensures path.Valid() && fresh(path.Repr - old(path.Repr)) && path.refCount == old(path.refCount)
    ensures var r := Decode(rt, parent.map_, Document(fields), old(path.keys) + [key]);
            if err.None? then path.keys == old(path.keys) && r == Ok(value) else r == Err(err.value)
    decreases fields, 1
  {
    hide DecodeAll, OdmClass, OdmAfter, KindAt;
    value := PhpNull;
    path.Push(key, ItemDocument);
    ghost var keys := path.keys;
    var state := new BsonState.Copy(parent, false);
    err := VisitAll(rt, state, path, fields);
    if err.Some? {
      state.Dtor();
      return;
    }
    var kind := HandleFieldPathEntryForCompoundType(state.map_, path, state.map_.documentType);
    if state.odm.Some? && kind == Unset {
      kind := Class(state.odm.value);
    }
    match kind {
      case NativeArray =>
        value := PhpArray(state.zchild);
      case Class(name) =>
        value := Instance(if state.odm.Some? then state.odm.value else name, PhpArray(state.zchild));
      case _ =>
        value := PhpObject(ToProps(state.zchild));
    }
    state.Dtor();
    path.Pop();
    assert keys[..|keys| - 1] == old(path.keys);
  }

  method VisitArray(rt: Runtime, parent: BsonState, path: FieldPath, key: cstring, elements: seq<Field>)
    returns (value: Php, err: Option<DecodeError>)
    requires parent.fieldPath == path && path.Valid() && path.refCount > 0 && parent !in path.Repr
    modifies path.Repr
    ensures path.Valid() && fresh(path.Repr - old(path.Repr)) && path.refCount == old(path.refCount)
    ensures var r := Decode(rt, parent.map_, Array(elements), old(path.keys) + [key]);
            if err.None? then path.keys == old(path.keys) && r == Ok(value) else r == Err(err.value)
    decreases elements, 1
  {
    hide DecodeAll, OdmClass, OdmAfter, KindAt;
    value := PhpNull;
    path.Push(key, ItemArray);
    ghost var keys := path.keys;
    var state := new BsonState.Copy(parent, true);
    err := VisitAll(rt, state, path, elements);
    if err.Some? {
      state.Dtor();
      return;
    }
    var kind := HandleFieldPathEntryForCompoundType(state.map_, path, state.map_.arrayType);
    match kind {
      case Class(name) =>
        value := Instance(name, PhpArray(state.zchild));
      case NativeObject =>
        value := PhpObject(ToProps(state.zchild));
      case _ =>
        value := PhpArray(state.zchild);
    }
    state.Dtor();
    path.Pop();
    assert keys[..|keys| - 1] == old(path.keys);
  }

  /** A code scope is decoded on its own, only to check it. */
  method VisitScope(rt: Runtime, scope: seq<Field>) returns (err: Option<DecodeError>)
    ensures var r := DecodeAll(rt, DEFAULT_MAP, scope, [], false);
            if err.None? then r.Ok? else r == Err(err.value)
    decreases scope, 2
  {
    var state := new BsonState(DEFAULT_MAP);
    var r := BsonToZvalEx(rt, state, scope);
    err := if r.Ok? then None else Some(r.error);
  }

  /** php_phongo_bson_to_zval_ex(): decodes a document into a state that the
      caller keeps. A class found before, in another document, is still there. */
  method BsonToZvalEx(rt: Runtime, state: BsonState, fields: seq<Field>) returns (r: Result<Php, DecodeError>)
    requires state.fieldPath == null && !state.isVisitingArray
    modifies state
    ensures state.fieldPath == null && !state.isVisitingArray
    ensures state.odm == OdmAfter(rt, old(state.map_), fields, [], old(state.odm))
    ensures var odm := if OdmClass(rt, fields).Some? then OdmClass(rt, fields) else old(state.odm);
            match DecodeAll(rt, old(state.map_), fields, [], false)
            case Err(e) => r == Err(e) && state.map_ == old(state.map_)
            case Ok(entries) =>
              && r == Ok(DocumentValue(old(state.map_.rootType), odm, entries))
              && state.odm == odm
              && state.map_ == old(state.map_).(rootType := state.map_.rootType)
              && state.map_.rootType == (if old(state.map_.rootType) == Unset && odm.Some? then Class(odm.value) else old(state.map_.rootType))
    decreases fields, 1
  {
    var path := new FieldPath();
    state.fieldPath := path;
    state.zchild := [];
    var err := VisitAll(rt, state, path, fields);
    if err.Some? {
      state.Dtor();
      return Err(err.value);
    }
    if state.odm.Some? && state.map_.rootType == Unset {
      state.map_ := state.map_.(rootType := Class(state.odm.value));
    }
    var value: Php;
    match state.map_.rootType {
      case NativeArray =>
        value := PhpArray(state.zchild);
      case Class(name) =>
        value := Instance(if state.odm.Some? then state.odm.value else name, PhpArray(state.zchild));
      case _ =>
        value := PhpObject(ToProps(state.zchild));
    }
    state.Dtor();
    r := Ok(value);
  }
}
