/**
 Decoding and encoding again. The round trip does not return every document as
 it was, but as its canonical form.
 */
module RoundTrip {
  import opened Keys
  import opened Values
  import opened TypeMaps
  import opened Decoder
  import opened TreeEncoder

  /** The canonical form: array keys renumbered, 64-bit integers narrowed where
      32 bits suffice, regular expression options sorted, and of fields with the
      same key the last value in the first one's place. Code scopes are opaque
      to the codec. */
  function Canon(v: Bson): Bson
    decreases v
  {
    match v
    case Document(fields) => Document(CanonFields(fields))
    case Array(elements) => Array(CanonElements(elements))
    case Int64(i) => IntegerBson(i)
    case Regex(pattern, options) => Regex(pattern, SortedOptions(options))
    case _ => v
  }

  function CanonFields(fields: seq<Field>): (r: seq<Field>)
    decreases fields
  {
    if |fields| == 0 then []
    else
      var last := Last(fields);
      Put(CanonFields(Front(fields)), last.key, Canon(last.value))
  }

  function CanonElements(elements: seq<Field>): (r: seq<Field>)
    ensures |r| == |elements|
    decreases elements
  {
    if |elements| == 0 then []
    else
      var last := Last(elements);
      CanonElements(Front(elements)) + [Entry(Dec(|elements| - 1), Canon(last.value))]
  }

  // ----- The documents the round trip is about -----

  /** What a round trip needs: known element types, valid text, and no field that
      names a Persistable class. */
  predicate Plain(rt: Runtime, v: Bson)
    decreases v
  {
    match v
    case Document(fields) => OdmClass(rt, fields) == None && AllPlain(rt, fields)
    case Array(elements) => AllPlain(rt, elements)
    case Utf8(text) => rt.validUtf8(text)
    case CodeWithScope(code, scope) => DecodeAll(rt, DEFAULT_MAP, scope, [], false).Ok?
    case Unsupported(typeCode) => false
    case _ => true
  }

  predicate AllPlain(rt: Runtime, fields: seq<Field>)
    decreases fields
  {
    |fields| == 0 || (AllPlain(rt, Front(fields)) && Plain(rt, Last(fields).value))
  }

  /** No document has more fields than a 64-bit index can count. (BSON's 32-bit
      document length implies much less.) */
  predicate Sized(v: Bson)
    decreases v
  {
    match v
    case Document(fields) => |fields| <= INT64_MAX && AllSized(fields)
    case Array(elements) => |elements| <= INT64_MAX && AllSized(elements)
    case _ => true
  }

  predicate AllSized(fields: seq<Field>)
    decreases fields
  {
    |fields| == 0 || (AllSized(Front(fields)) && Sized(Last(fields).value))
  }

  // ----- Type maps that use native types only -----

  const ARRAY_MAP := TypeMap(NativeArray, NativeArray, Unset, [])

  /** No class names; field paths are welcome. */
  predicate Native(m: TypeMap) {
    && !m.rootType.Class? && !m.documentType.Class? && !m.arrayType.Class?
    && forall i :: 0 <= i < |m.fieldPaths| ==> !m.fieldPaths[i].kind.Class?
  }

  /** Some documents may become PHP arrays. */
  predicate UsesArrays(m: TypeMap) {
    m.documentType == NativeArray || exists i :: 0 <= i < |m.fieldPaths| && m.fieldPaths[i].kind == NativeArray
  }

  lemma {:induction false} OverrideIsOneOfThem(entries: seq<PathEntry>, path: seq<cstring>)
    ensures Override(entries, path) == Unset || exists i :: 0 <= i < |entries| && entries[i].kind == Override(entries, path)
  {
    if |entries| > 0 && !Matches(entries[0].segments, path) {
      OverrideIsOneOfThem(entries[1..], path);
      if i :| 0 <= i < |entries[1..]| && entries[1..][i].kind == Override(entries[1..], path) {
        assert entries[i + 1].kind == Override(entries, path);
      }
    }
  }

  /** Keys "0", "1", ... in order: what makes a document look like an array once
      it is a PHP array. */
  predicate ListKeys(fields: seq<Field>) {
    forall i :: 0 <= i < |fields| ==> fields[i].key == Dec(i)
  }

  // ----- What a round trip makes of a value -----

  /** The canonical form, except that documents decoded as PHP arrays come back as
      arrays if they have list keys, and arrays decoded as objects come back as
      documents. */
  function Reencode(m: TypeMap, v: Bson, path: seq<cstring>): Bson
    decreases v
  {
    match v
    case Document(fields) =>
      var r := ReencodeFields(m, fields, path);
      if KindAt(m.fieldPaths, path, m.documentType) == NativeArray && ListKeys(r) then Array(r) else Document(r)
    case Array(elements) =>
      var r := ReencodeElements(m, elements, path);
      if KindAt(m.fieldPaths, path, m.arrayType) == NativeObject then Document(r) else Array(r)
    case _ => Canon(v)
  }

  function ReencodeFields(m: TypeMap, fields: seq<Field>, path: seq<cstring>): (r: seq<Field>)
    decreases fields
  {
    if |fields| == 0 then []
    else
      var last := Last(fields);
      Put(ReencodeFields(m, Front(fields), path), last.key, Reencode(m, last.value, path + [last.key]))
  }

  function ReencodeElements(m: TypeMap, elements: seq<Field>, path: seq<cstring>): (r: seq<Field>)
    ensures |r| == |elements|
    decreases elements
  {
    if |elements| == 0 then []
    else
      var last := Last(elements);
      ReencodeElements(m, Front(elements), path)
      + [Entry(Dec(|elements| - 1), Reencode(m, last.value, path + [last.key]))]
  }

  // ----- The round trip of embedded values -----

  lemma {:induction false} LeafRoundTrip(rt: Runtime, v: Bson)
    requires Plain(rt, v) && !IsCompound(v)
    ensures Encode(rt, LeafValue(v)) == Some(Canon(v))
  {
  }

  /** With any map of native types, field paths included. */
  lemma {:induction false} ValueRoundTrip(rt: Runtime, m: TypeMap, v: Bson, path: seq<cstring>)
    requires Native(m) && Plain(rt, v) && (UsesArrays(m) ==> Sized(v))
    ensures Decode(rt, m, v, path).Ok?
    ensures Encode(rt, Decode(rt, m, v, path).value) == Some(Reencode(m, v, path))
    decreases v, 1
  {
    hide Native, UsesArrays, Override, DecodeAll, EncodeAll, ReencodeFields, ReencodeElements;
    if v.Document? {
      FieldsRoundTrip(rt, m, v.fields, path);
      NativeKindAt(m, path, m.documentType);
      DocumentRoundTrip(rt, KindAt(m.fieldPaths, path, m.documentType),
                        DecodeAll(rt, m, v.fields, path, false).value, ReencodeFields(m, v.fields, path));
    } else if v.Array? {
      ElementsRoundTrip(rt, m, v.elements, path);
      NativeKindAt(m, path, m.arrayType);
      PropsEncodeAlike(rt, DecodeAll(rt, m, v.elements, path, true).value, ReencodeElements(m, v.elements, path));
    } else {
      LeafRoundTrip(rt, v);
    }
  }

  lemma NativeKindAt(m: TypeMap, path: seq<cstring>, default: TypeKind)
    requires Native(m) && (default == m.documentType || default == m.arrayType)
    ensures !KindAt(m.fieldPaths, path, default).Class?
    ensures KindAt(m.fieldPaths, path, m.documentType) == NativeArray ==> UsesArrays(m)
  {
    OverrideIsOneOfThem(m.fieldPaths, path);
  }

  /** From the entries of a document to the document. */
  lemma DocumentRoundTrip(rt: Runtime, kind: TypeKind, entries: seq<Bucket>, fields: seq<Field>)
    requires !kind.Class? && Filed(entries) && (kind == NativeArray ==> |entries| <= INT64_MAX)
    requires EncodeAll(rt, entries, false, false) == Some(fields)
    ensures Encode(rt, DocumentValue(kind, None, entries))
            == Some(if kind == NativeArray && ListKeys(fields) then Array(fields) else Document(fields))
  {
    EncodeAllKeys(rt, entries);
    if kind == NativeArray {
      ListnessOfKeys(entries, fields);
    } else {
      PropsEncodeAlike(rt, entries, fields);
    }
  }

  lemma PropsEncodeAlike(rt: Runtime, entries: seq<Bucket>, fields: seq<Field>)
    requires EncodeAll(rt, entries, false, false) == Some(fields)
    ensures EncodeAll(rt, ToProps(entries), true, false) == Some(fields)
  {
    EncodeAllKeys(rt, entries);
    forall i | 0 <= i < |entries| ensures !IsMangled(StrKey(KeyString(entries[i].key))) {
      assert KeyString(entries[i].key) == fields[i].key;
    }
    EncodeAllSameKeys(rt, entries, ToProps(entries));
  }

  lemma ListnessOfKeys(entries: seq<Bucket>, fields: seq<Field>)
    requires |entries| == |fields| <= INT64_MAX && Filed(entries)
    requires forall i :: 0 <= i < |entries| ==> KeyString(entries[i].key) == fields[i].key
    ensures IsList(entries) <==> ListKeys(fields)
  {
    forall i | 0 <= i < |entries| ensures entries[i].key == IntKey(i) <==> fields[i].key == Dec(i) {
      KeyOfDecInt(i);
    }
  }

  lemma {:induction false} FieldsRoundTrip(rt: Runtime, m: TypeMap, fields: seq<Field>, path: seq<cstring>)
    requires Native(m) && AllPlain(rt, fields) && (UsesArrays(m) ==> AllSized(fields))
    ensures var r := DecodeAll(rt, m, fields, path, false);
            && r.Ok? && Filed(r.value) && |r.value| <= |fields|
            && EncodeAll(rt, r.value, false, false) == Some(ReencodeFields(m, fields, path))
    decreases fields, 0
  {
    if |fields| > 0 {
      hide Native, UsesArrays, Decode, Encode, EncodeAll, Reencode;
      var last := Last(fields);
      FieldsRoundTrip(rt, m, Front(fields), path);
      ValueRoundTrip(rt, m, last.value, path + [last.key]);
      var front := DecodeAll(rt, m, Front(fields), path, false).value;
      var value := Decode(rt, m, last.value, path + [last.key]).value;
      FiledPut(front, last.key, value);
      EncodeAllPut(rt, front, last.key, value);
    } else {
      assert ReencodeFields(m, fields, path) == [];
    }
  }

  lemma {:induction false} ElementsRoundTrip(rt: Runtime, m: TypeMap, elements: seq<Field>, path: seq<cstring>)
    requires Native(m) && AllPlain(rt, elements) && (UsesArrays(m) ==> AllSized(elements))
    ensures var r := DecodeAll(rt, m, elements, path, true);
            && r.Ok? && IsList(r.value) && |r.value| == |elements|
            && EncodeAll(rt, r.value, false, false) == Some(ReencodeElements(m, elements, path))
    decreases elements, 0
  {
    if |elements| > 0 {
      hide Native, UsesArrays, Decode, Encode, EncodeAll, Reencode;
      var last := Last(elements);
      ElementsRoundTrip(rt, m, Front(elements), path);
      ValueRoundTrip(rt, m, last.value, path + [last.key]);
      var front := DecodeAll(rt, m, Front(elements), path, true).value;
      var value := Decode(rt, m, last.value, path + [last.key]).value;
      EncodeAllAppend(rt, front, Entry(IntKey(|front|), value), false);
    }
  }

  // ----- The main results -----

  /** Whole documents, with any map of native types. */
  lemma RootRoundTrip(rt: Runtime, m: TypeMap, fields: seq<Field>)
    requires Native(m) && Plain(rt, Document(fields)) && (UsesArrays(m) ==> Sized(Document(fields)))
    ensures DecodeRoot(rt, m, fields).Ok?
    ensures EncodeRoot(rt, DecodeRoot(rt, m, fields).value) == Some(ReencodeFields(m, fields, []))
  {
    FieldsRoundTrip(rt, m, fields, []);
    PropsEncodeAlike(rt, DecodeAll(rt, m, fields, [], false).value, ReencodeFields(m, fields, []));
  }

  /** What becomes of a canonical value with a map that has no field paths. */
  function Reshape(m: TypeMap, v: Bson): Bson
    decreases v
  {
    match v
    case Document(fields) =>
      if m.documentType == NativeArray && ListKeys(fields) then Array(ReshapeAll(m, fields))
      else Document(ReshapeAll(m, fields))
    case Array(elements) =>
      if m.arrayType == NativeObject then Document(ReshapeAll(m, elements)) else Array(ReshapeAll(m, elements))
    case _ => v
  }

  function ReshapeAll(m: TypeMap, fields: seq<Field>): (r: seq<Field>)
    ensures |r| == |fields|
    ensures forall i :: 0 <= i < |fields| ==> r[i].key == fields[i].key
    decreases fields
  {
    if |fields| == 0 then []
    else
      assert (fields decreases to fields[0].value) by { assert (fields decreases to fields[0]); }
      [Entry(fields[0].key, Reshape(m, fields[0].value))] + ReshapeAll(m, fields[1..])
  }

  lemma {:induction false} ReshapeAllPut(m: TypeMap, fields: seq<Field>, key: cstring, v: Bson)
    ensures ReshapeAll(m, Put(fields, key, v)) == Put(ReshapeAll(m, fields), key, Reshape(m, v))
  {
    if |fields| == 0 {
      assert [Entry(key, v)][1..] == [];
      assert ReshapeAll(m, [Entry(key, v)][1..]) == [];
    } else {
      var f := Entry(fields[0].key, Reshape(m, fields[0].value));
      assert ReshapeAll(m, fields) == [f] + ReshapeAll(m, fields[1..]);
      assert ReshapeAll(m, fields)[1..] == ReshapeAll(m, fields[1..]);
      if fields[0].key == key {
        assert ([Entry(key, v)] + fields[1..])[1..] == fields[1..];
      } else {
        ReshapeAllPut(m, fields[1..], key, v);
        var r := Put(fields[1..], key, v);
        assert ([fields[0]] + r)[1..] == r;
      }
    }
  }

  lemma {:induction false} ReshapeAllAppend(m: TypeMap, a: seq<Field>, e: Field)
    ensures ReshapeAll(m, a + [e]) == ReshapeAll(m, a) + [Entry(e.key, Reshape(m, e.value))]
  {
    if |a| == 0 {
      assert a + [e] == [e] && [e][1..] == [];
      assert ReshapeAll(m, [e][1..]) == [];
    } else {
      assert (a + [e])[1..] == a[1..] + [e];
      ReshapeAllAppend(m, a[1..], e);
    }
  }

  /** Without field paths, a round trip is canonicalising and then reshaping. */
  lemma {:induction false} ReencodeReshapes(m: TypeMap, v: Bson, path: seq<cstring>)
    requires m.fieldPaths == []
    ensures Reencode(m, v, path) == Reshape(m, Canon(v))
    decreases v, 1
  {
    if v.Document? {
      FieldsReshape(m, v.fields, path);
    } else if v.Array? {
      ElementsReshape(m, v.elements, path);
    }
  }

  lemma {:induction false} FieldsReshape(m: TypeMap, fields: seq<Field>, path: seq<cstring>)
    requires m.fieldPaths == []
    ensures ReencodeFields(m, fields, path) == ReshapeAll(m, CanonFields(fields))
    decreases fields, 0
  {
    if |fields| > 0 {
      var last := Last(fields);
      FieldsReshape(m, Front(fields), path);
      ReencodeReshapes(m, last.value, path + [last.key]);
      ReshapeAllPut(m, CanonFields(Front(fields)), last.key, Canon(last.value));
    }
  }

  lemma {:induction false} ElementsReshape(m: TypeMap, elements: seq<Field>, path: seq<cstring>)
    requires m.fieldPaths == []
    ensures ReencodeElements(m, elements, path) == ReshapeAll(m, CanonElements(elements))
    decreases elements, 0
  {
    if |elements| > 0 {
      var last := Last(elements);
      ElementsReshape(m, Front(elements), path);
      ReencodeReshapes(m, last.value, path + [last.key]);
      ReshapeAllAppend(m, CanonElements(Front(elements)), Entry(Dec(|elements| - 1), Canon(last.value)));
    }
  }

  /** Nothing in a canonical value changes its shape: no document with list keys,
      the empty one included, if documents become PHP arrays, and no array if
      arrays become objects. */
  predicate KeepsShape(m: TypeMap, v: Bson)
    decreases v
  {
    match v
    case Document(fields) => (m.documentType == NativeArray ==> !ListKeys(fields)) && AllKeepShape(m, fields)
    case Array(elements) => m.arrayType != NativeObject && AllKeepShape(m, elements)
    case _ => true
  }

  predicate AllKeepShape(m: TypeMap, fields: seq<Field>)
    decreases fields
  {
    |fields| == 0 ||
    (assert (fields decreases to fields[0].value) by { assert (fields decreases to fields[0]); }
     KeepsShape(m, fields[0].value) && AllKeepShape(m, fields[1..]))
  }

  lemma {:induction false} ReshapeChanges(m: TypeMap, v: Bson)
    ensures Reshape(m, v) == v <==> KeepsShape(m, v)
    decreases v, 1
  {
    match v {
      case Document(fields) => ReshapeAllChanges(m, fields);
      case Array(elements) => ReshapeAllChanges(m, elements);
      case _ =>
    }
  }

  lemma {:induction false} ReshapeAllChanges(m: TypeMap, fields: seq<Field>)
    ensures ReshapeAll(m, fields) == fields <==> AllKeepShape(m, fields)
    decreases fields, 0
  {
    if |fields| > 0 {
      assert (fields decreases to fields[0].value) by { assert (fields decreases to fields[0]); }
      ReshapeChanges(m, fields[0].value);
      ReshapeAllChanges(m, fields[1..]);
      var r := ReshapeAll(m, fields);
      assert r[1..] == ReshapeAll(m, fields[1..]);
      assert fields == [fields[0]] + fields[1..] && r == [r[0]] + r[1..];
    }
  }

  /** With native types for root, documents and arrays, whichever they are, the
      round trip yields the canonical form exactly when that form keeps its
      shape. */
  lemma NativeRoundTrip(rt: Runtime, m: TypeMap, fields: seq<Field>)
    requires Native(m) && m.fieldPaths == []
    requires Plain(rt, Document(fields)) && (UsesArrays(m) ==> Sized(Document(fields)))
    ensures DecodeRoot(rt, m, fields).Ok?
    ensures EncodeRoot(rt, DecodeRoot(rt, m, fields).value) == Some(CanonFields(fields))
            <==> AllKeepShape(m, CanonFields(fields))
  {
    RootRoundTrip(rt, m, fields);
    FieldsReshape(m, fields, []);
    ReshapeAllChanges(m, CanonFields(fields));
  }

  lemma {:induction false} ShapeIsKept(m: TypeMap, v: Bson)
    requires m.documentType != NativeArray && m.arrayType != NativeObject
    ensures KeepsShape(m, v)
    decreases v, 1
  {
    match v {
      case Document(fields) => AllShapesAreKept(m, fields);
      case Array(elements) => AllShapesAreKept(m, elements);
      case _ =>
    }
  }

  lemma {:induction false} AllShapesAreKept(m: TypeMap, fields: seq<Field>)
    requires m.documentType != NativeArray && m.arrayType != NativeObject
    ensures AllKeepShape(m, fields)
    decreases fields, 0
  {
    if |fields| > 0 {
      assert (fields decreases to fields[0].value) by { assert (fields decreases to fields[0]); }
      ShapeIsKept(m, fields[0].value);
      AllShapesAreKept(m, fields[1..]);
    }
  }

  /** With the default type map, or with root and documents decoded as objects,
      encoding what was decoded yields the canonical form, for every document. */
  lemma DefaultRoundTrip(rt: Runtime, m: TypeMap, fields: seq<Field>)
    requires Native(m) && m.fieldPaths == [] && m.documentType != NativeArray && m.arrayType != NativeObject
    requires Plain(rt, Document(fields))
    ensures DecodeRoot(rt, m, fields).Ok?
    ensures EncodeRoot(rt, DecodeRoot(rt, m, fields).value) == Some(CanonFields(fields))
  {
    NativeRoundTrip(rt, m, fields);
    AllShapesAreKept(m, CanonFields(fields));
  }

  /** No document in the value has list keys, the empty document included. */
  predicate NoListDocuments(v: Bson) {
    KeepsShape(ARRAY_MAP, v)
  }

  predicate NoListDocumentsIn(fields: seq<Field>) {
    AllKeepShape(ARRAY_MAP, fields)
  }

  /** With root and documents decoded as PHP arrays, the round trip still yields
      the canonical form exactly when that form embeds no document with list
      keys. */
  lemma ArrayRoundTrip(rt: Runtime, fields: seq<Field>)
    requires Plain(rt, Document(fields)) && Sized(Document(fields))
    ensures DecodeRoot(rt, ARRAY_MAP, fields).Ok?
    ensures EncodeRoot(rt, DecodeRoot(rt, ARRAY_MAP, fields).value) == Some(CanonFields(fields))
            <==> NoListDocumentsIn(CanonFields(fields))
  {
    NativeRoundTrip(rt, ARRAY_MAP, fields);
  }

  /** An array decoded as an object comes back as a document with keys "0", "1",
      ..., around canonical elements if these keep their shape. */
  lemma ObjectArrayRoundTrip(rt: Runtime, m: TypeMap, elements: seq<Field>, path: seq<cstring>)
    requires Native(m) && m.fieldPaths == [] && m.documentType != NativeArray && m.arrayType == NativeObject
    requires Plain(rt, Array(elements)) && AllKeepShape(m, CanonElements(elements))
    ensures Decode(rt, m, Array(elements), path).Ok? && Decode(rt, m, Array(elements), path).value.PhpObject?
    ensures Encode(rt, Decode(rt, m, Array(elements), path).value) == Some(Document(CanonElements(elements)))
  {
    ValueRoundTrip(rt, m, Array(elements), path);
    ReencodeReshapes(m, Array(elements), path);
    ReshapeAllChanges(m, CanonElements(elements));
  }

  // ----- The canonical form -----

  /** On distinct keys, the canonical form keeps fields, order and keys. */
  lemma {:induction false} CanonKeepsFields(fields: seq<Field>)
    requires DistinctKeys(fields)
    ensures |CanonFields(fields)| == |fields|
    ensures forall i :: 0 <= i < |fields| ==> CanonFields(fields)[i] == Entry(fields[i].key, Canon(fields[i].value))
  {
    if |fields| > 0 {
      var front, last := Front(fields), Last(fields);
      CanonKeepsFields(front);
      assert !HasKey(CanonFields(front), last.key);
      PutFresh(CanonFields(front), last.key, Canon(last.value));
    }
  }

  predicate AllCanonical(fields: seq<Field>) {
    forall i :: 0 <= i < |fields| ==> Canon(fields[i].value) == fields[i].value
  }

  lemma {:induction false} CanonicalPut(fields: seq<Field>, key: cstring, v: Bson)
    requires AllCanonical(fields) && DistinctKeys(fields) && Canon(v) == v
    ensures AllCanonical(Put(fields, key, v)) && DistinctKeys(Put(fields, key, v))
  {
    PutUpdates(fields, key, v);
    var r := Put(fields, key, v);
    forall i | 0 <= i < |r| ensures Canon(r[i].value) == r[i].value {
      assert r[i] in r;
      if r[i].key != key {
        assert r[i] in fields;
      } else {
        var j :| 0 <= j < |r| && r[j] == Entry(key, v);
        assert i == j;
      }
    }
  }

  lemma {:induction false} OptionsInIsFilter(known: string, options: string)
    ensures forall c :: c in OptionsIn(known, options) <==> c in known && c in options
  {
    if |known| > 0 {
      OptionsInIsFilter(known[1..], options);
      assert known == [known[0]] + known[1..];
    }
  }

  lemma {:induction false} OptionsInDependsOnKnown(known: string, a: string, b: string)
    requires forall c :: c in known ==> (c in a <==> c in b)
    ensures OptionsIn(known, a) == OptionsIn(known, b)
  {
    if |known| > 0 {
      assert known[0] in known;
      OptionsInDependsOnKnown(known[1..], a, b);
    }
  }

  lemma SortedOptionsIdempotent(options: string)
    ensures SortedOptions(SortedOptions(options)) == SortedOptions(options)
  {
    OptionsInIsFilter(REGEX_OPTIONS, options);
    OptionsInDependsOnKnown(REGEX_OPTIONS, SortedOptions(options), options);
  }

  lemma {:induction false} CanonFieldsCanonical(fields: seq<Field>)
    ensures AllCanonical(CanonFields(fields)) && DistinctKeys(CanonFields(fields))
    decreases fields, 0
  {
    if |fields| > 0 {
      CanonFieldsCanonical(Front(fields));
      CanonIdempotent(Last(fields).value);
      CanonicalPut(CanonFields(Front(fields)), Last(fields).key, Canon(Last(fields).value));
    }
  }

  lemma {:induction false} CanonElementsIdempotent(elements: seq<Field>)
    ensures CanonElements(CanonElements(elements)) == CanonElements(elements)
    decreases elements, 0
  {
    if |elements| > 0 {
      CanonElementsIdempotent(Front(elements));
      CanonIdempotent(Last(elements).value);
      var r := CanonElements(elements);
      assert Front(r) == CanonElements(Front(elements));
    }
  }

  /** A second round trip changes nothing. */
  lemma {:induction false} CanonIdempotent(v: Bson)
    ensures Canon(Canon(v)) == Canon(v)
    decreases v, 1
  {
    match v {
      case Document(fields) =>
        CanonFieldsCanonical(fields);
        CanonKeepsFields(CanonFields(fields));
        assert CanonFields(CanonFields(fields)) == CanonFields(fields);
      case Array(elements) => CanonElementsIdempotent(elements);
      case Regex(pattern, options) => SortedOptionsIdempotent(options);
      case _ =>
    }
  }

  // ----- The condition of the array round trip, on the input -----

  /** No document, at any depth, has two fields with the same key. */
  predicate DistinctThroughout(v: Bson)
    decreases v
  {
    match v
    case Document(fields) => DistinctKeys(fields) && AllDistinctThroughout(fields)
    case Array(elements) => AllDistinctThroughout(elements)
    case _ => true
  }

  predicate AllDistinctThroughout(fields: seq<Field>)
    decreases fields
  {
    |fields| == 0 || (AllDistinctThroughout(Front(fields)) && DistinctThroughout(Last(fields).value))
  }

  lemma {:induction false} NoListDocumentsAppend(a: seq<Field>, e: Field)
    ensures NoListDocumentsIn(a + [e]) <==> NoListDocumentsIn(a) && NoListDocuments(e.value)
  {
    if |a| == 0 {
      assert a + [e] == [e] && [e][1..] == [];
      assert NoListDocumentsIn([e][1..]);
    } else {
      assert (a + [e])[1..] == a[1..] + [e];
      NoListDocumentsAppend(a[1..], e);
    }
  }

  lemma {:induction false} CanonKeepsListDocuments(v: Bson)
    requires DistinctThroughout(v)
    ensures NoListDocuments(Canon(v)) <==> NoListDocuments(v)
    decreases v, 1
  {
    match v {
      case Document(fields) =>
        CanonFieldsKeepListDocuments(fields);
        CanonKeepsFields(fields);
        assert ListKeys(CanonFields(fields)) <==> ListKeys(fields);
      case Array(elements) => CanonElementsKeepListDocuments(elements);
      case _ =>
    }
  }

  /** On distinct keys, the condition of the array round trip can be read off the
      document itself. */
  lemma {:induction false} CanonFieldsKeepListDocuments(fields: seq<Field>)
    requires DistinctKeys(fields) && AllDistinctThroughout(fields)
    ensures NoListDocumentsIn(CanonFields(fields)) <==> NoListDocumentsIn(fields)
    decreases fields, 0
  {
    if |fields| > 0 {
      var front, last := Front(fields), Last(fields);
      CanonFieldsKeepListDocuments(front);
      CanonKeepsListDocuments(last.value);
      CanonKeepsFields(front);
      assert !HasKey(CanonFields(front), last.key);
      PutFresh(CanonFields(front), last.key, Canon(last.value));
      NoListDocumentsAppend(CanonFields(front), Entry(last.key, Canon(last.value)));
      NoListDocumentsAppend(front, last);
      assert fields == front + [last];
    }
  }

  lemma {:induction false} CanonElementsKeepListDocuments(elements: seq<Field>)
    requires AllDistinctThroughout(elements)
    ensures NoListDocumentsIn(CanonElements(elements)) <==> NoListDocumentsIn(elements)
    decreases elements, 0
  {
    if |elements| > 0 {
      var front, last := Front(elements), Last(elements);
      CanonElementsKeepListDocuments(front);
      CanonKeepsListDocuments(last.value);
      NoListDocumentsAppend(CanonElements(front), Entry(Dec(|elements| - 1), Canon(last.value)));
      NoListDocumentsAppend(front, last);
      assert elements == front + [last];
    }
  }
}
