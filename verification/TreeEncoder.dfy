/**
 Encoding finite PHP values as BSON (src/bson-encode.c): what the encoder means
 on values without sharing. `Encoder` treats the general case, a graph of hash
 tables, and reduces to this one on acyclic graphs.
 */
module TreeEncoder {
  import opened Keys
  import opened Values

  /** libbson keeps the regular expression options it knows, alphabetically. */
  const REGEX_OPTIONS := "ilmsux"

  function OptionsIn(known: string, options: string): string {
    if |known| == 0 then ""
    else (if known[0] in options then [known[0]] else "") + OptionsIn(known[1..], options)
  }

  function SortedOptions(options: string): string {
    OptionsIn(REGEX_OPTIONS, options)
  }

  /** BSON_APPEND_INT: 32 bits where they suffice. */
  function IntegerBson(i: int64): Bson {
    if -0x8000_0000 <= i <= 0x7FFF_FFFF then Int32(i) else Int64(i)
  }

  function TypeObjectBson(obj: TypeObject): Bson {
    match obj
    case BinaryObj(data, subtype) => Binary(subtype, data)
    case UndefinedObj => Undefined
    case ObjectIdObj(oid) => ObjectId(oid)
    case UTCDateTimeObj(millis) => DateTime(millis)
    case RegexObj(pattern, flags) => Regex(pattern, SortedOptions(flags))
    case DBPointerObj(ref, id) => DBPointer(ref, id)
    case JavascriptObj(code, scope) => if scope.Some? then CodeWithScope(code, scope.value) else Code(code)
    case SymbolObj(symbol) => Symbol(symbol)
    case TimestampObj(increment, timestamp) => Timestamp(timestamp, increment)
    case Int64Obj(integer) => Int64(integer)
    case Decimal128Obj(decimal) => Decimal128(decimal)
    case MaxKeyObj => MaxKey
    case MinKeyObj => MinKey
  }

  /** Whether the keys are 0, 1, 2, ... in order: a PHP array that becomes a BSON
      array. The empty array is one. */
  predicate IsList<V>(entries: seq<Entry<Key, V>>) {
    forall i :: 0 <= i < |entries| ==> entries[i].key == IntKey(i)
  }

  /** php_phongo_is_array_or_document() on an array's table. */
  method IsArrayOrDocument<V>(entries: seq<Entry<Key, V>>) returns (isArray: bool)
    ensures isArray <==> IsList(entries)
  {
    var idx := 0;
    while idx < |entries|
      invariant 0 <= idx <= |entries|
      invariant forall i :: 0 <= i < idx ==> entries[i].key == IntKey(i)
    {
      if entries[idx].key != IntKey(idx) {
        return false;
      }
      idx := idx + 1;
    }
    isArray := true;
  }

  /** Private and protected properties have mangled names. */
  predicate IsMangled(k: Key) {
    k.StrKey? && |k.name| > 0 && k.name[0] == '\0'
  }

  /** Entries the encoder passes over: mangled properties, and the class field
      that a root Persistable writes itself. */
  predicate IsSkipped(k: Key, fromProps: bool, skipOdm: bool) {
    || (fromProps && IsMangled(k))
    || (skipOdm && k == StrKey(ODM_FIELD_NAME))
  }

  function OdmField(cls: string): Field {
    Entry(ODM_FIELD_NAME, Binary(ODM_SUBTYPE, cls))
  }

  predicate IsSerializable(rt: Runtime, cls: string) {
    rt.serializable(cls) || rt.persistable(cls)
  }

  /** The BSON value of an embedded PHP value; None if encoding it throws. */
  function Encode(rt: Runtime, p: Php): Option<Bson>
    decreases p
  {
    match p
    case PhpNull => Some(Null)
    case PhpBool(b) => Some(Bool(b))
    case PhpLong(i) => Some(IntegerBson(i))
    case PhpDouble(bits) => Some(Double(bits))
    case PhpString(s) => if rt.validUtf8(s) then Some(Utf8(s)) else None
    case PhpArray(entries) =>
      var fields :- EncodeAll(rt, entries, false, false);
      Some(if IsList(entries) then Array(fields) else Document(fields))
    case PhpObject(props) =>
      var fields :- EncodeAll(rt, props, true, false);
      Some(Document(fields))
    case Typed(obj) => Some(TypeObjectBson(obj))
    case Instance(cls, data) => EncodeInstance(rt, cls, data)
    case PhpResource => None
  }

  function EncodeInstance(rt: Runtime, cls: string, data: Php): Option<Bson>
    decreases data, 1
  {
    if !IsSerializable(rt, cls) || !(data.PhpArray? || data.PhpObject?) then None
    else
      var fields :- EncodeAll(rt, if data.PhpArray? then data.entries else data.props, data.PhpObject?, false);
      if rt.persistable(cls) then Some(Document([OdmField(cls)] + fields))
      else if data.PhpArray? && IsList(data.entries) then Some(Array(fields))
      else Some(Document(fields))
  }

  function EncodeAll(rt: Runtime, entries: seq<Bucket>, fromProps: bool, skipOdm: bool): Option<seq<Field>>
    decreases entries, 0
  {
    if |entries| == 0 then Some([])
    else
      var first := First(entries);
      if IsSkipped(first.key, fromProps, skipOdm) then EncodeAll(rt, entries[1..], fromProps, skipOdm)
      else if '\0' in KeyString(first.key) then None
      else
        var value :- Encode(rt, first.value);
        var rest :- EncodeAll(rt, entries[1..], fromProps, skipOdm);
        Some([Entry(KeyString(first.key), value)] + rest)
  }

  function First(entries: seq<Bucket>): (first: Bucket)
    requires |entries| > 0
    ensures first == entries[0]
    ensures (entries decreases to first.value)
  {
    assert (entries decreases to entries[0]);
    entries[0]
  }

  /** A root value. Only here does a Persistable drop a "__pclass" entry of its
      data; the driver's own BSON types cannot be a root. */
  function EncodeRoot(rt: Runtime, p: Php): Option<seq<Field>> {
    match p
    case PhpArray(entries) => EncodeAll(rt, entries, false, false)
    case PhpObject(props) => EncodeAll(rt, props, true, false)
    case Typed(obj) => None
    case PhpResource => None
    case Instance(cls, data) =>
      if !IsSerializable(rt, cls) || !(data.PhpArray? || data.PhpObject?) then None
      else
        var fields :- EncodeAll(rt, if data.PhpArray? then data.entries else data.props, false, rt.persistable(cls));
        Some((if rt.persistable(cls) then [OdmField(cls)] else []) + fields)
    case _ => Some([])
  }

  /** An object of a Serializable class encodes as the data that it returns; if the
      class is Persistable, as a document with the class in front of that data. */
  lemma InstanceIsItsData(rt: Runtime, cls: string, data: Php)
    requires data.PhpArray? || data.PhpObject?
    ensures rt.persistable(cls) ==>
              Encode(rt, Instance(cls, data)) ==
              match Encode(rt, data)
              case Some(Array(fields)) => Some(Document([OdmField(cls)] + fields))
              case Some(Document(fields)) => Some(Document([OdmField(cls)] + fields))
              case _ => None
    ensures rt.serializable(cls) && !rt.persistable(cls) ==> Encode(rt, Instance(cls, data)) == Encode(rt, data)
    ensures rt.serializable(cls) && !rt.persistable(cls) && data.PhpArray? ==>
              EncodeRoot(rt, Instance(cls, data)) == EncodeRoot(rt, data)
    ensures !rt.serializable(cls) && !rt.persistable(cls) ==> Encode(rt, Instance(cls, data)) == None
  {
    assert forall fields: seq<Field> :: [] + fields == fields;
  }

  // ----- Facts about EncodeAll -----

  lemma EncodeOne(rt: Runtime, e: Bucket, fromProps: bool)
    requires !IsSkipped(e.key, fromProps, false) && '\0' !in KeyString(e.key)
    ensures EncodeAll(rt, [e], fromProps, false) ==
            match Encode(rt, e.value)
            case Some(value) => Some([Entry(KeyString(e.key), value)])
            case None => None
  {
    assert [e][1..] == [];
    assert EncodeAll(rt, [e][1..], fromProps, false) == Some([]);
    assert First([e]) == e;
    assert forall f: Field :: [f] + [] == [f];
  }

  /** Encoding goes entry by entry. */
  lemma {:induction false} EncodeAllAppend(rt: Runtime, a: seq<Bucket>, e: Bucket, fromProps: bool)
    requires !IsSkipped(e.key, fromProps, false) && '\0' !in KeyString(e.key)
    ensures EncodeAll(rt, a + [e], fromProps, false) ==
            match (EncodeAll(rt, a, fromProps, false), Encode(rt, e.value))
            case (Some(fields), Some(value)) => Some(fields + [Entry(KeyString(e.key), value)])
            case _ => None
  {
    if |a| == 0 {
      assert a + [e] == [e];
      EncodeOne(rt, e, fromProps);
      assert forall f: Field :: [] + [f] == [f];
    } else {
      assert (a + [e])[1..] == a[1..] + [e];
      EncodeAllAppend(rt, a[1..], e, fromProps);
      var rest, value := EncodeAll(rt, a[1..], fromProps, false), Encode(rt, e.value);
      if rest.Some? && value.Some? {
        var y := Entry(KeyString(e.key), value.value);
        assert forall x: Field :: [x] + (rest.value + [y]) == [x] + rest.value + [y];
      }
    }
  }

  /** Keys as PHP files them: no string key that spells an integer key. */
  predicate Filed(entries: seq<Bucket>) {
    forall i :: 0 <= i < |entries| ==> KeyOf(KeyString(entries[i].key)) == entries[i].key
  }

  lemma {:induction false} FiledPut(entries: seq<Bucket>, key: string, value: Php)
    requires Filed(entries)
    ensures Filed(Put(entries, KeyOf(key), value))
  {
    if |entries| > 0 && entries[0].key != KeyOf(key) {
      FiledPut(entries[1..], key, value);
    }
  }

  /** Updating a PHP table and encoding it is encoding it and updating the
      document. */
  lemma {:induction false} EncodeAllPut(rt: Runtime, entries: seq<Bucket>, key: cstring, value: Php)
    requires Filed(entries) && Encode(rt, value).Some? && EncodeAll(rt, entries, false, false).Some?
    ensures EncodeAll(rt, Put(entries, KeyOf(key), value), false, false) ==
            Some(Put(EncodeAll(rt, entries, false, false).value, key, Encode(rt, value).value))
  {
    if |entries| == 0 {
      EncodeOne(rt, Entry(KeyOf(key), value), false);
    } else {
      var rest := entries[1..];
      KeyOfInjective(KeyString(entries[0].key), key);
      if entries[0].key == KeyOf(key) {
        assert ([Entry(KeyOf(key), value)] + rest)[1..] == rest;
      } else {
        EncodeAllPut(rt, rest, key, value);
        var r := Put(rest, KeyOf(key), value);
        assert ([entries[0]] + r)[1..] == r;
        var fields := EncodeAll(rt, entries, false, false).value;
        assert fields[1..] == EncodeAll(rt, rest, false, false).value;
      }
    }
  }

  /** Without mangled names, property tables encode like arrays. */
  lemma {:induction false} EncodeAllSameKeys(rt: Runtime, a: seq<Bucket>, b: seq<Bucket>)
    requires |a| == |b|
    requires forall i :: 0 <= i < |a| ==>
               && a[i].value == b[i].value && KeyString(a[i].key) == KeyString(b[i].key)
               && !IsMangled(b[i].key)
    ensures EncodeAll(rt, a, false, false) == EncodeAll(rt, b, true, false)
  {
    if |a| > 0 {
      EncodeAllSameKeys(rt, a[1..], b[1..]);
    }
  }

  /** A private or protected property is left out, without an error; in an array
      such a key is an error. */
  lemma {:induction false} PrivatePropertyIsLeftOut(rt: Runtime, a: seq<Bucket>, name: string, value: Php, b: seq<Bucket>,
                                                    skipOdm: bool)
    requires |name| > 0 && name[0] == '\0'
    ensures EncodeAll(rt, a + [Entry(StrKey(name), value)] + b, true, skipOdm) == EncodeAll(rt, a + b, true, skipOdm)
    ensures EncodeAll(rt, a + [Entry(StrKey(name), value)] + b, false, skipOdm) == None
  {
    var e := Entry(StrKey(name), value);
    if |a| == 0 {
      assert a + [e] + b == [e] + b && ([e] + b)[1..] == b && a + b == b;
      assert name != ODM_FIELD_NAME;
    } else {
      assert (a + [e] + b)[1..] == a[1..] + [e] + b && (a + b)[1..] == a[1..] + b;
      assert (a + [e] + b)[0] == a[0] == (a + b)[0];
      PrivatePropertyIsLeftOut(rt, a[1..], name, value, b, skipOdm);
    }
  }

  /** The encoded keys are the table's keys. */
  lemma {:induction false} EncodeAllKeys(rt: Runtime, entries: seq<Bucket>)
    requires EncodeAll(rt, entries, false, false).Some?
    ensures var fields := EncodeAll(rt, entries, false, false).value;
            |fields| == |entries| && forall i :: 0 <= i < |entries| ==> fields[i].key == KeyString(entries[i].key)
  {
    if |entries| > 0 {
      EncodeAllKeys(rt, entries[1..]);
    }
  }
}
