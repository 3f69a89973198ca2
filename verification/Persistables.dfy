/**
 Objects of Persistable classes survive a trip through BSON: the class travels in
 the "__pclass" field of every document.
 */
module Persistables {
  import opened Keys
  import opened Values
  import opened TypeMaps
  import opened Decoder
  import opened TreeEncoder

  /** Values whose user objects are all Persistable and whose tables never use
      the class field's name themselves. */
  predicate Hydratable(rt: Runtime, p: Php)
    decreases p
  {
    match p
    case PhpArray(entries) => AllHydratable(rt, entries)
    case PhpObject(props) => AllHydratable(rt, props)
    case Instance(cls, data) =>
      && rt.persistable(cls)
      && (match data
          case PhpArray(entries) => AllHydratable(rt, entries)
          case PhpObject(props) => AllHydratable(rt, props)
          case _ => false)
    case Typed(obj) =>
      obj.JavascriptObj? && obj.scope.Some? ==> DecodeAll(rt, DEFAULT_MAP, obj.scope.value, [], false).Ok?
    case _ => true
  }

  predicate AllHydratable(rt: Runtime, entries: seq<Bucket>)
    decreases entries
  {
    |entries| == 0 ||
    (var last := LastBucket(entries);
     KeyString(last.key) != ODM_FIELD_NAME && Hydratable(rt, last.value) && AllHydratable(rt, Front(entries)))
  }

  function LastBucket(entries: seq<Bucket>): (last: Bucket)
    requires |entries| > 0
    ensures last == entries[|entries| - 1]
    ensures (entries decreases to last.value)
  {
    assert (entries decreases to entries[|entries| - 1]);
    entries[|entries| - 1]
  }

  /** What a value is after a trip through BSON: an object of a Persistable class
      is an object of that class again, unserialised from the same data with the
      class field in front; lists stay lists; other tables become stdClass. */
  function Rehydrate(rt: Runtime, p: Php): Php
    decreases p
  {
    match p
    case PhpArray(entries) =>
      if IsList(entries) then PhpArray(RehydrateList(rt, entries))
      else PhpObject(ToProps(RehydrateInto(rt, [], entries, false)))
    case PhpObject(props) => PhpObject(ToProps(RehydrateInto(rt, [], props, true)))
    case Instance(cls, PhpArray(entries)) => Instance(cls, PhpArray(RehydrateInto(rt, [OdmBucket(cls)], entries, false)))
    case Instance(cls, PhpObject(props)) => Instance(cls, PhpArray(RehydrateInto(rt, [OdmBucket(cls)], props, true)))
    case Typed(obj) => LeafValue(TypeObjectBson(obj))
    case _ => p
  }

  function OdmBucket(cls: string): Bucket {
    Entry(StrKey(ODM_FIELD_NAME), Typed(BinaryObj(cls, ODM_SUBTYPE)))
  }

  function RehydrateInto(rt: Runtime, acc: seq<Bucket>, entries: seq<Bucket>, fromProps: bool): seq<Bucket>
    decreases entries
  {
    if |entries| == 0 then acc
    else
      var last := LastBucket(entries);
      var front := RehydrateInto(rt, acc, Front(entries), fromProps);
      if IsSkipped(last.key, fromProps, false) then front
      else Put(front, KeyOf(KeyString(last.key)), Rehydrate(rt, last.value))
  }

  function RehydrateList(rt: Runtime, entries: seq<Bucket>): (r: seq<Bucket>)
    ensures |r| == |entries|
    decreases entries
  {
    if |entries| == 0 then []
    else RehydrateList(rt, Front(entries)) + [Entry(IntKey(|entries| - 1), Rehydrate(rt, LastBucket(entries).value))]
  }

  // ----- Encoding from the back -----

  lemma {:induction false} EncodeAllFront(rt: Runtime, entries: seq<Bucket>, fromProps: bool)
    requires |entries| > 0 && EncodeAll(rt, entries, fromProps, false).Some?
    ensures EncodeAll(rt, Front(entries), fromProps, false).Some?
    ensures var last := LastBucket(entries);
            var front := EncodeAll(rt, Front(entries), fromProps, false).value;
            var all := EncodeAll(rt, entries, fromProps, false).value;
            if IsSkipped(last.key, fromProps, false) then all == front
            else '\0' !in KeyString(last.key) && Encode(rt, last.value).Some?
                 && all == front + [Entry(KeyString(last.key), Encode(rt, last.value).value)]
  {
    if |entries| == 1 {
      assert entries == [entries[0]] && entries[1..] == [];
      assert EncodeAll(rt, entries[1..], fromProps, false) == Some([]);
      if !IsSkipped(entries[0].key, fromProps, false) {
        EncodeOne(rt, entries[0], fromProps);
      }
    } else {
      var rest := entries[1..];
      assert Front(entries)[1..] == Front(rest);
      EncodeAllFront(rt, rest, fromProps);
    }
  }

  // ----- The trip -----

  lemma TypedTrip(rt: Runtime, obj: TypeObject, path: seq<cstring>)
    requires Hydratable(rt, Typed(obj))
    ensures Decode(rt, DEFAULT_MAP, TypeObjectBson(obj), path) == Ok(LeafValue(TypeObjectBson(obj)))
  {
    hide DecodeAll;
  }

  lemma LeafTrip(rt: Runtime, p: Php, path: seq<cstring>)
    requires Hydratable(rt, p) && Encode(rt, p).Some?
    requires !p.PhpArray? && !p.PhpObject? && !p.Instance?
    ensures Decode(rt, DEFAULT_MAP, Encode(rt, p).value, path) == Ok(Rehydrate(rt, p))
  {
    hide DecodeAll, EncodeAll, RehydrateInto, RehydrateList, TypeObjectBson;
    if p.Typed? {
      TypedTrip(rt, p.obj, path);
    }
  }

  /** A tree of Persistable objects comes back with the same class at every
      node. */
  lemma {:induction false} Trip(rt: Runtime, p: Php, path: seq<cstring>)
    requires Hydratable(rt, p) && Encode(rt, p).Some?
    ensures Decode(rt, DEFAULT_MAP, Encode(rt, p).value, path) == Ok(Rehydrate(rt, p))
    decreases p, 1
  {
    hide EncodeAll, DecodeAll, AllHydratable, RehydrateInto;
    match p {
      case PhpArray(entries) =>
        if IsList(entries) {
          ListTrip(rt, entries, path);
        } else {
          PlainTableTrip(rt, entries, false, path);
        }
      case PhpObject(props) => PlainTableTrip(rt, props, true, path);
      case Instance(cls, data) =>
        OdmFieldDecodes(rt, cls, path);
        if data.PhpArray? {
          TableTrip(rt, [OdmField(cls)], [OdmBucket(cls)], data.entries, false, path);
        } else {
          TableTrip(rt, [OdmField(cls)], [OdmBucket(cls)], data.props, true, path);
        }
      case _ => LeafTrip(rt, p, path);
    }
  }

  lemma {:induction false} PlainTableTrip(rt: Runtime, entries: seq<Bucket>, fromProps: bool, path: seq<cstring>)
    requires AllHydratable(rt, entries) && EncodeAll(rt, entries, fromProps, false).Some?
    ensures var fields := EncodeAll(rt, entries, fromProps, false).value;
            && DecodeAll(rt, DEFAULT_MAP, fields, path, false) == Ok(RehydrateInto(rt, [], entries, fromProps))
            && OdmClass(rt, fields) == None
    decreases entries, 1
  {
    hide EncodeAll, RehydrateInto;
    TableTrip(rt, [], [], entries, fromProps, path);
    assert [] + EncodeAll(rt, entries, fromProps, false).value == EncodeAll(rt, entries, fromProps, false).value;
  }

  lemma OdmFieldDecodes(rt: Runtime, cls: string, path: seq<cstring>)
    requires rt.persistable(cls)
    ensures DecodeAll(rt, DEFAULT_MAP, [OdmField(cls)], path, false) == Ok([OdmBucket(cls)])
    ensures OdmClass(rt, [OdmField(cls)]) == Some(cls)
  {
    assert Front([OdmField(cls)]) == [];
    assert DecodeAll(rt, DEFAULT_MAP, [], path, false) == Ok([]);
    assert KeyOf(ODM_FIELD_NAME) == StrKey(ODM_FIELD_NAME) by {
      assert !IsDigit(ODM_FIELD_NAME[0]);
    }
  }

  /** One more field, other than the class field. */
  lemma AppendField(rt: Runtime, fields: seq<Field>, f: Field, path: seq<cstring>)
    requires DecodeAll(rt, DEFAULT_MAP, fields, path, false).Ok? && Decode(rt, DEFAULT_MAP, f.value, path + [f.key]).Ok?
    requires f.key != ODM_FIELD_NAME
    ensures DecodeAll(rt, DEFAULT_MAP, fields + [f], path, false) ==
            Ok(Put(DecodeAll(rt, DEFAULT_MAP, fields, path, false).value, KeyOf(f.key),
                   Decode(rt, DEFAULT_MAP, f.value, path + [f.key]).value))
    ensures OdmClass(rt, fields + [f]) == OdmClass(rt, fields)
  {
    hide Decode;
    assert Front(fields + [f]) == fields && Last(fields + [f]) == f;
  }

  lemma {:induction false} TableTrip(rt: Runtime, prefix: seq<Field>, acc: seq<Bucket>, entries: seq<Bucket>,
                                     fromProps: bool, path: seq<cstring>)
    requires AllHydratable(rt, entries) && EncodeAll(rt, entries, fromProps, false).Some?
    requires DecodeAll(rt, DEFAULT_MAP, prefix, path, false) == Ok(acc)
    ensures var fields := prefix + EncodeAll(rt, entries, fromProps, false).value;
            && DecodeAll(rt, DEFAULT_MAP, fields, path, false) == Ok(RehydrateInto(rt, acc, entries, fromProps))
            && OdmClass(rt, fields) == OdmClass(rt, prefix)
    decreases entries, 0
  {
    if |entries| == 0 {
      assert prefix + [] == prefix;
    } else {
      hide Decode, DecodeAll, OdmClass, Rehydrate, Encode, EncodeAll;
      var last := LastBucket(entries);
      EncodeAllFront(rt, entries, fromProps);
      TableTrip(rt, prefix, acc, Front(entries), fromProps, path);
      if !IsSkipped(last.key, fromProps, false) {
        var key: cstring, front := KeyString(last.key), EncodeAll(rt, Front(entries), fromProps, false).value;
        var f := Entry(key, Encode(rt, last.value).value);
        Trip(rt, last.value, path + [key]);
        AppendField(rt, prefix + front, f, path);
        assert prefix + (front + [f]) == prefix + front + [f];
      }
    }
  }

  lemma {:induction false} ListTrip(rt: Runtime, entries: seq<Bucket>, path: seq<cstring>)
    requires AllHydratable(rt, entries) && IsList(entries) && EncodeAll(rt, entries, false, false).Some?
    ensures DecodeAll(rt, DEFAULT_MAP, EncodeAll(rt, entries, false, false).value, path, true)
            == Ok(RehydrateList(rt, entries))
    decreases entries, 0
  {
    if |entries| > 0 {
      var last := LastBucket(entries);
      EncodeAllFront(rt, entries, false);
      ListTrip(rt, Front(entries), path);
      Trip(rt, last.value, path + [KeyString(last.key)]);
      var fields := EncodeAll(rt, entries, false, false).value;
      assert Front(fields) == EncodeAll(rt, Front(entries), false, false).value;
    }
  }

  /** The table without its "__pclass" entries. */
  function DropOdm(entries: seq<Bucket>): (rest: seq<Bucket>)
    ensures forall i :: 0 <= i < |rest| ==> rest[i].key != StrKey(ODM_FIELD_NAME)
  {
    if |entries| == 0 then []
    else (if entries[0].key == StrKey(ODM_FIELD_NAME) then [] else [entries[0]]) + DropOdm(entries[1..])
  }

  lemma {:induction false} SkippingIsDropping(rt: Runtime, entries: seq<Bucket>)
    ensures EncodeAll(rt, entries, false, true) == EncodeAll(rt, DropOdm(entries), false, false)
  {
    if |entries| > 0 {
      SkippingIsDropping(rt, entries[1..]);
      var rest := DropOdm(entries[1..]);
      if entries[0].key == StrKey(ODM_FIELD_NAME) {
        assert [] + rest == rest;
      } else {
        assert ([entries[0]] + rest)[1..] == rest;
      }
    }
  }

  /** What bsonSerialize() may return: a PHP array or a stdClass object. */
  predicate IsData(data: Php) {
    data.PhpArray? || data.PhpObject?
  }

  function EntriesOf(data: Php): seq<Bucket>
    requires IsData(data)
  {
    if data.PhpArray? then data.entries else data.props
  }

  /** A root object of a Persistable class comes back as an object of that class
      whatever its data says: the root drops a "__pclass" entry of the data. */
  lemma RootTrip(rt: Runtime, cls: string, data: Php)
    requires rt.persistable(cls) && IsData(data)
    requires AllHydratable(rt, DropOdm(EntriesOf(data)))
    requires EncodeRoot(rt, Instance(cls, data)).Some?
    ensures DecodeRoot(rt, DEFAULT_MAP, EncodeRoot(rt, Instance(cls, data)).value)
            == Ok(Rehydrate(rt, Instance(cls, PhpArray(DropOdm(EntriesOf(data))))))
  {
    var entries := EntriesOf(data);
    SkippingIsDropping(rt, entries);
    OdmFieldDecodes(rt, cls, []);
    TableTrip(rt, [OdmField(cls)], [OdmBucket(cls)], DropOdm(entries), false, []);
  }

  /** The encoding of a Persistable object begins with its class, and names no
      class again. */
  lemma {:induction false} OneLeadingClassField(rt: Runtime, entries: seq<Bucket>, fromProps: bool)
    requires AllHydratable(rt, entries) && EncodeAll(rt, entries, fromProps, false).Some?
    ensures !HasKey(EncodeAll(rt, entries, fromProps, false).value, ODM_FIELD_NAME)
  {
    if |entries| > 0 {
      EncodeAllFront(rt, entries, fromProps);
      OneLeadingClassField(rt, Front(entries), fromProps);
    }
  }

  lemma {:induction false} OdmClassOfConcat(rt: Runtime, a: seq<Field>, b: seq<Field>)
    ensures OdmClass(rt, a + b) == if OdmClass(rt, b).Some? then OdmClass(rt, b) else OdmClass(rt, a)
  {
    if |b| == 0 {
      assert a + b == a;
    } else {
      assert Front(a + b) == a + Front(b) && Last(a + b) == Last(b);
      OdmClassOfConcat(rt, a, Front(b));
    }
  }

  // ----- Embedded objects -----

  /** All code scopes that are encoded can be decoded. */
  predicate ScopesOk(rt: Runtime, p: Php)
    decreases p
  {
    match p
    case PhpArray(entries) => AllScopesOk(rt, entries, false)
    case PhpObject(props) => AllScopesOk(rt, props, true)
    case Instance(_, PhpArray(entries)) => AllScopesOk(rt, entries, false)
    case Instance(_, PhpObject(props)) => AllScopesOk(rt, props, true)
    case Typed(JavascriptObj(_, Some(scope))) => DecodeAll(rt, DEFAULT_MAP, scope, [], false).Ok?
    case _ => true
  }

  predicate AllScopesOk(rt: Runtime, entries: seq<Bucket>, fromProps: bool)
    decreases entries
  {
    |entries| == 0 ||
    (var last := LastBucket(entries);
     (IsSkipped(last.key, fromProps, false) || ScopesOk(rt, last.value)) && AllScopesOk(rt, Front(entries), fromProps))
  }

  /** Nothing else in what the encoder writes makes decoding fail. */
  lemma {:induction false} DecodesIffScopesOk(rt: Runtime, p: Php, path: seq<cstring>)
    requires Encode(rt, p).Some?
    ensures Decode(rt, DEFAULT_MAP, Encode(rt, p).value, path).Ok? <==> ScopesOk(rt, p)
    decreases p, 1
  {
    hide EncodeAll, DecodeAll, AllScopesOk, EncodeInstance;
    match p {
      case PhpArray(entries) => TableDecodesIffScopesOk(rt, entries, false, path, IsList(entries));
      case PhpObject(props) => TableDecodesIffScopesOk(rt, props, true, path, false);
      case Instance(cls, data) => InstanceDecodesIffScopesOk(rt, cls, data, path);
      case _ =>
    }
  }

  lemma {:induction false} TableDecodesIffScopesOk(rt: Runtime, entries: seq<Bucket>, fromProps: bool,
                                                   path: seq<cstring>, isArray: bool)
    requires EncodeAll(rt, entries, fromProps, false).Some?
    ensures DecodeAll(rt, DEFAULT_MAP, EncodeAll(rt, entries, fromProps, false).value, path, isArray).Ok?
            <==> AllScopesOk(rt, entries, fromProps)
    decreases entries, 1
  {
    hide EncodeAll, AllScopesOk;
    AllDecodeIffScopesOk(rt, [], entries, fromProps, path, isArray);
    assert [] + EncodeAll(rt, entries, fromProps, false).value == EncodeAll(rt, entries, fromProps, false).value;
  }

  lemma {:induction false} InstanceDecodesIffScopesOk(rt: Runtime, cls: string, data: Php, path: seq<cstring>)
    requires Encode(rt, Instance(cls, data)).Some?
    ensures IsData(data)
    ensures Decode(rt, DEFAULT_MAP, Encode(rt, Instance(cls, data)).value, path).Ok? <==> ScopesOk(rt, data)
    decreases data, 2
  {
    hide EncodeAll, DecodeAll, AllScopesOk;
    var entries, fromProps := EntriesOf(data), data.PhpObject?;
    if rt.persistable(cls) {
      OdmFieldDecodes(rt, cls, path);
      AllDecodeIffScopesOk(rt, [OdmField(cls)], entries, fromProps, path, false);
    } else {
      TableDecodesIffScopesOk(rt, entries, fromProps, path, data.PhpArray? && IsList(entries));
    }
  }

  lemma AppendedDecodes(rt: Runtime, fields: seq<Field>, f: Field, path: seq<cstring>, isArray: bool)
    ensures DecodeAll(rt, DEFAULT_MAP, fields + [f], path, isArray).Ok?
            <==> DecodeAll(rt, DEFAULT_MAP, fields, path, isArray).Ok? && Decode(rt, DEFAULT_MAP, f.value, path + [f.key]).Ok?
  {
    hide Decode, Store;
    assert Front(fields + [f]) == fields && Last(fields + [f]) == f;
  }

  lemma {:induction false} AllDecodeIffScopesOk(rt: Runtime, prefix: seq<Field>, entries: seq<Bucket>, fromProps: bool,
                                                path: seq<cstring>, isArray: bool)
    requires EncodeAll(rt, entries, fromProps, false).Some? && DecodeAll(rt, DEFAULT_MAP, prefix, path, isArray).Ok?
    ensures DecodeAll(rt, DEFAULT_MAP, prefix + EncodeAll(rt, entries, fromProps, false).value, path, isArray).Ok?
            <==> AllScopesOk(rt, entries, fromProps)
    decreases entries, 0
  {
    if |entries| == 0 {
      assert prefix + [] == prefix;
    } else {
      hide Decode, DecodeAll, Encode, EncodeAll, ScopesOk;
      var last := LastBucket(entries);
      EncodeAllFront(rt, entries, fromProps);
      AllDecodeIffScopesOk(rt, prefix, Front(entries), fromProps, path, isArray);
      if !IsSkipped(last.key, fromProps, false) {
        var key: cstring, front := KeyString(last.key), EncodeAll(rt, Front(entries), fromProps, false).value;
        var f := Entry(key, Encode(rt, last.value).value);
        DecodesIffScopesOk(rt, last.value, path + [key]);
        AppendedDecodes(rt, prefix + front, f, path, isArray);
        assert prefix + (front + [f]) == prefix + front + [f];
      }
    }
  }

  /** The class an entry "__pclass" names, if it holds a binary of the class
      field's subtype and names a Persistable class. */
  function NamesClass(rt: Runtime, e: Bucket): Option<string> {
    if e.key == StrKey(ODM_FIELD_NAME) && e.value.Typed? && e.value.obj.BinaryObj?
       && e.value.obj.subtype == ODM_SUBTYPE && rt.persistable(e.value.obj.data)
    then Some(e.value.obj.data) else None
  }

  /** The class that data names itself: that of its last such entry. */
  function NamedClass(rt: Runtime, entries: seq<Bucket>): Option<string> {
    if |entries| == 0 then None
    else
      var last := NamesClass(rt, LastBucket(entries));
      if last.Some? then last else NamedClass(rt, Front(entries))
  }

  lemma OdmOfEncoded(rt: Runtime, e: Bucket)
    requires Encode(rt, e.value).Some?
    ensures OdmOf(rt, KeyString(e.key), Encode(rt, e.value).value) == NamesClass(rt, e)
  {
    hide EncodeAll;
    OdmKey(e.key);
  }

  lemma SkippedNamesNothing(rt: Runtime, e: Bucket, fromProps: bool)
    requires IsSkipped(e.key, fromProps, false)
    ensures NamesClass(rt, e) == None
  {
    OdmKey(e.key);
  }

  lemma {:induction false} OdmClassIsNamedClass(rt: Runtime, entries: seq<Bucket>, fromProps: bool)
    requires EncodeAll(rt, entries, fromProps, false).Some?
    ensures OdmClass(rt, EncodeAll(rt, entries, fromProps, false).value) == NamedClass(rt, entries)
  {
    if |entries| == 0 {
      return;
    }
    hide Encode, EncodeAll, OdmOf, NamesClass;
    var last := LastBucket(entries);
    EncodeAllFront(rt, entries, fromProps);
    OdmClassIsNamedClass(rt, Front(entries), fromProps);
    if IsSkipped(last.key, fromProps, false) {
      SkippedNamesNothing(rt, last, fromProps);
    } else {
      var all := EncodeAll(rt, entries, fromProps, false).value;
      assert Front(all) == EncodeAll(rt, Front(entries), fromProps, false).value;
      assert Last(all) == Entry(KeyString(last.key), Encode(rt, last.value).value);
      OdmOfEncoded(rt, last);
    }
  }

  lemma OdmKey(k: Key)
    ensures KeyString(k) == ODM_FIELD_NAME <==> k == StrKey(ODM_FIELD_NAME)
    ensures !IsMangled(StrKey(ODM_FIELD_NAME))
  {
    assert !IsDigit(ODM_FIELD_NAME[0]) && ODM_FIELD_NAME[0] != '-';
    if k.IntKey? {
      assert DecInt(k.index)[0] == '-' || IsDigit(DecInt(k.index)[0]);
    }
  }

  /** An embedded Persistable does not drop such an entry: it comes back as the
      class its data names, and so as its own exactly when the data names no other
      Persistable class. It comes back at all when its code scopes do. */
  lemma EmbeddedClass(rt: Runtime, cls: string, data: Php, path: seq<cstring>)
    requires rt.persistable(cls) && IsData(data) && Encode(rt, Instance(cls, data)).Some?
    ensures var r := Decode(rt, DEFAULT_MAP, Encode(rt, Instance(cls, data)).value, path);
            var named := NamedClass(rt, EntriesOf(data));
            && (r.Ok? <==> ScopesOk(rt, data))
            && (r.Ok? ==>
                  && r.value.Instance?
                  && r.value.cls == (if named.Some? then named.value else cls)
                  && (r.value.cls == cls <==> named == None || named == Some(cls)))
  {
    var entries, fromProps := EntriesOf(data), data.PhpObject?;
    InstanceDecodesIffScopesOk(rt, cls, data, path);
    OdmFieldDecodes(rt, cls, path);
    OdmClassOfConcat(rt, [OdmField(cls)], EncodeAll(rt, entries, fromProps, false).value);
    OdmClassIsNamedClass(rt, entries, fromProps);
  }

  /** At the root the class is the object's own, whatever the data. */
  lemma RootClass(rt: Runtime, cls: string, data: Php)
    requires rt.persistable(cls) && IsData(data) && EncodeRoot(rt, Instance(cls, data)).Some?
    ensures var r := DecodeRoot(rt, DEFAULT_MAP, EncodeRoot(rt, Instance(cls, data)).value);
            && (r.Ok? <==> AllScopesOk(rt, DropOdm(EntriesOf(data)), false))
            && (r.Ok? ==> r.value.Instance? && r.value.cls == cls)
  {
    var entries := DropOdm(EntriesOf(data));
    SkippingIsDropping(rt, EntriesOf(data));
    OdmFieldDecodes(rt, cls, []);
    AllDecodeIffScopesOk(rt, [OdmField(cls)], entries, false, [], false);
    OdmClassOfConcat(rt, [OdmField(cls)], EncodeAll(rt, entries, false, false).value);
    OdmClassIsNamedClass(rt, entries, false);
    NoNamedClass(rt, entries);
  }

  lemma {:induction false} NoNamedClass(rt: Runtime, entries: seq<Bucket>)
    requires forall i :: 0 <= i < |entries| ==> entries[i].key != StrKey(ODM_FIELD_NAME)
    ensures NamedClass(rt, entries) == None
  {
    if |entries| > 0 {
      NoNamedClass(rt, Front(entries));
    }
  }

  /** Such data exists: the inner class wins, where the root would have kept the
      outer one. */
  lemma EmbeddedClassFieldWins(rt: Runtime, outer: string, inner: string)
    requires rt.persistable(outer) && rt.persistable(inner)
    ensures var p := Instance(outer, PhpArray([OdmBucket(inner)]));
            && Encode(rt, p) == Some(Document([OdmField(outer), OdmField(inner)]))
            && OdmClass(rt, [OdmField(outer), OdmField(inner)]) == Some(inner)
            && EncodeRoot(rt, p) == Some([OdmField(outer)])
  {
    var entries := [OdmBucket(inner)];
    EncodeOne(rt, entries[0], false);
    OdmFieldDecodes(rt, inner, []);
    assert [OdmField(outer)] + [OdmField(inner)] == [OdmField(outer), OdmField(inner)];
    OdmClassOfConcat(rt, [OdmField(outer)], [OdmField(inner)]);
    SkippingIsDropping(rt, entries);
    assert entries[1..] == [] && DropOdm(entries) == [];
    assert [OdmField(outer)] + [] == [OdmField(outer)];
  }
}
