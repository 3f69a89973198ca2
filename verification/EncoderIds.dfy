/**
 The "_id" field of documents that are encoded for insertion.
 */
module EncoderIds {
  import opened Keys
  import opened Values
  import opened TreeEncoder
  import opened Encoder
  import opened EncoderFaults

  /** An entry that is appended without an error is one field under its key. */
  lemma ValueIsOneField(h: Heap, rt: Runtime, key: cstring, z: Zval, path: seq<cstring>, enclosing: set<nat>)
    requires Closed(h) && InHeap(h, z)
    requires EncodeValue(h, rt, key, z, path, enclosing, []).errs == []
    ensures var o := EncodeValue(h, rt, key, z, path, enclosing, []);
            |o.fields| == 1 && o.fields[0].key == key
  {
    DerefInHeap(h, z);
  }

  /** Without errors, the document has an "_id" field exactly when the loop came
      by an entry of that name. */
  lemma {:induction false} IdFieldIffSeen(h: Heap, rt: Runtime, view: View, path: seq<cstring>, enclosing: set<nat>)
    requires Closed(h) && SlotsInHeap(h, view.slots)
    requires EncodeView(h, rt, view, path, enclosing, []).errs == []
    ensures !EncodeView(h, rt, view, path, enclosing, []).stopped
    ensures HasKey(EncodeView(h, rt, view, path, enclosing, []).fields, ID_FIELD_NAME) <==> SeesId(view)
    decreases |view.slots|
  {
    if |view.slots| > 0 {
      var first := view.slots[0];
      var key := KeyString(first.key);
      var tail := Tail(view);
      assert SeesId(view) <==> IsIdSlot(view, first) || SeesId(tail) by {
        if i :| 0 <= i < |view.slots| && IsIdSlot(view, view.slots[i]) && i > 0 {
          assert tail.slots[i - 1] == view.slots[i];
        }
      }
      if IsSkipped(first.key, view.fromProps, view.skipOdm) {
        IdFieldIffSeen(h, rt, tail, path, enclosing);
      } else {
        var v := EncodeValue(h, rt, key, first.value, path, enclosing, []);
        ViewErrsGrow(h, rt, tail, path, enclosing, v.errs);
        ValueIsOneField(h, rt, key, first.value, path, enclosing);
        IdFieldIffSeen(h, rt, tail, path, enclosing);
        var rest := EncodeView(h, rt, tail, path, enclosing, []).fields;
        var all := v.fields + rest;
        assert all[0] == v.fields[0] && forall i :: 0 < i < |all| ==> all[i] == rest[i - 1];
        assert forall i :: 0 <= i < |rest| ==> rest[i] == all[i + 1];
        assert key == ID_FIELD_NAME <==> first.key == StrKey(ID_FIELD_NAME) by {
          assert !IsDigit(ID_FIELD_NAME[0]);
          if first.key.IntKey? {
            assert DecInt(first.key.index)[0] == '-' || IsDigit(DecInt(first.key.index)[0]);
          }
        }
      }
    }
  }

  /** A class field in front is not called "_id". */
  lemma ClassFieldIsNoId(prefix: seq<Field>, fields: seq<Field>)
    requires |prefix| <= 1 && forall i :: 0 <= i < |prefix| ==> prefix[i].key == ODM_FIELD_NAME
    ensures HasKey(prefix + fields, ID_FIELD_NAME) <==> HasKey(fields, ID_FIELD_NAME)
  {
    assert forall i :: 0 <= i < |fields| ==> (prefix + fields)[i + |prefix|] == fields[i];
  }

  lemma PrefixIsClassField(h: Heap, rt: Runtime, z: Zval)
    requires Closed(h) && InHeap(h, z) && SourceOf(h, rt, z, false).Iterate?
    ensures var prefix := SourceOf(h, rt, z, false).prefix;
            |prefix| <= 1 && forall i :: 0 <= i < |prefix| ==> prefix[i].key == ODM_FIELD_NAME
  {
  }

  /** The same for a root document. */
  lemma RootIdFieldIffSeen(h: Heap, rt: Runtime, z: Zval)
    requires Closed(h) && InHeap(h, z) && EncodeGraph(h, rt, z).errs == [] && SourceOf(h, rt, z, false).Iterate?
    ensures !EncodeGraph(h, rt, z).stopped
    ensures HasKey(EncodeGraph(h, rt, z).fields, ID_FIELD_NAME) <==> SeesId(SourceOf(h, rt, z, false).view)
  {
    hide EncodeView, SeesId, SourceOf, HasKey;
    SourceFacts(h, rt, z, false);
    var source := SourceOf(h, rt, z, false);
    IdFieldIffSeen(h, rt, source.view, [], {});
    PrefixIsClassField(h, rt, z);
    ClassFieldIsNoId(source.prefix, EncodeView(h, rt, source.view, [], {}, []).fields);
  }

  /** Encoding without errors with ADD_ID is encoding without it, plus one
      trailing generated "_id", if and only if no field was named "_id"; otherwise
      it is encoding without it. Either way there is an "_id" afterwards, and it is
      the one that is returned. */
  lemma AddIdAddsIffMissing(h: Heap, rt: Runtime, z: Zval, oid: string)
    requires Closed(h) && InHeap(h, z) && EncodeGraph(h, rt, z).errs == [] && SourceOf(h, rt, z, false).Iterate?
    ensures var without := RootFields(h, rt, z, false, oid);
            var with_ := RootFields(h, rt, z, true, oid);
            && (with_ == without + [Entry(ID_FIELD_NAME, ObjectId(oid))] <==> !HasKey(without, ID_FIELD_NAME))
            && (with_ == without <==> HasKey(without, ID_FIELD_NAME))
            && HasKey(with_, ID_FIELD_NAME)
            && FindField(with_, ID_FIELD_NAME) ==
               if HasKey(without, ID_FIELD_NAME) then FindField(without, ID_FIELD_NAME)
               else [Entry(ID_FIELD_NAME, ObjectId(oid))]
  {
    hide EncodeGraph, SeesId;
    RootIdFieldIffSeen(h, rt, z);
    var without := RootFields(h, rt, z, false, oid);
    var id := Entry(ID_FIELD_NAME, ObjectId(oid));
    if !HasKey(without, ID_FIELD_NAME) {
      assert (without + [id])[|without|] == id;
      FindAppended(without, id);
    }
  }

  lemma {:induction false} FindAppended(fields: seq<Field>, f: Field)
    requires !HasKey(fields, f.key)
    ensures FindField(fields + [f], f.key) == [f]
  {
    if |fields| > 0 {
      assert fields[0].key != f.key;
      assert (fields + [f])[1..] == fields[1..] + [f];
      assert forall i :: 0 <= i < |fields[1..]| ==> fields[1..][i] == fields[i + 1];
      FindAppended(fields[1..], f);
    }
  }
}
