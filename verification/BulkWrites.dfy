/**
 Classifying update documents and array options (src/MongoDB/BulkWrite.c).
 */
module BulkWrites {
  import opened Keys
  import opened Values
  import opened TreeEncoder
  import opened RoundTrip
  import opened Encoder
  import opened EncoderFaults

  /** A key that contains a "$" anywhere. */
  predicate IsOperator(key: string) {
    '$' in key
  }

  predicate HasOperators(doc: seq<Field>) {
    exists i :: 0 <= i < |doc| && IsOperator(doc[i].key)
  }

  /** A pipeline stage: a document whose first key starts with "$". */
  predicate IsStage(v: Bson) {
    v.Document? && |v.fields| > 0 && |v.fields[0].key| > 0 && v.fields[0].key[0] == '$'
  }

  predicate IsPipeline(doc: seq<Field>) {
    |doc| > 0 && ListKeys(doc) && forall i :: 0 <= i < |doc| ==> IsStage(doc[i].value)
  }

  /** php_phongo_bulkwrite_update_has_operators() */
  method UpdateHasOperators(doc: seq<Field>) returns (r: bool)
    ensures r <==> HasOperators(doc)
  {
    var i := 0;
    while i < |doc|
      invariant 0 <= i <= |doc|
      invariant forall j :: 0 <= j < i ==> !IsOperator(doc[j].key)
    {
      if '$' in doc[i].key {
        assert IsOperator(doc[i].key);
        return true;
      }
      i := i + 1;
    }
    r := false;
  }

  /** php_phongo_bulkwrite_update_is_pipeline() */
  method UpdateIsPipeline(doc: seq<Field>) returns (r: bool)
    ensures r <==> IsPipeline(doc)
  {
    var i := 0;
    while i < |doc|
      invariant 0 <= i <= |doc|
      invariant forall j :: 0 <= j < i ==> doc[j].key == Dec(j) && IsStage(doc[j].value)
    {
      var key := doc[i].key;
      var number := Dec(i);
      if key != number {
        return false;
      }
      if doc[i].value.Document? {
        var child := doc[i].value.fields;
        if |child| == 0 {
          return false;
        }
        if |child[0].key| == 0 || child[0].key[0] != '$' {
          assert !IsStage(doc[i].value);
          return false;
        }
      } else {
        assert !IsStage(doc[i].value);
        return false;
      }
      i := i + 1;
    }
    r := i != 0;
  }

  /** php_phongo_bulkwrite_bson_array_has_valid_keys() */
  method BsonArrayHasValidKeys(doc: seq<Field>) returns (r: bool)
    ensures r <==> ListKeys(doc)
  {
    if |doc| == 0 {
      return true;
    }
    var count := 0;
    while count < |doc|
      invariant 0 <= count <= |doc|
      invariant forall j :: 0 <= j < count ==> doc[j].key == Dec(j)
    {
      var key := Dec(count);
      if key != doc[count].key {
        return false;
      }
      count := count + 1;
    }
    r := true;
  }

  /** Decimal numbers contain no "$": a pipeline is a BSON array of stages, and has
      no operators, so that at most one of the two tests on updates succeeds. */
  lemma PipelinesHaveNoOperators(doc: seq<Field>)
    requires IsPipeline(doc)
    ensures ListKeys(doc) && doc != [] && !HasOperators(doc)
  {
    forall i | 0 <= i < |doc| ensures !IsOperator(doc[i].key) {
      forall k | 0 <= k < |doc[i].key| ensures doc[i].key[k] != '$' {
        assert IsDigit(doc[i].key[k]);
      }
    }
  }

  /** A PHP array encodes to a document with array keys exactly when the encoder
      itself would take it for a BSON array. */
  lemma ValidKeysIffList(rt: Runtime, entries: seq<Bucket>)
    requires Filed(entries) && |entries| <= INT64_MAX && EncodeRoot(rt, PhpArray(entries)).Some?
    ensures ListKeys(EncodeRoot(rt, PhpArray(entries)).value) <==> IsList(entries)
  {
    EncodeAllKeys(rt, entries);
    ListnessOfKeys(entries, EncodeRoot(rt, PhpArray(entries)).value);
  }

  /** An operator has a "$" somewhere in its key. */
  lemma OperatorAnywhere(doc: seq<Field>, i: nat, a: cstring, b: cstring)
    requires i < |doc| && doc[i].key == a + "$" + b
    ensures HasOperators(doc)
  {
    assert doc[i].key[|a|] == '$';
    assert IsOperator(doc[i].key);
  }

  lemma OperatorsHaveDollars(doc: seq<Field>) returns (i: nat, a: string, b: string)
    requires HasOperators(doc)
    ensures i < |doc| && doc[i].key == a + "$" + b
  {
    i :| i < |doc| && IsOperator(doc[i].key);
    var key := doc[i].key;
    var k :| 0 <= k < |key| && key[k] == '$';
    a, b := key[..k], key[k + 1..];
    assert key == a + [key[k]] + b;
  }

  /** A stage is a document that begins with a key that begins with "$". */
  lemma StageIs(name: cstring, value: Bson, rest: seq<Field>)
    ensures var key: cstring := "$" + name;
            IsStage(Document([Entry(key, value)] + rest))
  {
  }

  lemma StageHas(v: Bson) returns (name: string, rest: seq<Field>)
    requires IsStage(v)
    ensures v.Document? && |v.fields| > 0 && v.fields[0].key == "$" + name && v.fields == [v.fields[0]] + rest
  {
    name, rest := v.fields[0].key[1..], v.fields[1..];
  }

  lemma StagesArePipeline(doc: seq<Field>)
    ensures IsPipeline(doc) <==>
            |doc| > 0 && forall i :: 0 <= i < |doc| ==> doc[i].key == Dec(i) && IsStage(doc[i].value)
  {
  }

  // ----- Options -----

  /** `arrayFilters`, `collation` and `hint`, if they are given. */
  datatype OpOptions = OpOptions(multi: bool, upsert: bool, limit: bool,
                                 arrayFilters: Option<Zval>, collation: Option<Zval>, hint: Option<Zval>)

  predicate OptionInHeap(h: Heap, z: Option<Zval>) {
    z.Some? ==> InHeap(h, z.value)
  }

  predicate OptionsInHeap(h: Heap, o: OpOptions) {
    OptionInHeap(h, o.arrayFilters) && OptionInHeap(h, o.collation) && OptionInHeap(h, o.hint)
  }

  /** The document a PHP value encodes to; None if an exception is thrown. */
  function Encoded(h: Heap, rt: Runtime, z: Zval): Option<seq<Field>>
    requires Closed(h) && InHeap(h, z)
  {
    if EncodeGraph(h, rt, z).errs == [] then Some(EncodeGraph(h, rt, z).fields) else None
  }

  /** A value encodes exactly if it has no fault. */
  lemma EncodedIffNoFault(h: Heap, rt: Runtime, z: Zval)
    requires Closed(h) && InHeap(h, z)
    ensures Encoded(h, rt, z).Some? <==> forall e :: !RootFault(h, rt, z, e)
    ensures Encoded(h, rt, z).Some? ==> Encoded(h, rt, z).value == EncodeGraph(h, rt, z).fields
  {
    SucceedsIffNoFault(h, rt, z);
  }

  /** An option that must be an array or object, and as an array have list keys. */
  function TableOption(h: Heap, rt: Runtime, key: cstring, z: Option<Zval>, isArray: bool): Option<seq<Field>>
    requires Closed(h) && OptionInHeap(h, z)
  {
    if z.None? then Some([])
    else if !z.value.ZArray? && !z.value.ZObject? then None
    else
      var fields :- Encoded(h, rt, z.value);
      if !isArray then Some([Entry(key, Document(fields))])
      else if ListKeys(fields) then Some([Entry(key, Array(fields))])
      else None
  }

  /** A hint is a string or a document. */
  function HintOption(h: Heap, rt: Runtime, z: Option<Zval>): Option<seq<Field>>
    requires Closed(h) && OptionInHeap(h, z)
  {
    if z.Some? && z.value.ZString? then Some([Entry("hint", Utf8(z.value.s))])
    else TableOption(h, rt, "hint", z, false)
  }

  function UpdateOptions(h: Heap, rt: Runtime, o: OpOptions): Option<seq<Field>>
    requires Closed(h) && OptionsInHeap(h, o)
  {
    var arrayFilters :- TableOption(h, rt, "arrayFilters", o.arrayFilters, true);
    var collation :- TableOption(h, rt, "collation", o.collation, false);
    var hint :- HintOption(h, rt, o.hint);
    Some([Entry("multi", Bool(o.multi)), Entry("upsert", Bool(o.upsert))] + arrayFilters + collation + hint)
  }

  function DeleteOptions(h: Heap, rt: Runtime, o: OpOptions): Option<seq<Field>>
    requires Closed(h) && OptionsInHeap(h, o)
  {
    var collation :- TableOption(h, rt, "collation", o.collation, false);
    var hint :- HintOption(h, rt, o.hint);
    Some([Entry("limit", Int32(if o.limit then 1 else 0))] + collation + hint)
  }

  /** `key` is among the options, as an array with list keys or as a document that
      `z` encodes to. */
  ghost predicate IsGiven(h: Heap, rt: Runtime, opts: seq<Field>, key: cstring, z: Zval, isArray: bool)
    requires Closed(h) && InHeap(h, z)
  {
    exists fields: seq<Field> :: Encoded(h, rt, z) == Some(fields)
      && Entry(key, if isArray then Array(fields) else Document(fields)) in opts
      && (isArray ==> forall i :: 0 <= i < |fields| ==> fields[i].key == Dec(i))
  }

  lemma TableOptionGives(h: Heap, rt: Runtime, key: cstring, z: Zval, isArray: bool)
    requires Closed(h) && InHeap(h, z)
    ensures TableOption(h, rt, key, Some(z), isArray).Some? <==>
            && (z.ZArray? || z.ZObject?)
            && Encoded(h, rt, z).Some?
            && (isArray ==> ListKeys(Encoded(h, rt, z).value))
    ensures TableOption(h, rt, key, Some(z), isArray).Some? ==>
              IsGiven(h, rt, TableOption(h, rt, key, Some(z), isArray).value, key, z, isArray)
  {
  }

  /** Any string is a hint. */
  lemma HintGives(h: Heap, rt: Runtime, z: Zval)
    requires Closed(h) && InHeap(h, z)
    ensures HintOption(h, rt, Some(z)).Some? <==>
            z.ZString? || ((z.ZArray? || z.ZObject?) && Encoded(h, rt, z).Some?)
    ensures HintOption(h, rt, None) == Some([]) && TableOption(h, rt, "collation", None, false) == Some([])
  {
  }

  /** One that is not given is not passed on. */
  ghost predicate OptionPassed(h: Heap, rt: Runtime, opts: seq<Field>, key: cstring, z: Option<Zval>, isArray: bool)
    requires Closed(h) && OptionInHeap(h, z)
  {
    z.Some? ==> IsGiven(h, rt, opts, key, z.value, isArray)
  }

  ghost predicate HintPassed(h: Heap, rt: Runtime, opts: seq<Field>, z: Option<Zval>)
    requires Closed(h) && OptionInHeap(h, z)
  {
    if z.Some? && z.value.ZString? then Entry("hint", Utf8(z.value.s)) in opts
    else OptionPassed(h, rt, opts, "hint", z, false)
  }

  lemma TableOptionPasses(h: Heap, rt: Runtime, key: cstring, z: Option<Zval>, isArray: bool, opts: seq<Field>)
    requires Closed(h) && OptionInHeap(h, z) && TableOption(h, rt, key, z, isArray).Some?
    requires forall f :: f in TableOption(h, rt, key, z, isArray).value ==> f in opts
    ensures |TableOption(h, rt, key, z, isArray).value| == Given(z)
    ensures OptionPassed(h, rt, opts, key, z, isArray)
  {
  }

  lemma HintPasses(h: Heap, rt: Runtime, z: Option<Zval>, opts: seq<Field>)
    requires Closed(h) && OptionInHeap(h, z) && HintOption(h, rt, z).Some?
    requires forall f :: f in HintOption(h, rt, z).value ==> f in opts
    ensures |HintOption(h, rt, z).value| == Given(z)
    ensures HintPassed(h, rt, opts, z)
  {
    if !(z.Some? && z.value.ZString?) {
      TableOptionPasses(h, rt, "hint", z, false, opts);
    }
  }

  /** What an update passes on: "multi" and "upsert" always, the others if they are
      given, and then "arrayFilters" as an array, "collation" as a document, and
      "hint" as a string or a document. */
  lemma UpdateOptionsAre(h: Heap, rt: Runtime, o: OpOptions)
    requires Closed(h) && OptionsInHeap(h, o) && UpdateOptions(h, rt, o).Some?
    ensures var opts := UpdateOptions(h, rt, o).value;
            && opts[..2] == [Entry("multi", Bool(o.multi)), Entry("upsert", Bool(o.upsert))]
            && |opts| == 2 + Given(o.arrayFilters) + Given(o.collation) + Given(o.hint)
            && OptionPassed(h, rt, opts, "arrayFilters", o.arrayFilters, true)
            && OptionPassed(h, rt, opts, "collation", o.collation, false)
            && HintPassed(h, rt, opts, o.hint)
  {
    hide TableOption, HintOption, OptionPassed, HintPassed;
    var a := TableOption(h, rt, "arrayFilters", o.arrayFilters, true).value;
    var c := TableOption(h, rt, "collation", o.collation, false).value;
    var b := HintOption(h, rt, o.hint).value;
    var opts := UpdateOptions(h, rt, o).value;
    assert opts == [Entry("multi", Bool(o.multi)), Entry("upsert", Bool(o.upsert))] + a + c + b;
    TableOptionPasses(h, rt, "arrayFilters", o.arrayFilters, true, opts);
    TableOptionPasses(h, rt, "collation", o.collation, false, opts);
    HintPasses(h, rt, o.hint, opts);
  }

  lemma DeleteOptionsAre(h: Heap, rt: Runtime, o: OpOptions)
    requires Closed(h) && OptionsInHeap(h, o) && DeleteOptions(h, rt, o).Some?
    ensures var opts := DeleteOptions(h, rt, o).value;
            && opts[..1] == [Entry("limit", Int32(if o.limit then 1 else 0))]
            && |opts| == 1 + Given(o.collation) + Given(o.hint)
            && OptionPassed(h, rt, opts, "collation", o.collation, false)
            && HintPassed(h, rt, opts, o.hint)
  {
    hide TableOption, HintOption, OptionPassed, HintPassed;
    var c := TableOption(h, rt, "collation", o.collation, false).value;
    var b := HintOption(h, rt, o.hint).value;
    var opts := DeleteOptions(h, rt, o).value;
    assert opts == [Entry("limit", Int32(if o.limit then 1 else 0))] + c + b;
    TableOptionPasses(h, rt, "collation", o.collation, false, opts);
    HintPasses(h, rt, o.hint, opts);
  }

  function Given(z: Option<Zval>): nat {
    if z.Some? then 1 else 0
  }

  // ----- The operations -----

  datatype Op =
    | Insert(doc: seq<Field>)
    | UpdateOne(query: seq<Field>, update: seq<Field>, opts: seq<Field>)
    | UpdateMany(query: seq<Field>, update: seq<Field>, opts: seq<Field>)
    | ReplaceOne(query: seq<Field>, replacement: seq<Field>, opts: seq<Field>)
    | RemoveOne(query: seq<Field>, opts: seq<Field>)
    | RemoveMany(query: seq<Field>, opts: seq<Field>)

  /** What update() adds to the bulk: an update for operators and pipelines, else a
      replacement, which cannot apply to many documents. */
  function UpdateOp(query: seq<Field>, update: seq<Field>, opts: seq<Field>, multi: bool): Option<Op> {
    if HasOperators(update) || IsPipeline(update) then
      Some(if multi then UpdateMany(query, update, opts) else UpdateOne(query, update, opts))
    else if multi then None
    else Some(ReplaceOne(query, update, opts))
  }

  /** None if the query, the update or an option cannot be encoded. */
  function UpdateOf(h: Heap, rt: Runtime, query: Zval, update: Zval, o: OpOptions): Option<Op>
    requires Closed(h) && InHeap(h, query) && InHeap(h, update) && OptionsInHeap(h, o)
  {
    var q :- Encoded(h, rt, query);
    var u :- Encoded(h, rt, update);
    var opts :- UpdateOptions(h, rt, o);
    UpdateOp(q, u, opts, o.multi)
  }

  function DeleteOf(h: Heap, rt: Runtime, query: Zval, o: OpOptions): Option<Op>
    requires Closed(h) && InHeap(h, query) && OptionsInHeap(h, o)
  {
    var q :- Encoded(h, rt, query);
    var opts :- DeleteOptions(h, rt, o);
    Some(if o.limit then RemoveOne(q, opts) else RemoveMany(q, opts))
  }

  /** An update fails exactly if something cannot be encoded or a replacement meets
      "multi"; otherwise it is one of many documents with "multi", and without it one
      of one document for operators and pipelines, and a replacement for the rest. */
  lemma UpdateOfIs(h: Heap, rt: Runtime, query: Zval, update: Zval, o: OpOptions)
    requires Closed(h) && InHeap(h, query) && InHeap(h, update) && OptionsInHeap(h, o)
    ensures var op := UpdateOf(h, rt, query, update, o);
            var q, u, opts := Encoded(h, rt, query), Encoded(h, rt, update), UpdateOptions(h, rt, o);
            var operators := u.Some? && (HasOperators(u.value) || IsPipeline(u.value));
            && (op.Some? <==> q.Some? && u.Some? && opts.Some? && (o.multi ==> operators))
            && (op.Some? && o.multi ==> op.value == UpdateMany(q.value, u.value, opts.value))
            && (op.Some? && !o.multi && operators ==> op.value == UpdateOne(q.value, u.value, opts.value))
            && (op.Some? && !operators ==> op.value == ReplaceOne(q.value, u.value, opts.value))
  {
    hide Encoded, UpdateOptions, HasOperators, IsPipeline;
  }

  /** A deletion is of one document exactly with "limit". */
  lemma DeleteOfIs(h: Heap, rt: Runtime, query: Zval, o: OpOptions)
    requires Closed(h) && InHeap(h, query) && OptionsInHeap(h, o)
    ensures var op := DeleteOf(h, rt, query, o);
            var q, opts := Encoded(h, rt, query), DeleteOptions(h, rt, o);
            && (op.Some? <==> q.Some? && opts.Some?)
            && (op.Some? && o.limit ==> op.value == RemoveOne(q.value, opts.value))
            && (op.Some? && !o.limit ==> op.value == RemoveMany(q.value, opts.value))
  {
    hide Encoded, DeleteOptions;
  }

  /** An encoder between two documents, with no exception pending. */
  ghost predicate Ready(encoder: GraphEncoder)
    reads encoder, encoder.path, encoder.path.Repr
  {
    encoder.Valid() && encoder.recursive == {} && encoder.exceptions == [] && encoder.path.keys == []
  }

  class BulkWrite {
    var bulk: seq<Op>
    var numOps: nat

    /** The counter counts the operations. */
    ghost predicate Valid()
      reads this
    {
      numOps == |bulk|
    }

    constructor ()
      ensures Valid() && bulk == []
    {
      bulk, numOps := [], 0;
    }

    /** `accepted` is libmongoc's verdict on the operation. */
    method Add(op: Op, accepted: bool) returns (ok: bool)
      requires Valid()
      modifies this
      ensures Valid() && ok == accepted
      ensures bulk == if ok then old(bulk) + [op] else old(bulk)
    {
      if !accepted {
        return false;
      }
      bulk := bulk + [op];
      numOps := numOps + 1;
      ok := true;
    }

    /** BulkWrite::insert(): the document gets an "_id" if it has none, and the
        "_id" it has then is handed back. */
    method InsertDocument(encoder: GraphEncoder, document: Zval, oid: string, accepted: bool)
      returns (ok: bool, id: seq<Field>)
      requires Valid() && Ready(encoder) && InHeap(encoder.heap, document) && this !in encoder.path.Repr
      modifies this, encoder, encoder.path.Repr
      ensures Valid()
      ensures ok <==> accepted && EncodeGraph(encoder.heap, encoder.rt, document).errs == []
      ensures var doc := RootFields(encoder.heap, encoder.rt, document, true, oid);
              && bulk == (if ok then old(bulk) + [Insert(doc)] else old(bulk))
              && (ok && !EncodeGraph(encoder.heap, encoder.rt, document).stopped ==> id == FindField(doc, ID_FIELD_NAME))
    {
      id := [];
      var bson := new BsonBuilder();
      var bsonOut := encoder.ZvalToBson(document, true, true, oid, bson);
      if encoder.exceptions != [] {
        return false, [];
      }
      ok := Add(Insert(bson.fields), accepted);
      if ok && bsonOut.Some? {
        id := bsonOut.value;
      }
    }

    /** php_phongo_zval_to_bson() without flags. */
    method ToBson(encoder: GraphEncoder, z: Zval) returns (fields: Option<seq<Field>>)
      requires Ready(encoder) && InHeap(encoder.heap, z) && this !in encoder.path.Repr
      modifies encoder, encoder.path.Repr
      ensures fields == Encoded(encoder.heap, encoder.rt, z)
      ensures fields.Some? ==> Ready(encoder)
      ensures fresh(encoder.path.Repr - old(encoder.path.Repr))
    {
      var bson := new BsonBuilder();
      var bsonOut := encoder.ZvalToBson(z, false, false, "", bson);
      fields := if encoder.exceptions == [] then Some(bson.fields) else None;
    }

    /** php_phongo_bulkwrite_opts_append_array() and its sibling for documents. */
    method AppendTable(encoder: GraphEncoder, key: cstring, z: Option<Zval>, isArray: bool, opts: seq<Field>)
      returns (r: Option<seq<Field>>)
      requires Ready(encoder) && OptionInHeap(encoder.heap, z) && this !in encoder.path.Repr
      modifies encoder, encoder.path.Repr
      ensures var o := TableOption(encoder.heap, encoder.rt, key, z, isArray);
              if o.Some? then r == Some(opts + o.value) && Ready(encoder) else r == None
      ensures fresh(encoder.path.Repr - old(encoder.path.Repr))
    {
      if z.None? {
        assert opts + [] == opts;
        return Some(opts);
      }
      if !z.value.ZArray? && !z.value.ZObject? {
        return None;
      }
      var fields := ToBson(encoder, z.value);
      if fields.None? {
        return None;
      }
      if isArray {
        var valid := BsonArrayHasValidKeys(fields.value);
        if !valid {
          return None;
        }
      }
      r := Some(opts + [Entry(key, if isArray then Array(fields.value) else Document(fields.value))]);
    }

    /** php_phongo_bulkwrite_opt_hint() */
    method AppendHint(encoder: GraphEncoder, z: Option<Zval>, opts: seq<Field>) returns (r: Option<seq<Field>>)
      requires Ready(encoder) && OptionInHeap(encoder.heap, z) && this !in encoder.path.Repr
      modifies encoder, encoder.path.Repr
      ensures var o := HintOption(encoder.heap, encoder.rt, z);
              if o.Some? then r == Some(opts + o.value) && Ready(encoder) else r == None
      ensures fresh(encoder.path.Repr - old(encoder.path.Repr))
    {
      if z.Some? && z.value.ZString? {
        return Some(opts + [Entry("hint", Utf8(z.value.s))]);
      }
      r := AppendTable(encoder, "hint", z, false, opts);
    }

    /** BulkWrite::update() */
    method Update(encoder: GraphEncoder, query: Zval, update: Zval, o: OpOptions, accepted: bool) returns (ok: bool)
      requires Valid() && Ready(encoder) && this !in encoder.path.Repr
      requires InHeap(encoder.heap, query) && InHeap(encoder.heap, update) && OptionsInHeap(encoder.heap, o)
      modifies this, encoder, encoder.path.Repr
      ensures Valid()
      ensures var op := UpdateOf(encoder.heap, encoder.rt, query, update, o);
              && (ok <==> accepted && op.Some?)
              && bulk == if ok then old(bulk) + [op.value] else old(bulk)
    {
      hide Encoded, UpdateOptions, HasOperators, IsPipeline;
      ok := false;
      var q := ToBson(encoder, query);
      if q.None? {
        return;
      }
      var u := ToBson(encoder, update);
      if u.None? {
        return;
      }
      var opts := UpdateApplyOptions(encoder, o);
      if opts.None? {
        return;
      }
      var operators := UpdateHasOperators(u.value);
      var pipeline := false;
      if !operators {
        pipeline := UpdateIsPipeline(u.value);
      }
      if operators || pipeline {
        if o.multi {
          ok := Add(UpdateMany(q.value, u.value, opts.value), accepted);
        } else {
          ok := Add(UpdateOne(q.value, u.value, opts.value), accepted);
        }
      } else {
        if o.multi {
          return;
        }
        ok := Add(ReplaceOne(q.value, u.value, opts.value), accepted);
      }
    }

    /** php_phongo_bulkwrite_update_apply_options() */
    method UpdateApplyOptions(encoder: GraphEncoder, o: OpOptions) returns (opts: Option<seq<Field>>)
      requires Ready(encoder) && OptionsInHeap(encoder.heap, o) && this !in encoder.path.Repr
      modifies encoder, encoder.path.Repr
      ensures opts == UpdateOptions(encoder.heap, encoder.rt, o)
    {
      var defaults := [Entry("multi", Bool(o.multi)), Entry("upsert", Bool(o.upsert))];
      opts := AppendTable(encoder, "arrayFilters", o.arrayFilters, true, defaults);
      if opts.None? {
        return;
      }
      opts := AppendTable(encoder, "collation", o.collation, false, opts.value);
      if opts.None? {
        return;
      }
      opts := AppendHint(encoder, o.hint, opts.value);
    }

    /** BulkWrite::delete() */
    method Delete(encoder: GraphEncoder, query: Zval, o: OpOptions, accepted: bool) returns (ok: bool)
      requires Valid() && Ready(encoder) && this !in encoder.path.Repr
      requires InHeap(encoder.heap, query) && OptionsInHeap(encoder.heap, o)
      modifies this, encoder, encoder.path.Repr
      ensures Valid()
      ensures var op := DeleteOf(encoder.heap, encoder.rt, query, o);
              && (ok <==> accepted && op.Some?)
              && bulk == if ok then old(bulk) + [op.value] else old(bulk)
    {
      ok := false;
      var q := ToBson(encoder, query);
      if q.None? {
        return;
      }
      var opts := AppendTable(encoder, "collation", o.collation, false, [Entry("limit", Int32(if o.limit then 1 else 0))]);
      if opts.None? {
        return;
      }
      opts := AppendHint(encoder, o.hint, opts.value);
      if opts.None? {
        return;
      }
      if o.limit {
        ok := Add(RemoveOne(q.value, opts.value), accepted);
      } else {
        ok := Add(RemoveMany(q.value, opts.value), accepted);
      }
    }
  }
}
