/**
 Iterating over a result (src/MongoDB/Cursor.c).

 The libmongoc cursor delivers a fixed list of documents, then nothing, possibly
 because of an error; its server-side ID is non-zero for a while. The driver's
 cursor keeps a position, the current document decoded, and a session.
 */
module Cursors {
  import opened Keys
  import opened Values
  import opened TypeMaps
  import opened Decoder
  import opened TreeEncoder
  import opened Persistables

  /** mongoc_cursor_t, as far as the driver sees it. */
  class MongocCursor {
    const docs: seq<seq<Field>>
    const fails: bool  // whether the end is an error
    const liveReads: nat  // how many reads until the server has no more
    var taken: nat

    constructor (documents: seq<seq<Field>>, failing: bool, live: nat)
      ensures docs == documents && fails == failing && liveReads == live && taken == 0
    {
      docs, fails, liveReads, taken := documents, failing, live, 0;
    }

    /** mongoc_cursor_current() */
    function Current(): Option<seq<Field>>
      reads this
    {
      if 0 < taken <= |docs| then Some(docs[taken - 1]) else None
    }

    /** mongoc_cursor_get_id() != 0 */
    predicate HasId()
      reads this
    {
      taken < liveReads
    }

    /** mongoc_cursor_next() */
    method Next() returns (doc: Option<seq<Field>>)
      modifies this
      ensures taken == if old(taken) <= |docs| then old(taken) + 1 else old(taken)
      ensures doc == Current()
    {
      if taken <= |docs| {
        taken := taken + 1;
      }
      doc := Current();
    }

    /** mongoc_cursor_error_document() after the end */
    predicate HasError()
      reads this
    {
      fails && taken > |docs|
    }
  }

  datatype CursorError = ServerError | DecodingError(error: DecodeError) | CannotRewind

  /** The PHP value of a document, given the class last seen at a root. */
  function Shown(rt: Runtime, m: TypeMap, seen: Option<string>, doc: seq<Field>): Result<Php, DecodeError> {
    var entries :- DecodeAll(rt, m, doc, [], false);
    Ok(DocumentValue(m.rootType, seen, entries))
  }

  /** The class last seen, after a document. */
  function SeenAfter(rt: Runtime, m: TypeMap, doc: seq<Field>, seen: Option<string>): Option<string> {
    OdmAfter(rt, m, doc, [], seen)
  }

  lemma SeenAfterDecodable(rt: Runtime, m: TypeMap, doc: seq<Field>, seen: Option<string>)
    requires DecodeAll(rt, m, doc, [], false).Ok?
    ensures SeenAfter(rt, m, doc, seen) == if OdmClass(rt, doc).Some? then OdmClass(rt, doc) else seen
  {
    DecodedBeforeAll(rt, m, doc, [], false);
    assert doc[..|doc|] == doc;
  }

  /** The values of documents that are shown one after the other, up to the first
      that cannot be decoded. */
  function ShownAll(rt: Runtime, m: TypeMap, seen: Option<string>, docs: seq<seq<Field>>): seq<Php>
    decreases |docs|
  {
    if |docs| == 0 then []
    else
      var now := SeenAfter(rt, m, docs[0], seen);
      match Shown(rt, m, now, docs[0])
      case Err(_) => []
      case Ok(value) => [value] + ShownAll(rt, m, now, docs[1..])
  }

  /** The exception that decoding a document throws, if any. */
  function DecodingErrorOf(rt: Runtime, m: TypeMap, doc: seq<Field>): (err: Option<CursorError>)
    ensures err == None <==> DecodeAll(rt, m, doc, [], false).Ok?
  {
    match DecodeAll(rt, m, doc, [], false)
    case Err(e) => Some(DecodingError(e))
    case Ok(_) => None
  }

  class Cursor {
    const rt: Runtime
    const cursor: MongocCursor
    var advanced: bool
    var current: nat
    var visitorData: BsonState
    var zchild: Option<Php>
    var session: bool
    ghost var typeMap: TypeMap  // as set last
    ghost var seen: Option<string>  // the class found last at a root since then

    /** The position of the libmongoc cursor follows from the driver's, and a
        defined value is that of document number `current`. */
    ghost predicate Valid()
      reads this, cursor, visitorData
    {
      && visitorData.fieldPath == null && !visitorData.isVisitingArray
      && cursor.taken == (if !advanced then 0 else if current < |cursor.docs| then current + 1 else |cursor.docs| + 1)
      && (!advanced ==> current == 0 && zchild == None)
      && visitorData.odm == seen
      && visitorData.map_ == typeMap.(rootType := visitorData.map_.rootType)
      && (visitorData.map_.rootType == typeMap.rootType
          || (typeMap.rootType == Unset && seen.Some? && visitorData.map_.rootType.Class?))
      && (zchild.Some? ==>
            && current < |cursor.docs|
            && Shown(rt, typeMap, seen, cursor.docs[current]) == Ok(zchild.value)
            && (OdmClass(rt, cursor.docs[current]).Some? ==> seen == OdmClass(rt, cursor.docs[current])))
    }

    /** phongo_cursor_init_for_command(): not advanced yet. */
    constructor ForCommand(runtime: Runtime, c: MongocCursor, hasSession: bool)
      requires c.taken == 0
      ensures Valid() && fresh(visitorData) && cursor == c && rt == runtime && c.taken == 0
      ensures !advanced && current == 0 && zchild == None && session == hasSession && typeMap == DEFAULT_MAP && seen == None
    {
      rt, cursor, advanced, current, zchild, session := runtime, c, false, 0, None, hasSession;
      typeMap, seen := DEFAULT_MAP, None;
      visitorData := new BsonState(DEFAULT_MAP);
    }

    /** phongo_cursor_init_for_query(): advanced once, without error, by
        phongo_execute_query(). */
    constructor ForQuery(runtime: Runtime, c: MongocCursor, hasSession: bool)
      requires c.taken == 1 && !c.HasError()
      ensures Valid() && fresh(visitorData) && cursor == c && rt == runtime && c.taken == 1
      ensures advanced && current == 0 && zchild == None && session == hasSession && typeMap == DEFAULT_MAP && seen == None
    {
      rt, cursor, advanced, current, zchild, session := runtime, c, true, 0, None, hasSession;
      typeMap, seen := DEFAULT_MAP, None;
      visitorData := new BsonState(DEFAULT_MAP);
    }

    method FreeSessionIfExhausted()
      modifies `session
      ensures session == (old(session) && cursor.HasId())
    {
      if cursor.HasId() {
        return;
      }
      session := false;
    }

    /** Decodes into the cursor's visitor state. */
    method DecodeCurrent(doc: seq<Field>) returns (err: Option<CursorError>)
      requires visitorData.fieldPath == null && !visitorData.isVisitingArray && visitorData.odm == seen
      requires visitorData.map_ == typeMap.(rootType := visitorData.map_.rootType)
      requires visitorData.map_.rootType == typeMap.rootType
               || (typeMap.rootType == Unset && seen.Some? && visitorData.map_.rootType.Class?)
      modifies `zchild, `seen, visitorData
      ensures visitorData.fieldPath == null && !visitorData.isVisitingArray && visitorData.odm == seen
      ensures visitorData.map_ == typeMap.(rootType := visitorData.map_.rootType)
      ensures visitorData.map_.rootType == typeMap.rootType
              || (typeMap.rootType == Unset && seen.Some? && visitorData.map_.rootType.Class?)
      ensures err == DecodingErrorOf(rt, typeMap, doc) && (zchild.Some? <==> err == None)
      ensures seen == SeenAfter(rt, typeMap, doc, old(seen))
      ensures zchild.Some? ==> Shown(rt, typeMap, seen, doc) == Ok(zchild.value)
      ensures zchild.Some? && OdmClass(rt, doc).Some? ==> seen == OdmClass(rt, doc)
    {
      RootTypeIrrelevant(rt, typeMap, visitorData.map_, doc, []);
      DecodedBeforeUnderEveryMap(rt, typeMap, visitorData.map_, doc, []);
      var r := BsonToZvalEx(rt, visitorData, doc);
      seen := visitorData.odm;
      if r.Ok? {
        zchild, err := Some(r.value), None;
      } else {
        zchild, err := None, Some(DecodingError(r.error));
      }
    }

    /** Cursor::next() */
    method Next() returns (err: Option<CursorError>)
      requires Valid()
      modifies this, cursor, visitorData
      ensures Valid() && visitorData == old(visitorData) && typeMap == old(typeMap)
      ensures advanced && current == if old(advanced) then old(current) + 1 else 0
      ensures session == (old(session) && cursor.HasId())
      ensures zchild.Some? <==> current < |cursor.docs| && DecodeAll(rt, typeMap, cursor.docs[current], [], false).Ok?
      ensures seen == if current < |cursor.docs| then SeenAfter(rt, typeMap, cursor.docs[current], old(seen)) else old(seen)
      ensures err == if current < |cursor.docs| then DecodingErrorOf(rt, typeMap, cursor.docs[current])
                     else if cursor.fails then Some(ServerError) else None
    {
      hide DecodeAll, Shown, OdmAfter, OdmClass;
      zchild := None;
      if advanced {
        current := current + 1;
      } else {
        advanced := true;
      }
      var doc := cursor.Next();
      if doc.Some? {
        err := DecodeCurrent(doc.value);
      } else {
        err := if cursor.HasError() then Some(ServerError) else None;
      }
      FreeSessionIfExhausted();
    }

    /** Cursor::rewind() */
    method Rewind() returns (err: Option<CursorError>)
      requires Valid()
      modifies this, cursor, visitorData
      ensures Valid() && visitorData == old(visitorData) && typeMap == old(typeMap)
      ensures advanced && current == old(current)
      ensures err == Some(CannotRewind) <==> old(current) > 0
      ensures err == Some(CannotRewind) ==> zchild == old(zchild) && session == old(session)
      ensures session == (old(session) && (err == Some(ServerError) || err == Some(CannotRewind) || cursor.HasId()))
      ensures current == 0 ==>
                && (zchild.Some? <==> |cursor.docs| > 0 && DecodeAll(rt, typeMap, cursor.docs[0], [], false).Ok?)
                && (zchild.Some? ==> err == None)
                && seen == (if |cursor.docs| > 0 then SeenAfter(rt, typeMap, cursor.docs[0], old(seen)) else old(seen))
                && err == if |cursor.docs| > 0 then DecodingErrorOf(rt, typeMap, cursor.docs[0])
                          else if old(advanced) || !cursor.fails then None else Some(ServerError)
    {
      hide DecodeAll, Shown, OdmAfter, OdmClass;
      if !advanced {
        advanced := true;
        var doc := cursor.Next();
        if doc.None? && cursor.HasError() {
          return Some(ServerError);
        }
      }
      if current > 0 {
        return Some(CannotRewind);
      }
      zchild := None;
      var doc := cursor.Current();
      err := None;
      if doc.Some? {
        err := DecodeCurrent(doc.value);
      }
      FreeSessionIfExhausted();
    }

    /** Cursor::setTypeMap() with a type map that has been parsed. */
    method SetTypeMap(m: TypeMap) returns (err: Option<CursorError>)
      requires Valid()
      modifies this, cursor, visitorData
      ensures Valid() && fresh(visitorData) && typeMap == m
      ensures advanced == old(advanced) && current == old(current) && session == old(session)
      ensures cursor.taken == old(cursor.taken)
      ensures old(zchild).None? ==> zchild.None? && seen == None && err == None
      ensures old(zchild).Some? ==>
                && (zchild.Some? <==> DecodeAll(rt, m, cursor.docs[current], [], false).Ok?)
                && (zchild.Some? ==> DecodeRoot(rt, m, cursor.docs[current]) == Ok(zchild.value))
                && err == DecodingErrorOf(rt, m, cursor.docs[current])
                && seen == SeenAfter(rt, m, cursor.docs[current], None)
    {
      hide DecodeAll, OdmAfter, OdmClass;
      var restore := zchild.Some?;
      zchild := None;
      visitorData := new BsonState(m);
      typeMap, seen := m, None;
      err := None;
      if restore && cursor.Current().Some? {
        if DecodeAll(rt, m, cursor.Current().value, [], false).Ok? {
          SeenAfterDecodable(rt, m, cursor.Current().value, None);
        }
        err := DecodeCurrent(cursor.Current().value);
      }
    }

    /** Cursor::valid(), key() and current(). */
    function IsValid(): bool
      reads this
    {
      zchild.Some?
    }

    function Key(): (k: Option<nat>)
      reads this
      ensures k.Some? <==> zchild.Some?
    {
      if zchild.Some? then Some(current) else None
    }

    /** Cursor::toArray(): rewind, then next as long as there is a value. It yields
        the value of every document once, in order, under the keys 0, 1, ..., up to
        the first that cannot be decoded. */
    method ToArray() returns (keys: seq<nat>, values: seq<Php>, err: Option<CursorError>)
      requires Valid() && current == 0
      modifies this, cursor, visitorData
      ensures Valid() && typeMap == old(typeMap)
      ensures values == ShownAll(rt, typeMap, old(seen), cursor.docs) && |values| <= |cursor.docs|
      ensures |keys| == |values| && forall i :: 0 <= i < |keys| ==> keys[i] == i
      ensures err == if |values| < |cursor.docs| then DecodingErrorOf(rt, typeMap, cursor.docs[|values|])
                     else if cursor.fails && !(old(advanced) && |cursor.docs| == 0) then Some(ServerError) else None
      ensures |values| < |cursor.docs| ==> err.Some?
      ensures session ==> old(session)
    {
      hide DecodeAll, Shown, ShownAll, SeenAfter, OdmClass, DecodingErrorOf;
      keys, values := [], [];
      ghost var all := ShownAll(rt, typeMap, seen, cursor.docs);
      assert cursor.docs[0..] == cursor.docs;
      ShownFrom(rt, typeMap, seen, cursor.docs, 0);
      err := Rewind();
      while IsValid()
        invariant Collecting(all, keys, values) && typeMap == old(typeMap) && visitorData == old(visitorData)
        invariant err == if current < |cursor.docs| then DecodingErrorOf(rt, typeMap, cursor.docs[current])
                         else if cursor.fails && !(old(advanced) && |cursor.docs| == 0) then Some(ServerError) else None
        invariant session ==> old(session)
        decreases |cursor.docs| - current, zchild.Some?
      {
        keys, values, err := Collect(all, keys, values);
      }
    }

    /** The values up to the current position have been collected. */
    ghost predicate Collecting(all: seq<Php>, keys: seq<nat>, values: seq<Php>)
      reads this, cursor, visitorData
    {
      && Valid() && advanced && current == |values| == |keys| <= |cursor.docs|
      && (zchild.Some? <==> current < |cursor.docs| && DecodingErrorOf(rt, typeMap, cursor.docs[current]) == None)
      && Remaining(all, values, zchild,
                   if current < |cursor.docs| then ShownAll(rt, typeMap, seen, cursor.docs[current + 1..]) else [])
      && forall i :: 0 <= i < |keys| ==> keys[i] == i
    }

    /** One round of toArray()'s loop. */
    method Collect(ghost all: seq<Php>, keys: seq<nat>, values: seq<Php>)
      returns (moreKeys: seq<nat>, moreValues: seq<Php>, err: Option<CursorError>)
      requires Collecting(all, keys, values) && zchild.Some?
      modifies this, cursor, visitorData
      ensures visitorData == old(visitorData) && typeMap == old(typeMap)
      ensures Collecting(all, moreKeys, moreValues) && current == old(current) + 1
      ensures session ==> old(session)
      ensures err == if current < |cursor.docs| then DecodingErrorOf(rt, typeMap, cursor.docs[current])
                     else if cursor.fails then Some(ServerError) else None
    {
      hide Shown, ShownAll, SeenAfter, OdmClass;
      ghost var was, value := seen, zchild.value;
      moreKeys, moreValues := keys + [Key().value], values + [zchild.value];
      err := Next();
      ShowsOneMore(rt, typeMap, was, cursor.docs, current, all, values, value, zchild);
    }
  }

  /** The values so far, the current one, and those to come. */
  ghost predicate Remaining(all: seq<Php>, values: seq<Php>, zchild: Option<Php>, rest: seq<Php>) {
    all == if zchild.Some? then values + ([zchild.value] + rest) else values
  }

  /** The values so far, with the current one moved to them and the next shown. */
  lemma ShowsOneMore(rt: Runtime, m: TypeMap, seen: Option<string>, docs: seq<seq<Field>>, i: nat,
                     all: seq<Php>, values: seq<Php>, value: Php, next: Option<Php>)
    requires 0 < i <= |docs| && Remaining(all, values, Some(value), ShownAll(rt, m, seen, docs[i..]))
    requires next.Some? <==> i < |docs| && DecodeAll(rt, m, docs[i], [], false).Ok?
    requires next.Some? ==> Shown(rt, m, SeenAfter(rt, m, docs[i], seen), docs[i]) == Ok(next.value)
    ensures Remaining(all, values + [value], next,
                      if i < |docs| then ShownAll(rt, m, SeenAfter(rt, m, docs[i], seen), docs[i + 1..]) else [])
  {
    hide Shown, ShownAll, SeenAfter, DecodeAll;
    ShownFrom(rt, m, seen, docs, i);
    var rest := ShownAll(rt, m, seen, docs[i..]);
    assert values + ([value] + rest) == values + [value] + rest;
    assert values + [value] + [] == values + [value];
  }

  lemma ShownFrom(rt: Runtime, m: TypeMap, seen: Option<string>, docs: seq<seq<Field>>, i: nat)
    requires i <= |docs|
    ensures i == |docs| ==> ShownAll(rt, m, seen, docs[i..]) == []
    ensures i < |docs| ==>
              var now := SeenAfter(rt, m, docs[i], seen);
              var shown := Shown(rt, m, now, docs[i]);
              && (shown.Ok? <==> DecodeAll(rt, m, docs[i], [], false).Ok?)
              && ShownAll(rt, m, seen, docs[i..])
                 == if shown.Ok? then [shown.value] + ShownAll(rt, m, now, docs[i + 1..]) else []
  {
    if i < |docs| {
      assert docs[i..][1..] == docs[i + 1..];
    }
  }

  /** Children do not depend on the type of the root. */
  lemma RootTypeIrrelevant(rt: Runtime, m: TypeMap, n: TypeMap, doc: seq<Field>, path: seq<cstring>)
    requires n == m.(rootType := n.rootType)
    ensures DecodeAll(rt, m, doc, path, false) == DecodeAll(rt, n, doc, path, false)
  {
    ChildrenDependOnPathsBelow(rt, m, n, doc, path, false);
  }

  // ----- A class at a root stays -----

  /** The class seen in an earlier document changes how a later document is shown,
      unless the type map names a native root type, or the later document names a
      class itself, or there was no earlier class, or it is the root class of the
      map anyway. */
  lemma EarlierClassMatters(rt: Runtime, m: TypeMap, earlier: Option<string>, doc: seq<Field>)
    requires DecodeAll(rt, m, doc, [], false).Ok?
    ensures Shown(rt, m, SeenAfter(rt, m, doc, earlier), doc) == DecodeRoot(rt, m, doc)
            <==> || m.rootType == NativeArray || m.rootType == NativeObject
                 || OdmClass(rt, doc).Some? || earlier.None?
                 || m.rootType == Class(earlier.value)
  {
    SeenAfterDecodable(rt, m, doc, earlier);
  }

  /** Without classes at roots, a cursor's values are those of the documents on
      their own. */
  lemma {:induction false} WithoutRootClasses(rt: Runtime, m: TypeMap, docs: seq<seq<Field>>)
    requires forall i :: 0 <= i < |docs| ==> DecodeAll(rt, m, docs[i], [], false).Ok? && OdmClass(rt, docs[i]) == None
    ensures |ShownAll(rt, m, None, docs)| == |docs|
    ensures forall i :: 0 <= i < |docs| ==> DecodeRoot(rt, m, docs[i]) == Ok(ShownAll(rt, m, None, docs)[i])
  {
    if |docs| > 0 {
      SeenAfterDecodable(rt, m, docs[0], None);
      WithoutRootClasses(rt, m, docs[1..]);
    }
  }

  /** With the default map, a cursor over a document that names class `cls` and an
      empty one shows both as objects of that class, although the second on its own
      decodes as stdClass. */
  lemma ClassLeaksIntoNextDocument(rt: Runtime, cls: string)
    requires rt.persistable(cls)
    ensures ShownAll(rt, DEFAULT_MAP, None, [[OdmField(cls)], []])
            == [Instance(cls, PhpArray([OdmBucket(cls)])), Instance(cls, PhpArray([]))]
    ensures DecodeRoot(rt, DEFAULT_MAP, []) == Ok(PhpObject([]))
  {
    var first, docs: seq<seq<Field>> := [OdmField(cls)], [[OdmField(cls)], []];
    OdmFieldDecodes(rt, cls, []);
    SeenAfterDecodable(rt, DEFAULT_MAP, first, None);
    assert docs[1..] == [[]];
    assert ShownAll(rt, DEFAULT_MAP, Some(cls), [[]]) == [Instance(cls, PhpArray([]))];
    assert ToProps([]) == [];
  }
}
