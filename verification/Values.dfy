/**
 The two value worlds the codec connects: BSON trees as libbson hands them to
 the visitors, and PHP values.
 */
module Values {
  import opened Keys

  type int32 = i: int | -0x8000_0000 <= i <= 0x7FFF_FFFF

  /** BSON element values. Doubles and decimals are carried as bit patterns, an
      ObjectId by its hexadecimal form, binary data as a byte string. */
  datatype Bson =
    | Double(bits: nat)
    | Utf8(text: string)
    | Document(fields: seq<Entry<cstring, Bson>>)
    | Array(elements: seq<Entry<cstring, Bson>>)
    | Binary(subtype: nat, bytes: string)
    | Undefined
    | ObjectId(oid: string)
    | Bool(b: bool)
    | DateTime(millis: int64)
    | Null
    | Regex(pattern: string, options: string)
    | DBPointer(ref: string, oid: string)
    | Code(code: string)
    | Symbol(symbol: string)
    | CodeWithScope(code: string, scope: seq<Entry<cstring, Bson>>)
    | Int32(i32: int32)
    | Timestamp(seconds: nat, increment: nat)
    | Int64(i64: int64)
    | Decimal128(decimal: nat)
    | MaxKey
    | MinKey
    | Unsupported(typeCode: nat)

  type Field = Entry<cstring, Bson>

  /** Instances of the driver's own BSON classes. */
  datatype TypeObject =
    | BinaryObj(data: string, subtype: nat)
    | UndefinedObj
    | ObjectIdObj(oid: string)
    | UTCDateTimeObj(millis: int64)
    | RegexObj(pattern: string, flags: string)
    | DBPointerObj(ref: string, id: string)
    | JavascriptObj(code: string, scope: Option<seq<Field>>)
    | SymbolObj(symbol: string)
    | TimestampObj(increment: nat, timestamp: nat)
    | Int64Obj(integer: int64)
    | Decimal128Obj(decimal: nat)
    | MaxKeyObj
    | MinKeyObj

  /** PHP values as finite trees. An object of a user class is its class name
      and the array or stdClass it was unserialised from, which is also what its
      bsonSerialize() returns. */
  datatype Php =
    | PhpNull
    | PhpBool(b: bool)
    | PhpLong(i: int64)
    | PhpDouble(bits: nat)
    | PhpString(s: string)
    | PhpArray(entries: seq<Entry<Key, Php>>)
    | PhpObject(props: seq<Entry<Key, Php>>)
    | Typed(obj: TypeObject)
    | Instance(cls: string, data: Php)
    | PhpResource

  type Bucket = Entry<Key, Php>

  /** What the codec asks of the PHP runtime: which class names resolve to an
      instantiable class implementing Persistable, which implement Serializable,
      and which byte strings are valid UTF-8. */
  datatype Runtime = Runtime(
    persistable: string -> bool,
    serializable: string -> bool,
    validUtf8: string -> bool)

  datatype Result<+T, +E> = Ok(value: T) | Err(error: E) {
    predicate IsFailure() {
      Err?
    }

    function PropagateFailure<U>(): Result<U, E>
      requires Err?
    {
      Err(error)
    }

    function Extract(): T
      requires Ok?
    {
      value
    }
  }

  const ODM_FIELD_NAME: cstring := "__pclass"
  const ODM_SUBTYPE: nat := 0x80

  function Last(fields: seq<Field>): (last: Field)
    requires |fields| > 0
    ensures last == fields[|fields| - 1]
    ensures (fields decreases to last.value)
  {
    assert (fields decreases to fields[|fields| - 1]);
    fields[|fields| - 1]
  }

  function Front<T>(s: seq<T>): seq<T>
    requires |s| > 0
  {
    s[..|s| - 1]
  }
}
