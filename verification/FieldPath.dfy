/**
 The growable path of keys that encoder and decoder share while they descend
 (src/bson.c).
 */
module FieldPaths {
  import opened Keys

  datatype ItemType = ItemNone | ItemArray | ItemDocument

  const EXPANSION: nat := 8

  /** The keys of a path that are set, in order. */
  function Present(items: seq<Option<cstring>>): (r: seq<cstring>)
    ensures |r| <= |items|
  {
    if |items| == 0 then []
    else
      var front := Present(items[..|items| - 1]);
      match items[|items| - 1]
      case None => front
      case Some(k) => front + [k]
  }

  /** Keys joined with dots: what an error message calls the field path. */
  function Join(keys: seq<cstring>): string {
    if |keys| == 0 then ""
    else if |keys| == 1 then keys[0]
    else Join(keys[..|keys| - 1]) + "." + keys[|keys| - 1]
  }

  /** Keys each followed by a dot: what the copying loop produces. */
  function Dotted(keys: seq<cstring>): string {
    if |keys| == 0 then "" else Dotted(keys[..|keys| - 1]) + keys[|keys| - 1] + "."
  }

  lemma {:induction false} DottedIsJoin(keys: seq<cstring>)
    requires |keys| > 0
    ensures Dotted(keys) == Join(keys) + "."
  {
    if |keys| > 1 {
      DottedIsJoin(keys[..|keys| - 1]);
    }
  }

  lemma {:induction false} PresentOfSet(items: seq<Option<cstring>>, keys: seq<cstring>)
    requires |items| == |keys|
    requires forall i :: 0 <= i < |items| ==> items[i] == Some(keys[i])
    ensures Present(items) == keys
  {
    if |items| > 0 {
      PresentOfSet(items[..|items| - 1], keys[..|keys| - 1]);
    }
  }

  lemma {:induction false} PresentOfPrefix(items: seq<Option<cstring>>, n: nat)
    requires n <= |items|
    ensures |Dotted(Present(items[..n]))| <= |Dotted(Present(items))|
    ensures Present(items[..n]) <= Present(items)
  {
    if n < |items| {
      assert items[..|items| - 1][..n] == items[..n];
      PresentOfPrefix(items[..|items| - 1], n);
      if items[|items| - 1].Some? {
        var all := Present(items);
        assert all[..|all| - 1] == Present(items[..|items| - 1]);
      }
    } else {
      assert items[..n] == items;
    }
  }

  /** strcpy(): copies `s` and its terminator to `buffer` from `at` on. */
  method StrCpy(buffer: array<char>, at: nat, s: cstring)
    requires at + |s| < buffer.Length
    modifies buffer
    ensures buffer[..at] == old(buffer[..at])
    ensures buffer[at..at + |s|] == s && buffer[at + |s|] == '\0'
  {
    var i := 0;
    while i < |s|
      invariant 0 <= i <= |s|
      invariant buffer[..at] == old(buffer[..at])
      invariant buffer[at..at + i] == s[..i]
    {
      buffer[at + i] := s[i];
      i := i + 1;
    }
    buffer[at + |s|] := '\0';
    assert s[..i] == s;
  }

  /** One more slot adds its key and a dot, if it is set. */
  lemma DottedStep(items: seq<Option<cstring>>, i: nat)
    requires i < |items|
    ensures Dotted(Present(items[..i + 1])) ==
            Dotted(Present(items[..i])) + if items[i].Some? then items[i].value + "." else ""
  {
    assert items[..i + 1][..i] == items[..i];
    if items[i].Some? {
      assert Present(items[..i + 1])[..|Present(items[..i])|] == Present(items[..i]);
    }
  }

  lemma DottedOfNone(items: seq<Option<cstring>>)
    requires items == []
    ensures Dotted(Present(items)) == ""
  {
  }

  /** The buffer size: every set key with a dot, and a terminator. */
  method JoinedLength(elements: array<Option<cstring>>, count: nat) returns (length: nat)
    requires count <= elements.Length
    ensures length == 1 + |Dotted(Present(elements[..count]))|
  {
    length := 1;
    var i := 0;
    while i < count
      invariant 0 <= i <= count
      invariant length == 1 + |Dotted(Present(elements[..i]))|
    {
      DottedStep(elements[..], i);
      assert elements[..][..i] == elements[..i] && elements[..][..i + 1] == elements[..i + 1];
      if elements[i].Some? {
        length := length + 1 + |elements[i].value|;
      }
      i := i + 1;
    }
  }

  /** One key and its dot. The dot takes the terminator's place. */
  method CopyKey(buffer: array<char>, at: nat, key: cstring) returns (ptr: nat)
    requires at + |key| < buffer.Length
    modifies buffer
    ensures ptr == at + |key| + 1
    ensures buffer[..ptr] == old(buffer[..at]) + (key + ".")
  {
    StrCpy(buffer, at, key);
    assert buffer[..at + |key|] == buffer[..at] + buffer[at..at + |key|];
    ghost var copied := buffer[..at + |key|];
    buffer[at + |key|] := '.';
    ptr := at + |key| + 1;
    assert buffer[..ptr] == copied + ".";
  }

  /** Copies every set key and a dot into a buffer of that size; no write leaves
      the buffer. */
  method CopyKeys(elements: array<Option<cstring>>, count: nat, buffer: array<char>) returns (ptr: nat)
    requires count <= elements.Length
    requires buffer.Length == 1 + |Dotted(Present(elements[..count]))|
    modifies buffer
    ensures ptr == buffer.Length - 1
    ensures buffer[..ptr] == Dotted(Present(elements[..count]))
  {
    hide Dotted, Present;
    ghost var items := elements[..count];
    ptr := 0;
    var i := 0;
    DottedOfNone(items[..0]);
    while i < count
      invariant 0 <= i <= count
      invariant ptr == |Dotted(Present(items[..i]))| < buffer.Length
      invariant buffer[..ptr] == Dotted(Present(items[..i]))
    {
      DottedStep(items, i);
      PresentOfPrefix(items, i + 1);
      if elements[i].Some? {
        ptr := CopyKey(buffer, ptr, elements[i].value);
      }
      i := i + 1;
    }
    assert items[..i] == items;
  }

  class FieldPath {
    var elements: array<Option<cstring>>
    var elementTypes: array<ItemType>
    var capacity: nat
    var size: nat
    var refCount: nat
    ghost var keys: seq<cstring>  // the keys below the current level
    ghost var Repr: set<object>

    /** `size` never exceeds the allocation, and the slots below it hold `keys`. */
    ghost predicate Valid()
      reads this, Repr
      ensures Valid() ==> this in Repr
    {
      && this in Repr && elements in Repr && elementTypes in Repr
      && elements.Length == capacity && elementTypes.Length == capacity
      && |keys| == size <= capacity
      && forall i :: 0 <= i < size ==> elements[i] == Some(keys[i])
    }

    /** The key written at the current level, if any. */
    ghost function Current(): Option<cstring>
      requires Valid()
      reads this, Repr
    {
      if size < capacity then elements[size] else None
    }

    constructor ()
      ensures Valid() && fresh(Repr)
      ensures keys == [] && refCount == 1 && capacity == 0
    {
      elements := new Option<cstring>[0];
      elementTypes := new ItemType[0];
      capacity, size, refCount, keys := 0, 0, 1, [];
      new;
      Repr := {this, elements, elementTypes};
    }

    /** Renders the path. Slots up to and including `size` are read, and at
        least one of them must be set once anything is allocated. */
    method AsString() returns (path: string)
      requires Valid()
      requires capacity > 0 ==> size < capacity && |Present(elements[..size + 1])| > 0
      ensures path == if capacity == 0 then "" else Join(Present(elements[..size + 1]))
    {
      if capacity == 0 {
        return "";
      }
      var length := JoinedLength(elements, size + 1);
      var buffer := new char[length];
      var ptr := CopyKeys(elements, size + 1, buffer);
      DottedIsJoin(Present(elements[..size + 1]));
      buffer[ptr - 1] := '\0';
      path := buffer[..ptr - 1];
    }

    /** Makes room for `level`, keeping what is stored and clearing what is added. */
    method EnsureAllocation(level: nat)
      requires Valid() && level == size
      modifies Repr
      ensures Valid() && fresh(Repr - old(Repr))
      ensures size == old(size) && refCount == old(refCount) && size < capacity
      ensures capacity == if old(size) < old(capacity) then old(capacity) else old(size) + EXPANSION
      ensures keys == old(keys) && Current() == old(Current())
      ensures forall i :: size < i < old(capacity) ==> elements[i] == old(elements[i])
      ensures forall i :: 0 <= i < old(capacity) ==> elementTypes[i] == old(elementTypes[i])
      ensures forall i :: old(capacity) <= i < capacity ==> elements[i] == None && elementTypes[i] == ItemNone
    {
      if level >= capacity {
        var more := size + EXPANSION;
        var newElements := new Option<cstring>[more](_ => None);
        var newTypes := new ItemType[more](_ => ItemNone);
        forall i | 0 <= i < capacity {
          newElements[i] := elements[i];
        }
        forall i | 0 <= i < capacity {
          newTypes[i] := elementTypes[i];
        }
        elements, elementTypes, capacity := newElements, newTypes, more;
        Repr := {this, elements, elementTypes};
      }
    }

    method WriteItemAtCurrentLevel(element: cstring)
      requires Valid()
      modifies Repr
      ensures Valid() && fresh(Repr - old(Repr))
      ensures size == old(size) && refCount == old(refCount) && size < capacity
      ensures keys == old(keys) && Current() == Some(element)
    {
      EnsureAllocation(size);
      elements[size] := Some(element);
    }

    method WriteTypeAtCurrentLevel(elementType: ItemType)
      requires Valid()
      modifies Repr
      ensures Valid() && fresh(Repr - old(Repr))
      ensures size == old(size) && refCount == old(refCount) && size < capacity
      ensures keys == old(keys) && Current() == old(Current())
      ensures elementTypes[size] == elementType
    {
      EnsureAllocation(size);
      elementTypes[size] := elementType;
    }

    method Push(element: cstring, elementType: ItemType)
      requires Valid()
      modifies Repr
      ensures Valid() && fresh(Repr - old(Repr))
      ensures refCount == old(refCount)
      ensures keys == old(keys) + [element]
      ensures elementTypes[size - 1] == elementType
    {
      WriteItemAtCurrentLevel(element);
      WriteTypeAtCurrentLevel(elementType);
      size, keys := size + 1, keys + [element];
    }

    method Pop()
      requires Valid() && size > 0
      modifies Repr
      ensures Valid() && fresh(Repr - old(Repr))
      ensures refCount == old(refCount) && size < capacity
      ensures keys == old(keys)[..old(size) - 1] && Current() == None
    {
      EnsureAllocation(size);
      elements[size] := None;
      elementTypes[size] := ItemNone;
      size, keys := size - 1, keys[..size - 1];
      elements[size] := None;
      elementTypes[size] := ItemNone;
    }

    /** size++: the encoder descends below the key it has just written. */
    method Descend()
      requires Valid() && Current().Some?
      modifies `size, `keys
      ensures Valid() && size == old(size) + 1 && keys == old(keys) + [old(Current()).value]
    {
      size, keys := size + 1, keys + [elements[size].value];
    }

    /** size--: the encoder is back, leaving the key in its slot. */
    method Ascend()
      requires Valid() && size > 0
      modifies `size, `keys
      ensures Valid() && size == old(size) - 1 && keys == old(keys)[..size]
      ensures Current() == Some(old(keys)[size])
    {
      size, keys := size - 1, keys[..size - 1];
    }
  }
}
