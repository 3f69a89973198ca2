/**
 Type maps: which PHP type a BSON document or array becomes, by default and for
 single field paths (src/bson.c).
 */
module TypeMaps {
  import opened Keys
  import opened FieldPaths
  import opened Values

  datatype TypeKind = Unset | NativeArray | NativeObject | Class(name: string)

  datatype PathEntry = PathEntry(segments: seq<cstring>, kind: TypeKind)

  datatype TypeMap = TypeMap(rootType: TypeKind, documentType: TypeKind, arrayType: TypeKind, fieldPaths: seq<PathEntry>)

  const DEFAULT_MAP := TypeMap(Unset, Unset, Unset, [])

  /** A stored path matches a path of the same length, segment by segment; "$"
      matches any key. */
  predicate Matches(segments: seq<cstring>, path: seq<cstring>) {
    && |segments| == |path|
    && forall i :: 0 <= i < |path| ==> segments[i] == "$" || segments[i] == path[i]
  }

  /** Segment by segment, from the front. */
  lemma MatchesStep(segment: cstring, segments: seq<cstring>, key: cstring, path: seq<cstring>)
    ensures Matches([segment] + segments, [key] + path) <==> (segment == "$" || segment == key) && Matches(segments, path)
    ensures Matches([], []) && !Matches([segment] + segments, []) && !Matches([], [key] + path)
  {
    var s, p := [segment] + segments, [key] + path;
    assert s[1..] == segments && p[1..] == path;
    assert forall i :: 0 <= i < |segments| ==> segments[i] == s[i + 1];
    assert forall i :: 0 <= i < |path| ==> path[i] == p[i + 1];
    assert s[0] == segment && p[0] == key;
  }

  /** The kind the field paths ask for at `path`: the first matching entry's. */
  function Override(entries: seq<PathEntry>, path: seq<cstring>): TypeKind {
    if |entries| == 0 then Unset
    else if Matches(entries[0].segments, path) then entries[0].kind
    else Override(entries[1..], path)
  }

  /** The index of the first entry that matches, or their number. */
  function FirstMatch(entries: seq<PathEntry>, path: seq<cstring>): (i: nat)
    ensures i <= |entries| && (i < |entries| ==> Matches(entries[i].segments, path))
    ensures forall j :: 0 <= j < i ==> !Matches(entries[j].segments, path)
  {
    if |entries| == 0 || Matches(entries[0].segments, path) then 0 else 1 + FirstMatch(entries[1..], path)
  }

  /** The kind of the node at `path`, given the default for its sort of node. */
  function KindAt(entries: seq<PathEntry>, path: seq<cstring>, default: TypeKind): TypeKind {
    var o := Override(entries, path);
    if o == Unset then default else o
  }

  lemma {:induction false} OverrideIsFirstMatch(entries: seq<PathEntry>, path: seq<cstring>, i: nat)
    requires i < |entries| && Matches(entries[i].segments, path)
    requires forall j :: 0 <= j < i ==> !Matches(entries[j].segments, path)
    ensures Override(entries, path) == entries[i].kind
  {
    if i > 0 {
      OverrideIsFirstMatch(entries[1..], path, i - 1);
    }
  }

  lemma {:induction false} OverrideOfNoMatch(entries: seq<PathEntry>, path: seq<cstring>)
    requires forall j :: 0 <= j < |entries| ==> !Matches(entries[j].segments, path)
    ensures Override(entries, path) == Unset
  {
    if |entries| > 0 {
      OverrideOfNoMatch(entries[1..], path);
    }
  }

  /** Compares a stored path with the path the visitors are at. */
  method MapElementMatchesFieldPath(entry: PathEntry, current: FieldPath) returns (matches: bool)
    requires current.Valid()
    ensures matches <==> Matches(entry.segments, current.keys)
  {
    if |entry.segments| != current.size {
      return false;
    }
    var i := 0;
    while i < current.size
      invariant 0 <= i <= current.size
      invariant forall j :: 0 <= j < i ==> entry.segments[j] == "$" || entry.segments[j] == current.keys[j]
    {
      if entry.segments[i] != "$" && Some(entry.segments[i]) != current.elements[i] {
        assert entry.segments[i] != current.keys[i];
        return false;
      }
      i := i + 1;
    }
    matches := true;
  }

  /** The first entry that matches the current path. */
  method MapFindFieldPathEntry(map_: TypeMap, current: FieldPath) returns (found: Option<PathEntry>)
    requires current.Valid()
    ensures (if found.Some? then found.value.kind else Unset) == Override(map_.fieldPaths, current.keys)
    ensures var i := FirstMatch(map_.fieldPaths, current.keys);
            found == if i < |map_.fieldPaths| then Some(map_.fieldPaths[i]) else None
  {
    var i := 0;
    while i < |map_.fieldPaths|
      invariant 0 <= i <= |map_.fieldPaths|
      invariant forall j :: 0 <= j < i ==> !Matches(map_.fieldPaths[j].segments, current.keys)
    {
      var matches := MapElementMatchesFieldPath(map_.fieldPaths[i], current);
      if matches {
        OverrideIsFirstMatch(map_.fieldPaths, current.keys, i);
        assert FirstMatch(map_.fieldPaths, current.keys) == i;
        return Some(map_.fieldPaths[i]);
      }
      i := i + 1;
    }
    OverrideOfNoMatch(map_.fieldPaths, current.keys);
    found := None;
  }

  /** The type a compound node gets: an entry replaces the default, unless it
      leaves the type unset. */
  method HandleFieldPathEntryForCompoundType(map_: TypeMap, current: FieldPath, default: TypeKind) returns (kind: TypeKind)
    requires current.Valid()
    ensures kind == KindAt(map_.fieldPaths, current.keys, default)
  {
    kind := default;
    var entry := MapFindFieldPathEntry(map_, current);
    if entry.Some? {
      match entry.value.kind {
        case NativeArray => kind := NativeArray;
        case NativeObject => kind := NativeObject;
        case Class(name) => kind := Class(name);
        case Unset =>
      }
    }
  }

  // ----- Parsing the keys of the "fieldPaths" option -----

  datatype FieldPathError = StartsWithDot | EndsWithDot | EmptySegment

  /** strchr(s, '.'): the index of the first dot, or |s|. */
  function FirstDot(s: string): (i: nat)
    ensures i <= |s| && (i < |s| ==> s[i] == '.')
    ensures forall j :: 0 <= j < i ==> s[j] != '.'
  {
    if |s| == 0 || s[0] == '.' then 0 else 1 + FirstDot(s[1..])
  }

  /** The segments of a dotted path. */
  function Split(s: cstring): (segments: seq<cstring>)
    ensures |segments| > 0
  {
    var dot := FirstDot(s);
    if dot == |s| then [s] else [s[..dot]] + Split(s[dot + 1..])
  }

  lemma {:induction false} JoinCons(first: cstring, rest: seq<cstring>)
    requires |rest| > 0
    ensures Join([first] + rest) == first + "." + Join(rest)
  {
    var keys := [first] + rest;
    assert keys[..|keys| - 1] == [first] + rest[..|rest| - 1];
    if |rest| > 1 {
      JoinCons(first, rest[..|rest| - 1]);
    }
  }

  lemma CutAt(s: string, i: nat)
    requires i < |s|
    ensures s == s[..i] + [s[i]] + s[i + 1..]
  {
  }

  /** The first segment of a key with dots, and the rest. */
  lemma SplitAtDot(s: cstring) returns (first: cstring, rest: cstring)
    requires FirstDot(s) < |s|
    ensures first == s[..FirstDot(s)] && rest == s[FirstDot(s) + 1..]
    ensures Split(s) == [first] + Split(rest) && s == first + "." + rest && |rest| < |s|
  {
    var dot := FirstDot(s);
    first, rest := s[..dot], s[dot + 1..];
    CutAt(s, dot);
  }

  /** Parsing loses nothing: the segments joined with dots are the key. */
  lemma {:induction false} JoinOfSplit(s: cstring)
    ensures Join(Split(s)) == s
    decreases |s|
  {
    if FirstDot(s) < |s| {
      hide Join, Split;
      var first, rest := SplitAtDot(s);
      JoinOfSplit(rest);
      JoinCons(first, Split(rest));
    }
  }

  lemma FirstDotAfter(first: cstring, tail: string)
    requires '.' !in first
    ensures FirstDot(first + "." + tail) == |first|
  {
    var s := first + "." + tail;
    assert s[|first|] == '.';
    assert forall j :: 0 <= j < |first| ==> s[j] == first[j] && s[j] in first;
  }

  /** Every list of dot-free segments is reached by parsing its join. */
  lemma {:induction false} SplitOfJoin(segments: seq<cstring>)
    requires |segments| > 0 && forall i :: 0 <= i < |segments| ==> '.' !in segments[i]
    ensures '\0' !in Join(segments) && Split(Join(segments)) == segments
  {
    if |segments| == 1 {
      assert segments == [segments[0]];
      assert forall i :: 0 <= i < |segments[0]| ==> segments[0][i] in segments[0];
    } else {
      var first, rest := segments[0], segments[1..];
      assert segments == [first] + rest;
      SplitOfJoin(rest);
      JoinCons(first, rest);
      FirstDotAfter(first, Join(rest));
      var s := Join(segments);
      assert s[..|first|] == first && s[|first| + 1..] == Join(rest);
    }
  }

  lemma {:induction false} LastSegment(s: cstring)
    requires |s| > 0 && s[|s| - 1] == '.'
    ensures "" in Split(s)
  {
    var tail := s[FirstDot(s) + 1..];
    if tail == "" {
      assert Split(tail) == [""] && Split(s)[1] == "";
    } else {
      LastSegment(tail);
    }
  }

  predicate NoneEmpty(segments: seq<cstring>) {
    forall i :: 0 <= i < |segments| ==> segments[i] != ""
  }

  predicate WellFormedPath(s: cstring) {
    NoneEmpty(Split(s))
  }

  /** No dot at either end, and no two dots in a row. */
  predicate DotsSeparate(s: string) {
    && |s| > 0 && s[0] != '.' && s[|s| - 1] != '.'
    && forall i :: 0 < i < |s| ==> !(s[i - 1] == '.' && s[i] == '.')
  }

  /** These are the keys whose segments are all non-empty. */
  lemma {:induction false} WellFormedIffDotsSeparate(s: cstring)
    ensures WellFormedPath(s) <==> DotsSeparate(s)
    decreases |s|
  {
    var dot := FirstDot(s);
    if dot == |s| {
      assert Split(s) == [s] && [s][0] == s;
    } else {
      hide Split, DotsSeparate, NoneEmpty;
      var first, rest := SplitAtDot(s);
      WellFormedIffDotsSeparate(rest);
      NoneEmptyCons(first, Split(rest));
      DotsSeparateFurther(s, dot);
    }
  }

  lemma NoneEmptyCons(first: cstring, rest: seq<cstring>)
    ensures NoneEmpty([first] + rest) <==> first != "" && NoneEmpty(rest)
  {
    var all := [first] + rest;
    assert all[0] == first && forall i :: 0 <= i < |rest| ==> rest[i] == all[i + 1];
  }

  lemma DotsSeparateFurther(s: string, dot: nat)
    requires dot < |s| && s[dot] == '.' && forall i :: 0 <= i < dot ==> s[i] != '.'
    ensures DotsSeparate(s) <==> dot > 0 && DotsSeparate(s[dot + 1..])
  {
    var rest := s[dot + 1..];
    assert forall i :: 0 <= i < |rest| ==> rest[i] == s[dot + 1 + i];
    if dot > 0 && DotsSeparate(rest) {
      forall i | 0 < i < |s| ensures !(s[i - 1] == '.' && s[i] == '.') {
        if i > dot + 1 {
          assert s[i - 1] == rest[i - dot - 2] && s[i] == rest[i - dot - 1];
        } else if i == dot + 1 {
          assert s[i] == rest[0];
        }
      }
      assert s[|s| - 1] == rest[|rest| - 1];
    }
    if DotsSeparate(s) {
      forall i | 0 < i < |rest| ensures !(rest[i - 1] == '.' && rest[i] == '.') {
        assert !(s[dot + i] == '.' && s[dot + 1 + i] == '.');
      }
    }
  }

  /** Adds an entry for a non-empty key to the map: exactly when every segment is
      non-empty, with exactly the key's segments. */
  method AddFieldPath(map_: TypeMap, key: cstring, kind: TypeKind) returns (r: Result<TypeMap, FieldPathError>)
    requires |key| > 0
    ensures r.Ok? <==> WellFormedPath(key)
    ensures r.Ok? <==> forall i :: 0 <= i < |Split(key)| ==> Split(key)[i] != ""
    ensures r == Err(StartsWithDot) <==> key[0] == '.'
    ensures r == Err(EndsWithDot) <==> key[0] != '.' && key[|key| - 1] == '.'
    ensures r.Ok? ==> r.value == map_.(fieldPaths := map_.fieldPaths + [PathEntry(Split(key), kind)])
  {
    if key[0] == '.' {
      assert key[..0] == Split(key)[0];
      return Err(StartsWithDot);
    }
    if key[|key| - 1] == '.' {
      LastSegment(key);
      return Err(EndsWithDot);
    }
    var segments: seq<cstring> := [];
    var ptr := key;
    var end := FirstDot(ptr);
    while end < |ptr|
      invariant end == FirstDot(ptr)
      invariant Split(key) == segments + Split(ptr)
      invariant NoneEmpty(segments)
      invariant |ptr| > 0 && ptr[|ptr| - 1] != '.'
      decreases |ptr|
    {
      if end == 0 {
        assert ptr[..0] == Split(ptr)[0] == Split(key)[|segments|];
        return Err(EmptySegment);
      }
      ghost var tail := Split(ptr[end + 1..]);
      assert segments + ([ptr[..end]] + tail) == segments + [ptr[..end]] + tail;
      segments := segments + [ptr[..end]];
      ptr := ptr[end + 1..];
      end := FirstDot(ptr);
    }
    segments := segments + [ptr];
    r := Ok(map_.(fieldPaths := map_.fieldPaths + [PathEntry(segments, kind)]));
  }
}
