/**
 Merging URI options into the write concern and the read preference of a URI
 (php_phongo.c).
 */
module UriOptions {
  import opened Keys
  import opened Values

  /** tolower() on ASCII. */
  function LowerChar(c: char): char {
    if 'A' <= c <= 'Z' then c + 32 as char else c
  }

  /** strcasecmp() == 0 on ASCII. */
  predicate Is(key: string, name: string) {
    |key| == |name| && forall i :: 0 <= i < |key| ==> LowerChar(key[i]) == LowerChar(name[i])
  }

  /** The same letter, in either case, or the same character. */
  predicate SameLetter(c: char, d: char) {
    || c == d
    || ('A' <= c <= 'Z' && 'a' <= d <= 'z' && d as int - c as int == 32)
    || ('A' <= d <= 'Z' && 'a' <= c <= 'z' && c as int - d as int == 32)
  }

  predicate SameButCase(s: string, t: string) {
    |s| == |t| && forall i :: 0 <= i < |s| ==> SameLetter(s[i], t[i])
  }

  /** Names are compared up to the case of letters. */
  lemma Spellings(s: string)
    ensures forall name :: Is(s, name) <==> SameButCase(s, name)
  {
    forall name ensures Is(s, name) <==> SameButCase(s, name) {
      if |s| == |name| {
        forall i | 0 <= i < |s| ensures LowerChar(s[i]) == LowerChar(name[i]) <==> SameLetter(s[i], name[i]) {
          assert s[i] == name[i] || s[i] != name[i];
        }
      }
    }
  }

  // ----- Write concern -----

  datatype W = Number(n: int) | Majority | Tag(tag: string)

  datatype WriteConcern = WriteConcern(w: W, wtimeout: int, journal: Option<bool>)

  const UNACKNOWLEDGED: int := 0
  const ERRORS_IGNORED: int := -1

  datatype UriError =
    | InvalidType(key: string)
    | NegativeTimeout
    | UnsupportedW
    | JournalConflict
    | InvalidWriteConcern
    | UnsupportedMode
    | InvalidTags
    | StalenessOutOfRange
    | PrimaryWithStaleness
    | PrimaryWithTags
    | InvalidReadPreference

  predicate IsUnacknowledged(w: W) {
    w == Number(UNACKNOWLEDGED) || w == Number(ERRORS_IGNORED)
  }

  /** mongoc_write_concern_is_valid() */
  predicate WriteConcernValid(wc: WriteConcern) {
    wc.wtimeout >= 0 && !(wc.journal == Some(true) && IsUnacknowledged(wc.w))
  }

  predicate IsInteger(v: Bson) {
    v.Int32? || v.Int64?
  }

  function AsInt64(v: Bson): int
    requires IsInteger(v)
  {
    if v.Int32? then v.i32 else v.i64
  }

  /** The value a "w" option asks for. */
  function WOf(v: Bson): Option<W> {
    match v
    case Int32(n) => if n >= ERRORS_IGNORED then Some(Number(n)) else None
    case Utf8(s) => Some(if Is(s, "majority") then Majority else Tag(s))
    case _ => None
  }

  function SafeW(b: bool): W {
    Number(if b then 1 else UNACKNOWLEDGED)
  }

  // ----- Read preference -----

  datatype Mode = Primary | PrimaryPreferred | Secondary | SecondaryPreferred | Nearest

  /** `maxStaleness` is -1 for none. */
  datatype ReadPrefs = ReadPrefs(mode: Mode, tags: seq<Field>, maxStaleness: int)

  const NO_MAX_STALENESS: int := -1
  const SMALLEST_MAX_STALENESS_SECONDS: int := 90
  const INT32_MAX: int := 0x7FFF_FFFF

  function ModeOf(s: string): Option<Mode> {
    if Is(s, "primary") then Some(Primary)
    else if Is(s, "primarypreferred") then Some(PrimaryPreferred)
    else if Is(s, "secondary") then Some(Secondary)
    else if Is(s, "secondarypreferred") then Some(SecondaryPreferred)
    else if Is(s, "nearest") then Some(Nearest)
    else None
  }

  /** mongoc_read_prefs_is_valid() */
  predicate ReadPrefsValid(rp: ReadPrefs) {
    && (rp.mode == Primary ==> rp.tags == [] && rp.maxStaleness == NO_MAX_STALENESS)
    && (rp.maxStaleness == NO_MAX_STALENESS || rp.maxStaleness > 0)
  }

  /** Tag sets are documents. */
  predicate TagsValid(tags: seq<Field>) {
    forall i :: 0 <= i < |tags| ==> tags[i].value.Document?
  }

  predicate StalenessInRange(n: int) {
    n == NO_MAX_STALENESS || SMALLEST_MAX_STALENESS_SECONDS <= n <= INT32_MAX
  }

  /** The URI as far as the merges change it. */
  class Uri {
    var writeConcern: WriteConcern
    var readPrefs: ReadPrefs

    constructor (wc: WriteConcern, rp: ReadPrefs)
      ensures writeConcern == wc && readPrefs == rp
    {
      writeConcern, readPrefs := wc, rp;
    }

    /** php_phongo_apply_wc_options_to_uri() */
    method ApplyWcOptions(options: seq<Field>) returns (err: Option<UriError>)
      modifies `writeConcern
      ensures err.Some? ==> writeConcern == old(writeConcern)
      ensures err.None? && options == [] ==> writeConcern == old(writeConcern)
      ensures err.None? && options != [] ==>
                writeConcern == MergedWriteConcern(options, old(writeConcern)) && WriteConcernValid(writeConcern)
      ensures options != [] ==>
                var merged := MergedWriteConcern(options, old(writeConcern));
                var conflict := merged.journal == Some(true) && (merged.w == Number(0) || merged.w == Number(-1));
                && (err.None? <==> WcOptionsOk(options) && !conflict && merged.wtimeout >= 0)
                && (WcOptionsOk(options) && conflict ==> err == Some(JournalConflict))
                && (WcOptionsOk(options) && !conflict && merged.wtimeout < 0 ==> err == Some(InvalidWriteConcern))
      ensures err == if options == [] then None
                     else if WcFirstError(options).Some? then WcFirstError(options)
                     else WcConflict(MergedWriteConcern(options, old(writeConcern)))
    {
      if |options| == 0 {
        return None;
      }
      WcOkIffNoError(options);
      var newWc := writeConcern;
      var ignoreSafe := false;
      var i := 0;
      while i < |options|
        invariant 0 <= i <= |options| && writeConcern == old(writeConcern)
        invariant WcFirstError(options[..i]).None? && (ignoreSafe <==> LastW(options[..i]).Some?)
        invariant newWc == MergedWriteConcern(options[..i], writeConcern)
      {
        var key, v := options[i].key, options[i].value;
        WcStep(options, i);
        if !ignoreSafe && Is(key, "safe") {
          if !v.Bool? {
            return Some(InvalidType(key));
          }
          newWc := newWc.(w := SafeW(v.b));
        }
        if Is(key, "wtimeoutms") {
          if !IsInteger(v) {
            return Some(InvalidType(key));
          }
          if AsInt64(v) < 0 {
            return Some(NegativeTimeout);
          }
          newWc := newWc.(wtimeout := AsInt64(v));
        }
        if Is(key, "journal") {
          if !v.Bool? {
            return Some(InvalidType(key));
          }
          newWc := newWc.(journal := Some(v.b));
        }
        if Is(key, "w") {
          match v {
            case Int32(n) =>
              if n == ERRORS_IGNORED || n == UNACKNOWLEDGED || n > 0 {
                newWc := newWc.(w := Number(n));
              } else {
                return Some(UnsupportedW);
              }
            case Utf8(s) =>
              newWc := newWc.(w := if Is(s, "majority") then Majority else Tag(s));
            case _ =>
              return Some(InvalidType(key));
          }
          ignoreSafe := true;
        }
        i := i + 1;
      }
      assert options[..i] == options;
      if newWc.journal == Some(true) && IsUnacknowledged(newWc.w) {
        return Some(JournalConflict);
      }
      if !WriteConcernValid(newWc) {
        return Some(InvalidWriteConcern);
      }
      writeConcern := newWc;
      err := None;
    }

    /** php_phongo_apply_rp_options_to_uri() */
    method ApplyRpOptions(options: seq<Field>) returns (err: Option<UriError>)
      modifies `readPrefs
      ensures err.Some? ==> readPrefs == old(readPrefs)
      ensures err.None? && options == [] ==> readPrefs == old(readPrefs)
      ensures err.None? && options != [] ==> readPrefs == MergedReadPrefs(options, old(readPrefs)) && ReadPrefsValid(readPrefs)
      ensures options != [] ==>
                var merged := MergedReadPrefs(options, old(readPrefs));
                var good := RpOptionsOk(options, old(readPrefs).mode);
                && (err.None? <==> good && (merged.mode == Primary ==> merged.tags == [] && merged.maxStaleness == -1)
                                   && (merged.maxStaleness == -1 || merged.maxStaleness > 0))
                && (good && merged.mode == Primary && merged.tags != [] ==> err == Some(PrimaryWithTags))
                && (good && merged.mode == Primary && merged.tags == [] && merged.maxStaleness != -1 ==>
                      err == Some(PrimaryWithStaleness))
                && (good && merged.mode != Primary && !(merged.maxStaleness == -1 || merged.maxStaleness > 0) ==>
                      err == Some(InvalidReadPreference))
      ensures err == if options == [] then None
                     else if RpFirstError(options, old(readPrefs).mode).Some? then RpFirstError(options, old(readPrefs).mode)
                     else RpConflict(MergedReadPrefs(options, old(readPrefs)))
    {
      if |options| == 0 {
        return None;
      }
      RpOkIffNoError(options, readPrefs.mode);
      var newRp := readPrefs;
      var i := 0;
      while i < |options|
        invariant 0 <= i <= |options| && readPrefs == old(readPrefs)
        invariant RpFirstError(options[..i], readPrefs.mode).None?
        invariant newRp == MergedReadPrefs(options[..i], readPrefs)
      {
        var key, v := options[i].key, options[i].value;
        RpStep(options, readPrefs.mode, i);
        NamesDiffer(key);
        if Is(key, "readpreference") {
          if !v.Utf8? {
            return Some(InvalidType(key));
          }
          if ModeOf(v.text).None? {
            return Some(UnsupportedMode);
          }
          newRp := newRp.(mode := ModeOf(v.text).value);
        }
        if Is(key, "readpreferencetags") {
          if !v.Array? {
            return Some(InvalidType(key));
          }
          if !TagsValid(v.elements) {
            return Some(InvalidTags);
          }
          newRp := newRp.(tags := v.elements);
        }
        if Is(key, "maxstalenessseconds") {
          if !IsInteger(v) {
            return Some(InvalidType(key));
          }
          if AsInt64(v) != NO_MAX_STALENESS {
            if AsInt64(v) < SMALLEST_MAX_STALENESS_SECONDS || AsInt64(v) > INT32_MAX {
              return Some(StalenessOutOfRange);
            }
            if newRp.mode == Primary {
              return Some(PrimaryWithStaleness);
            }
          }
          newRp := newRp.(maxStaleness := AsInt64(v));
        }
        i := i + 1;
      }
      assert options[..i] == options;
      if newRp.mode == Primary && newRp.tags != [] {
        return Some(PrimaryWithTags);
      }
      if newRp.mode == Primary && newRp.maxStaleness != NO_MAX_STALENESS {
        return Some(PrimaryWithStaleness);
      }
      if !ReadPrefsValid(newRp) {
        return Some(InvalidReadPreference);
      }
      readPrefs := newRp;
      err := None;
    }
  }

  // ----- What a successful write-concern merge means -----

  /** The last option of a name, by what its value means. */
  function LastW(options: seq<Field>): Option<W> {
    if |options| == 0 then None
    else
      var last := Last(options);
      if Is(last.key, "w") && WOf(last.value).Some? then WOf(last.value) else LastW(Front(options))
  }

  function LastSafe(options: seq<Field>): Option<W> {
    if |options| == 0 then None
    else
      var last := Last(options);
      if Is(last.key, "safe") && last.value.Bool? then Some(SafeW(last.value.b)) else LastSafe(Front(options))
  }

  /** The last "w" wins; else the last "safe"; else the URI's value. Where "safe"
      stands among the "w" options does not matter. */
  function MergedW(options: seq<Field>, uri: W): W {
    if LastW(options).Some? then LastW(options).value
    else if LastSafe(options).Some? then LastSafe(options).value
    else uri
  }

  function MergedTimeout(options: seq<Field>, uri: int): int {
    if |options| == 0 then uri
    else
      var last := Last(options);
      if Is(last.key, "wtimeoutms") && IsInteger(last.value) then AsInt64(last.value) else MergedTimeout(Front(options), uri)
  }

  function MergedJournal(options: seq<Field>, uri: Option<bool>): Option<bool> {
    if |options| == 0 then uri
    else
      var last := Last(options);
      if Is(last.key, "journal") && last.value.Bool? then Some(last.value.b) else MergedJournal(Front(options), uri)
  }

  /** The options have the right types and ranges; the type of "safe" is not looked
      at once a "w" has come by. */
  predicate WcOptionsOk(options: seq<Field>) {
    |options| == 0 ||
    (var last := Last(options);
     && WcOptionsOk(Front(options))
     && (Is(last.key, "safe") && LastW(Front(options)).None? ==> last.value.Bool?)
     && (Is(last.key, "wtimeoutms") ==> IsInteger(last.value) && AsInt64(last.value) >= 0)
     && (Is(last.key, "journal") ==> last.value.Bool?)
     && (Is(last.key, "w") ==> WOf(last.value).Some?))
  }

  function MergedWriteConcern(options: seq<Field>, uri: WriteConcern): WriteConcern {
    WriteConcern(MergedW(options, uri.w), MergedTimeout(options, uri.wtimeout), MergedJournal(options, uri.journal))
  }

  /** What is wrong with an option. */
  function WcOptionError(key: string, v: Bson, ignoreSafe: bool): Option<UriError> {
    if Is(key, "safe") && !ignoreSafe && !v.Bool? then Some(InvalidType(key))
    else if Is(key, "wtimeoutms") && !IsInteger(v) then Some(InvalidType(key))
    else if Is(key, "wtimeoutms") && AsInt64(v) < 0 then Some(NegativeTimeout)
    else if Is(key, "journal") && !v.Bool? then Some(InvalidType(key))
    else if Is(key, "w") && WOf(v).None? then Some(if v.Int32? then UnsupportedW else InvalidType(key))
    else None
  }

  /** The first option that something is wrong with decides. */
  function WcFirstError(options: seq<Field>): Option<UriError> {
    if |options| == 0 then None
    else
      var earlier, last := WcFirstError(Front(options)), Last(options);
      if earlier.Some? then earlier else WcOptionError(last.key, last.value, LastW(Front(options)).Some?)
  }

  /** What is wrong with a merged write concern. */
  function WcConflict(wc: WriteConcern): Option<UriError> {
    if wc.journal == Some(true) && IsUnacknowledged(wc.w) then Some(JournalConflict)
    else if !WriteConcernValid(wc) then Some(InvalidWriteConcern)
    else None
  }

  lemma {:induction false} WcOkIffNoError(options: seq<Field>)
    ensures WcOptionsOk(options) <==> WcFirstError(options).None?
  {
    if |options| > 0 {
      WcOkIffNoError(Front(options));
    }
  }

  /** One option more. */
  lemma WcStep(options: seq<Field>, i: nat)
    requires i < |options|
    ensures Front(options[..i + 1]) == options[..i] && Last(options[..i + 1]) == options[i]
    ensures WcFirstError(options[..i + 1]).Some? ==> WcFirstError(options) == WcFirstError(options[..i + 1])
  {
    WcPrefix(options, i + 1);
  }

  lemma {:induction false} WcPrefix(options: seq<Field>, n: nat)
    requires n <= |options|
    ensures WcFirstError(options[..n]).Some? ==> WcFirstError(options) == WcFirstError(options[..n])
  {
    if n < |options| {
      assert Front(options)[..n] == options[..n];
      WcPrefix(Front(options), n);
    } else {
      assert options[..n] == options;
    }
  }

  // ----- What a successful read-preference merge means -----

  function MergedMode(options: seq<Field>, uri: Mode): Mode {
    if |options| == 0 then uri
    else
      var last := Last(options);
      if Is(last.key, "readpreference") && last.value.Utf8? && ModeOf(last.value.text).Some?
      then ModeOf(last.value.text).value else MergedMode(Front(options), uri)
  }

  function MergedTags(options: seq<Field>, uri: seq<Field>): seq<Field> {
    if |options| == 0 then uri
    else
      var last := Last(options);
      if Is(last.key, "readpreferencetags") && last.value.Array? then last.value.elements else MergedTags(Front(options), uri)
  }

  function MergedStaleness(options: seq<Field>, uri: int): int {
    if |options| == 0 then uri
    else
      var last := Last(options);
      if Is(last.key, "maxstalenessseconds") && IsInteger(last.value) then AsInt64(last.value)
      else MergedStaleness(Front(options), uri)
  }

  /** Of each option, the last one. */
  function MergedReadPrefs(options: seq<Field>, uri: ReadPrefs): ReadPrefs {
    ReadPrefs(MergedMode(options, uri.mode), MergedTags(options, uri.tags), MergedStaleness(options, uri.maxStaleness))
  }

  /** The options are well-typed, and each "maxStalenessSeconds" finds a mode other
      than primary set by the URI or an earlier option. */
  predicate RpOptionsOk(options: seq<Field>, uri: Mode) {
    |options| == 0 ||
    (var last := Last(options);
     && RpOptionsOk(Front(options), uri)
     && (Is(last.key, "readpreference") ==> last.value.Utf8? && ModeOf(last.value.text).Some?)
     && (Is(last.key, "readpreferencetags") ==> last.value.Array? && TagsValid(last.value.elements))
     && (Is(last.key, "maxstalenessseconds") ==>
           && IsInteger(last.value) && StalenessInRange(AsInt64(last.value))
           && (AsInt64(last.value) != NO_MAX_STALENESS ==> MergedMode(Front(options), uri) != Primary)))
  }

  lemma NamesDiffer(key: string)
    ensures Is(key, "maxstalenessseconds") ==> !Is(key, "readpreference") && !Is(key, "readpreferencetags")
    ensures Is(key, "readpreference") ==> !Is(key, "readpreferencetags")
  {
    assert |"maxstalenessseconds"| == 19 && |"readpreference"| == 14 && |"readpreferencetags"| == 18;
  }

  /** What is wrong with an option, given the mode so far. */
  function RpOptionError(key: string, v: Bson, mode: Mode): Option<UriError> {
    if Is(key, "readpreference") then
      if !v.Utf8? then Some(InvalidType(key)) else if ModeOf(v.text).None? then Some(UnsupportedMode) else None
    else if Is(key, "readpreferencetags") then
      if !v.Array? then Some(InvalidType(key)) else if !TagsValid(v.elements) then Some(InvalidTags) else None
    else if Is(key, "maxstalenessseconds") then
      if !IsInteger(v) then Some(InvalidType(key))
      else if !StalenessInRange(AsInt64(v)) then Some(StalenessOutOfRange)
      else if AsInt64(v) != NO_MAX_STALENESS && mode == Primary then Some(PrimaryWithStaleness)
      else None
    else None
  }

  function RpFirstError(options: seq<Field>, uri: Mode): Option<UriError> {
    if |options| == 0 then None
    else
      var earlier, last := RpFirstError(Front(options), uri), Last(options);
      if earlier.Some? then earlier else RpOptionError(last.key, last.value, MergedMode(Front(options), uri))
  }

  /** What is wrong with a merged read preference. */
  function RpConflict(rp: ReadPrefs): Option<UriError> {
    if rp.mode == Primary && rp.tags != [] then Some(PrimaryWithTags)
    else if rp.mode == Primary && rp.maxStaleness != NO_MAX_STALENESS then Some(PrimaryWithStaleness)
    else if !ReadPrefsValid(rp) then Some(InvalidReadPreference)
    else None
  }

  lemma {:induction false} RpOkIffNoError(options: seq<Field>, uri: Mode)
    ensures RpOptionsOk(options, uri) <==> RpFirstError(options, uri).None?
  {
    if |options| > 0 {
      RpOkIffNoError(Front(options), uri);
      NamesDiffer(Last(options).key);
    }
  }

  lemma RpStep(options: seq<Field>, uri: Mode, i: nat)
    requires i < |options|
    ensures Front(options[..i + 1]) == options[..i] && Last(options[..i + 1]) == options[i]
    ensures RpFirstError(options[..i + 1], uri).Some? ==> RpFirstError(options, uri) == RpFirstError(options[..i + 1], uri)
  {
    RpPrefix(options, uri, i + 1);
  }

  lemma {:induction false} RpPrefix(options: seq<Field>, uri: Mode, n: nat)
    requires n <= |options|
    ensures RpFirstError(options[..n], uri).Some? ==> RpFirstError(options, uri) == RpFirstError(options[..n], uri)
  {
    if n < |options| {
      assert Front(options)[..n] == options[..n];
      RpPrefix(Front(options), uri, n);
    } else {
      assert options[..n] == options;
    }
  }

  /** The order of the options matters: a staleness after the mode is accepted, a
      staleness before it exactly when the URI's own mode is not primary. */
  lemma StalenessOrderMatters(uri: Mode, staleness: Field, mode: Field)
    requires Is(staleness.key, "maxstalenessseconds") && IsInteger(staleness.value)
    requires SMALLEST_MAX_STALENESS_SECONDS <= AsInt64(staleness.value) <= INT32_MAX
    requires Is(mode.key, "readpreference") && mode.value.Utf8?
    requires ModeOf(mode.value.text).Some? && ModeOf(mode.value.text).value != Primary
    ensures RpOptionsOk([mode, staleness], uri)
    ensures RpOptionsOk([staleness, mode], uri) <==> uri != Primary
    ensures MergedMode([mode, staleness], uri) == MergedMode([staleness, mode], uri)
  {
    NamesDiffer(staleness.key);
    NamesDiffer(mode.key);
    var a, b := [mode, staleness], [staleness, mode];
    assert Front(a) == [mode] && Front([mode]) == [] && Front(b) == [staleness] && Front([staleness]) == [];
    assert Last([mode]) == mode && Last([staleness]) == staleness && Last(a) == staleness && Last(b) == mode;
    assert RpOptionsOk([mode], uri) by {
      assert RpOptionsOk([], uri);
    }
    assert MergedMode([mode], uri) == ModeOf(mode.value.text).value;
    assert MergedMode([staleness], uri) == uri by {
      assert MergedMode([], uri) == uri;
    }
    assert RpOptionsOk([staleness], uri) <==> uri != Primary;
  }

  // ----- Which options count, by their spelling -----

  predicate NoneSpelled(options: seq<Field>, name: string) {
    forall i :: 0 <= i < |options| ==> !SameButCase(options[i].key, name)
  }

  /** The text names the mode, in any case. */
  predicate Spells(text: string, mode: Mode) {
    match mode
    case Primary => SameButCase(text, "primary")
    case PrimaryPreferred => SameButCase(text, "primarypreferred")
    case Secondary => SameButCase(text, "secondary")
    case SecondaryPreferred => SameButCase(text, "secondarypreferred")
    case Nearest => SameButCase(text, "nearest")
  }

  /** A text is a mode exactly when it spells it. */
  lemma ModeOfSpells(text: string, mode: Mode)
    ensures ModeOf(text) == Some(mode) <==> Spells(text, mode)
  {
    Spellings(text);
    assert |"primary"| == 7 && |"primarypreferred"| == 16 && |"secondary"| == 9 && |"secondarypreferred"| == 18;
    assert |"nearest"| == 7 && "primary"[0] == 'p' && "nearest"[0] == 'n';
  }

  /** Behind the last option of a name, others change nothing. */
  lemma {:induction false} LastReadPreferenceCounts(a: seq<Field>, f: Field, b: seq<Field>, uri: Mode, mode: Mode)
    requires SameButCase(f.key, "readpreference") && f.value.Utf8? && Spells(f.value.text, mode)
    requires NoneSpelled(b, "readpreference")
    ensures MergedMode(a + [f] + b, uri) == mode
    decreases |b|
  {
    Spellings(f.key);
    ModeOfSpells(f.value.text, mode);
    LastOf(a, f, b);
    if |b| > 0 {
      Spellings(Last(b).key);
      LastReadPreferenceCounts(a, f, Front(b), uri, mode);
    }
  }

  lemma LastOf(a: seq<Field>, f: Field, b: seq<Field>)
    ensures var all := a + [f] + b;
            if b == [] then Last(all) == f && Front(all) == a
            else Last(all) == Last(b) && Front(all) == a + [f] + Front(b)
  {
  }

  lemma {:induction false} LastTagsCount(a: seq<Field>, f: Field, b: seq<Field>, uri: seq<Field>)
    requires SameButCase(f.key, "readpreferencetags") && f.value.Array? && NoneSpelled(b, "readpreferencetags")
    ensures MergedTags(a + [f] + b, uri) == f.value.elements
    decreases |b|
  {
    Spellings(f.key);
    LastOf(a, f, b);
    if |b| > 0 {
      Spellings(Last(b).key);
      LastTagsCount(a, f, Front(b), uri);
    }
  }

  lemma {:induction false} LastStalenessCounts(a: seq<Field>, f: Field, b: seq<Field>, uri: int)
    requires SameButCase(f.key, "maxstalenessseconds") && IsInteger(f.value) && NoneSpelled(b, "maxstalenessseconds")
    ensures MergedStaleness(a + [f] + b, uri) == AsInt64(f.value)
    decreases |b|
  {
    Spellings(f.key);
    LastOf(a, f, b);
    if |b| > 0 {
      Spellings(Last(b).key);
      LastStalenessCounts(a, f, Front(b), uri);
    }
  }

  lemma {:induction false} LastTimeoutCounts(a: seq<Field>, f: Field, b: seq<Field>, uri: int)
    requires SameButCase(f.key, "wtimeoutms") && IsInteger(f.value) && NoneSpelled(b, "wtimeoutms")
    ensures MergedTimeout(a + [f] + b, uri) == AsInt64(f.value)
    decreases |b|
  {
    Spellings(f.key);
    LastOf(a, f, b);
    if |b| > 0 {
      Spellings(Last(b).key);
      LastTimeoutCounts(a, f, Front(b), uri);
    }
  }

  lemma {:induction false} LastJournalCounts(a: seq<Field>, f: Field, b: seq<Field>, uri: Option<bool>)
    requires SameButCase(f.key, "journal") && f.value.Bool? && NoneSpelled(b, "journal")
    ensures MergedJournal(a + [f] + b, uri) == Some(f.value.b)
    decreases |b|
  {
    Spellings(f.key);
    LastOf(a, f, b);
    if |b| > 0 {
      Spellings(Last(b).key);
      LastJournalCounts(a, f, Front(b), uri);
    }
  }

  /** The last "w" counts, whatever "safe" says before or after it: a number from
      -1 on, "majority" in any case, or a tag. */
  lemma {:induction false} LastWCounts(a: seq<Field>, f: Field, b: seq<Field>, uri: W, w: W)
    requires SameButCase(f.key, "w") && NoneSpelled(b, "w")
    requires (f.value.Int32? && f.value.i32 >= -1 && w == Number(f.value.i32))
             || (f.value.Utf8? && SameButCase(f.value.text, "majority") && w == Majority)
             || (f.value.Utf8? && !SameButCase(f.value.text, "majority") && w == Tag(f.value.text))
    ensures LastW(a + [f] + b) == Some(w) && MergedW(a + [f] + b, uri) == w
    decreases |b|
  {
    Spellings(f.key);
    if f.value.Utf8? {
      Spellings(f.value.text);
    }
    LastOf(a, f, b);
    if |b| > 0 {
      Spellings(Last(b).key);
      LastWCounts(a, f, Front(b), uri, w);
    }
  }

  lemma {:induction false} NoW(options: seq<Field>)
    requires NoneSpelled(options, "w")
    ensures LastW(options) == None
  {
    if |options| > 0 {
      Spellings(Last(options).key);
      NoW(Front(options));
    }
  }

  /** Without a "w", the last "safe" counts: true asks for one acknowledgement,
      false for none. */
  lemma {:induction false} LastSafeCounts(a: seq<Field>, f: Field, b: seq<Field>, uri: W)
    requires SameButCase(f.key, "safe") && f.value.Bool? && NoneSpelled(b, "safe") && NoneSpelled(a + [f] + b, "w")
    ensures MergedW(a + [f] + b, uri) == Number(if f.value.b then 1 else 0)
    decreases |b|
  {
    NoW(a + [f] + b);
    Spellings(f.key);
    LastOf(a, f, b);
    if |b| > 0 {
      Spellings(Last(b).key);
      assert forall i :: 0 <= i < |Front(a + [f] + b)| ==> Front(a + [f] + b)[i] == (a + [f] + b)[i];
      LastSafeCounts(a, f, Front(b), uri);
      NoW(Front(a + [f] + b));
    }
  }

  /** Options that are not given leave the URI's values. */
  lemma {:induction false} WcOptionsNotGiven(options: seq<Field>, uri: WriteConcern)
    ensures NoneSpelled(options, "w") && NoneSpelled(options, "safe") ==> MergedWriteConcern(options, uri).w == uri.w
    ensures NoneSpelled(options, "wtimeoutms") ==> MergedWriteConcern(options, uri).wtimeout == uri.wtimeout
    ensures NoneSpelled(options, "journal") ==> MergedWriteConcern(options, uri).journal == uri.journal
  {
    if |options| > 0 {
      Spellings(Last(options).key);
      WcOptionsNotGiven(Front(options), uri);
    }
  }

  lemma {:induction false} RpOptionsNotGiven(options: seq<Field>, uri: ReadPrefs)
    ensures NoneSpelled(options, "readpreference") ==> MergedReadPrefs(options, uri).mode == uri.mode
    ensures NoneSpelled(options, "readpreferencetags") ==> MergedReadPrefs(options, uri).tags == uri.tags
    ensures NoneSpelled(options, "maxstalenessseconds") ==> MergedReadPrefs(options, uri).maxStaleness == uri.maxStaleness
  {
    if |options| > 0 {
      Spellings(Last(options).key);
      RpOptionsNotGiven(Front(options), uri);
    }
  }

  // ----- Which options are refused -----

  /** The option has the type and the range that its name asks for. */
  predicate WcGood(f: Field, safeMatters: bool) {
    && (SameButCase(f.key, "w") ==> (f.value.Int32? && f.value.i32 >= -1) || f.value.Utf8?)
    && (SameButCase(f.key, "wtimeoutms") ==>
          (f.value.Int32? && f.value.i32 >= 0) || (f.value.Int64? && f.value.i64 >= 0))
    && (SameButCase(f.key, "journal") ==> f.value.Bool?)
    && (SameButCase(f.key, "safe") && safeMatters ==> f.value.Bool?)
  }

  predicate RpGood(f: Field) {
    && (SameButCase(f.key, "readpreference") ==> f.value.Utf8? && exists mode :: Spells(f.value.text, mode))
    && (SameButCase(f.key, "readpreferencetags") ==>
          f.value.Array? && forall i :: 0 <= i < |f.value.elements| ==> f.value.elements[i].value.Document?)
    && (SameButCase(f.key, "maxstalenessseconds") ==>
          || (f.value.Int32? && (f.value.i32 == -1 || 90 <= f.value.i32 <= 0x7FFF_FFFF))
          || (f.value.Int64? && (f.value.i64 == -1 || 90 <= f.value.i64 <= 0x7FFF_FFFF)))
  }

  /** Write-concern options are refused for their types and ranges only; "safe" is
      not looked at behind a "w". */
  lemma {:induction false} WcOptionsOkIffGood(options: seq<Field>)
    ensures WcOptionsOk(options) <==>
            forall i :: 0 <= i < |options| ==> WcGood(options[i], NoneSpelled(options[..i], "w"))
  {
    if |options| > 0 {
      hide WcGood, NoneSpelled, Is, WOf, LastW;
      var front, last := Front(options), Last(options);
      WcOptionsOkIffGood(front);
      assert forall i :: 0 <= i < |front| ==> front[i] == options[i] && front[..i] == options[..i];
      assert options[..|front|] == front && options[|front|] == last;
      WcGoodIs(last, LastW(front).None?);
      if WcOptionsOk(front) {
        LastWIff(front);
      }
    }
  }

  lemma WcGoodIs(f: Field, safeMatters: bool)
    ensures WcGood(f, safeMatters) <==>
            && (Is(f.key, "safe") && safeMatters ==> f.value.Bool?)
            && (Is(f.key, "wtimeoutms") ==> IsInteger(f.value) && AsInt64(f.value) >= 0)
            && (Is(f.key, "journal") ==> f.value.Bool?)
            && (Is(f.key, "w") ==> WOf(f.value).Some?)
  {
    hide SameButCase, Is;
    Spellings(f.key);
  }

  lemma {:induction false} LastWIff(options: seq<Field>)
    requires WcOptionsOk(options)
    ensures LastW(options).None? <==> NoneSpelled(options, "w")
  {
    if |options| > 0 {
      var front, last := Front(options), Last(options);
      LastWIff(front);
      assert forall i :: 0 <= i < |front| ==> front[i] == options[i];
      Spellings(last.key);
    }
  }

  /** Read-preference options are refused for these and for a staleness that meets
      the mode primary. */
  lemma {:induction false} RpOptionsOkIffGood(options: seq<Field>, uri: Mode)
    ensures RpOptionsOk(options, uri) <==>
            forall i :: 0 <= i < |options| ==>
              && RpGood(options[i])
              && (SameButCase(options[i].key, "maxstalenessseconds") && AsInt64Or(options[i].value) != -1 ==>
                    MergedMode(options[..i], uri) != Primary)
  {
    if |options| > 0 {
      hide RpGood, SameButCase, Is, MergedMode, ModeOf, TagsValid, StalenessInRange, AsInt64Or;
      var front, last := Front(options), Last(options);
      RpOptionsOkIffGood(front, uri);
      assert forall i :: 0 <= i < |front| ==> front[i] == options[i] && front[..i] == options[..i];
      assert options[..|front|] == front && options[|front|] == last;
      RpGoodIs(last, MergedMode(front, uri));
    }
  }

  lemma RpGoodIs(f: Field, mode: Mode)
    ensures RpGood(f) && (SameButCase(f.key, "maxstalenessseconds") && AsInt64Or(f.value) != -1 ==> mode != Primary) <==>
            && (Is(f.key, "readpreference") ==> f.value.Utf8? && ModeOf(f.value.text).Some?)
            && (Is(f.key, "readpreferencetags") ==> f.value.Array? && TagsValid(f.value.elements))
            && (Is(f.key, "maxstalenessseconds") ==>
                  && IsInteger(f.value) && StalenessInRange(AsInt64(f.value))
                  && (AsInt64(f.value) != NO_MAX_STALENESS ==> mode != Primary))
  {
    hide SameButCase, Is, ModeOf, Spells;
    Spellings(f.key);
    if f.value.Utf8? {
      forall m ensures ModeOf(f.value.text) == Some(m) <==> Spells(f.value.text, m) {
        ModeOfSpells(f.value.text, m);
      }
    }
  }

  /** The integer an option holds; -1 for others. */
  function AsInt64Or(v: Bson): int {
    match v
    case Int32(n) => n
    case Int64(n) => n
    case _ => -1
  }

  /** Which error an option causes. */
  lemma WcErrorIs(key: string, v: Bson, ignoreSafe: bool)
    ensures match WcOptionError(key, v, ignoreSafe)
            case Some(InvalidType(name)) =>
              && name == key
              && ((SameButCase(key, "safe") && !v.Bool?) || (SameButCase(key, "journal") && !v.Bool?)
                  || (SameButCase(key, "wtimeoutms") && !v.Int32? && !v.Int64?)
                  || (SameButCase(key, "w") && !v.Int32? && !v.Utf8?))
            case Some(NegativeTimeout) => SameButCase(key, "wtimeoutms") && AsInt64Or(v) < 0
            case Some(UnsupportedW) => SameButCase(key, "w") && v.Int32? && v.i32 < -1
            case Some(_) => false
            case None => true
  {
    hide SameButCase, Is;
    Spellings(key);
  }

  lemma RpErrorIs(key: string, v: Bson, mode: Mode)
    ensures match RpOptionError(key, v, mode)
            case Some(InvalidType(name)) =>
              && name == key
              && ((SameButCase(key, "readpreference") && !v.Utf8?) || (SameButCase(key, "readpreferencetags") && !v.Array?)
                  || (SameButCase(key, "maxstalenessseconds") && !v.Int32? && !v.Int64?))
            case Some(UnsupportedMode) => SameButCase(key, "readpreference") && v.Utf8? && forall m :: !Spells(v.text, m)
            case Some(InvalidTags) =>
              && SameButCase(key, "readpreferencetags") && v.Array?
              && exists i :: 0 <= i < |v.elements| && !v.elements[i].value.Document?
            case Some(StalenessOutOfRange) =>
              && SameButCase(key, "maxstalenessseconds") && AsInt64Or(v) != -1
              && !(90 <= AsInt64Or(v) <= 0x7FFF_FFFF)
            case Some(PrimaryWithStaleness) =>
              SameButCase(key, "maxstalenessseconds") && AsInt64Or(v) != -1 && mode == Primary
            case Some(_) => false
            case None => true
  {
    hide SameButCase, Is, ModeOf, Spells;
    Spellings(key);
    if v.Utf8? {
      forall m ensures ModeOf(v.text) == Some(m) <==> Spells(v.text, m) {
        ModeOfSpells(v.text, m);
      }
    }
  }
}
