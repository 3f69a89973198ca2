/**
 PHP array keys and the decimal strings they are spelled with.

 A PHP hash table distinguishes integer keys from string keys, and stores the
 string "12" under the integer key 12. BSON knows string keys only, so every
 crossing between the two goes through the functions below.
 */
module Keys {
  const INT64_MIN: int := -0x8000_0000_0000_0000
  const INT64_MAX: int := 0x7FFF_FFFF_FFFF_FFFF

  type int64 = i: int | INT64_MIN <= i <= INT64_MAX

  /** A string that C code can hold: it has no null character. */
  type cstring = s: string | '\0' !in s

  datatype Option<+T> = None | Some(value: T) {
    predicate IsFailure() {
      None?
    }

    function PropagateFailure<U>(): Option<U>
      requires None?
    {
      None
    }

    function Extract(): T
      requires Some?
    {
      value
    }
  }

  datatype Key = IntKey(index: int) | StrKey(name: string)

  predicate IsDigit(c: char) {
    '0' <= c <= '9'
  }

  function DigitChar(d: int): (c: char)
    requires 0 <= d <= 9
    ensures IsDigit(c) && c as int - '0' as int == d
  {
    '0' + d as char
  }

  /** The decimal spelling of a natural number. */
  function Dec(n: nat): (s: cstring)
    ensures |s| > 0 && forall i :: 0 <= i < |s| ==> IsDigit(s[i])
  {
    if n < 10 then [DigitChar(n)] else Dec(n / 10) + [DigitChar(n % 10)]
  }

  function DecInt(i: int): (s: cstring)
  {
    if i < 0 then "-" + Dec(-i) else Dec(i)
  }

  predicate AllDigits(s: string) {
    forall i :: 0 <= i < |s| ==> IsDigit(s[i])
  }

  /** Digits without a superfluous leading zero. */
  predicate Canonical(s: string) {
    |s| > 0 && AllDigits(s) && (s[0] == '0' ==> |s| == 1)
  }

  function NatValue(s: string): (n: nat)
    requires AllDigits(s)
  {
    if |s| == 0 then 0
    else 10 * NatValue(s[..|s| - 1]) + (s[|s| - 1] as int - '0' as int)
  }

  /** How PHP files a string key: canonical decimal integers that fit 64 bits
      become integer keys, everything else stays a string. */
  function KeyOf(s: string): (k: Key)
    ensures KeyString(k) == s
    ensures k.IntKey? ==> INT64_MIN <= k.index <= INT64_MAX
  {
    if Canonical(s) && NatValue(s) <= INT64_MAX then
      DecOfNatValue(s);
      IntKey(NatValue(s))
    else if |s| > 1 && s[0] == '-' && Canonical(s[1..]) && s[1] != '0' && NatValue(s[1..]) <= INT64_MAX + 1 then
      DecOfNatValue(s[1..]);
      NatValuePositive(s[1..]);
      IntKey(0 - NatValue(s[1..]))
    else
      StrKey(s)
  }

  /** The string under which a PHP key is written to BSON. */
  function KeyString(k: Key): string {
    match k
    case IntKey(i) => DecInt(i)
    case StrKey(s) => s
  }

  lemma {:induction false} NatValuePositive(s: string)
    requires Canonical(s) && s[0] != '0'
    ensures NatValue(s) > 0
  {
    if |s| > 1 {
      NatValuePositive(s[..|s| - 1]);
    }
  }

  lemma {:induction false} DecOfNatValue(s: string)
    requires Canonical(s)
    ensures Dec(NatValue(s)) == s
  {
    if |s| == 1 {
      assert s[..0] == "";
      assert s == [s[0]];
    } else {
      var front := s[..|s| - 1];
      NatValuePositive(front);
      DecOfNatValue(front);
      assert s == front + [s[|s| - 1]];
    }
  }

  lemma {:induction false} NatValueOfDec(n: nat)
    ensures Canonical(Dec(n)) && NatValue(Dec(n)) == n
    ensures n > 0 ==> Dec(n)[0] != '0'
  {
    if n < 10 {
      assert Dec(n)[..0] == "";
    } else {
      NatValueOfDec(n / 10);
      assert Dec(n)[..|Dec(n)| - 1] == Dec(n / 10);
    }
  }

  /** Filing the spelling of an integer key gives the integer key back. */
  lemma KeyOfDecInt(i: int64)
    ensures KeyOf(DecInt(i)) == IntKey(i)
  {
    if i < 0 {
      var magnitude: nat := 0 - i;
      NatValueOfDec(magnitude);
      assert DecInt(i)[1..] == Dec(magnitude);
    } else {
      NatValueOfDec(i);
    }
  }

  lemma KeyOfInjective(s: string, t: string)
    ensures KeyOf(s) == KeyOf(t) <==> s == t
  {
    assert KeyString(KeyOf(s)) == s && KeyString(KeyOf(t)) == t;
  }

  /** An ordered association list: a BSON document's fields, or the buckets of a
      PHP hash table. */
  datatype Entry<+K, +V> = Entry(key: K, value: V)

  /** Hash-table update: overwrite the first bucket with this key where it
      stands, or append a new bucket. */
  function Put<K(==), V>(es: seq<Entry<K, V>>, k: K, v: V): (r: seq<Entry<K, V>>)
    ensures |es| <= |r| <= |es| + 1
  {
    if |es| == 0 then [Entry(k, v)]
    else if es[0].key == k then [Entry(k, v)] + es[1..]
    else [es[0]] + Put(es[1..], k, v)
  }

  predicate HasKey<K(==), V>(es: seq<Entry<K, V>>, k: K) {
    exists i :: 0 <= i < |es| && es[i].key == k
  }

  predicate DistinctKeys<K(==), V>(es: seq<Entry<K, V>>) {
    forall i, j :: 0 <= i < j < |es| ==> es[i].key != es[j].key
  }

  lemma {:induction false} PutFresh<K, V>(es: seq<Entry<K, V>>, k: K, v: V)
    requires !HasKey(es, k)
    ensures Put(es, k, v) == es + [Entry(k, v)]
  {
    if |es| > 0 {
      assert es[0].key != k;
      forall i | 0 <= i < |es[1..]| ensures es[1..][i].key != k {
        assert es[1..][i] == es[i + 1];
      }
      PutFresh(es[1..], k, v);
      assert es == [es[0]] + es[1..];
    }
  }

  /** An update keeps keys unique, keeps every other binding, and binds `k`. */
  lemma {:induction false} PutUpdates<K(!new), V(!new)>(es: seq<Entry<K, V>>, k: K, v: V)
    requires DistinctKeys(es)
    ensures DistinctKeys(Put(es, k, v))
    ensures Entry(k, v) in Put(es, k, v)
    ensures forall e: Entry<K, V> :: e.key != k ==> (e in Put(es, k, v) <==> e in es)
  {
    if |es| == 0 {
    } else if es[0].key == k {
      assert forall e: Entry<K, V> :: e in es <==> e == es[0] || e in es[1..];
      assert forall e: Entry<K, V> :: e in Put(es, k, v) <==> e == Entry(k, v) || e in es[1..];
    } else {
      var rest := es[1..];
      assert forall i, j :: 0 <= i < j < |rest| ==> rest[i] == es[i + 1] && rest[j] == es[j + 1];
      PutUpdates(rest, k, v);
      var r := Put(rest, k, v);
      assert Put(es, k, v) == [es[0]] + r;
      assert forall e: Entry<K, V> :: e in es <==> e == es[0] || e in rest;
      forall j | 0 <= j < |r| ensures r[j].key != es[0].key {
        assert r[j] in r;
        if r[j].key != k {
          assert r[j] in rest;
          var m :| 0 <= m < |rest| && rest[m] == r[j];
          assert es[m + 1] == r[j];
        }
      }
    }
  }
}
