/**
 * PHP's ordered arrays and the handful of PHP value rules the plugin relies
 * on: an array is a sequence of key/value pairs with distinct keys, writing
 * an existing key keeps its position, writing a new key appends it, and a
 * string key that spells a canonical decimal integer is stored as that
 * integer.
 */
module PhpArray {
  import opened Wrappers
  import Text

  datatype Key = IntKey(i: int) | StrKey(s: string)

  /** A PHP value, as far as options and form data go (floats and objects are not modelled). */
  datatype Value = VNull | VBool(b: bool) | VInt(i: int) | VStr(s: string) | VArray(entries: seq<(Key, Value)>)

  const PhpIntMax: int := 0x7FFF_FFFF_FFFF_FFFF
  const PhpIntMin: int := -0x8000_0000_0000_0000

  /** The integer a string spells in PHP's canonical decimal form ("7", "-12"; not "07", "-0", "+1", " 1"). */
  function CanonicalDecimal(s: string): (r: Option<int>)
    ensures r.Some? && r.value >= 0 ==> s == Text.NatToString(r.value)
    ensures r.Some? && r.value < 0 ==> s == "-" + Text.NatToString(-r.value)
  {
    if s == "0" then Some(0)
    else if |s| >= 2 && s[0] == '-' && Text.AllDigits(s[1..]) && s[1] != '0' then
      NatToStringOfDigits(s[1..]);
      var v: int := 0 - (Text.DigitsValue(s[1..]) as int);
      Some(v)
    else if |s| >= 1 && Text.AllDigits(s) && s[0] != '0' then
      NatToStringOfDigits(s);
      Some(Text.DigitsValue(s))
    else None
  }

  /** Digits without a leading zero are printed back unchanged. */
  lemma {:induction false} NatToStringOfDigits(d: string)
    requires |d| >= 1 && Text.AllDigits(d) && d[0] != '0'
    ensures Text.DigitsValue(d) > 0
    ensures Text.NatToString(Text.DigitsValue(d)) == d
    decreases |d|
  {
    if |d| > 1 {
      var init := d[..|d| - 1];
      NatToStringOfDigits(init);
      var last := d[|d| - 1];
      var v := Text.DigitsValue(d);
      assert v == Text.DigitsValue(init) * 10 + (last as int - '0' as int);
      assert v / 10 == Text.DigitsValue(init) && v % 10 == last as int - '0' as int;
      assert Text.DigitChar(v % 10) == last;
      assert d == init + [last];
    } else {
      assert d[..0] == [];
      assert Text.DigitsValue(d) == d[0] as int - '0' as int;
      assert Text.DigitChar(Text.DigitsValue(d)) == d[0];
    }
  }

  /** The key PHP uses for a string offset. */
  function KeyOfString(s: string): (k: Key)
    ensures k.IntKey? ==> Text.IntToString(k.i) == s && PhpIntMin <= k.i <= PhpIntMax
    ensures k.StrKey? ==> k.s == s
  {
    match CanonicalDecimal(s)
    case Some(v) => if PhpIntMin <= v <= PhpIntMax then IntKey(v) else StrKey(s)
    case None => StrKey(s)
  }

  /** Every integer in range, written in decimal, is an integer key again. */
  lemma KeyOfIntString(i: int)
    requires PhpIntMin <= i <= PhpIntMax
    ensures KeyOfString(Text.IntToString(i)) == IntKey(i)
  {
    if i > 0 {
      PositiveDecimal(i);
    } else if i < 0 {
      NegativeDecimal(i);
    }
  }

  lemma PositiveDecimal(i: int)
    requires i > 0
    ensures CanonicalDecimal(Text.IntToString(i)) == Some(i)
  {
    var s := Text.NatToString(i);
    assert Text.IntToString(i) == s && s[0] != '0' && s[0] != '-' && s != "0";
    Text.DigitsValueOfNatToString(i);
  }

  lemma NegativeDecimal(i: int)
    requires i < 0
    ensures CanonicalDecimal(Text.IntToString(i)) == Some(i)
  {
    var d := Text.NatToString(-i);
    var s := "-" + d;
    assert Text.IntToString(i) == s && s != "0";
    assert s[0] == '-' && s[1..] == d && d[0] != '0' && |s| >= 2;
    Text.DigitsValueOfNatToString(-i);
  }

  /** PHP's boolean reading of a value. */
  predicate Truthy(v: Value)
  {
    match v
    case VNull => false
    case VBool(b) => b
    case VInt(i) => i != 0
    case VStr(s) => s != "" && s != "0"
    case VArray(e) => e != []
  }

  /** PHP's boolean reading of a string. */
  predicate TruthyString(s: string) { s != "" && s != "0" }

  function Keys<K, V>(a: seq<(K, V)>): (ks: seq<K>)
    ensures |ks| == |a|
    ensures forall i :: 0 <= i < |a| ==> ks[i] == a[i].0
  {
    if a == [] then [] else [a[0].0] + Keys(a[1..])
  }

  function Values<K, V>(a: seq<(K, V)>): (vs: seq<V>)
    ensures |vs| == |a|
    ensures forall i :: 0 <= i < |a| ==> vs[i] == a[i].1
  {
    if a == [] then [] else [a[0].1] + Values(a[1..])
  }

  predicate DistinctKeys<K(==), V>(a: seq<(K, V)>)
  {
    forall i, j :: 0 <= i < j < |a| ==> a[i].0 != a[j].0
  }

  /** `$a[$k]` when it exists: the value of the first entry with that key. */
  function Get<K(==), V>(a: seq<(K, V)>, k: K): Option<V>
  {
    if a == [] then None
    else if a[0].0 == k then Some(a[0].1)
    else Get(a[1..], k)
  }

  /** A key is found exactly when it is among the keys, and what is found is stored under it. */
  lemma {:induction false} GetFacts<K, V>(a: seq<(K, V)>, k: K)
    ensures Get(a, k).None? <==> k !in Keys(a)
    ensures Get(a, k).Some? ==> exists i :: 0 <= i < |a| && a[i] == (k, Get(a, k).value)
    ensures DistinctKeys(a) ==> forall i :: 0 <= i < |a| && a[i].0 == k ==> Get(a, k) == Some(a[i].1)
  {
    if a != [] && a[0].0 != k {
      GetFacts(a[1..], k);
      assert Keys(a) == [a[0].0] + Keys(a[1..]);
      if Get(a, k).Some? {
        var i :| 0 <= i < |a[1..]| && a[1..][i] == (k, Get(a, k).value);
        assert a[i + 1] == (k, Get(a, k).value);
      }
      if DistinctKeys(a) {
        assert DistinctKeys(a[1..]) by {
          forall i, j | 0 <= i < j < |a[1..]| ensures a[1..][i].0 != a[1..][j].0 {
            assert a[1..][i] == a[i + 1] && a[1..][j] == a[j + 1];
          }
        }
        forall i | 0 <= i < |a| && a[i].0 == k ensures Get(a, k) == Some(a[i].1) {
          assert i != 0 && a[1..][i - 1] == a[i];
        }
      }
    } else if a != [] {
      assert Keys(a)[0] == k;
    }
  }

  /** `$a[$k] = $v`: an existing key keeps its position, a new one goes last. */
  function Set<K(==,!new), V>(a: seq<(K, V)>, k: K, v: V): (r: seq<(K, V)>)
    ensures Keys(r) == if k in Keys(a) then Keys(a) else Keys(a) + [k]
    ensures Get(r, k) == Some(v)
    ensures forall k' :: k' != k ==> Get(r, k') == Get(a, k')
    ensures DistinctKeys(a) ==> DistinctKeys(r)
  {
    SetFacts(a, k, v);
    RawSet(a, k, v)
  }

  function RawSet<K(==), V>(a: seq<(K, V)>, k: K, v: V): seq<(K, V)>
  {
    if a == [] then [(k, v)]
    else if a[0].0 == k then [(k, v)] + a[1..]
    else [a[0]] + RawSet(a[1..], k, v)
  }

  lemma {:induction false} SetFacts<K(!new), V>(a: seq<(K, V)>, k: K, v: V)
    ensures var r := RawSet(a, k, v);
      && Keys(r) == (if k in Keys(a) then Keys(a) else Keys(a) + [k])
      && Get(r, k) == Some(v)
      && (forall k' :: k' != k ==> Get(r, k') == Get(a, k'))
      && (DistinctKeys(a) ==> DistinctKeys(r))
  {
    SetKeys(a, k, v);
    SetGet(a, k, v);
    forall k' | k' != k ensures Get(RawSet(a, k, v), k') == Get(a, k') {
      SetGetOther(a, k, v, k');
    }
    if DistinctKeys(a) {
      SetDistinct(a, k, v);
    }
  }

  lemma {:induction false} SetDistinct<K(!new), V>(a: seq<(K, V)>, k: K, v: V)
    requires DistinctKeys(a)
    ensures DistinctKeys(RawSet(a, k, v))
  {
    if a != [] {
      assert Keys(a) == [a[0].0] + Keys(a[1..]);
      DistinctTail(a);
      if a[0].0 == k {
        ConsDistinct((k, v), a[1..]);
      } else {
        var t := RawSet(a[1..], k, v);
        SetDistinct(a[1..], k, v);
        SetKeys(a[1..], k, v);
        ConsDistinct(a[0], t);
      }
    }
  }

  /** The tail of an array with distinct keys has distinct keys and lacks the head's key. */
  lemma DistinctTail<K, V>(a: seq<(K, V)>)
    requires a != [] && DistinctKeys(a)
    ensures DistinctKeys(a[1..]) && a[0].0 !in Keys(a[1..])
  {
    var t := a[1..];
    forall i | 0 <= i < |t| ensures Keys(t)[i] != a[0].0 {
      assert t[i] == a[i + 1];
    }
    forall i, j | 0 <= i < j < |t| ensures t[i].0 != t[j].0 {
      assert t[i] == a[i + 1] && t[j] == a[j + 1];
    }
  }

  /** An entry put in front of distinct keys that lack its key keeps them distinct. */
  lemma ConsDistinct<K, V>(x: (K, V), t: seq<(K, V)>)
    requires DistinctKeys(t) && x.0 !in Keys(t)
    ensures DistinctKeys([x] + t)
  {
    var r := [x] + t;
    forall i, j | 0 <= i < j < |r| ensures r[i].0 != r[j].0 {
      assert r[j] == t[j - 1];
      if i > 0 {
        assert r[i] == t[i - 1];
      } else {
        assert Keys(t)[j - 1] == t[j - 1].0;
      }
    }
  }

  lemma {:induction false} SetKeys<K, V>(a: seq<(K, V)>, k: K, v: V)
    ensures Keys(RawSet(a, k, v)) == (if k in Keys(a) then Keys(a) else Keys(a) + [k])
  {
    if a != [] {
      assert Keys(a) == [a[0].0] + Keys(a[1..]);
      if a[0].0 == k {
        assert Keys([(k, v)] + a[1..]) == [k] + Keys(([(k, v)] + a[1..])[1..]);
        assert ([(k, v)] + a[1..])[1..] == a[1..];
      } else {
        SetKeys(a[1..], k, v);
        var r := [a[0]] + RawSet(a[1..], k, v);
        assert r[1..] == RawSet(a[1..], k, v);
        assert Keys(r) == [a[0].0] + Keys(RawSet(a[1..], k, v));
        assert k in Keys(a) <==> k in Keys(a[1..]);
        Text.ConsAssoc(a[0].0, Keys(a[1..]), [k]);
      }
    }
  }

  lemma {:induction false} SetGet<K, V>(a: seq<(K, V)>, k: K, v: V)
    ensures Get(RawSet(a, k, v), k) == Some(v)
  {
    if a != [] && a[0].0 != k {
      SetGet(a[1..], k, v);
      var r := [a[0]] + RawSet(a[1..], k, v);
      assert r[1..] == RawSet(a[1..], k, v);
    }
  }

  lemma {:induction false} SetGetOther<K, V>(a: seq<(K, V)>, k: K, v: V, k': K)
    requires k' != k
    ensures Get(RawSet(a, k, v), k') == Get(a, k')
  {
    if a != [] {
      if a[0].0 == k {
        var r := [(k, v)] + a[1..];
        assert r[1..] == a[1..];
      } else {
        SetGetOther(a[1..], k, v, k');
        var r := [a[0]] + RawSet(a[1..], k, v);
        assert r[1..] == RawSet(a[1..], k, v);
      }
    }
  }

  /** `unset($a[$k])`. */
  function Unset<K(==,!new), V>(a: seq<(K, V)>, k: K): (r: seq<(K, V)>)
    ensures k !in Keys(r)
    ensures forall k' :: k' != k ==> Get(r, k') == Get(a, k')
    ensures forall k' :: k' in Keys(r) <==> k' in Keys(a) && k' != k
    ensures DistinctKeys(a) ==> DistinctKeys(r)
    ensures |r| <= |a|
  {
    UnsetFacts(a, k);
    RawUnset(a, k)
  }

  function RawUnset<K(==), V>(a: seq<(K, V)>, k: K): seq<(K, V)>
  {
    if a == [] then []
    else if a[0].0 == k then RawUnset(a[1..], k)
    else [a[0]] + RawUnset(a[1..], k)
  }

  lemma {:induction false} UnsetFacts<K(!new), V>(a: seq<(K, V)>, k: K)
    ensures var r := RawUnset(a, k);
      && k !in Keys(r)
      && (forall k' :: k' != k ==> Get(r, k') == Get(a, k'))
      && (forall k' :: k' in Keys(r) <==> k' in Keys(a) && k' != k)
      && (DistinctKeys(a) ==> DistinctKeys(r))
      && |r| <= |a|
  {
    if a != [] {
      var t := RawUnset(a[1..], k);
      UnsetFacts(a[1..], k);
      assert Keys(a) == [a[0].0] + Keys(a[1..]);
      if a[0].0 != k {
        var r := [a[0]] + t;
        assert Keys(r) == [a[0].0] + Keys(t);
        assert r[1..] == t;
        if DistinctKeys(a) {
          assert DistinctKeys(a[1..]);
          assert a[0].0 !in Keys(a[1..]);
        }
      } else {
        forall k' | k' != k ensures Get(t, k') == Get(a, k') {
          assert Get(a, k') == Get(a[1..], k');
        }
      }
    }
  }

  /** The key `$a[] = $v` uses: one past the largest integer key, and 0 when there is none. */
  function NextIndex<V>(a: seq<(Key, V)>): (n: int)
    ensures n >= 0
    ensures forall i :: 0 <= i < |a| && a[i].0.IntKey? ==> a[i].0.i < n
  {
    if a == [] then 0
    else
      var rest := NextIndex(a[1..]);
      if a[0].0.IntKey? && a[0].0.i + 1 > rest then a[0].0.i + 1 else rest
  }

  /** `$a[] = $v`. */
  function Append<V>(a: seq<(Key, V)>, v: V): (r: seq<(Key, V)>)
    ensures r == a + [(IntKey(NextIndex(a)), v)]
    ensures IntKey(NextIndex(a)) !in Keys(a)
    ensures DistinctKeys(a) ==> DistinctKeys(r)
  {
    a + [(IntKey(NextIndex(a)), v)]
  }

  /** `isset($a[$k])`: present and not null. */
  predicate IsSet(a: seq<(Key, Value)>, k: Key)
  {
    match Get(a, k)
    case Some(v) => v != VNull
    case None => false
  }

  /** `array_sum` over integer values. */
  function SumValues<K>(a: seq<(K, int)>): int
  {
    if a == [] then 0 else a[0].1 + SumValues(a[1..])
  }

  lemma {:induction false} SumValuesAppend<K>(a: seq<(K, int)>, b: seq<(K, int)>)
    ensures SumValues(a + b) == SumValues(a) + SumValues(b)
  {
    if a != [] {
      assert (a + b)[0] == a[0];
      assert (a + b)[1..] == a[1..] + b;
      SumValuesAppend(a[1..], b);
      assert SumValues(a + b) == a[0].1 + SumValues(a[1..] + b);
    } else {
      assert a + b == b;
    }
  }

  /** The sum after one value is replaced or one entry added. */
  lemma {:induction false} SumValuesSet<K(!new)>(a: seq<(K, int)>, k: K, v: int)
    requires DistinctKeys(a)
    ensures SumValues(Set(a, k, v)) == SumValues(a) + v - Get(a, k).GetOr(0)
  {
    if a == [] {
    } else if a[0].0 == k {
      assert Set(a, k, v) == [(k, v)] + a[1..];
      assert [(k, v)] + a[1..] != [] && ([(k, v)] + a[1..])[1..] == a[1..];
    } else {
      assert DistinctKeys(a[1..]);
      SumValuesSet(a[1..], k, v);
      var r := Set(a, k, v);
      assert r == [a[0]] + Set(a[1..], k, v);
      assert r[1..] == Set(a[1..], k, v);
    }
  }
  lemma {:induction false} KeysConcat<K, V>(a: seq<(K, V)>, b: seq<(K, V)>)
    ensures Keys(a + b) == Keys(a) + Keys(b)
  {
    var l, r := Keys(a + b), Keys(a) + Keys(b);
    assert |l| == |r|;
    forall i | 0 <= i < |l| ensures l[i] == r[i] {
      if i < |a| { assert (a + b)[i] == a[i]; } else { assert (a + b)[i] == b[i - |a|]; }
    }
  }

  /** Looking a key up in two arrays put end to end. */
  lemma {:induction false} GetConcat<K, V>(a: seq<(K, V)>, b: seq<(K, V)>, k: K)
    ensures Get(a + b, k) == if k in Keys(a) then Get(a, k) else Get(b, k)
  {
    if a == [] {
      assert a + b == b;
    } else {
      assert (a + b)[0] == a[0] && (a + b)[1..] == a[1..] + b;
      assert Keys(a) == [a[0].0] + Keys(a[1..]);
      if a[0].0 != k {
        GetConcat(a[1..], b, k);
      }
    }
  }

  /** Writing a key the array does not hold appends it. */
  lemma {:induction false} RawSetNew<K, V>(a: seq<(K, V)>, k: K, v: V)
    requires k !in Keys(a)
    ensures RawSet(a, k, v) == a + [(k, v)]
  {
    if a != [] {
      assert Keys(a) == [a[0].0] + Keys(a[1..]);
      RawSetNew(a[1..], k, v);
      assert a == [a[0]] + a[1..];
    }
  }

  /** Writing a key whose first entry is at `i` replaces that entry. */
  lemma {:induction false} RawSetAt<K, V>(a: seq<(K, V)>, i: nat, v: V)
    requires i < |a| && a[i].0 !in Keys(a[..i])
    ensures RawSet(a, a[i].0, v) == a[i := (a[i].0, v)]
  {
    var k := a[i].0;
    if i == 0 {
      assert a[0 := (k, v)] == [(k, v)] + a[1..];
    } else {
      assert Keys(a[..i])[0] == a[0].0;
      assert a[1..][..i - 1] == a[..i][1..];
      assert Keys(a[..i]) == [a[0].0] + Keys(a[..i][1..]);
      RawSetAt(a[1..], i - 1, v);
      assert a[i := (k, v)] == [a[0]] + a[1..][i - 1 := (k, v)];
    }
  }

  /** With distinct keys no entry occurs twice. */
  lemma {:induction false} DistinctCount<K, V>(a: seq<(K, V)>, x: (K, V))
    requires DistinctKeys(a)
    ensures multiset(a)[x] == if x in a then 1 else 0
  {
    if a != [] {
      assert a == [a[0]] + a[1..];
      assert DistinctKeys(a[1..]);
      DistinctCount(a[1..], x);
      assert a[0] !in a[1..] by {
        forall j | 0 <= j < |a[1..]| ensures a[1..][j] != a[0] {
          assert a[1..][j] == a[j + 1];
        }
      }
      assert multiset(a) == multiset([a[0]]) + multiset(a[1..]);
    }
  }

  /** Two arrays with distinct keys that answer every lookup alike are permutations of each other. */
  lemma SameEntries<K, V>(a: seq<(K, V)>, b: seq<(K, V)>)
    requires DistinctKeys(a) && DistinctKeys(b)
    requires forall k :: Get(a, k) == Get(b, k)
    ensures multiset(a) == multiset(b)
  {
    forall x: (K, V) ensures multiset(a)[x] == multiset(b)[x] {
      DistinctCount(a, x);
      DistinctCount(b, x);
      EntryIsLookup(a, x);
      EntryIsLookup(b, x);
    }
  }

  lemma EntryIsLookup<K, V>(a: seq<(K, V)>, x: (K, V))
    requires DistinctKeys(a)
    ensures x in a <==> Get(a, x.0) == Some(x.1)
  {
    GetFacts(a, x.0);
    if x in a {
      var i :| 0 <= i < |a| && a[i] == x;
    }
  }
  /** Removing a key the array does not hold changes nothing. */
  lemma {:induction false} RawUnsetAbsent<K, V>(a: seq<(K, V)>, k: K)
    requires k !in Keys(a)
    ensures RawUnset(a, k) == a
  {
    if a != [] {
      assert Keys(a) == [a[0].0] + Keys(a[1..]);
      RawUnsetAbsent(a[1..], k);
      assert a == [a[0]] + a[1..];
    }
  }

  /** Removing a key passes over a prefix that does not hold it. */
  lemma {:induction false} RawUnsetPrefix<K, V>(a: seq<(K, V)>, rest: seq<(K, V)>, k: K)
    requires k !in Keys(a)
    ensures RawUnset(a + rest, k) == a + RawUnset(rest, k)
  {
    if a != [] {
      assert Keys(a) == [a[0].0] + Keys(a[1..]);
      assert (a + rest)[0] == a[0] && (a + rest)[1..] == a[1..] + rest;
      RawUnsetPrefix(a[1..], rest, k);
      assert a + RawUnset(rest, k) == [a[0]] + (a[1..] + RawUnset(rest, k));
    } else {
      assert a + rest == rest;
    }
  }

  /** Removing the one entry a key has takes out just that entry. */
  lemma RawUnsetAt<K, V>(a: seq<(K, V)>, k: K, v: V, b: seq<(K, V)>)
    requires k !in Keys(a) && k !in Keys(b)
    ensures RawUnset(a + [(k, v)] + b, k) == a + b
  {
    assert a + [(k, v)] + b == a + ([(k, v)] + b);
    RawUnsetPrefix(a, [(k, v)] + b, k);
    assert ([(k, v)] + b)[1..] == b;
    RawUnsetAbsent(b, k);
  }

  /** Arrays with distinct keys and no key in common stay distinct end to end. */
  lemma DistinctConcat<K, V>(a: seq<(K, V)>, b: seq<(K, V)>)
    requires DistinctKeys(a) && DistinctKeys(b)
    requires forall i :: 0 <= i < |b| ==> b[i].0 !in Keys(a)
    ensures DistinctKeys(a + b)
  {
    var s := a + b;
    forall i, j | 0 <= i < j < |s| ensures s[i].0 != s[j].0 {
      if j >= |a| && i < |a| {
        assert s[j] == b[j - |a|] && s[i] == a[i];
        assert Keys(a)[i] == a[i].0;
      } else if i >= |a| {
        assert s[i] == b[i - |a|] && s[j] == b[j - |a|];
      }
    }
  }
  /** The keys of an array are those of all its entries but the last, and the last's. */
  lemma KeysOfFront<K, V>(a: seq<(K, V)>)
    requires a != []
    ensures forall x :: x in Keys(a) <==> x in Keys(a[..|a| - 1]) || x == a[|a| - 1].0
  {
    Text.TakeSnoc(a, |a| - 1);
    assert a[..|a|] == a;
    KeysConcat(a[..|a| - 1], [a[|a| - 1]]);
  }

  /** Writing a key the front part holds leaves the back part alone. */
  lemma {:induction false} RawSetFront<K, V>(a: seq<(K, V)>, b: seq<(K, V)>, k: K, v: V)
    requires k in Keys(a)
    ensures RawSet(a + b, k, v) == RawSet(a, k, v) + b
  {
    var ab := a + b;
    assert ab[0] == a[0] && ab[1..] == a[1..] + b;
    if a[0].0 != k {
      assert k in Keys(a[1..]) by {
        assert Keys(a) == [a[0].0] + Keys(a[1..]);
      }
      RawSetFront(a[1..], b, k, v);
      assert RawSet(ab, k, v) == [a[0]] + (RawSet(a[1..], k, v) + b);
      Text.ConsAssoc(a[0], RawSet(a[1..], k, v), b);
    } else {
      assert RawSet(ab, k, v) == [(k, v)] + (a[1..] + b);
      Text.ConsAssoc((k, v), a[1..], b);
    }
  }

  /** Writing a key twice is writing it once, with the second value. */
  lemma {:induction false} SetTwice<K, V>(a: seq<(K, V)>, k: K, v: V, w: V)
    ensures RawSet(RawSet(a, k, v), k, w) == RawSet(a, k, w)
  {
    if a != [] && a[0].0 != k {
      SetTwice(a[1..], k, v, w);
      var t := RawSet(a[1..], k, v);
      assert ([a[0]] + t)[1..] == t;
    } else if a != [] {
      assert ([(k, v)] + a[1..])[1..] == a[1..];
    }
  }

  /** The keys of a prefix one entry longer. */
  lemma KeysOfPrefix<K, V>(a: seq<(K, V)>, n: nat)
    requires n < |a|
    ensures forall x :: x in Keys(a[..n + 1]) <==> x in Keys(a[..n]) || x == a[n].0
  {
    KeysOfFront(a[..n + 1]);
    assert a[..n + 1][..n] == a[..n];
  }

  /** A key that no earlier entry has is not among the keys of the prefix before it. */
  lemma KeyNotBefore<K, V>(a: seq<(K, V)>, i: nat)
    requires i < |a| && forall j :: 0 <= j < i ==> a[j].0 != a[i].0
    ensures a[i].0 !in Keys(a[..i])
  {
    forall j | 0 <= j < i ensures a[..i][j].0 != a[i].0 {
      assert a[..i][j] == a[j];
    }
  }
}
