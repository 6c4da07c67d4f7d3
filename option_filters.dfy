/**
 * `SiteTreeOptionsFilter`: the validators an option value goes through
 * before it is stored. Each filter either accepts the value (possibly
 * normalising it) or rejects it, in which case the field's default value is
 * stored instead.
 */
module OptionFilters {
  import opened Wrappers
  import Text
  import PA = PhpArray
  import DM = DataModel

  // ---------------------------------------------------------------------
  // Sequences: first occurrences and PHP's numeric sort

  predicate Distinct<T(==)>(s: seq<T>)
  {
    forall i, j :: 0 <= i < j < |s| ==> s[i] != s[j]
  }

  /** The elements of `s`, each once, in the order of their first occurrence. */
  function Dedup<T(==)>(s: seq<T>): seq<T>
  {
    if s == [] then []
    else
      var d := Dedup(s[..|s| - 1]);
      if s[|s| - 1] in d then d else d + [s[|s| - 1]]
  }

  lemma {:induction false} DedupFacts<T>(s: seq<T>)
    ensures forall x :: x in Dedup(s) <==> x in s
    ensures Distinct(Dedup(s))
  {
    if s != [] {
      var init := s[..|s| - 1];
      DedupFacts(init);
      assert s == init + [s[|s| - 1]];
    }
  }

  lemma DedupAt<T>(s: seq<T>, i: nat)
    requires i < |Dedup(s)|
    ensures Dedup(s)[i] in s
  {
    DedupFacts(s);
    var d := Dedup(s);
    assert d[i] in d;
  }

  /** One element more at the end. */
  lemma DedupSnoc<T>(s: seq<T>, x: T)
    ensures Dedup(s + [x]) == if x in s then Dedup(s) else Dedup(s) + [x]
  {
    assert (s + [x])[..|s|] == s;
    DedupFacts(s);
  }

  /** A sequence without repetitions is its own first-occurrence list. */
  lemma {:induction false} DedupOfDistinct<T>(s: seq<T>)
    requires Distinct(s)
    ensures Dedup(s) == s
  {
    if s != [] {
      var init := s[..|s| - 1];
      DedupOfDistinct(init);
      assert s[|s| - 1] !in init;
      assert s == init + [s[|s| - 1]];
    }
  }

  /** The position of the first `x` in `s`. */
  function FirstIndex<T(==)>(s: seq<T>, x: T): (i: nat)
    requires x in s
    ensures i < |s| && s[i] == x && x !in s[..i]
  {
    if s[0] == x then 0 else FirstIndex(s[1..], x) + 1
  }

  lemma FirstIndexInPrefix<T>(s: seq<T>, n: nat, x: T)
    requires n <= |s| && x in s[..n]
    ensures FirstIndex(s, x) == FirstIndex(s[..n], x)
  {
    var i := FirstIndex(s[..n], x);
    assert s[..n][..i] == s[..i];
  }

  /** `a` first occurs in `s` before `b` does. */
  ghost predicate OccursBefore<T>(s: seq<T>, a: T, b: T)
  {
    a in s && b in s && FirstIndex(s, a) < FirstIndex(s, b)
  }

  /** The elements appear in the order in which they first occur in `s`. */
  lemma DedupOrder<T>(s: seq<T>)
    ensures forall i, j :: 0 <= i < j < |Dedup(s)| ==> OccursBefore(s, Dedup(s)[i], Dedup(s)[j])
  {
    forall i, j | 0 <= i < j < |Dedup(s)| ensures OccursBefore(s, Dedup(s)[i], Dedup(s)[j]) {
      DedupPair(s, i, j);
    }
  }

  lemma {:induction false} DedupPair<T>(s: seq<T>, i: int, j: int)
    requires 0 <= i < j < |Dedup(s)|
    ensures Dedup(s)[i] in s && Dedup(s)[j] in s && FirstIndex(s, Dedup(s)[i]) < FirstIndex(s, Dedup(s)[j])
    decreases |s|
  {
    var init := s[..|s| - 1];
    var x := s[|s| - 1];
    var d := Dedup(init);
    DedupFacts(init);
    assert s == init + [x];
    assert Dedup(s) == if x in d then d else d + [x];
    assert Dedup(s)[i] == d[i];
    DedupAt(init, i);
    FirstIndexInPrefix(s, |s| - 1, d[i]);
    if j < |d| {
      assert Dedup(s)[j] == d[j];
      DedupAt(init, j);
      FirstIndexInPrefix(s, |s| - 1, d[j]);
      DedupPair(init, i, j);
    } else {
      assert Dedup(s)[j] == x && x !in init;
      assert x !in s[..|s| - 1];
    }
  }

  predicate Sorted(s: seq<int>)
  {
    forall i, j :: 0 <= i < j < |s| ==> s[i] <= s[j]
  }

  predicate StrictlyAscending(s: seq<int>)
  {
    forall i, j :: 0 <= i < j < |s| ==> s[i] < s[j]
  }

  function Insert(x: int, s: seq<int>): seq<int>
  {
    if s == [] || x <= s[0] then [x] + s else [s[0]] + Insert(x, s[1..])
  }

  /** `sort($values, SORT_NUMERIC)` on integers: ascending. */
  function SortNumeric(s: seq<int>): seq<int>
  {
    if s == [] then [] else Insert(s[0], SortNumeric(s[1..]))
  }

  lemma {:induction false} InsertElements(x: int, s: seq<int>)
    ensures |Insert(x, s)| == |s| + 1
    ensures forall y :: y in Insert(x, s) <==> y == x || y in s
  {
    if s != [] && x > s[0] {
      InsertElements(x, s[1..]);
      assert s == [s[0]] + s[1..];
    }
  }

  lemma {:induction false} InsertSorted(x: int, s: seq<int>)
    requires Sorted(s)
    ensures Sorted(Insert(x, s))
  {
    if s != [] && x > s[0] {
      var rest := s[1..];
      InsertElements(x, rest);
      InsertSorted(x, rest);
      var t := Insert(x, rest);
      assert Insert(x, s) == [s[0]] + t;
      forall k | 0 <= k < |t| ensures s[0] <= t[k] {
        if t[k] != x {
          assert t[k] in t;
          assert t[k] in rest;
          var m :| 0 <= m < |rest| && rest[m] == t[k];
          assert rest[m] == s[m + 1];
        }
      }
    }
  }

  lemma {:induction false} InsertDistinct(x: int, s: seq<int>)
    requires Sorted(s) && Distinct(s) && x !in s
    ensures Distinct(Insert(x, s))
  {
    if s != [] && x > s[0] {
      var rest := s[1..];
      assert s == [s[0]] + rest;
      assert Distinct(rest) && x !in rest;
      InsertElements(x, rest);
      InsertDistinct(x, rest);
      var t := Insert(x, rest);
      assert Insert(x, s) == [s[0]] + t;
      forall k | 0 <= k < |t| ensures s[0] != t[k] {
        if t[k] != x {
          assert t[k] in t;
          assert t[k] in rest;
          var m :| 0 <= m < |rest| && rest[m] == t[k];
          assert rest[m] == s[m + 1];
        }
      }
    }
  }

  lemma InsertFacts(x: int, s: seq<int>)
    requires Sorted(s)
    ensures |Insert(x, s)| == |s| + 1
    ensures forall y :: y in Insert(x, s) <==> y == x || y in s
    ensures Sorted(Insert(x, s))
    ensures Distinct(s) && x !in s ==> Distinct(Insert(x, s))
  {
    InsertElements(x, s);
    InsertSorted(x, s);
    if Distinct(s) && x !in s {
      InsertDistinct(x, s);
    }
  }

  /** The sort yields the same elements, ascending. */
  lemma {:induction false} SortFacts(s: seq<int>)
    ensures |SortNumeric(s)| == |s|
    ensures forall y :: y in SortNumeric(s) <==> y in s
    ensures Sorted(SortNumeric(s))
    ensures Distinct(s) ==> Distinct(SortNumeric(s))
  {
    if s != [] {
      var rest := SortNumeric(s[1..]);
      assert SortNumeric(s) == Insert(s[0], rest);
      SortFacts(s[1..]);
      InsertFacts(s[0], rest);
      assert forall y :: y in s <==> y == s[0] || y in s[1..] by {
        assert s == [s[0]] + s[1..];
      }
      if Distinct(s) {
        assert Distinct(s[1..]) && s[0] !in rest by {
          assert s == [s[0]] + s[1..];
          assert s[0] !in s[1..];
        }
      }
    }
  }

  /** Sorting what is already sorted changes nothing. */
  lemma {:induction false} SortOfSorted(s: seq<int>)
    requires Sorted(s)
    ensures SortNumeric(s) == s
  {
    if s != [] {
      SortOfSorted(s[1..]);
      assert s == [s[0]] + s[1..];
    }
  }

  lemma SortPair(a: int, b: int)
    requires a <= b
    ensures SortNumeric([a]) == [a] && SortNumeric([a, b]) == [a, b]
  {
    assert [a, b][1..] == [b] && [b][1..] == [] && [a][1..] == [];
  }

  // ---------------------------------------------------------------------
  // Strings as PHP converts and searches them

  /** The string PHP makes of a scalar; an array has none. */
  function StringOf(v: PA.Value): (r: Option<string>)
    ensures r.None? <==> v.VArray?
    ensures PA.Truthy(v) && !v.VArray? ==> PA.TruthyString(r.value)
  {
    match v
    case VNull => Some("")
    case VBool(b) => Some(if b then "1" else "")
    case VInt(i) => Some(Text.IntToString(i))
    case VStr(s) => Some(s)
    case VArray(_) => None
  }

  /**
   * `preg_match('/[^...]/', $s)` for a character class: the position of the
   * first character outside it, when there is one.
   */
  function FirstOutside(s: string, allowed: char -> bool): (r: Option<nat>)
  {
    if s == [] then None
    else if !allowed(s[0]) then Some(0)
    else match FirstOutside(s[1..], allowed)
      case None => None
      case Some(k) => Some(k + 1)
  }

  lemma {:induction false} FirstOutsideFacts(s: string, allowed: char -> bool)
    ensures FirstOutside(s, allowed).None? <==> forall i :: 0 <= i < |s| ==> allowed(s[i])
    ensures FirstOutside(s, allowed).Some? ==>
      var k := FirstOutside(s, allowed).value;
      k < |s| && !allowed(s[k]) && forall i :: 0 <= i < k ==> allowed(s[i])
  {
    if s != [] {
      FirstOutsideFacts(s[1..], allowed);
      assert forall i :: 1 <= i < |s| ==> s[i] == s[1..][i - 1];
    }
  }

  predicate KeyChar(c: char) { Text.IsAlnum(c) || c == '-' }

  predicate NicknameChar(c: char) { Text.IsAlnum(c) || c == '_' || c == '-' }

  predicate IsNickname(s: string) { forall i :: 0 <= i < |s| ==> NicknameChar(s[i]) }

  lemma TrimOfNickname(s: string)
    requires IsNickname(s)
    ensures Text.Trim(s) == s && Text.Trim(" " + s) == s
  {
    assert s == [] || (s[0] !in Text.PhpWhitespace && s[|s| - 1] !in Text.PhpWhitespace);
    var sp := " " + s;
    assert sp[0] == ' ' && sp[1..] == s;
    assert Text.TrimLeft(sp, Text.PhpWhitespace) == Text.TrimLeft(s, Text.PhpWhitespace);
  }

  // ---------------------------------------------------------------------
  // Numeric strings

  /** The white space `is_numeric` allows around a number. */
  const NumericSpace: set<char> := {' ', '\t', '\n', '\r', '\U{0B}', '\U{0C}'}

  /** A decimal numeral: sign, integer digits and fraction digits. */
  datatype Numeral = Numeral(negative: bool, whole: string, frac: string)
  {
    predicate WellFormed()
    {
      Text.AllDigits(whole) && Text.AllDigits(frac) && (whole != [] || frac != [])
    }
  }

  /**
   * `is_numeric` for decimal numerals: optional surrounding white space, an
   * optional sign, then digits with an optional point (at least one digit
   * in all). The numeral it reads, or nothing.
   */
  function ParseNumeral(s: string): (r: Option<Numeral>)
    ensures r.Some? ==> r.value.WellFormed()
  {
    var t := Unpadded(s);
    if |t| > 0 && t[0] == '-' then ParseUnsigned(true, t[1..])
    else if |t| > 0 && t[0] == '+' then ParseUnsigned(false, t[1..])
    else ParseUnsigned(false, t)
  }

  /** The string without the white space around it. */
  function Unpadded(s: string): string
  {
    Text.TrimRight(Text.TrimLeft(s, NumericSpace), NumericSpace)
  }

  /** Digits with an optional point, after the sign. */
  function ParseUnsigned(negative: bool, body: string): (r: Option<Numeral>)
    ensures r.Some? ==> r.value.WellFormed()
  {
    match Text.IndexOf(body, '.')
    case None =>
      if body != [] && Text.AllDigits(body) then Some(Numeral(negative, body, "")) else None
    case Some(i) =>
      var whole := body[..i];
      var frac := body[i + 1..];
      if Text.AllDigits(whole) && Text.AllDigits(frac) && (whole != [] || frac != [])
      then Some(Numeral(negative, whole, frac))
      else None
  }

  lemma ParseUnsignedDigits(negative: bool, d: string)
    requires |d| >= 1 && Text.AllDigits(d)
    ensures ParseUnsigned(negative, d) == Some(Numeral(negative, d, ""))
  {
    DigitsHaveNoPoint(d);
  }

  function Pow10(n: nat): (p: nat)
    ensures p > 0
  {
    if n == 0 then 1 else 10 * Pow10(n - 1)
  }

  /** The exact value a numeral denotes. */
  function NumeralValue(n: Numeral): real
    requires n.WellFormed()
  {
    var magnitude := Text.DigitsValue(n.whole) as real + Text.DigitsValue(n.frac) as real / Pow10(|n.frac|) as real;
    if n.negative then -magnitude else magnitude
  }

  /** `(int)` of a numeral: the fraction is dropped, toward zero. */
  function Cast(n: Numeral): int
    requires n.WellFormed()
  {
    var w: int := Text.DigitsValue(n.whole);
    if n.negative then -w else w
  }

  lemma FractionBounds(f: nat, p: nat)
    requires p > 0
    ensures f as real / p as real >= 0.0
    ensures f > 0 ==> f as real / p as real > 0.0
  {
  }

  /** A numeral is above zero exactly when it is unsigned or plus-signed and has a nonzero digit. */
  lemma NumeralPositive(n: Numeral)
    requires n.WellFormed()
    ensures NumeralValue(n) > 0.0 <==> !n.negative && (Text.DigitsValue(n.whole) > 0 || Text.DigitsValue(n.frac) > 0)
  {
    FractionBounds(Text.DigitsValue(n.frac), Pow10(|n.frac|));
  }

  /** Casting never reaches zero from a value that is not above one, and keeps every value from one up. */
  lemma CastPositive(n: Numeral)
    requires n.WellFormed()
    ensures Cast(n) > 0 ==> NumeralValue(n) > 0.0
    ensures Cast(n) > 0 <==> !n.negative && Text.DigitsValue(n.whole) > 0
  {
    NumeralPositive(n);
  }

  lemma TrimLeftKeeps(s: string, cs: set<char>)
    requires s == [] || s[0] !in cs
    ensures Text.TrimLeft(s, cs) == s
  {
  }

  lemma TrimRightKeeps(s: string, cs: set<char>)
    requires s == [] || s[|s| - 1] !in cs
    ensures Text.TrimRight(s, cs) == s
  {
  }

  lemma DigitsHaveNoPoint(d: string)
    requires Text.AllDigits(d)
    ensures '.' !in d
  {
    forall k | 0 <= k < |d| ensures d[k] != '.' {
      assert Text.IsDigit(d[k]);
    }
  }

  function Pad(spaced: bool): string { if spaced then " " else "" }

  lemma TrimLeftSpace(s: string)
    ensures Text.TrimLeft(" " + s, NumericSpace) == Text.TrimLeft(s, NumericSpace)
  {
    var ps := " " + s;
    assert ps[0] == ' ' && ps[1..] == s;
  }

  /** The padding is trimmed off a numeral, and nothing else. */
  lemma TrimPadded(spaced: bool, s: string)
    requires |s| >= 1 && s[0] !in NumericSpace && s[|s| - 1] !in NumericSpace
    ensures Unpadded(Pad(spaced) + s) == s
  {
    if spaced {
      TrimLeftSpace(s);
    } else {
      assert Pad(spaced) + s == s;
    }
    TrimLeftKeeps(s, NumericSpace);
    TrimRightKeeps(s, NumericSpace);
  }

  lemma DigitNotSpace(c: char)
    requires Text.IsDigit(c) || c == '-'
    ensures c !in NumericSpace
  {
  }

  /** Unsigned digits read as themselves. */
  lemma ParseDigits(spaced: bool, d: string)
    requires |d| >= 1 && Text.AllDigits(d)
    ensures ParseNumeral(Pad(spaced) + d) == Some(Numeral(false, d, ""))
  {
    DigitNotSpace(d[0]);
    DigitNotSpace(d[|d| - 1]);
    TrimPadded(spaced, d);
    ParseUnsignedDigits(false, d);
  }

  /** Minus-signed digits read as a negative numeral. */
  lemma ParseNegativeDigits(spaced: bool, d: string)
    requires |d| >= 1 && Text.AllDigits(d)
    ensures ParseNumeral(Pad(spaced) + ("-" + d)) == Some(Numeral(true, d, ""))
  {
    var s := "-" + d;
    assert s[0] == '-' && s[|s| - 1] == d[|d| - 1] && s[1..] == d;
    DigitNotSpace(s[0]);
    DigitNotSpace(d[|d| - 1]);
    TrimPadded(spaced, s);
    ParseUnsignedDigits(true, d);
  }

  lemma CastOf(negative: bool, d: string, i: int)
    requires Text.AllDigits(d) && |d| >= 1
    requires i == if negative then -(Text.DigitsValue(d) as int) else Text.DigitsValue(d) as int
    ensures Cast(Numeral(negative, d, "")) == i
  {
  }

  lemma ParseNegativeInt(i: int, spaced: bool)
    requires i < 0
    ensures ParseNumeral(Pad(spaced) + Text.IntToString(i)) == Some(Numeral(true, Text.NatToString(-i), ""))
    ensures Cast(Numeral(true, Text.NatToString(-i), "")) == i
  {
    var d := Text.NatToString(-i);
    assert Text.IntToString(i) == "-" + d;
    Text.DigitsValueOfNatToString(-i);
    CastOf(true, d, i);
    ParseNegativeDigits(spaced, d);
  }

  lemma ParseNatInt(i: int, spaced: bool)
    requires i >= 0
    ensures ParseNumeral(Pad(spaced) + Text.IntToString(i)) == Some(Numeral(false, Text.NatToString(i), ""))
    ensures Cast(Numeral(false, Text.NatToString(i), "")) == i
  {
    var d := Text.NatToString(i);
    assert Text.IntToString(i) == d;
    ParseDigits(spaced, d);
    Text.DigitsValueOfNatToString(i);
    CastOf(false, d, i);
  }

  /** A decimal integer as PHP prints it, with or without one leading space, reads back as that integer. */
  lemma ParseIntString(i: int, spaced: bool)
    ensures ParseNumeral(Pad(spaced) + Text.IntToString(i)).Some?
    ensures var n := ParseNumeral(Pad(spaced) + Text.IntToString(i)).value;
      Cast(n) == i && n.frac == "" && n.negative == (i < 0)
  {
    if i < 0 {
      ParseNegativeInt(i, spaced);
    } else {
      ParseNatInt(i, spaced);
    }
  }

  // ---------------------------------------------------------------------
  // The filters, as functions of the value (and of the field's conditions)

  /** A filter's verdict: the value to store, or nothing when it is rejected. */
  type Verdict = Option<PA.Value>

  /** `isset($conditions[$name])`: the condition's value when set. */
  function Condition(conditions: PA.Value, name: string): (r: Option<PA.Value>)
    ensures r.Some? ==> r.value != PA.VNull
  {
    if !conditions.VArray? then None
    else match PA.Get(conditions.entries, PA.StrKey(name))
      case Some(b) => if b != PA.VNull then Some(b) else None
      case None => None
  }

  /** The number a value compares as: an integer, or a numeric string. */
  function NumberOf(v: PA.Value): Option<real>
  {
    match v
    case VInt(i) => Some(i as real)
    case VStr(s) =>
      (match ParseNumeral(s)
       case Some(n) => Some(NumeralValue(n))
       case None => None)
    case _ => None
  }

  predicate AtLeast(x: real, bound: PA.Value)
  {
    match NumberOf(bound)
    case Some(b) => x >= b
    case None => false
  }

  predicate AtMost(x: real, bound: PA.Value)
  {
    match NumberOf(bound)
    case Some(b) => x <= b
    case None => false
  }

  /**
   * `filterPositiveNumber` as written: rejects values not above zero; with
   * a minimum, accepts iff the value reaches it (a maximum is then never
   * looked at); else, with a maximum, accepts iff the value stays within
   * it; with neither, rejects.
   */
  predicate PositiveNumberAsWritten(v: PA.Value, conditions: PA.Value)
  {
    match NumberOf(v)
    case None => false
    case Some(x) =>
      if x <= 0.0 then false
      else match Condition(conditions, "min_value")
        case Some(lo) => AtLeast(x, lo)
        case None =>
          (match Condition(conditions, "max_value")
           case Some(hi) => AtMost(x, hi)
           case None => false)
  }

  /** `filterPositiveNumber` with every bound it is given enforced. */
  predicate PositiveNumber(v: PA.Value, conditions: PA.Value)
  {
    match NumberOf(v)
    case None => false
    case Some(x) =>
      var lo := Condition(conditions, "min_value");
      var hi := Condition(conditions, "max_value");
      && x > 0.0
      && (lo.Some? || hi.Some?)
      && (lo.Some? ==> AtLeast(x, lo.value))
      && (hi.Some? ==> AtMost(x, hi.value))
  }

  /** The two agree whenever at most one bound is given; with both, the corrected filter accepts less. */
  lemma PositiveNumberAgreement(v: PA.Value, conditions: PA.Value)
    ensures Condition(conditions, "min_value").None? || Condition(conditions, "max_value").None? ==>
      (PositiveNumber(v, conditions) <==> PositiveNumberAsWritten(v, conditions))
    ensures PositiveNumber(v, conditions) ==> PositiveNumberAsWritten(v, conditions)
  {
  }

  /** The fields' own bounds, such as the avatar size "between 20px and 512px". */
  function Bounds(lo: int, hi: int): PA.Value
  {
    PA.VArray([(PA.StrKey("min_value"), PA.VInt(lo)), (PA.StrKey("max_value"), PA.VInt(hi))])
  }

  /** With both bounds set, the filter as written lets a value beyond the maximum through. */
  lemma PositiveNumberIgnoresMax()
    ensures PositiveNumberAsWritten(PA.VInt(1000), Bounds(20, 512))
    ensures !PositiveNumber(PA.VInt(1000), Bounds(20, 512))
  {
    var c := Bounds(20, 512);
    assert PA.Get(c.entries, PA.StrKey("min_value")) == Some(PA.VInt(20));
    assert PA.Get(c.entries, PA.StrKey("max_value")) == Some(PA.VInt(512));
  }

  /** Every value the corrected filter accepts is positive and within every bound given. */
  lemma PositiveNumberSound(v: PA.Value, conditions: PA.Value)
    requires PositiveNumber(v, conditions)
    ensures NumberOf(v).Some? && NumberOf(v).value > 0.0
    ensures Condition(conditions, "min_value").Some? ==> AtLeast(NumberOf(v).value, Condition(conditions, "min_value").value)
    ensures Condition(conditions, "max_value").Some? ==> AtMost(NumberOf(v).value, Condition(conditions, "max_value").value)
  {
  }

  /** The key `isset($conditions[$value])` looks up; an array is no key. */
  function OffsetOf(v: PA.Value): (r: Option<PA.Key>)
    ensures r.None? <==> v.VArray?
  {
    match v
    case VNull => Some(PA.StrKey(""))
    case VBool(b) => Some(PA.IntKey(if b then 1 else 0))
    case VInt(i) => Some(PA.IntKey(i))
    case VStr(s) => Some(PA.KeyOfString(s))
    case VArray(_) => None
  }

  /** `filterChoice`: the value names one of the choices the conditions list. */
  predicate Choice(v: PA.Value, conditions: PA.Value)
  {
    match OffsetOf(v)
    case Some(k) => conditions.VArray? && PA.IsSet(conditions.entries, k)
    case None => false
  }

  /** A choice may arrive as an integer or as its decimal string; both are the same choice. */
  lemma ChoiceOfDecimal(i: int, conditions: PA.Value)
    requires PA.PhpIntMin <= i <= PA.PhpIntMax
    ensures Choice(PA.VStr(Text.IntToString(i)), conditions) == Choice(PA.VInt(i), conditions)
  {
    PA.KeyOfIntString(i);
  }

  /** Every choice listed with a value is accepted; a value that is not listed is not. */
  lemma ChoiceListed(v: PA.Value, entries: seq<(PA.Key, PA.Value)>)
    requires !v.VArray? && PA.DistinctKeys(entries)
    ensures Choice(v, PA.VArray(entries)) <==> exists c :: (OffsetOf(v).value, c) in entries && c != PA.VNull
  {
    var k := OffsetOf(v).value;
    PA.GetFacts(entries, k);
    if Choice(v, PA.VArray(entries)) {
      var c := PA.Get(entries, k).value;
      PA.EntryIsLookup(entries, (k, c));
    } else {
      forall c | (k, c) in entries ensures c == PA.VNull {
        PA.EntryIsLookup(entries, (k, c));
      }
    }
  }

  /** `filterBool`: a bool, `'1'`, `'0'` or `''`, stored as the bool PHP reads it as. */
  function Bool(v: PA.Value): (r: Verdict)
    ensures r.Some? <==> v.VBool? || v == PA.VStr("1") || v == PA.VStr("0") || v == PA.VStr("")
    ensures r.Some? ==> r.value == PA.VBool(PA.Truthy(v))
  {
    if v.VBool? || v == PA.VStr("1") || v == PA.VStr("0") || v == PA.VStr("") then Some(PA.VBool(PA.Truthy(v)))
    else None
  }

  /** What the bool filter stores it accepts again, unchanged. */
  lemma BoolIdempotent(v: PA.Value)
    requires Bool(v).Some?
    ensures Bool(Bool(v).value) == Bool(v)
  {
  }

  /** `filterKey`: the value, as a string, has no character outside `[0-9a-zA-Z-]`. */
  function Key(v: PA.Value): (r: Verdict)
    ensures r.Some? ==> r.value == v
  {
    match StringOf(v)
    case Some(s) => if FirstOutside(s, KeyChar).None? then Some(v) else None
    case None => None
  }

  /** The key filter accepts exactly the strings made of letters, digits and dashes. */
  lemma KeyAccepts(s: string)
    ensures Key(PA.VStr(s)).Some? <==> forall i :: 0 <= i < |s| ==> KeyChar(s[i])
  {
    FirstOutsideFacts(s, KeyChar);
  }

  // ---------------------------------------------------------------------
  // Lists of IDs

  /** The ID a piece of the list contributes, as written: numeric and above zero, then cast. */
  function IdAsWritten(piece: string): Option<int>
  {
    match ParseNumeral(piece)
    case Some(n) => if NumeralValue(n) > 0.0 then Some(Cast(n)) else None
    case None => None
  }

  /** The ID a piece of the list contributes: numeric, cast, and above zero. */
  function IdOf(piece: string): (r: Option<int>)
    ensures r.Some? ==> r.value > 0
  {
    match ParseNumeral(piece)
    case Some(n) => if Cast(n) > 0 then Some(Cast(n)) else None
    case None => None
  }

  /** Every ID the corrected reading gives, the reading as written gives too. */
  lemma IdOfAsWritten(piece: string)
    requires IdOf(piece).Some?
    ensures IdAsWritten(piece) == IdOf(piece)
  {
    CastPositive(ParseNumeral(piece).value);
  }

  lemma LastSplit<T>(s: seq<T>)
    requires |s| >= 1
    ensures s == s[..|s| - 1] + [s[|s| - 1]]
  {
  }

  /** The IDs of the pieces, in order, repetitions included. */
  function Ids(pieces: seq<string>, id: string -> Option<int>): seq<int>
  {
    if pieces == [] then []
    else
      var rest := Ids(pieces[..|pieces| - 1], id);
      match id(pieces[|pieces| - 1])
      case Some(n) => rest + [n]
      case None => rest
  }

  lemma IdsSnoc(pieces: seq<string>, p: string, id: string -> Option<int>)
    ensures Ids(pieces + [p], id) == Ids(pieces, id) + (if id(p).Some? then [id(p).value] else [])
  {
    assert (pieces + [p])[..|pieces|] == pieces;
  }

  /** Each number written in decimal. */
  function Decimals(xs: seq<int>): (r: seq<string>)
    ensures |r| == |xs|
  {
    if xs == [] then [] else Decimals(xs[..|xs| - 1]) + [Text.IntToString(xs[|xs| - 1])]
  }

  lemma {:induction false} DecimalsAt(xs: seq<int>, i: int)
    requires 0 <= i < |xs|
    ensures Decimals(xs)[i] == Text.IntToString(xs[i])
    decreases |xs|
  {
    if i < |xs| - 1 {
      DecimalsAt(xs[..|xs| - 1], i);
    }
  }

  /** The IDs a list yields: each once, ascending. */
  function ListedIds(text: string, id: string -> Option<int>): seq<int>
  {
    SortNumeric(Dedup(Ids(Text.Split(text, ','), id)))
  }

  /**
   * `filterListOfIds` for a given reading of the pieces: an empty value is
   * accepted unchanged; otherwise the IDs, each once and in ascending
   * order, joined by `", "`, and a rejection when there is none.
   */
  function IdsFilter(v: PA.Value, id: string -> Option<int>): Verdict
  {
    if !PA.Truthy(v) then Some(v)
    else match StringOf(v)
      case None => None
      case Some(text) =>
        var ids := ListedIds(text, id);
        if ids == [] then None else Some(PA.VStr(Text.Join(Decimals(ids), ", ")))
  }

  /** `filterListOfIds` as written. */
  function ListOfIdsAsWritten(v: PA.Value): Verdict
  {
    IdsFilter(v, IdAsWritten)
  }

  /** `filterListOfIds` keeping only IDs above zero. */
  function ListOfIds(v: PA.Value): Verdict
  {
    IdsFilter(v, IdOf)
  }

  /** The listed IDs are strictly ascending, and are exactly the IDs the pieces give. */
  lemma ListedIdsFacts(text: string, id: string -> Option<int>)
    ensures StrictlyAscending(ListedIds(text, id))
    ensures forall n :: n in ListedIds(text, id) <==> n in Ids(Text.Split(text, ','), id)
  {
    var ids := Ids(Text.Split(text, ','), id);
    DedupFacts(ids);
    SortFacts(Dedup(ids));
    var t := ListedIds(text, id);
    forall i, j | 0 <= i < j < |t| ensures t[i] < t[j] {
      assert t[i] <= t[j] && t[i] != t[j];
    }
  }

  /** A reading of the pieces that reads each positive decimal, alone or behind a space, as its number. */
  ghost predicate ReadsDecimals(id: string -> Option<int>)
  {
    forall x :: x > 0 ==> id(Text.IntToString(x)) == Some(x) && id(" " + Text.IntToString(x)) == Some(x)
  }

  /** A reading of the pieces that gives only IDs above zero. */
  ghost predicate ReadsPositive(id: string -> Option<int>)
  {
    forall s :: id(s).Some? ==> id(s).value > 0
  }

  /** `", "`-joined positive decimals split back into the decimals, IDs and all. */
  lemma IdsOfJoined(xs: seq<int>, id: string -> Option<int>)
    requires |xs| >= 1 && forall i :: 0 <= i < |xs| ==> xs[i] > 0
    requires ReadsDecimals(id)
    ensures Ids(Text.Split(Text.Join(Decimals(xs), ", "), ','), id) == xs
  {
    var ds := Decimals(xs);
    forall i | 0 <= i < |ds| ensures ',' !in ds[i] {
      DecimalsAt(xs, i);
      assert ds[i] == Text.NatToString(xs[i]);
      assert forall k :: 0 <= k < |ds[i]| ==> Text.IsDigit(ds[i][k]);
    }
    SplitJoinSpaced(ds);
    IdsOfSpaced(xs, id);
  }

  /** The first piece as it is, the others behind a space. */
  function Spaced(ps: seq<string>): (r: seq<string>)
    requires |ps| >= 1
    ensures |r| == |ps|
  {
    if |ps| == 1 then ps else Spaced(ps[..|ps| - 1]) + [" " + ps[|ps| - 1]]
  }

  lemma {:induction false} SpacedAt(ps: seq<string>, i: int)
    requires 0 <= i < |ps|
    ensures Spaced(ps)[i] == if i == 0 then ps[0] else " " + ps[i]
    decreases |ps|
  {
    if i < |ps| - 1 {
      SpacedAt(ps[..|ps| - 1], i);
    }
  }

  /** Pieces free of commas, joined by `", "`, split at the commas into the spaced pieces. */
  lemma SplitJoinSpaced(ps: seq<string>)
    requires |ps| >= 1 && forall i :: 0 <= i < |ps| ==> ',' !in ps[i]
    ensures Text.Split(Text.Join(ps, ", "), ',') == Spaced(ps)
  {
    assert ", " == [','] + " ";
    Text.SplitJoin(ps, ',', " ");
    SpacedPrefixed(ps);
  }

  lemma {:induction false} SpacedPrefixed(ps: seq<string>)
    requires |ps| >= 1
    ensures Spaced(ps) == [ps[0]] + Text.Prefixed(" ", ps[1..])
    decreases |ps|
  {
    var n := |ps|;
    if n == 1 {
      assert ps[1..] == [];
    } else {
      var init := ps[..n - 1];
      SpacedPrefixed(init);
      assert ps[1..] == init[1..] + [ps[n - 1]];
      Text.PrefixedSnoc(" ", init[1..], ps[n - 1]);
    }
  }

  /** A positive decimal, alone or behind a space, is read back as its ID. */
  lemma IdOfDecimal(x: int)
    requires x > 0
    ensures IdOf(Text.IntToString(x)) == Some(x)
    ensures IdOf(" " + Text.IntToString(x)) == Some(x)
  {
    ParseIntString(x, false);
    ParseIntString(x, true);
    assert Pad(false) + Text.IntToString(x) == Text.IntToString(x);
    assert Pad(true) == " ";
  }

  /** The corrected reading reads decimals back and gives only positive IDs. */
  lemma IdOfReads()
    ensures ReadsDecimals(IdOf) && ReadsPositive(IdOf)
  {
    forall x | x > 0
      ensures IdOf(Text.IntToString(x)) == Some(x) && IdOf(" " + Text.IntToString(x)) == Some(x)
    {
      IdOfDecimal(x);
    }
  }

  /** The spaced decimals of positive numbers read back as the numbers. */
  lemma {:induction false} IdsOfSpaced(xs: seq<int>, id: string -> Option<int>)
    requires |xs| >= 1 && forall i :: 0 <= i < |xs| ==> xs[i] > 0
    requires ReadsDecimals(id)
    ensures Ids(Spaced(Decimals(xs)), id) == xs
    decreases |xs|
  {
    var n := |xs|;
    var init := xs[..n - 1];
    var d := Text.IntToString(xs[n - 1]);
    var ds := Decimals(xs);
    assert ds == Decimals(init) + [d];
    if n == 1 {
      assert Spaced(ds) == [] + [d];
      IdsSnoc([], d, id);
    } else {
      IdsOfSpaced(init, id);
      assert ds[..n - 1] == Decimals(init);
      assert Spaced(ds) == Spaced(Decimals(init)) + [" " + d];
      IdsSnoc(Spaced(Decimals(init)), " " + d, id);
      LastSplit(xs);
    }
  }

  /** The join of positive decimals is never a string PHP reads as false. */
  lemma JoinedTruthy(xs: seq<int>)
    requires |xs| >= 1 && xs[0] > 0
    ensures PA.TruthyString(Text.Join(Decimals(xs), ", "))
  {
    var ds := Decimals(xs);
    var j := Text.Join(ds, ", ");
    DecimalsAt(xs, 0);
    assert ds[0] == Text.NatToString(xs[0]);
    assert ds[0][0] != '0';
    if |xs| == 1 {
      assert j == ds[0];
    } else {
      assert j == ds[0] + ", " + Text.Join(ds[1..], ", ");
      assert |j| >= 2;
    }
  }

  /** What the ID filter stores, it accepts again and stores unchanged. */
  lemma ListOfIdsIdempotent(v: PA.Value)
    requires ListOfIds(v).Some?
    ensures ListOfIds(ListOfIds(v).value) == ListOfIds(v)
  {
    IdOfReads();
    IdsFilterIdempotent(v, IdOf);
  }

  /** Any reading that reads decimals back and gives only positive IDs makes the filter idempotent. */
  lemma IdsFilterIdempotent(v: PA.Value, id: string -> Option<int>)
    requires ReadsDecimals(id) && ReadsPositive(id)
    requires IdsFilter(v, id).Some?
    ensures IdsFilter(IdsFilter(v, id).value, id) == IdsFilter(v, id)
  {
    if PA.Truthy(v) {
      var text := StringOf(v).value;
      var xs := ListedIds(text, id);
      assert IdsFilter(v, id) == Some(PA.VStr(Text.Join(Decimals(xs), ", ")));
      ListedPositive(text, id);
      StoredIdsKept(xs, id);
    }
  }

  /** The IDs listed by a reading that gives only positive IDs are positive and ascending. */
  lemma ListedPositive(text: string, id: string -> Option<int>)
    requires ReadsPositive(id)
    ensures var xs := ListedIds(text, id);
      StrictlyAscending(xs) && forall i :: 0 <= i < |xs| ==> xs[i] > 0
  {
    var xs := ListedIds(text, id);
    ListedIdsFacts(text, id);
    forall i | 0 <= i < |xs| ensures xs[i] > 0 {
      assert xs[i] in xs;
      assert xs[i] in Ids(Text.Split(text, ','), id);
      IdsPositive(Text.Split(text, ','), xs[i], id);
    }
  }

  /** A stored list of ascending positive IDs passes the filter unchanged. */
  lemma StoredIdsKept(xs: seq<int>, id: string -> Option<int>)
    requires |xs| >= 1 && StrictlyAscending(xs) && forall i :: 0 <= i < |xs| ==> xs[i] > 0
    requires ReadsDecimals(id)
    ensures var v := PA.VStr(Text.Join(Decimals(xs), ", ")); IdsFilter(v, id) == Some(v)
  {
    var t := Text.Join(Decimals(xs), ", ");
    JoinedTruthy(xs);
    IdsOfJoined(xs, id);
    DedupOfDistinct(xs);
    SortOfSorted(xs);
    assert ListedIds(t, id) == xs;
  }

  lemma {:induction false} IdsPositive(pieces: seq<string>, n: int, id: string -> Option<int>)
    requires ReadsPositive(id)
    requires n in Ids(pieces, id)
    ensures n > 0
  {
    if pieces != [] {
      var init := pieces[..|pieces| - 1];
      if n !in Ids(init, id) {
        assert id(pieces[|pieces| - 1]) == Some(n);
      } else {
        IdsPositive(init, n, id);
      }
    }
  }

  lemma {:induction false} SplitWithout(s: string, sep: char)
    requires sep !in s
    ensures Text.Split(s, sep) == [s]
  {
    if s != [] {
      SplitWithout(s[1..], sep);
      assert [s[0]] + s[1..] == s;
    }
  }

  lemma SplitPair(a: string, b: string)
    requires ',' !in a && ',' !in b
    ensures Text.Split(a + "," + b, ',') == [a, b]
  {
    assert a + "," + b == a + [','] + b;
    Text.SplitAround(a, b, ',');
    SplitWithout(a, ',');
    SplitWithout(b, ',');
  }

  /**
   * As written, a piece numeric and above zero that casts to 0, such as
   * `"0.5"`, is kept as the ID 0, which a second pass over the stored
   * value then drops.
   */
  lemma ListOfIdsAsWrittenKeepsZero(p: string, n: int)
    requires ',' !in p && IdAsWritten(p) == Some(0) && n > 0
    ensures var first := ListOfIdsAsWritten(PA.VStr(p + "," + Text.IntToString(n)));
      && first == Some(PA.VStr("0" + ", " + Text.IntToString(n)))
      && ListOfIdsAsWritten(first.value) == Some(PA.VStr(Text.IntToString(n)))
  {
    var d := Text.IntToString(n);
    assert forall k :: 0 <= k < |d| ==> Text.IsDigit(d[k]);
    IdOfDecimal(n);
    IdOfAsWritten(d);
    IdOfAsWritten(" " + d);
    IdsFilterTwo(p, d, IdAsWritten, 0, n);
    IdAsWrittenZero();
    IdsFilterSecond("0", d, IdAsWritten, n);
  }

  /** Two pieces with two increasing IDs are stored as both. */
  lemma IdsFilterTwo(a: string, b: string, id: string -> Option<int>, m: int, n: int)
    requires ',' !in a && ',' !in b && id(a) == Some(m) && id(b) == Some(n) && 0 <= m < n
    ensures IdsFilter(PA.VStr(a + "," + b), id) == Some(PA.VStr(Text.IntToString(m) + ", " + Text.IntToString(n)))
  {
    ListedTwo(a, b, id, m, n);
    assert Decimals([m, n]) == [Text.IntToString(m), Text.IntToString(n)] by {
      assert [m, n][..1] == [m] && [m][..0] == [];
    }
    JoinPair(Text.IntToString(m), Text.IntToString(n), ", ");
    assert (a + "," + b)[|a|] == ',';
  }

  /** Two pieces of which only the second has an ID are stored as that one. */
  lemma IdsFilterSecond(a: string, b: string, id: string -> Option<int>, n: int)
    requires ',' !in a && ',' !in b && id(a) == None && id(" " + b) == Some(n)
    ensures IdsFilter(PA.VStr(a + ", " + b), id) == Some(PA.VStr(Text.IntToString(n)))
  {
    assert a + ", " + b == a + "," + (" " + b);
    ListedSecond(a, " " + b, id, n);
    assert Decimals([n]) == [Text.IntToString(n)] by {
      assert [n][..0] == [];
    }
    assert (a + ", " + b)[|a|] == ',';
  }

  lemma JoinPair(a: string, b: string, glue: string)
    ensures Text.Join([a, b], glue) == a + glue + b
  {
    assert [a, b][1..] == [b];
  }

  /** `"0.5"` is such a piece. */
  lemma IdAsWrittenHalf()
    ensures ',' !in "0.5" && IdAsWritten("0.5") == Some(0)
  {
    var s := "0.5";
    TrimLeftKeeps(s, NumericSpace);
    TrimRightKeeps(s, NumericSpace);
    Text.IndexOfAt(s, '.', 1);
    assert s[..1] == "0" && s[2..] == "5";
    assert ParseNumeral(s) == Some(Numeral(false, "0", "5"));
    NumeralPositive(Numeral(false, "0", "5"));
  }

  /** Two pieces with two increasing IDs list both. */
  lemma ListedTwo(a: string, b: string, id: string -> Option<int>, m: int, n: int)
    requires ',' !in a && ',' !in b && id(a) == Some(m) && id(b) == Some(n) && m < n
    ensures ListedIds(a + "," + b, id) == [m, n]
  {
    SplitPair(a, b);
    assert Ids([a, b], id) == [m, n] by {
      IdsSnoc([], a, id);
      IdsSnoc([a], b, id);
      assert [] + [a] == [a] && [a] + [b] == [a, b];
    }
    assert Dedup([m, n]) == [m, n] by {
      DedupSnoc([], m);
      DedupSnoc([m], n);
      assert [] + [m] == [m] && [m] + [n] == [m, n];
    }
    SortPair(m, n);
  }

  /** Two pieces of which only the second has an ID list that one. */
  lemma ListedSecond(a: string, b: string, id: string -> Option<int>, n: int)
    requires ',' !in a && ',' !in b && id(a) == None && id(b) == Some(n)
    ensures ListedIds(a + "," + b, id) == [n]
  {
    SplitPair(a, b);
    assert Ids([a, b], id) == [n] by {
      IdsSnoc([], a, id);
      IdsSnoc([a], b, id);
      assert [] + [a] == [a] && [a] + [b] == [a, b];
    }
    assert Dedup([n]) == [n] by {
      DedupSnoc([], n);
      assert [] + [n] == [n];
    }
    SortPair(n, n);
  }

  lemma IdAsWrittenZero()
    ensures IdAsWritten("0") == None
  {
    var z := "0";
    assert Pad(false) + z == z && |z| == 1 && Text.IsDigit(z[0]);
    ParseDigits(false, z);
    var n := Numeral(false, z, "");
    assert Text.DigitsValue(z) == 0 && Text.DigitsValue("") == 0;
    NumeralPositive(n);
  }

  // ---------------------------------------------------------------------
  // Lists of nicknames

  /** The trimmed pieces that are nicknames, in order, repetitions included. */
  function Nicknames(pieces: seq<string>): (r: seq<string>)
    ensures forall i :: 0 <= i < |r| ==> IsNickname(r[i])
  {
    if pieces == [] then []
    else
      var rest := Nicknames(pieces[..|pieces| - 1]);
      var t := Text.Trim(pieces[|pieces| - 1]);
      if IsNickname(t) then rest + [t] else rest
  }

  /** A piece that trims to the nickname `t` adds `t` to the list. */
  lemma NicknameKept(pieces: seq<string>, p: string, t: string)
    requires IsNickname(t) && (p == t || p == " " + t)
    ensures Nicknames(pieces + [p]) == Nicknames(pieces) + [t]
  {
    TrimOfNickname(t);
    NicknamesSnoc(pieces, p);
  }

  lemma NicknamesSnoc(pieces: seq<string>, p: string)
    ensures Nicknames(pieces + [p]) == Nicknames(pieces) + (if IsNickname(Text.Trim(p)) then [Text.Trim(p)] else [])
  {
    assert (pieces + [p])[..|pieces|] == pieces;
  }

  /**
   * `filterListOfNicknames`: an empty value is accepted unchanged;
   * otherwise the trimmed nicknames, each once in order of first
   * occurrence, joined by `", "`, and a rejection when there is none.
   */
  function ListOfNicknames(v: PA.Value): Verdict
  {
    if !PA.Truthy(v) then Some(v)
    else match StringOf(v)
      case None => None
      case Some(text) =>
        var names := Dedup(Nicknames(Text.Split(text, ',')));
        if names == [] then None else Some(PA.VStr(Text.Join(names, ", ")))
  }

  /** The nicknames stored are distinct, are exactly those of the list, and keep the order of first occurrence. */
  lemma ListOfNicknamesFacts(text: string)
    ensures var ns := Nicknames(Text.Split(text, ','));
      && Distinct(Dedup(ns))
      && (forall s :: s in Dedup(ns) <==> s in ns)
      && (forall i, j :: 0 <= i < j < |Dedup(ns)| ==> OccursBefore(ns, Dedup(ns)[i], Dedup(ns)[j]))
  {
    var ns := Nicknames(Text.Split(text, ','));
    DedupFacts(ns);
    DedupOrder(ns);
  }

  lemma {:induction false} NicknamesOfSpaced(ns: seq<string>)
    requires |ns| >= 1 && forall i :: 0 <= i < |ns| ==> IsNickname(ns[i])
    ensures Nicknames(Spaced(ns)) == ns
    decreases |ns|
  {
    var n := |ns|;
    var last := ns[n - 1];
    if n == 1 {
      assert Spaced(ns) == [] + [last];
      NicknameKept([], last, last);
    } else {
      var init := ns[..n - 1];
      assert ns == init + [last];
      assert Spaced(ns) == Spaced(init) + [" " + last];
      NicknamesOfSpaced(init);
      NicknameKept(Spaced(init), " " + last, last);
    }
  }

  /** What the nickname filter stores, it accepts again and stores unchanged. */
  lemma ListOfNicknamesIdempotent(v: PA.Value)
    requires ListOfNicknames(v).Some?
    ensures ListOfNicknames(ListOfNicknames(v).value) == ListOfNicknames(v)
  {
    if PA.Truthy(v) {
      var text := StringOf(v).value;
      var ns := Dedup(Nicknames(Text.Split(text, ',')));
      assert ListOfNicknames(v) == Some(PA.VStr(Text.Join(ns, ", ")));
      DedupNicknames(Nicknames(Text.Split(text, ',')));
      StoredNicknamesKept(ns);
    }
  }

  /** Deduplicated nicknames are distinct nicknames. */
  lemma DedupNicknames(all: seq<string>)
    requires forall i :: 0 <= i < |all| ==> IsNickname(all[i])
    ensures Distinct(Dedup(all)) && forall i :: 0 <= i < |Dedup(all)| ==> IsNickname(Dedup(all)[i])
  {
    DedupFacts(all);
    forall i | 0 <= i < |Dedup(all)| ensures IsNickname(Dedup(all)[i]) {
      DedupAt(all, i);
    }
  }

  /** A stored list of distinct nicknames passes the filter unchanged. */
  lemma StoredNicknamesKept(ns: seq<string>)
    requires |ns| >= 1 && Distinct(ns) && forall i :: 0 <= i < |ns| ==> IsNickname(ns[i])
    ensures var v := PA.VStr(Text.Join(ns, ", ")); ListOfNicknames(v) == Some(v)
  {
    NicknamesRoundTrip(ns);
  }

  /** Distinct nicknames joined by `", "` are read back as themselves. */
  lemma NicknamesRoundTrip(ns: seq<string>)
    requires |ns| >= 1 && Distinct(ns) && forall i :: 0 <= i < |ns| ==> IsNickname(ns[i])
    ensures Dedup(Nicknames(Text.Split(Text.Join(ns, ", "), ','))) == ns
  {
    NoCommaInNicknames(ns);
    SplitJoinSpaced(ns);
    NicknamesOfSpaced(ns);
    DedupOfDistinct(ns);
  }

  lemma NoCommaInNicknames(ns: seq<string>)
    requires forall i :: 0 <= i < |ns| ==> IsNickname(ns[i])
    ensures forall i :: 0 <= i < |ns| ==> ',' !in ns[i]
  {
    forall i | 0 <= i < |ns| ensures ',' !in ns[i] {
      assert !NicknameChar(',');
    }
  }

  // ---------------------------------------------------------------------
  // Dispatch

  /** The filters a data type can name. */
  datatype Filter =
    | PositiveNumberFilter | ChoiceFilter | BoolFilter | ListOfIdsFilter | ListOfNicknamesFilter
    | InlineHtmlFilter | PlainTextFilter | KeyFilter
      /** `filterOption` itself, which a data type called "option" reaches. */
    | SelfFilter

  /** `str_replace('_', '', $s)`. */
  function WithoutUnderscores(s: string): (r: string)
    ensures '_' !in r
  {
    if s == [] then [] else (if s[0] == '_' then [] else [s[0]]) + WithoutUnderscores(s[1..])
  }

  /**
   * The filter method `'filter' . ucwords($dataType, '_')` names once the
   * underscores are gone; method names are matched without regard to case.
   */
  function FilterFor(dataType: string): Option<Filter>
  {
    FilterNamed(Text.ToLower(WithoutUnderscores(dataType)))
  }

  /** The filter a lower-case method name without underscores names. */
  function FilterNamed(name: string): Option<Filter>
  {
    if name == "positivenumber" then Some(PositiveNumberFilter)
    else if name == "choice" then Some(ChoiceFilter)
    else if name == "bool" then Some(BoolFilter)
    else if name == "listofids" then Some(ListOfIdsFilter)
    else if name == "listofnicknames" then Some(ListOfNicknamesFilter)
    else if name == "inlinehtml" then Some(InlineHtmlFilter)
    else if name == "plaintext" then Some(PlainTextFilter)
    else if name == "key" then Some(KeyFilter)
    else if name == "option" then Some(SelfFilter)
    else None
  }

  lemma {:induction false} WithoutUnderscoresConcat(a: string, b: string)
    ensures WithoutUnderscores(a + b) == WithoutUnderscores(a) + WithoutUnderscores(b)
  {
    if a == [] {
      assert a + b == b;
    } else {
      assert (a + b)[0] == a[0] && (a + b)[1..] == a[1..] + b;
      WithoutUnderscoresConcat(a[1..], b);
      var h := if a[0] == '_' then [] else [a[0]];
      assert WithoutUnderscores(a + b) == h + (WithoutUnderscores(a[1..]) + WithoutUnderscores(b));
      assert WithoutUnderscores(a) == h + WithoutUnderscores(a[1..]);
    }
  }

  lemma {:induction false} WithoutUnderscoresKeeps(s: string)
    requires '_' !in s
    ensures WithoutUnderscores(s) == s
  {
    if s != [] {
      WithoutUnderscoresKeeps(s[1..]);
      assert [s[0]] + s[1..] == s;
    }
  }

  lemma ToLowerKeeps(s: string)
    requires forall i :: 0 <= i < |s| ==> !Text.IsUpperLetter(s[i])
    ensures Text.ToLower(s) == s
  {
  }

  /** A data type in lower-case words joined by underscores names the filter spelt by the words run together. */
  lemma FilterForWords(words: seq<string>, name: string)
    requires |words| >= 1 && name == Text.Join(words, "")
    requires forall i :: 0 <= i < |words| ==> '_' !in words[i]
    requires forall i :: 0 <= i < |name| ==> !Text.IsUpperLetter(name[i])
    ensures FilterFor(Text.Join(words, "_")) == FilterNamed(name)
  {
    JoinWithout(words);
    ToLowerKeeps(name);
  }

  lemma {:induction false} JoinWithout(words: seq<string>)
    requires |words| >= 1 && forall i :: 0 <= i < |words| ==> '_' !in words[i]
    ensures WithoutUnderscores(Text.Join(words, "_")) == Text.Join(words, "")
  {
    WithoutUnderscoresKeeps(words[0]);
    if |words| > 1 {
      JoinWithout(words[1..]);
      var rest := Text.Join(words[1..], "_");
      WithoutUnderscoresConcat(words[0], "_" + rest);
      WithoutUnderscoresConcat("_", rest);
      Regroup(words[0], "_", rest);
      Regroup(words[0], "", Text.Join(words[1..], ""));
    }
  }

  lemma Regroup(a: string, glue: string, b: string)
    ensures a + glue + b == a + (glue + b)
    ensures glue == "" ==> a + glue + b == a + b
  {
  }

  /** The method names the filters answer to. */
  lemma FilterNames()
    ensures FilterNamed("positivenumber") == Some(PositiveNumberFilter)
    ensures FilterNamed("choice") == Some(ChoiceFilter)
    ensures FilterNamed("bool") == Some(BoolFilter)
    ensures FilterNamed("listofids") == Some(ListOfIdsFilter)
    ensures FilterNamed("listofnicknames") == Some(ListOfNicknamesFilter)
    ensures FilterNamed("inlinehtml") == Some(InlineHtmlFilter)
    ensures FilterNamed("plaintext") == Some(PlainTextFilter)
    ensures FilterNamed("key") == Some(KeyFilter)
    ensures FilterNamed("option") == Some(SelfFilter)
  {
  }

  /** Dropping underscores and lower-casing commute. */
  lemma {:induction false} WithoutUnderscoresLower(s: string)
    ensures WithoutUnderscores(Text.ToLower(s)) == Text.ToLower(WithoutUnderscores(s))
  {
    if s != [] {
      var l := Text.ToLower(s);
      assert l[0] == Text.LowerChar(s[0]) && l[1..] == Text.ToLower(s[1..]);
      WithoutUnderscoresLower(s[1..]);
      var h := if s[0] == '_' then [] else [s[0]];
      Text.ToLowerAppend(h, WithoutUnderscores(s[1..]));
      assert Text.ToLower(h) == if s[0] == '_' then [] else [l[0]];
    }
  }

  /** The filter a data type names does not depend on the case of its letters. */
  lemma FilterForIgnoresCase(dataType: string)
    ensures FilterFor(Text.ToLower(dataType)) == FilterFor(dataType)
  {
    WithoutUnderscoresLower(dataType);
    Text.ToLowerIdempotent(WithoutUnderscores(dataType));
  }

  /** Nor on the underscores in it. */
  lemma FilterForIgnoresUnderscores(a: string, b: string)
    ensures FilterFor(a + "_" + b) == FilterFor(a + b)
  {
    WithoutUnderscoresConcat(a + "_", b);
    WithoutUnderscoresConcat(a, "_");
    WithoutUnderscoresConcat(a, b);
    assert WithoutUnderscores("_") == [];
    assert WithoutUnderscores(a) + [] == WithoutUnderscores(a);
  }

  /** `wp_kses` with the inline tags allowed, and `sanitize_text_field`. */
  datatype Sanitizers = Sanitizers(kses: PA.Value -> PA.Value, plainText: PA.Value -> PA.Value)

  /** The verdict of one filter on a value. */
  function Run(f: Filter, v: PA.Value, conditions: PA.Value, s: Sanitizers): Verdict
    requires f != SelfFilter
  {
    match f
    case PositiveNumberFilter => if PositiveNumber(v, conditions) then Some(v) else None
    case ChoiceFilter => if Choice(v, conditions) then Some(v) else None
    case BoolFilter => Bool(v)
    case ListOfIdsFilter => ListOfIds(v)
    case ListOfNicknamesFilter => ListOfNicknames(v)
    case InlineHtmlFilter => Some(s.kses(v))
    case PlainTextFilter => Some(s.plainText(v))
    case KeyFilter => Key(v)
  }

  /** `filterOption`: what an accepting filter leaves, and the field's default otherwise. */
  function Filtered(v: PA.Value, field: DM.Field, s: Sanitizers): PA.Value
    requires FilterFor(field.dataType) != Some(SelfFilter)
  {
    match FilterFor(field.dataType)
    case Some(f) =>
      (match Run(f, v, field.conditions, s)
       case Some(w) => w
       case None => field.defaultValue)
    case None => field.defaultValue
  }

  /** What a filter leaves in `$this->value`: its result when it accepts, the value untouched otherwise. */
  function After(r: Verdict, v: PA.Value): PA.Value
  {
    if r.Some? then r.value else v
  }

  /** An unknown data type, or a filter that rejects the value, yields the field's default. */
  lemma FilteredFallback(v: PA.Value, field: DM.Field, s: Sanitizers)
    requires FilterFor(field.dataType) != Some(SelfFilter)
    ensures FilterFor(field.dataType).None? ==> Filtered(v, field, s) == field.defaultValue
    ensures FilterFor(field.dataType).Some? ==>
      (Run(FilterFor(field.dataType).value, v, field.conditions, s).None? ==> Filtered(v, field, s) == field.defaultValue)
  {
  }

  // ---------------------------------------------------------------------
  // The filter object

  /** Every entry is filed under its own value's key. */
  ghost predicate KeyedBy<T>(a: seq<(PA.Key, T)>, key: T -> PA.Key)
  {
    forall e :: e in a ==> e.0 == key(e.1)
  }

  /** Writing `x` under its own key adds it at the end when it is new and changes nothing otherwise. */
  lemma StoreByKey<T>(a: seq<(PA.Key, T)>, key: T -> PA.Key, x: T)
    requires KeyedBy(a, key) && PA.DistinctKeys(a)
    requires forall y, z :: key(y) == key(z) ==> y == z
    ensures PA.Set(a, key(x), x) == if x in PA.Values(a) then a else a + [(key(x), x)]
    ensures key(x) in PA.Keys(a) <==> x in PA.Values(a)
  {
    if x in PA.Values(a) {
      var i :| 0 <= i < |a| && PA.Values(a)[i] == x;
      assert a[i] in a;
      PA.KeyNotBefore(a, i);
      PA.RawSetAt(a, i, x);
      assert a[i := (a[i].0, x)] == a;
      assert PA.Keys(a)[i] == key(x);
    } else {
      assert key(x) !in PA.Keys(a) by {
        forall i | 0 <= i < |a| ensures a[i].0 != key(x) {
          assert a[i] in a;
          assert PA.Values(a)[i] == a[i].1;
        }
      }
      PA.RawSetNew(a, key(x), x);
    }
  }

  /** Writing `x` under its own key keeps the array keyed and distinct, and adds `x` to its values when it is new. */
  lemma KeyedStore<T>(a: seq<(PA.Key, T)>, key: T -> PA.Key, x: T)
    requires KeyedBy(a, key) && PA.DistinctKeys(a)
    requires forall y, z :: key(y) == key(z) ==> y == z
    ensures var next := PA.Set(a, key(x), x);
      && KeyedBy(next, key) && PA.DistinctKeys(next)
      && PA.Values(next) == if x in PA.Values(a) then PA.Values(a) else PA.Values(a) + [x]
  {
    StoreByKey(a, key, x);
    if x !in PA.Values(a) {
      ValuesSnoc(a, key(x), x);
      KeyedSnoc(a, key, x);
      PA.DistinctConcat(a, [(key(x), x)]);
    }
  }

  lemma ValuesSnoc<K, V>(a: seq<(K, V)>, k: K, v: V)
    ensures PA.Values(a + [(k, v)]) == PA.Values(a) + [v]
    ensures PA.Keys(a + [(k, v)]) == PA.Keys(a) + [k]
  {
  }

  lemma KeyedSnoc<T>(a: seq<(PA.Key, T)>, key: T -> PA.Key, x: T)
    requires KeyedBy(a, key)
    ensures KeyedBy(a + [(key(x), x)], key)
  {
  }

  function IntKeyOf(i: int): PA.Key { PA.IntKey(i) }

  function StringKeyOf(s: string): PA.Key { PA.KeyOfString(s) }

  lemma StringKeyInjective()
    ensures forall y, z :: StringKeyOf(y) == StringKeyOf(z) ==> y == z
  {
  }

  /** One pass of the ID loop: the array holds the new IDs, each once, in order of first occurrence. */
  lemma IdStep(nums: seq<(PA.Key, int)>, done: seq<string>, number: string)
    requires KeyedBy(nums, IntKeyOf) && PA.DistinctKeys(nums)
    requires PA.Values(nums) == Dedup(Ids(done, IdOf))
    ensures var next :=
        if IdOf(number).Some? && PA.KeyOfString(number) !in PA.Keys(nums)
        then PA.Set(nums, PA.IntKey(IdOf(number).value), IdOf(number).value) else nums;
      && KeyedBy(next, IntKeyOf) && PA.DistinctKeys(next)
      && PA.Values(next) == Dedup(Ids(done + [number], IdOf))
  {
    IdsSnoc(done, number, IdOf);
    DedupFacts(Ids(done, IdOf));
    match IdOf(number)
    case None =>
    case Some(n) =>
      DedupSnoc(Ids(done, IdOf), n);
      if PA.KeyOfString(number) in PA.Keys(nums) {
        KnownKeySeen(nums, done, number, n);
      } else {
        KeyedStore(nums, IntKeyOf, n);
      }
  }

  /** A piece whose key is already in the array has an ID met before. */
  lemma KnownKeySeen(nums: seq<(PA.Key, int)>, done: seq<string>, number: string, n: int)
    requires KeyedBy(nums, IntKeyOf)
    requires PA.Values(nums) == Dedup(Ids(done, IdOf))
    requires IdOf(number) == Some(n) && PA.KeyOfString(number) in PA.Keys(nums)
    ensures n in Ids(done, IdOf)
  {
    var i :| 0 <= i < |nums| && PA.Keys(nums)[i] == PA.KeyOfString(number);
    assert nums[i] in nums;
    var m := nums[i].1;
    assert PA.Values(nums)[i] == m;
    DedupAt(Ids(done, IdOf), i);
    assert PA.KeyOfString(number) == PA.IntKey(m);
    assert Text.IntToString(m) == number;
    IdOfReads();
    IdsPositive(done, m, IdOf);
    IdOfDecimal(m);
  }

  /** Pass `i` of the ID loop over `numbers`. */
  lemma IdStepAt(nums: seq<(PA.Key, int)>, numbers: seq<string>, i: int)
    requires 0 <= i < |numbers|
    requires KeyedBy(nums, IntKeyOf) && PA.DistinctKeys(nums)
    requires PA.Values(nums) == Dedup(Ids(numbers[..i], IdOf))
    ensures var number := numbers[i];
      var next :=
        if IdOf(number).Some? && PA.KeyOfString(number) !in PA.Keys(nums)
        then PA.Set(nums, PA.IntKey(IdOf(number).value), IdOf(number).value) else nums;
      && KeyedBy(next, IntKeyOf) && PA.DistinctKeys(next)
      && PA.Values(next) == Dedup(Ids(numbers[..i + 1], IdOf))
  {
    Text.TakeSnoc(numbers, i);
    IdStep(nums, numbers[..i], numbers[i]);
  }

  /** After the ID loop: no ID rejects the list, and otherwise the IDs collected are sorted and joined. */
  lemma IdsCollected(v: PA.Value, nums: seq<(PA.Key, int)>)
    requires PA.Truthy(v) && StringOf(v).Some?
    requires var numbers := Text.Split(StringOf(v).value, ',');
      PA.Values(nums) == Dedup(Ids(numbers[..|numbers|], IdOf))
    ensures ListOfIds(v) == if nums == [] then None
      else Some(PA.VStr(Text.Join(Decimals(SortNumeric(PA.Values(nums))), ", ")))
  {
    var numbers := Text.Split(StringOf(v).value, ',');
    assert numbers[..|numbers|] == numbers;
    SortFacts(PA.Values(nums));
    assert |PA.Values(nums)| == |nums|;
  }

  /** Pass `i` of the nickname loop over `nicknames`. */
  lemma NicknameStepAt(valid: seq<(PA.Key, string)>, nicknames: seq<string>, i: int)
    requires 0 <= i < |nicknames|
    requires KeyedBy(valid, StringKeyOf) && PA.DistinctKeys(valid)
    requires PA.Values(valid) == Dedup(Nicknames(nicknames[..i]))
    ensures var t := Text.Trim(nicknames[i]);
      var next := if IsNickname(t) && PA.KeyOfString(t) !in PA.Keys(valid) then PA.Set(valid, PA.KeyOfString(t), t) else valid;
      && KeyedBy(next, StringKeyOf) && PA.DistinctKeys(next)
      && PA.Values(next) == Dedup(Nicknames(nicknames[..i + 1]))
  {
    Text.TakeSnoc(nicknames, i);
    NicknameStep(valid, nicknames[..i], nicknames[i]);
  }

  /** After the nickname loop: no nickname rejects the list, and otherwise the nicknames collected are joined. */
  lemma NicknamesCollected(v: PA.Value, valid: seq<(PA.Key, string)>)
    requires PA.Truthy(v) && StringOf(v).Some?
    requires var nicknames := Text.Split(StringOf(v).value, ',');
      PA.Values(valid) == Dedup(Nicknames(nicknames[..|nicknames|]))
    ensures ListOfNicknames(v) == if valid == [] then None
      else Some(PA.VStr(Text.Join(PA.Values(valid), ", ")))
  {
    var nicknames := Text.Split(StringOf(v).value, ',');
    assert nicknames[..|nicknames|] == nicknames;
    assert |PA.Values(valid)| == |valid|;
  }

  /** One pass of the nickname loop. */
  lemma NicknameStep(valid: seq<(PA.Key, string)>, done: seq<string>, nickname: string)
    requires KeyedBy(valid, StringKeyOf) && PA.DistinctKeys(valid)
    requires PA.Values(valid) == Dedup(Nicknames(done))
    ensures var t := Text.Trim(nickname);
      var next := if IsNickname(t) && PA.KeyOfString(t) !in PA.Keys(valid) then PA.Set(valid, PA.KeyOfString(t), t) else valid;
      && KeyedBy(next, StringKeyOf) && PA.DistinctKeys(next)
      && PA.Values(next) == Dedup(Nicknames(done + [nickname]))
  {
    var t := Text.Trim(nickname);
    NicknamesSnoc(done, nickname);
    if IsNickname(t) {
      DedupFacts(Nicknames(done));
      DedupSnoc(Nicknames(done), t);
      StringKeyInjective();
      KeyedStore(valid, StringKeyOf, t);
    }
  }

  /** `SiteTreeOptionsFilter`: one value, the field it is meant for, and the filters run over it. */
  class OptionsFilter {
    var value: PA.Value
    const field: DM.Field
    const sanitizers: Sanitizers

    constructor (value: PA.Value, field: DM.Field, sanitizers: Sanitizers)
      ensures this.value == value && this.field == field && this.sanitizers == sanitizers
    {
      this.value := value;
      this.field := field;
      this.sanitizers := sanitizers;
    }

    /** `filterOption`: the filtered value when the data type names a filter that accepts it, else the default. */
    method FilterOption() returns (r: PA.Value)
      requires FilterFor(field.dataType) != Some(SelfFilter)
      modifies this`value
      ensures r == Filtered(old(value), field, sanitizers)
      ensures FilterFor(field.dataType).Some? ==>
        value == After(Run(FilterFor(field.dataType).value, old(value), field.conditions, sanitizers), old(value))
      ensures FilterFor(field.dataType).None? ==> value == old(value)
    {
      var accepted := false;
      match FilterFor(field.dataType) {
        case None =>
        case Some(f) =>
          match f {
            case PositiveNumberFilter => accepted := PositiveNumber(value, field.conditions);
            case ChoiceFilter => accepted := Choice(value, field.conditions);
            case BoolFilter => accepted := FilterBool();
            case ListOfIdsFilter => accepted := FilterListOfIds();
            case ListOfNicknamesFilter => accepted := FilterListOfNicknames();
            case InlineHtmlFilter => accepted := FilterInlineHtml();
            case PlainTextFilter => accepted := FilterPlainText();
            case KeyFilter => accepted := Key(value).Some?;
          }
      }
      if accepted {
        r := value;
      } else {
        r := field.defaultValue;
      }
    }

    /** `filterBool`. */
    method FilterBool() returns (ok: bool)
      modifies this`value
      ensures ok == Bool(old(value)).Some? && value == After(Bool(old(value)), old(value))
    {
      if value.VBool? || value == PA.VStr("1") || value == PA.VStr("0") || value == PA.VStr("") {
        value := PA.VBool(PA.Truthy(value));
        return true;
      }
      return false;
    }

    /** `filterInlineHtml`: the value with the tags outside the inline set stripped. */
    method FilterInlineHtml() returns (ok: bool)
      modifies this`value
      ensures ok && value == sanitizers.kses(old(value))
    {
      value := sanitizers.kses(value);
      return true;
    }

    /** `filterPlainText`. */
    method FilterPlainText() returns (ok: bool)
      modifies this`value
      ensures ok && value == sanitizers.plainText(old(value))
    {
      value := sanitizers.plainText(value);
      return true;
    }

    /** `filterListOfIds`: collects the IDs in an array keyed by ID, then sorts and joins them. */
    method FilterListOfIds() returns (ok: bool)
      modifies this`value
      ensures ok == ListOfIds(old(value)).Some? && value == After(ListOfIds(old(value)), old(value))
    {
      if !PA.Truthy(value) {
        return true;
      }
      var text := StringOf(value);
      if text.None? {
        return false;
      }
      var numbers := Text.Split(text.value, ',');
      var nums: seq<(PA.Key, int)> := [];
      var i := 0;
      while i < |numbers|
        invariant 0 <= i <= |numbers| && value == old(value)
        invariant KeyedBy(nums, IntKeyOf) && PA.DistinctKeys(nums)
        invariant PA.Values(nums) == Dedup(Ids(numbers[..i], IdOf))
      {
        var number := numbers[i];
        IdStepAt(nums, numbers, i);
        var id := IdOf(number);
        // `isset($_nums[$number])`: the stored IDs are never null
        if id.Some? && PA.KeyOfString(number) !in PA.Keys(nums) {
          nums := PA.Set(nums, PA.IntKey(id.value), id.value);
        }
        i := i + 1;
      }
      IdsCollected(value, nums);
      if nums == [] {
        return false;
      }
      var sorted := SortNumeric(PA.Values(nums));
      value := PA.VStr(Text.Join(Decimals(sorted), ", "));
      return true;
    }

    /** `filterListOfNicknames`: collects the trimmed nicknames in an array keyed by nickname, then joins them. */
    method FilterListOfNicknames() returns (ok: bool)
      modifies this`value
      ensures ok == ListOfNicknames(old(value)).Some? && value == After(ListOfNicknames(old(value)), old(value))
    {
      if !PA.Truthy(value) {
        return true;
      }
      var text := StringOf(value);
      if text.None? {
        return false;
      }
      var nicknames := Text.Split(text.value, ',');
      var valid: seq<(PA.Key, string)> := [];
      var i := 0;
      while i < |nicknames|
        invariant 0 <= i <= |nicknames| && value == old(value)
        invariant KeyedBy(valid, StringKeyOf) && PA.DistinctKeys(valid)
        invariant PA.Values(valid) == Dedup(Nicknames(nicknames[..i]))
      {
        NicknameStepAt(valid, nicknames, i);
        var nickname := Text.Trim(nicknames[i]);
        FirstOutsideFacts(nickname, NicknameChar);
        if FirstOutside(nickname, NicknameChar).None? && PA.KeyOfString(nickname) !in PA.Keys(valid) {
          valid := PA.Set(valid, PA.KeyOfString(nickname), nickname);
        }
        i := i + 1;
      }
      NicknamesCollected(value, valid);
      if valid == [] {
        return false;
      }
      value := PA.VStr(Text.Join(PA.Values(valid), ", "));
      return true;
    }
  }
}
