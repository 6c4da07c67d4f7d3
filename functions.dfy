/**
 * The plugin's stand-alone helpers: the dates shown in the dashboard, the
 * "... ago" phrases and the truncation of image titles and captions.
 */
module SiteTreeFunctions {
  import opened Wrappers
  import opened Text

  /**
   * A GMT timestamp rendered in the site's timezone; `dateI18n` stands for
   * WordPress's localised `date_i18n`, which the model does not define.
   */
  function GmtToLocalDate(gmTime: int, dateFormat: string, timeFormat: string, gmtOffsetHours: int,
                          dateI18n: (string, int) -> string): (r: string)
    ensures gmTime <= 0 ==> r == "-"
  {
    if gmTime <= 0 then "-"
    else dateI18n(dateFormat + " @ " + timeFormat, gmTime + gmtOffsetHours * 3600)
  }

  /** The units `time_since` tries, largest first, in seconds. */
  const TimeUnits: seq<nat> := [86400, 3600, 60, 1]

  /** The phrase `time_since` picks: nothing for an unset time, or an amount of a unit. */
  datatype Elapsed = Unset | Ago(amount: nat, unit: nat)

  /** `round($delta / $unit)` for a non-negative quotient (PHP rounds halves up). */
  function RoundedQuotient(delta: nat, unit: nat): nat
    requires unit > 0
  {
    (2 * delta + unit) / (2 * unit)
  }

  /** The first unit of `units` not larger than `delta`, with the amount of it, as the loop of `time_since` finds it. */
  function FirstFittingUnit(delta: int, units: seq<nat>): (r: Elapsed)
    requires forall i :: 0 <= i < |units| ==> units[i] > 0
    ensures r.Ago?
    ensures (forall i :: 0 <= i < |units| ==> delta < units[i]) ==> r == Ago(1, 1)
    ensures forall i :: 0 <= i < |units| && units[i] <= delta && (forall j :: 0 <= j < i ==> delta < units[j]) ==>
      r == Ago(RoundedQuotient(delta, units[i]), units[i])
  {
    if units == [] then Ago(1, 1)
    else if delta >= units[0] then Ago(RoundedQuotient(delta, units[0]), units[0])
    else FirstFittingUnit(delta, units[1..])
  }

  function TimeSinceParts(time: int, now: int): Elapsed
  {
    if time <= 0 then Unset else FirstFittingUnit(now - time, TimeUnits)
  }

  function UnitWord(unit: nat): string
  {
    if unit == 86400 then "day" else if unit == 3600 then "hour" else if unit == 60 then "minute" else "second"
  }

  /** The English text of a phrase: singular "1 day ago", plural "%d days ago". */
  function ElapsedText(e: Elapsed): (r: string)
    ensures e.Unset? <==> r == "-"
  {
    match e
    case Unset => "-"
    case Ago(n, u) => if n > 1 then NatToString(n) + " " + UnitWord(u) + "s ago" else "1 " + UnitWord(u) + " ago"
  }

  /** `time_since($time)` with `time()` given as `now`. */
  function TimeSince(time: int, now: int): (r: string)
    ensures time <= 0 <==> r == "-"
  {
    ElapsedText(TimeSinceParts(time, now))
  }

  /**
   * The unit is the largest one that fits in the elapsed time, and the amount
   * is the elapsed time in that unit rounded to the nearest whole; less than
   * a second reads as "1 second ago".
   */
  lemma TimeSinceIsNearest(time: int, now: int)
    requires time > 0
    ensures IsNearestPhrase(now - time, TimeSinceParts(time, now))
  {
    var delta := now - time;
    if delta >= 86400 {
      NearestAt(delta, 0);
    } else if delta >= 3600 {
      NearestAt(delta, 1);
    } else if delta >= 60 {
      NearestAt(delta, 2);
    } else if delta >= 1 {
      NearestAt(delta, 3);
    } else {
      NoUnitFits(delta);
    }
  }

  /** Below one second no unit fits and the phrase is "1 second". */
  lemma NoUnitFits(delta: int)
    requires delta < 1
    ensures IsNearestPhrase(delta, FirstFittingUnit(delta, TimeUnits))
  {
    var units := TimeUnits;
    assert units[3..][1..] == [];
    assert FirstFittingUnit(delta, units[3..]) == Ago(1, 1);
    assert FirstFittingUnit(delta, units[2..]) == FirstFittingUnit(delta, units[2..][1..]);
    assert units[2..][1..] == units[3..];
    assert FirstFittingUnit(delta, units[1..]) == FirstFittingUnit(delta, units[1..][1..]);
    assert units[1..][1..] == units[2..];
    assert FirstFittingUnit(delta, units) == FirstFittingUnit(delta, units[1..]);
    assert units[3] == 1;
  }

  /**
   * `e` names, for an elapsed time `delta`, the largest unit that fits and
   * the nearest whole amount of it; below one second, "1 second".
   */
  predicate IsNearestPhrase(delta: int, e: Elapsed)
  {
    && e.Ago?
    && e.unit in TimeUnits
    && (delta < 1 ==> e == Ago(1, 1))
    && (delta >= 1 ==>
          && e.unit <= delta
          && (forall u :: u in TimeUnits && u <= delta ==> u <= e.unit)
          && -(e.unit as int) < 2 * (e.amount * e.unit - delta) <= e.unit
          && e.amount >= 1)
  }

  /** When the `i`-th unit is the first that fits, the phrase uses it. */
  lemma NearestAt(delta: int, i: nat)
    requires i < |TimeUnits| && TimeUnits[i] <= delta
    requires forall j :: 0 <= j < i ==> delta < TimeUnits[j]
    ensures IsNearestPhrase(delta, FirstFittingUnit(delta, TimeUnits))
  {
    var u := TimeUnits[i];
    assert FirstFittingUnit(delta, TimeUnits) == Ago(RoundedQuotient(delta, u), u);
    RoundedQuotientNear(delta, u);
    forall v | v in TimeUnits && v <= delta
      ensures v <= u
    {
      var j :| 0 <= j < |TimeUnits| && TimeUnits[j] == v;
      assert j >= i;
    }
  }

  lemma RoundedQuotientNear(delta: nat, unit: nat)
    requires 0 < unit <= delta
    ensures RoundedQuotient(delta, unit) >= 1
    ensures -(unit as int) < 2 * (RoundedQuotient(delta, unit) * unit - delta) <= unit
  {
    var q := RoundedQuotient(delta, unit);
    assert q * (2 * unit) <= 2 * delta + unit < (q + 1) * (2 * unit);
  }

  /** The plural form is used exactly when the amount is above one. */
  lemma TimeSincePlural(time: int, now: int)
    requires time > 0
    ensures var e := TimeSinceParts(time, now);
      e.Ago? && (EndsWith(TimeSince(time, now), "s ago") <==> e.amount > 1)
  {
    TimeSinceIsNearest(time, now);
    var e := TimeSinceParts(time, now);
    assert e.Ago?;
    var t := TimeSince(time, now);
    if e.amount <= 1 {
      var w := UnitWord(e.unit);
      assert t == "1 " + w + " ago";
      assert w[|w| - 1] != 's';
      assert t[|t| - 5] == w[|w| - 1];
    }
  }

  /** The characters `truncate_sentence` strips before appending the ellipsis. */
  const SentenceEnd: set<char> := {' ', '.', ',', ';', ':', '?', '!'}

  /**
   * What is left of a cut once its last word is removed, unless the cut
   * already ends with a space (`substr($s, 0, strrpos($s, ' '))`, and the
   * empty string when there is no space).
   */
  function WholeWords(cut: string): string
  {
    if cut == [] || cut[|cut| - 1] != ' ' then
      match LastIndexOf(cut, ' ')
      case Some(k) => cut[..k]
      case None => ""
    else cut
  }

  /**
   * `m` is where `truncate_sentence` cuts a text at `length` characters: at
   * `length` itself when the cut ends with a space, otherwise at the last
   * space before `length` (or at 0 when there is none).
   */
  predicate IsCutPoint(s: string, length: nat, m: nat)
    requires length <= |s|
  {
    && m <= length
    && if length > 0 && s[length - 1] == ' ' then m == length
       else (m == 0 || (m < length && s[m] == ' ')) && forall i :: m < i < length ==> s[i] != ' '
  }

  /** What is kept of the first `length` characters ends at the cut point. */
  lemma WholeWordsBoundary(s: string, length: nat)
    requires length < |s|
    ensures var w := WholeWords(s[..length]);
      && w == s[..|w|]
      && IsCutPoint(s, length, |w|)
      && (w == [] || s[|w|] == ' ' || (w == s[..length] && w[|w| - 1] == ' '))
  {
    var cut := s[..length];
    if cut == [] || cut[|cut| - 1] != ' ' {
      match LastIndexOf(cut, ' ')
      case Some(k) =>
        assert s[k] == cut[k];
        forall i | k < i < length
          ensures s[i] != ' '
        {
          assert s[i] == cut[k + 1..][i - k - 1];
        }
      case None =>
        forall i | 0 < i < length
          ensures s[i] != ' '
        {
          assert s[i] == cut[i];
        }
    }
  }

  /** `truncate_sentence($sentence, $length)`. */
  function TruncateSentence(sentence: string, length: nat): string
  {
    var s := Trim(sentence);
    if |s| <= length then s
    else TrimRight(WholeWords(s[..length]), SentenceEnd) + "..."
  }

  /** A text that fits is only trimmed. */
  lemma TruncateShort(sentence: string, length: nat)
    requires |Trim(sentence)| <= length
    ensures TruncateSentence(sentence, length) == Trim(sentence)
  {
  }

  /**
   * `r` is how a trimmed text `s` longer than `length` reads once cut: a
   * prefix of at most `length` characters that ends neither inside a word
   * nor with punctuation, followed by "...". It is the text up to the cut
   * point with only the trailing spaces and punctuation before that point
   * removed.
   */
  predicate IsShortening(s: string, length: nat, r: string)
    requires length < |s|
  {
    && EndsWith(r, "...")
    && |r| <= length + 3
    && var body := r[..|r| - 3];
       && body <= s
       && (body == [] || body[|body| - 1] !in SentenceEnd)
       && (body == [] || s[|body|] in SentenceEnd)
       && var m := |WholeWords(s[..length])|;
          && IsCutPoint(s, length, m)
          && |body| <= m
          && forall i :: |body| <= i < m ==> s[i] in SentenceEnd
  }

  /** A text that does not fit is cut at the last space before `length`, as `IsShortening` says. */
  lemma TruncateLong(sentence: string, length: nat)
    requires |Trim(sentence)| > length
    ensures IsShortening(Trim(sentence), length, TruncateSentence(sentence, length))
  {
    var s := Trim(sentence);
    assert TruncateSentence(sentence, length) == Shortened(s, length);
    ShortenedFacts(s, length);
  }

  /** The text a trimmed sentence longer than `length` is cut to. */
  function Shortened(s: string, length: nat): string
    requires length < |s|
  {
    TrimRight(WholeWords(s[..length]), SentenceEnd) + "..."
  }

  lemma ShortenedFacts(s: string, length: nat)
    requires length < |s|
    ensures IsShortening(s, length, Shortened(s, length))
  {
    var kept := WholeWords(s[..length]);
    WholeWordsBoundary(s, length);
    var body := TrimRight(kept, SentenceEnd);
    var r := body + "...";
    assert r[..|r| - 3] == body;
    assert r[|r| - 3..] == "...";
    PrefixOfPrefix(s, kept, body);
    forall i | |body| <= i < |kept|
      ensures s[i] in SentenceEnd
    {
      assert s[i] == kept[i];
    }
    if body != [] && |body| == |kept| {
      assert kept[|kept| - 1] !in SentenceEnd;
      assert s[|kept|] == ' ';
    }
  }

  /** A prefix of a prefix of `s` is a prefix of `s`. */
  lemma PrefixOfPrefix(s: string, kept: string, body: string)
    requires |kept| <= |s| && kept == s[..|kept|]
    requires |body| <= |kept| && body == kept[..|body|]
    ensures body == s[..|body|]
  {
  }
}
