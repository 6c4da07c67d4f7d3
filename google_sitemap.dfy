/**
 * The value rules a Google sitemap builder applies around its queries and
 * its markup: the timezone suffix of dates, the OFFSET of the requested
 * file, the LIMIT/OFFSET window itself and the preparation of image titles
 * and captions.
 */
module GoogleSitemap {
  import opened Text
  import SiteTreeFunctions

  /** The `%+03d` rendering of an hour offset: a sign, then at least two digits. */
  function SignedTwoDigits(h: int): (r: string)
    ensures |r| >= 3 && (r[0] == '+' || r[0] == '-')
  {
    var sign := if h < 0 then "-" else "+";
    var a: nat := if h < 0 then -h else h;
    var digits := NatToString(a);
    sign + (if |digits| < 2 then "0" + digits else digits)
  }

  /** `sprintf('%+03d:00', $gmtOffset)`, the suffix of every `<lastmod>` date. */
  function TimezoneString(gmtOffset: int): (r: string)
    ensures |r| >= 6 && EndsWith(r, ":00")
  {
    var r := SignedTwoDigits(gmtOffset) + ":00";
    assert r[|r| - 3..] == ":00";
    r
  }

  /** Reads an offset back from a timezone suffix. */
  function ParseTimezone(s: string): int
  {
    if |s| >= 6 && (s[0] == '+' || s[0] == '-') && AllDigits(s[1..|s| - 3]) then
      var v := DigitsValue(s[1..|s| - 3]);
      if s[0] == '-' then 0 - (v as int) else v
    else 0
  }

  /** The suffix gives back the offset it was made from, so distinct offsets give distinct suffixes. */
  lemma TimezoneRoundTrip(gmtOffset: int)
    ensures ParseTimezone(TimezoneString(gmtOffset)) == gmtOffset
  {
    var s := TimezoneString(gmtOffset);
    var a: nat := if gmtOffset < 0 then -gmtOffset else gmtOffset;
    var digits := NatToString(a);
    var padded := if |digits| < 2 then "0" + digits else digits;
    var sign := if gmtOffset < 0 then "-" else "+";
    assert s == sign + padded + ":00";
    assert s[1..|s| - 3] == padded;
    DigitsValueOfNatToString(a);
    if |digits| < 2 {
      assert padded[..|padded| - 1] == "0";
      assert DigitsValue("0") == 0 by {
        assert "0"[..0] == [];
      }
      assert DigitsValue(padded) == DigitsValue(digits) by {
        assert digits[..0] == [];
      }
    }
  }

  /** `getMysqlOffset`: file `n` of `m` permalinks starts after `n - 1` full files; files 0 and 1 start at 0. */
  function MysqlOffset(number: int, m: int): (offset: int)
    requires m > 0
    ensures offset >= 0
  {
    if number > 1 then (number - 1) * m else 0
  }

  /** The rows a query with `LIMIT limit OFFSET offset` returns. */
  function Window<T>(rows: seq<T>, offset: int, limit: int): (w: seq<T>)
    ensures |w| <= (if limit > 0 then limit else 0)
  {
    var lo := if offset < 0 then 0 else if offset > |rows| then |rows| else offset;
    var hi := if limit <= 0 then lo else if lo + limit > |rows| then |rows| else lo + limit;
    rows[lo..hi]
  }

  /** Two adjacent windows make one window. */
  lemma WindowSplit<T>(rows: seq<T>, a: nat, p: nat, q: nat)
    ensures Window(rows, a, p) + Window(rows, a + p, q) == Window(rows, a, p + q)
  {
  }

  /**
   * Consecutive numbered files read consecutive windows: file `n + 1`
   * starts where file `n` ends, and the unnumbered file is file 1.
   */
  lemma FileWindowsAreContiguous<T>(rows: seq<T>, n: int, m: int)
    requires m > 0 && n >= 1
    ensures MysqlOffset(n + 1, m) == MysqlOffset(n, m) + m
    ensures Window(rows, MysqlOffset(n, m), m) + Window(rows, MysqlOffset(n + 1, m), m)
         == Window(rows, MysqlOffset(n, m), 2 * m)
    ensures MysqlOffset(0, m) == MysqlOffset(1, m) == 0
  {
    WindowSplit(rows, MysqlOffset(n, m), m, m);
  }

  /** Files `1..k` together read exactly the first `k * m` rows, each row once. */
  lemma {:induction false} FilesCoverRows<T>(rows: seq<T>, k: nat, m: int)
    requires m > 0
    ensures Concat(rows, k, m) == Window(rows, 0, k * m)
    decreases k
  {
    if k > 0 {
      var before: nat := (k - 1) * m;
      PreviousFiles(k, m);
      FilesCoverRows(rows, k - 1, m);
      WindowSplit(rows, 0, before, m);
    }
  }

  lemma PreviousFiles(k: nat, m: int)
    requires k > 0 && m > 0
    ensures (k - 1) * m >= 0 && (k - 1) * m + m == k * m && MysqlOffset(k, m) == (k - 1) * m
  {
  }

  /** The rows of files `1..k`, in file order. */
  function Concat<T>(rows: seq<T>, k: nat, m: int): seq<T>
    requires m > 0
  {
    if k == 0 then [] else Concat(rows, k - 1, m) + Window(rows, MysqlOffset(k, m), m)
  }

  /** The characters the attribute filter folds into one space. */
  const Blank: set<char> := {'\n', '\r', '\t', ' '}

  /** `preg_replace('/[\n\r\t\040]+/', ' ', $s)`: every run of blanks becomes one space. */
  function Collapse(s: string): string
    decreases |s|
  {
    if s == [] then []
    else if s[0] in Blank then " " + Collapse(TrimLeft(s[1..], Blank))
    else [s[0]] + Collapse(s[1..])
  }

  /** No line break or tab, and no two spaces in a row. */
  predicate Collapsed(s: string)
  {
    && (forall i :: 0 <= i < |s| ==> s[i] != '\n' && s[i] != '\r' && s[i] != '\t')
    && (forall i :: 0 < i < |s| ==> s[i] != ' ' || s[i - 1] != ' ')
  }

  lemma {:induction false} CollapseIsCollapsed(s: string)
    ensures Collapsed(Collapse(s))
    ensures s != [] ==> Collapse(s) != [] && Collapse(s)[0] == (if s[0] in Blank then ' ' else s[0])
    decreases |s|
  {
    if s != [] {
      if s[0] in Blank {
        var t := TrimLeft(s[1..], Blank);
        CollapseIsCollapsed(t);
        var r := Collapse(t);
        assert Collapse(s) == " " + r;
        forall i | 0 < i < |" " + r| ensures (" " + r)[i] != ' ' || (" " + r)[i - 1] != ' ' {
          if i > 1 { assert (" " + r)[i] == r[i - 1] && (" " + r)[i - 1] == r[i - 2]; }
        }
      } else {
        CollapseIsCollapsed(s[1..]);
        var r := Collapse(s[1..]);
        assert Collapse(s) == [s[0]] + r;
        forall i | 0 < i < |[s[0]] + r| ensures ([s[0]] + r)[i] != ' ' || ([s[0]] + r)[i - 1] != ' ' {
          if i > 1 { assert ([s[0]] + r)[i] == r[i - 1] && ([s[0]] + r)[i - 1] == r[i - 2]; }
        }
      }
    }
  }

  lemma CollapsedSlice(s: string, a: nat, b: nat)
    requires Collapsed(s) && a <= b <= |s|
    ensures Collapsed(s[a..b])
  {
    var t := s[a..b];
    forall i | 0 < i < |t| ensures t[i] != ' ' || t[i - 1] != ' ' {
      assert t[i] == s[a + i] && t[i - 1] == s[a + i - 1];
    }
    forall i | 0 <= i < |t| ensures t[i] != '\n' && t[i] != '\r' && t[i] != '\t' {
      assert t[i] == s[a + i];
    }
  }

  /** The text of an attribute before HTML escaping: decoded, stripped, blanks folded, truncated. */
  function PreparedText(attribute: string, maxLength: nat, htmlDecode: string -> string, stripTags: string -> string): string
  {
    SiteTreeFunctions.TruncateSentence(Collapse(stripTags(htmlDecode(attribute))), maxLength)
  }

  /** `prepareAttribute`: the prepared text, escaped. */
  function PrepareAttribute(attribute: string, maxLength: nat, htmlDecode: string -> string,
                            stripTags: string -> string, htmlSpecialChars: string -> string): string
  {
    htmlSpecialChars(PreparedText(attribute, maxLength, htmlDecode, stripTags))
  }

  /**
   * Prepared text holds no line break, no tab and no double space, and is
   * no longer than the maximum plus the three dots of the ellipsis.
   */
  lemma PreparedTextIsClean(attribute: string, maxLength: nat, htmlDecode: string -> string, stripTags: string -> string)
    ensures Collapsed(PreparedText(attribute, maxLength, htmlDecode, stripTags))
    ensures |PreparedText(attribute, maxLength, htmlDecode, stripTags)| <= maxLength + 3
  {
    var c := Collapse(stripTags(htmlDecode(attribute)));
    CollapseIsCollapsed(stripTags(htmlDecode(attribute)));
    TruncationKeepsCollapsed(c, maxLength);
  }

  lemma TruncationKeepsCollapsed(c: string, maxLength: nat)
    requires Collapsed(c)
    ensures Collapsed(SiteTreeFunctions.TruncateSentence(c, maxLength))
    ensures |SiteTreeFunctions.TruncateSentence(c, maxLength)| <= maxLength + 3
  {
    TrimCollapsed(c);
    var s := Trim(c);
    if |s| <= maxLength {
      SiteTreeFunctions.TruncateShort(c, maxLength);
    } else {
      assert SiteTreeFunctions.TruncateSentence(c, maxLength) == SiteTreeFunctions.Shortened(s, maxLength);
      ShortenedCollapsed(s, maxLength);
    }
  }

  lemma TrimCollapsed(c: string)
    requires Collapsed(c)
    ensures Collapsed(Trim(c))
  {
    CollapsedSlice(c, TrimStart(c), TrimStart(c) + |Trim(c)|);
  }

  lemma ShortenedCollapsed(s: string, maxLength: nat)
    requires Collapsed(s) && maxLength < |s|
    ensures Collapsed(SiteTreeFunctions.Shortened(s, maxLength))
    ensures |SiteTreeFunctions.Shortened(s, maxLength)| <= maxLength + 3
  {
    SiteTreeFunctions.ShortenedFacts(s, maxLength);
    var r := SiteTreeFunctions.Shortened(s, maxLength);
    var body := r[..|r| - 3];
    assert r == body + "..." by {
      assert r[|r| - 3..] == "...";
    }
    CollapsedSlice(s, 0, |body|);
    assert s[..|body|] == body;
    EllipsisKeepsCollapsed(body);
  }

  lemma EllipsisKeepsCollapsed(body: string)
    requires Collapsed(body)
    requires body == [] || body[|body| - 1] !in SiteTreeFunctions.SentenceEnd
    ensures Collapsed(body + "...")
  {
    var r := body + "...";
    forall i | 0 < i < |r| ensures r[i] != ' ' || r[i - 1] != ' ' {
      if i < |body| {
        assert r[i] == body[i] && r[i - 1] == body[i - 1];
      } else {
        assert r[i] == '.';
      }
    }
    forall i | 0 <= i < |r| ensures r[i] != '\n' && r[i] != '\r' && r[i] != '\t' {
      if i < |body| { assert r[i] == body[i]; }
    }
  }
}
