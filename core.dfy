/**
 * The plugin core's URL rules: the sitemap file name, which sitemaps are
 * active, the URL of every sitemap file, the rewrite rules WordPress
 * matches a request path against, the "is this a local website" test and
 * the flush of a sitemap's cached data.
 */
module SiteTreeCore {
  import opened Wrappers
  import opened Text
  import PA = PhpArray
  import OptionStore

  /** The characters WordPress's `sanitize_key` keeps. */
  predicate IsKeyChar(c: char) { IsLowerLetter(c) || IsDigit(c) || c == '_' || c == '-' }

  predicate IsKey(s: string) { forall i :: 0 <= i < |s| ==> IsKeyChar(s[i]) }

  /** `sanitize_key`: lower-cases ASCII letters, then drops every character that is not a key character. */
  function SanitizeKey(s: string): (r: string)
    ensures IsKey(r) && |r| <= |s|
    decreases |s|
  {
    if s == [] then []
    else
      var c := LowerChar(s[0]);
      (if IsKeyChar(c) then [c] else []) + SanitizeKey(s[1..])
  }

  /** A key is left as it is. */
  lemma {:induction false} SanitizeKeyKeepsKeys(s: string)
    requires IsKey(s)
    ensures SanitizeKey(s) == s
    decreases |s|
  {
    if s != [] {
      assert IsKeyChar(s[0]);
      SanitizeKeyKeepsKeys(s[1..]);
      assert s == [s[0]] + s[1..];
    }
  }

  /** Sanitising twice is sanitising once. */
  lemma SanitizeKeyIdempotent(s: string)
    ensures SanitizeKey(SanitizeKey(s)) == SanitizeKey(s)
  {
    SanitizeKeyKeepsKeys(SanitizeKey(s));
  }

  /** The result does not depend on the case of ASCII letters. */
  lemma {:induction false} SanitizeKeyIgnoresCase(s: string)
    ensures SanitizeKey(ToLower(s)) == SanitizeKey(s)
    decreases |s|
  {
    if s != [] {
      var l := ToLower(s);
      assert l[1..] == ToLower(s[1..]);
      assert LowerChar(l[0]) == LowerChar(s[0]);
      SanitizeKeyIgnoresCase(s[1..]);
    }
  }

  /** The autoloaded options the core reads. */
  datatype Options = Options(
    /** `sitemap_filename`, `None` when it was never saved. */
    sitemapFilename: Option<string>,
    /** `page_for_site_tree`, 0 when unset. */
    pageForSiteTree: int,
    /** The `is_sitemap_active` group, by sitemap slug. */
    activeSitemaps: map<string, bool>)

  /** `getSitemapFilename`: the sanitised option, or "sitemap" when that is empty or "0". */
  function GetSitemapFilename(o: Options): (f: string)
    ensures IsKey(f) && PA.TruthyString(f)
    ensures o.sitemapFilename.None? ==> f == "sitemap"
  {
    var filename := SanitizeKey(o.sitemapFilename.GetOr("sitemap"));
    if PA.TruthyString(filename) then filename else "sitemap"
  }

  /** A saved key is the file name; anything else is sanitised, and the result is stable under saving it back. */
  lemma FilenameOfSavedKey(o: Options)
    ensures o.sitemapFilename.Some? && IsKey(o.sitemapFilename.value) && PA.TruthyString(o.sitemapFilename.value)
            ==> GetSitemapFilename(o) == o.sitemapFilename.value
    ensures GetSitemapFilename(o.(sitemapFilename := Some(GetSitemapFilename(o)))) == GetSitemapFilename(o)
  {
    if o.sitemapFilename.Some? && IsKey(o.sitemapFilename.value) {
      SanitizeKeyKeepsKeys(o.sitemapFilename.value);
    }
    SanitizeKeyKeepsKeys(GetSitemapFilename(o));
  }

  /** `isSitemapActive`: the Site Tree page is active when a page is chosen for it; the others by their flag. */
  function IsSitemapActive(o: Options, slug: string): (active: bool)
    ensures slug == "site_tree" ==> (active <==> o.pageForSiteTree != 0)
    ensures slug != "site_tree" ==> (active <==> slug in o.activeSitemaps && o.activeSitemaps[slug])
  {
    if slug == "site_tree" then o.pageForSiteTree != 0
    else slug in o.activeSitemaps && o.activeSitemaps[slug]
  }

  // ----- rewrite rules -----

  /**
   * The regular expressions of the rules, which are the keys of the rules
   * array: two rules with the same file name have the same key.
   */
  datatype Pattern =
    | TemplateStylesheet          // ^(sitemap|newsmap)-template\.xsl$
    | IndexTemplateStylesheet     // ^(sitemap|newsmap)-index-template\.xsl$
    | IndexFile(name: string)     // ^{name}\.xml$
    | NumberedFile(name: string)  // ^([_a-z]+)-{name}(?:-([0-9]+))?\.xml$

  /** The query a rule rewrites to. */
  datatype Target =
    | ToStylesheet(id: string)    // sitetree=$matches[1]&id={id}
    | ToIndex(slug: string)       // sitetree={slug}&id=index
    | ToFile(slug: string)        // sitetree={slug}&id=$matches[1]&paged=$matches[2]

  type Rules = seq<(Pattern, Target)>

  /** The query variables a request resolves to; a capture that took no part is "". */
  datatype Query = Query(sitetree: string, id: string, paged: string)

  const NewsmapName: string := "news-sitemap"

  /**
   * `wpRewriteDidGenerateRules`: the two stylesheet rules, then the
   * newsmap's rules when it is active, then the sitemap's when it is
   * active. The rules form a PHP array, so a sitemap rule whose key equals
   * a newsmap rule's replaces that rule's target in its place.
   */
  function RewriteRules(newsmapActive: bool, sitemapActive: bool, filename: string): Rules
  {
    var base := [(TemplateStylesheet, ToStylesheet("stylesheet")), (IndexTemplateStylesheet, ToStylesheet("index-stylesheet"))];
    var withNews :=
      if newsmapActive then PA.RawSet(PA.RawSet(base, IndexFile(NewsmapName), ToIndex("newsmap")), NumberedFile(NewsmapName), ToFile("newsmap"))
      else base;
    if sitemapActive then PA.RawSet(PA.RawSet(withNews, IndexFile(filename), ToIndex("sitemap")), NumberedFile(filename), ToFile("sitemap"))
    else withNews
  }

  /** The rules generated under the current options. */
  function RulesOf(o: Options): Rules
  {
    RewriteRules(IsSitemapActive(o, "newsmap"), IsSitemapActive(o, "sitemap"), GetSitemapFilename(o))
  }

  const StylesheetRules: Rules := [(TemplateStylesheet, ToStylesheet("stylesheet")), (IndexTemplateStylesheet, ToStylesheet("index-stylesheet"))]
  const NewsmapRules: Rules := [(IndexFile(NewsmapName), ToIndex("newsmap")), (NumberedFile(NewsmapName), ToFile("newsmap"))]

  function SitemapRules(filename: string): Rules
  {
    [(IndexFile(filename), ToIndex("sitemap")), (NumberedFile(filename), ToFile("sitemap"))]
  }

  /**
   * With a file name other than the newsmap's, every rule keeps its own
   * place: stylesheets, newsmap, sitemap. With the newsmap's file name, the
   * sitemap's rules take over the newsmap's places.
   */
  lemma RulesLayout(newsmapActive: bool, sitemapActive: bool, filename: string)
    ensures filename != NewsmapName || !newsmapActive ==>
      RewriteRules(newsmapActive, sitemapActive, filename)
        == StylesheetRules + (if newsmapActive then NewsmapRules else []) + (if sitemapActive then SitemapRules(filename) else [])
    ensures filename == NewsmapName && newsmapActive && sitemapActive ==>
      RewriteRules(newsmapActive, sitemapActive, filename) == StylesheetRules + SitemapRules(NewsmapName)
  {
    var base := StylesheetRules;
    AppendBoth(base, NewsmapRules);
    var withNews := if newsmapActive then base + NewsmapRules else base;
    if sitemapActive {
      var sm := SitemapRules(filename);
      if filename != NewsmapName || !newsmapActive {
        AppendBoth(withNews, sm);
      } else {
        ReplaceAt(withNews, 2, sm[0].0, sm[0].1);
        var s1 := base + [sm[0], NewsmapRules[1]];
        assert withNews[..2] + [sm[0]] + withNews[3..] == s1;
        ReplaceAt(s1, 3, sm[1].0, sm[1].1);
        assert s1[..3] + [sm[1]] + s1[4..] == base + sm;
      }
    }
  }

  /** Writing two keys that are not there yet appends both, in order. */
  lemma AppendBoth(rules: Rules, added: Rules)
    requires |added| == 2 && added[0].0 != added[1].0
    requires forall i :: 0 <= i < |rules| ==> rules[i].0 != added[0].0 && rules[i].0 != added[1].0
    ensures PA.RawSet(PA.RawSet(rules, added[0].0, added[0].1), added[1].0, added[1].1) == rules + added
  {
    AppendNew(rules, added[0].0, added[0].1);
    var r1 := rules + [added[0]];
    forall i | 0 <= i < |r1| ensures r1[i].0 != added[1].0 {
      if i < |rules| { assert r1[i] == rules[i]; }
    }
    AppendNew(r1, added[1].0, added[1].1);
    SnocTwice(rules, added);
  }

  /** Writing a key that is already there replaces its value in place. */
  lemma {:induction false} ReplaceAt(rules: Rules, i: nat, p: Pattern, t: Target)
    requires i < |rules| && rules[i].0 == p
    requires forall j :: 0 <= j < i ==> rules[j].0 != p
    ensures PA.RawSet(rules, p, t) == rules[..i] + [(p, t)] + rules[i + 1..]
  {
    if i > 0 {
      ReplaceAt(rules[1..], i - 1, p, t);
      assert rules[1..][..i - 1] == rules[1..i] && rules[1..][i..] == rules[i + 1..];
      assert rules[..i] == [rules[0]] + rules[1..i];
    }
  }

  /** Writing a key that is not there yet appends it. */
  lemma {:induction false} AppendNew(rules: Rules, p: Pattern, t: Target)
    requires forall i :: 0 <= i < |rules| ==> rules[i].0 != p
    ensures PA.RawSet(rules, p, t) == rules + [(p, t)]
  {
    if rules != [] {
      AppendNew(rules[1..], p, t);
      assert rules == [rules[0]] + rules[1..];
    }
  }

  predicate IsIdChar(c: char) { IsLowerLetter(c) || c == '_' }

  /** A non-empty run of the characters `[_a-z]`. */
  predicate IsId(s: string) { s != [] && forall i :: 0 <= i < |s| ==> IsIdChar(s[i]) }

  /** `(?:-([0-9]+))?\.xml$` after the file name: the captured number, or "" when the group took no part. */
  function NumberTail(tail: string): (paged: Option<string>)
    ensures paged.Some? ==> AllDigits(paged.value)
  {
    if tail == ".xml" then Some("")
    else if |tail| >= 6 && tail[0] == '-' && tail[|tail| - 4..] == ".xml" && AllDigits(tail[1..|tail| - 4]) then
      Some(tail[1..|tail| - 4])
    else None
  }

  /**
   * `^([_a-z]+)-{name}(?:-([0-9]+))?\.xml$`: the ID group cannot hold a
   * dash, so it is everything before the first dash.
   */
  function NumberedMatch(path: string, name: string): (c: Option<(string, string)>)
    ensures c.Some? ==> IsId(c.value.0) && AllDigits(c.value.1)
  {
    match IndexOf(path, '-')
    case None => None
    case Some(k) =>
      var id := path[..k];
      var rest := path[k + 1..];
      if !IsId(id) || !StartsWith(rest, name) then None
      else match NumberTail(rest[|name|..])
        case None => None
        case Some(paged) => Some((id, paged))
  }

  /** The captures of a rule's pattern in a request path. */
  function MatchPattern(p: Pattern, path: string): Option<(string, string)>
  {
    match p
    case TemplateStylesheet =>
      if path == "sitemap-template.xsl" then Some(("sitemap", ""))
      else if path == "newsmap-template.xsl" then Some(("newsmap", ""))
      else None
    case IndexTemplateStylesheet =>
      if path == "sitemap-index-template.xsl" then Some(("sitemap", ""))
      else if path == "newsmap-index-template.xsl" then Some(("newsmap", ""))
      else None
    case IndexFile(name) => if path == name + ".xml" then Some(("", "")) else None
    case NumberedFile(name) => NumberedMatch(path, name)
  }

  function QueryFor(t: Target, captures: (string, string)): Query
  {
    match t
    case ToStylesheet(id) => Query(captures.0, id, "")
    case ToIndex(slug) => Query(slug, "index", "")
    case ToFile(slug) => Query(slug, captures.0, captures.1)
  }

  /** WordPress's matching of a request path: the first rule whose pattern matches rewrites it. */
  function Route(rules: Rules, path: string): Option<Query>
  {
    if rules == [] then None
    else match MatchPattern(rules[0].0, path)
      case Some(c) => Some(QueryFor(rules[0].1, c))
      case None => Route(rules[1..], path)
  }

  /** A path is routed exactly when some rule matches it. */
  lemma {:induction false} RouteFindsAnyMatch(rules: Rules, path: string)
    ensures Route(rules, path).None? <==> forall i :: 0 <= i < |rules| ==> MatchPattern(rules[i].0, path).None?
  {
    if rules != [] {
      RouteFindsAnyMatch(rules[1..], path);
      assert forall i :: 1 <= i < |rules| ==> rules[i] == rules[1..][i - 1];
    }
  }

  /** The stylesheet rules, and the newsmap's when active, let through a path none of their patterns match. */
  lemma FrontSkips(news: bool, path: string)
    requires MatchPattern(TemplateStylesheet, path).None? && MatchPattern(IndexTemplateStylesheet, path).None?
    requires news ==> MatchPattern(IndexFile(NewsmapName), path).None? && MatchPattern(NumberedFile(NewsmapName), path).None?
    ensures Route(StylesheetRules + (if news then NewsmapRules else []), path).None?
  {
    var back: Rules := if news then NewsmapRules else [];
    var front := StylesheetRules + back;
    assert front[0].0 == TemplateStylesheet && front[1].0 == IndexTemplateStylesheet;
    assert front[1..][1..] == back;
    if news {
      var n := NewsmapRules;
      assert n[1..][1..] == [];
      assert Route(n[1..], path).None?;
    }
    assert Route(back, path).None?;
    assert Route(front[1..], path).None?;
  }

  /** `Route` is the query of the first matching rule. */
  lemma {:induction false} RouteIsFirstMatch(rules: Rules, path: string, i: nat)
    requires i < |rules| && MatchPattern(rules[i].0, path).Some?
    requires forall j :: 0 <= j < i ==> MatchPattern(rules[j].0, path).None?
    ensures Route(rules, path) == Some(QueryFor(rules[i].1, MatchPattern(rules[i].0, path).value))
  {
    if i > 0 {
      forall j | 0 <= j < i - 1 ensures MatchPattern(rules[1..][j].0, path).None? {
        assert rules[1..][j] == rules[j + 1];
      }
      RouteIsFirstMatch(rules[1..], path, i - 1);
    }
  }

  /** A rule set followed by others routes as it does whenever one of its own rules matches. */
  lemma {:induction false} RouteAppend(a: Rules, b: Rules, path: string)
    ensures Route(a, path).Some? ==> Route(a + b, path) == Route(a, path)
    ensures Route(a, path).None? ==> Route(a + b, path) == Route(b, path)
  {
    if a == [] {
      assert a + b == b;
    } else {
      assert (a + b)[0] == a[0] && (a + b)[1..] == a[1..] + b;
      RouteAppend(a[1..], b, path);
    }
  }

  // ----- sitemap URLs -----

  /** The WordPress functions `sitemapURL` calls. */
  datatype Wp = Wp(
    usingPermalinks: bool,
    homeUrl: string -> string,
    addQueryArgs: (seq<(string, string)>, string) -> string,
    permalink: int -> string)

  /** The number suffix of a file: "-n" only from file 2 on. */
  function NumberSuffix(number: int): string
  {
    if number > 1 then "-" + IntToString(number) else ""
  }

  /** The `paged` capture the path of file `number` yields. */
  function PagedOf(number: int): string
  {
    if number > 1 then IntToString(number) else ""
  }

  /** The path, relative to the home URL, of a sitemap or newsmap document under a permalink structure. */
  function SitemapPath(slug: string, id: string, number: int, filename: string): string
  {
    var name := if slug == "sitemap" then filename else NewsmapName;
    if !PA.TruthyString(id) then name + ".xml"
    else id + "-" + name + NumberSuffix(number) + ".xml"
  }

  /** The query arguments of a sitemap URL without permalinks. */
  function QueryArgs(slug: string, id: string, number: int): (args: seq<(string, string)>)
    ensures |args| >= 1 && args[0] == ("sitetree", slug)
    ensures ("id", id) in args <==> PA.TruthyString(id)
    ensures (exists v :: ("paged", v) in args) <==> number > 1
    ensures number > 1 ==> args[|args| - 1] == ("paged", IntToString(number))
  {
    [("sitetree", slug)]
      + (if PA.TruthyString(id) then [("id", id)] else [])
      + (if number > 1 then [("paged", IntToString(number))] else [])
  }

  /** `sitemapURL`. */
  function SitemapURL(slug: string, id: string, number: int, o: Options, wp: Wp): (url: string)
    ensures (slug == "sitemap" || slug == "newsmap") && wp.usingPermalinks
            ==> url == wp.homeUrl("/" + SitemapPath(slug, id, number, GetSitemapFilename(o)))
    ensures (slug == "sitemap" || slug == "newsmap") && !wp.usingPermalinks
            ==> url == wp.addQueryArgs(QueryArgs(slug, id, number), wp.homeUrl("/"))
    ensures slug !in {"sitemap", "newsmap", "site_tree"} ==> url == ""
  {
    if slug == "sitemap" || slug == "newsmap" then
      if wp.usingPermalinks then wp.homeUrl("/" + SitemapPath(slug, id, number, GetSitemapFilename(o)))
      else wp.addQueryArgs(QueryArgs(slug, id, number), wp.homeUrl("/"))
    else if slug == "site_tree" then
      var permalink := wp.permalink(o.pageForSiteTree);
      if number <= 1 then permalink
      else if wp.usingPermalinks then permalink + "page/" + IntToString(number) + "/"
      else wp.addQueryArgs([("paged", IntToString(number))], permalink)
    else ""
  }

  /** The Site Tree page's URL: the page's permalink, with `page/n/` or a `paged` argument from page 2 on. */
  lemma SiteTreeURL(number: int, o: Options, wp: Wp)
    ensures var permalink := wp.permalink(o.pageForSiteTree);
      && (number <= 1 ==> SitemapURL("site_tree", "", number, o, wp) == permalink)
      && (number > 1 && wp.usingPermalinks ==> SitemapURL("site_tree", "", number, o, wp) == permalink + "page/" + NatToString(number) + "/")
      && (number > 1 && !wp.usingPermalinks ==> SitemapURL("site_tree", "", number, o, wp) == wp.addQueryArgs([("paged", NatToString(number))], permalink))
  {
  }

  // ----- round trips between URLs and rules -----

  lemma IdHasNoDash(id: string)
    requires IsId(id)
    ensures '-' !in id && '.' !in id && PA.TruthyString(id)
  {
    forall i | 0 <= i < |id| ensures id[i] != '-' && id[i] != '.' {
      assert IsIdChar(id[i]);
    }
    assert id[0] != '0' && id != [];
  }

  /** The tail after the file name gives the number back. */
  lemma NumberTailOfSuffix(number: int)
    ensures NumberTail(NumberSuffix(number) + ".xml") == Some(PagedOf(number))
  {
    if number > 1 {
      var d := NatToString(number);
      var tail := "-" + d + ".xml";
      assert tail[1..|tail| - 4] == d;
      assert tail[|tail| - 4..] == ".xml";
    }
  }

  /** A path `{id}-{name}{tail}` is matched with the ID captured whenever the tail is a number tail. */
  lemma NumberedMatchOfParts(id: string, name: string, tail: string)
    requires IsId(id)
    ensures NumberedMatch(id + "-" + name + tail, name)
         == if NumberTail(tail).Some? then Some((id, NumberTail(tail).value)) else None
  {
    var path := id + "-" + name + tail;
    IdHasNoDash(id);
    assert path[|id|] == '-' && path[..|id|] == id;
    IndexOfAt(path, '-', |id|);
    var rest := path[|id| + 1..];
    assert rest == name + tail;
    assert StartsWith(rest, name) && rest[|name|..] == tail;
  }

  /** A numbered file's path is matched by its own rule, with the ID and number as captures. */
  lemma NumberedPathMatches(id: string, name: string, number: int)
    requires IsId(id)
    ensures NumberedMatch(id + "-" + name + NumberSuffix(number) + ".xml", name) == Some((id, PagedOf(number)))
  {
    var tail := NumberSuffix(number) + ".xml";
    assert id + "-" + name + NumberSuffix(number) + ".xml" == id + "-" + name + tail;
    NumberedMatchOfParts(id, name, tail);
    NumberTailOfSuffix(number);
  }

  /** A numbered path ends in ".xml", so no stylesheet rule and no index rule of a name it does not start with takes it. */
  lemma NumberedPathSkips(id: string, name: string, number: int, other: string)
    requires IsId(id)
    ensures var path := id + "-" + name + NumberSuffix(number) + ".xml";
      && MatchPattern(TemplateStylesheet, path).None?
      && MatchPattern(IndexTemplateStylesheet, path).None?
      && MatchPattern(IndexFile(name), path).None?
      && (id == other || '-' !in other ==> MatchPattern(IndexFile(other), path).None?)
  {
    var path := id + "-" + name + NumberSuffix(number) + ".xml";
    assert path[|path| - 2] == 'm';
    IdHasNoDash(id);
    assert path[|id|] == '-';
    assert |path| >= |id| + 5;
    if |path| == |other| + 4 && '-' !in other {
      assert (other + ".xml")[|id|] == other[|id|];
    }
  }

  /** The newsmap index's path is not `{id}-{rest}` for an ID other than "news". */
  lemma NotNewsIndex(id: string, rest: string)
    requires IsId(id) && id != "news"
    ensures id + "-" + rest != NewsmapName + ".xml"
  {
    var p := id + "-" + rest;
    var q := NewsmapName + ".xml";
    IdHasNoDash(id);
    assert p[|id|] == '-' && p[..|id|] == id;
    assert q[..4] == "news" && q[4] == '-';
    if |id| < 4 {
      assert q[|id|] != '-';
    } else if |id| == 4 {
      assert p[..4] != q[..4];
    } else {
      assert p[4] == id[4] && p[4] != q[4];
    }
  }

  /** The newsmap's numbered rule does not take `{id}-{filename}{tail}` for a file name that does not start with "news". */
  lemma NotNewsFile(id: string, filename: string, tail: string)
    requires IsId(id) && !StartsWith(filename, "news")
    requires tail != [] && (tail[0] == '-' || tail[0] == '.')
    ensures NumberedMatch(id + "-" + filename + tail, NewsmapName).None?
  {
    var path := id + "-" + filename + tail;
    IdHasNoDash(id);
    assert path[|id|] == '-' && path[..|id|] == id;
    IndexOfAt(path, '-', |id|);
    var rest := path[|id| + 1..];
    assert rest == filename + tail;
    assert NewsmapName[..4] == "news";
    if |filename| >= 4 {
      assert rest[..4] == filename[..4];
    } else {
      assert rest[|filename|] == tail[0];
      assert NewsmapName[|filename|] != '-' && NewsmapName[|filename|] != '.';
    }
    assert !StartsWith(rest, NewsmapName);
  }

  /** A path with no dash is taken by neither of the newsmap's rules. */
  lemma DashlessSkipsNewsmap(f: string)
    requires '-' !in f
    ensures MatchPattern(IndexFile(NewsmapName), f + ".xml").None?
    ensures MatchPattern(NumberedFile(NewsmapName), f + ".xml").None?
  {
    var path := f + ".xml";
    forall i | 0 <= i < |path| ensures path[i] != '-' {
      if i < |f| { assert path[i] == f[i]; }
    }
    assert (NewsmapName + ".xml")[4] == '-';
  }

  /** The sitemap's own rules route its numbered file to the ID and number. */
  lemma SitemapRulesRoute(f: string, id: string, number: int)
    requires IsId(id)
    ensures Route(SitemapRules(f), id + "-" + f + NumberSuffix(number) + ".xml") == Some(Query("sitemap", id, PagedOf(number)))
  {
    var path := id + "-" + f + NumberSuffix(number) + ".xml";
    NumberedPathSkips(id, f, number, NewsmapName);
    NumberedPathMatches(id, f, number);
    assert SitemapRules(f)[1..][0].0 == NumberedFile(f);
  }

  /** The newsmap's rules do not take a sitemap file of an ID other than "news" under a file name not starting with "news". */
  lemma NewsSkipsSitemapFile(f: string, id: string, number: int)
    requires IsId(id) && id != "news" && !StartsWith(f, "news")
    ensures MatchPattern(IndexFile(NewsmapName), id + "-" + f + NumberSuffix(number) + ".xml").None?
    ensures MatchPattern(NumberedFile(NewsmapName), id + "-" + f + NumberSuffix(number) + ".xml").None?
  {
    var tail := NumberSuffix(number) + ".xml";
    assert id + "-" + f + NumberSuffix(number) + ".xml" == id + "-" + (f + tail) == id + "-" + f + tail;
    NotNewsIndex(id, f + tail);
    NotNewsFile(id, f, tail);
  }

  /** Neither of the stylesheet rules nor, under the stated condition, the newsmap's rules take a sitemap file. */
  lemma FrontSkipsSitemapFile(news: bool, f: string, id: string, number: int)
    requires IsId(id)
    requires news ==> id != "news" && !StartsWith(f, "news")
    ensures Route(StylesheetRules + (if news then NewsmapRules else []), id + "-" + f + NumberSuffix(number) + ".xml").None?
  {
    NumberedPathSkips(id, f, number, NewsmapName);
    if news {
      NewsSkipsSitemapFile(f, id, number);
    }
    FrontSkips(news, id + "-" + f + NumberSuffix(number) + ".xml");
  }

  /** The rules route a sitemap file's path to its ID and number. */
  lemma SitemapFileRoute(news: bool, f: string, id: string, number: int)
    requires IsId(id)
    requires news ==> id != "news" && !StartsWith(f, "news")
    ensures Route(RewriteRules(news, true, f), id + "-" + f + NumberSuffix(number) + ".xml")
         == Some(Query("sitemap", id, PagedOf(number)))
  {
    var path := id + "-" + f + NumberSuffix(number) + ".xml";
    assert news ==> f != NewsmapName by { assert NewsmapName[..4] == "news"; }
    RulesLayout(news, true, f);
    FrontSkipsSitemapFile(news, f, id, number);
    RouteAppend(StylesheetRules + (if news then NewsmapRules else []), SitemapRules(f), path);
    SitemapRulesRoute(f, id, number);
  }

  /** The rules route a newsmap file's path to its ID and number. */
  lemma NewsmapFileRoute(sitemap: bool, f: string, id: string, number: int)
    requires IsId(id)
    requires sitemap ==> f != NewsmapName
    ensures Route(RewriteRules(true, sitemap, f), id + "-" + NewsmapName + NumberSuffix(number) + ".xml")
         == Some(Query("newsmap", id, PagedOf(number)))
  {
    var path := id + "-" + NewsmapName + NumberSuffix(number) + ".xml";
    var rest := if sitemap then SitemapRules(f) else [];
    if sitemap {
      RulesLayout(true, true, f);
    } else {
      assert RewriteRules(true, false, f) == RewriteRules(true, false, "sitemap");
      RulesLayout(true, false, "sitemap");
    }
    assert RewriteRules(true, sitemap, f) == StylesheetRules + NewsmapRules + rest;
    NumberedPathSkips(id, NewsmapName, number, NewsmapName);
    NumberedPathMatches(id, NewsmapName, number);
    FrontSkips(false, path);
    assert StylesheetRules + [] == StylesheetRules;
    RouteAppend(StylesheetRules, NewsmapRules, path);
    RouteIsFirstMatch(NewsmapRules, path, 1);
    RouteAppend(StylesheetRules + NewsmapRules, rest, path);
  }

  /** The rules route the sitemap index's path to the index. */
  lemma SitemapIndexRoute(news: bool, f: string)
    requires news ==> '-' !in f
    ensures Route(RewriteRules(news, true, f), f + ".xml") == Some(Query("sitemap", "index", ""))
  {
    var path := f + ".xml";
    assert path[|path| - 2] == 'm';
    assert news ==> f != NewsmapName by { assert NewsmapName[4] == '-'; }
    RulesLayout(news, true, f);
    if news {
      DashlessSkipsNewsmap(f);
    }
    var front := StylesheetRules + (if news then NewsmapRules else []);
    FrontSkips(news, path);
    RouteAppend(front, SitemapRules(f), path);
    RouteIsFirstMatch(SitemapRules(f), path, 0);
  }

  /** The rules route the newsmap index's path to the newsmap index. */
  lemma NewsmapIndexRoute(sitemap: bool, f: string)
    requires sitemap ==> f != NewsmapName
    ensures Route(RewriteRules(true, sitemap, f), NewsmapName + ".xml") == Some(Query("newsmap", "index", ""))
  {
    var path := NewsmapName + ".xml";
    var rest := if sitemap then SitemapRules(f) else [];
    assert path[|path| - 2] == 'm';
    if sitemap {
      RulesLayout(true, true, f);
    } else {
      assert RewriteRules(true, false, f) == RewriteRules(true, false, "sitemap");
      RulesLayout(true, false, "sitemap");
    }
    assert RewriteRules(true, sitemap, f) == StylesheetRules + NewsmapRules + rest;
    FrontSkips(false, path);
    assert StylesheetRules + [] == StylesheetRules;
    RouteAppend(StylesheetRules, NewsmapRules, path);
    RouteIsFirstMatch(NewsmapRules, path, 0);
    RouteAppend(StylesheetRules + NewsmapRules, rest, path);
  }

  /**
   * Round trip of the sitemap's files: with permalinks, the path of file
   * `number` of an ID in `[_a-z]+` is routed back to that ID and number,
   * unless the newsmap's rules, which come first, can take it.
   */
  lemma SitemapFileRoundTrip(o: Options, id: string, number: int)
    requires IsId(id) && IsSitemapActive(o, "sitemap")
    requires IsSitemapActive(o, "newsmap") ==> id != "news" && !StartsWith(GetSitemapFilename(o), "news")
    ensures Route(RulesOf(o), SitemapPath("sitemap", id, number, GetSitemapFilename(o)))
         == Some(Query("sitemap", id, PagedOf(number)))
  {
    IdHasNoDash(id);
    SitemapFileRoute(IsSitemapActive(o, "newsmap"), GetSitemapFilename(o), id, number);
  }

  /** Round trip of the newsmap's files, unless the sitemap's file name is the newsmap's. */
  lemma NewsmapFileRoundTrip(o: Options, id: string, number: int)
    requires IsId(id) && IsSitemapActive(o, "newsmap")
    requires IsSitemapActive(o, "sitemap") ==> GetSitemapFilename(o) != NewsmapName
    ensures Route(RulesOf(o), SitemapPath("newsmap", id, number, GetSitemapFilename(o)))
         == Some(Query("newsmap", id, PagedOf(number)))
  {
    IdHasNoDash(id);
    NewsmapFileRoute(IsSitemapActive(o, "sitemap"), GetSitemapFilename(o), id, number);
  }

  /** The sitemap index's path is routed to the index, given a file name the newsmap's rules cannot take. */
  lemma SitemapIndexRoundTrip(o: Options)
    requires IsSitemapActive(o, "sitemap")
    requires IsSitemapActive(o, "newsmap") ==> '-' !in GetSitemapFilename(o)
    ensures Route(RulesOf(o), SitemapPath("sitemap", "", 0, GetSitemapFilename(o))) == Some(Query("sitemap", "index", ""))
  {
    SitemapIndexRoute(IsSitemapActive(o, "newsmap"), GetSitemapFilename(o));
  }

  /** The newsmap index's path is routed to the newsmap index unless the sitemap took its file name. */
  lemma NewsmapIndexRoundTrip(o: Options)
    requires IsSitemapActive(o, "newsmap")
    requires IsSitemapActive(o, "sitemap") ==> GetSitemapFilename(o) != NewsmapName
    ensures Route(RulesOf(o), SitemapPath("newsmap", "", 0, GetSitemapFilename(o))) == Some(Query("newsmap", "index", ""))
  {
    NewsmapIndexRoute(IsSitemapActive(o, "sitemap"), GetSitemapFilename(o));
  }

  /**
   * The two places where the sitemap and the newsmap share a path: the
   * first file of a content type named "news" under the default file name
   * is the newsmap index's path, and a sitemap saved under the newsmap's
   * file name takes over the newsmap's rules.
   */
  lemma SharedPaths()
    ensures Route(RewriteRules(true, true, "sitemap"), SitemapPath("sitemap", "news", 0, "sitemap")) == Some(Query("newsmap", "index", ""))
    ensures Route(RewriteRules(true, true, NewsmapName), SitemapPath("newsmap", "", 0, NewsmapName)) == Some(Query("sitemap", "index", ""))
  {
    var path := NewsmapName + ".xml";
    assert path[|path| - 2] == 'm';
    assert SitemapPath("sitemap", "news", 0, "sitemap") == path;
    RulesLayout(true, true, "sitemap");
    FrontSkips(false, path);
    assert StylesheetRules + [] == StylesheetRules;
    RouteAppend(StylesheetRules, NewsmapRules + SitemapRules("sitemap"), path);
    RouteIsFirstMatch(NewsmapRules + SitemapRules("sitemap"), path, 0);
    assert StylesheetRules + NewsmapRules + SitemapRules("sitemap") == StylesheetRules + (NewsmapRules + SitemapRules("sitemap"));
    assert SitemapPath("newsmap", "", 0, NewsmapName) == path;
    RulesLayout(true, true, NewsmapName);
    RouteAppend(StylesheetRules, SitemapRules(NewsmapName), path);
    RouteIsFirstMatch(SitemapRules(NewsmapName), path, 0);
  }

  // ----- finding: content types whose name holds a dash or a digit -----

  /**
   * As written, the ID group `[_a-z]+` refuses the dashes and digits that
   * WordPress allows in post type and taxonomy names, so the index lists a
   * URL for such a content type that no plugin rule routes: shown here for
   * "book-review" and "type2", with the default file name, "sitemap", and
   * only the sitemap active.
   */
  lemma KeyIdsNotRouted()
    ensures Route(RewriteRules(false, true, "sitemap"), SitemapPath("sitemap", "book-review", 0, "sitemap")).None?
    ensures Route(RewriteRules(false, true, "sitemap"), SitemapPath("sitemap", "type2", 0, "sitemap")).None?
  {
    assert "book" + "-" + "review" == "book-review";
    DashedIdNotRouted("book", "review");
    assert !IsIdChar("type2"[4]);
    DigitIdNotRouted("type2");
  }

  /** Both IDs of the example are valid WordPress keys. */
  lemma ExampleIdsAreKeys()
    ensures IsKeyId("book-review") && IsKeyId("type2")
  {
  }

  /** The file of a dashless ID holding a character outside `[_a-z]` is routed by no rule. */
  lemma DigitIdNotRouted(id: string)
    requires PA.TruthyString(id) && '-' !in id && !IsId(id)
    ensures Route(RewriteRules(false, true, "sitemap"), SitemapPath("sitemap", id, 0, "sitemap")).None?
  {
    var path := id + "-" + "sitemap" + NumberSuffix(0) + ".xml";
    assert path[..|id|] == id && path[|id|] == '-';
    assert path[|path| - 2] == 'm';
    RulesLayout(false, true, "sitemap");
    UnroutedSitemapFile(path, |id|);
  }

  /** The file of an ID with a dash is routed by no rule when the text after its first dash does not start with 's'. */
  lemma DashedIdNotRouted(a: string, b: string)
    requires a != [] && '-' !in a && b != [] && b[0] != 's'
    ensures Route(RewriteRules(false, true, "sitemap"), SitemapPath("sitemap", a + "-" + b, 0, "sitemap")).None?
  {
    var id := a + "-" + b;
    assert PA.TruthyString(id) by {
      assert |id| > 1;
    }
    var path := id + "-" + "sitemap" + NumberSuffix(0) + ".xml";
    assert path[..|a|] == a && path[|a|] == '-' && path[|a| + 1] == b[0];
    assert path[|path| - 2] == 'm';
    RulesLayout(false, true, "sitemap");
    UnroutedSitemapFile(path, |a|);
  }

  /** A ".xml" path whose text before its first dash is no ID, or is not followed by the file name, is routed by no rule. */
  lemma UnroutedSitemapFile(path: string, k: nat)
    requires 0 < k && k + 5 < |path| && path[k] == '-' && '-' !in path[..k]
    requires !IsId(path[..k]) || path[k + 1] != 's'
    requires path[|path| - 2] == 'm' && |path| != |"sitemap.xml"|
    ensures Route(StylesheetRules + SitemapRules("sitemap"), path).None?
  {
    NumberedSkipsAt(path, k);
    assert MatchPattern(IndexFile("sitemap"), path).None? by {
      assert |path| != |"sitemap" + ".xml"|;
    }
    XmlSkipsStylesheets(path);
    SitemapRulesSkip("sitemap", path);
  }

  lemma NumberedSkipsAt(path: string, k: nat)
    requires k < |path| - 1 && path[k] == '-' && '-' !in path[..k]
    requires !IsId(path[..k]) || path[k + 1] != 's'
    ensures MatchPattern(NumberedFile("sitemap"), path).None?
  {
    IndexOfAt(path, '-', k);
    var rest := path[k + 1..];
    if IsId(path[..k]) {
      assert rest[0] != 's';
      assert !StartsWith(rest, "sitemap");
    }
  }

  /** No stylesheet pattern matches a path whose last but one character is that of ".xml". */
  lemma XmlSkipsStylesheets(path: string)
    requires |path| >= 2 && path[|path| - 2] == 'm'
    ensures MatchPattern(TemplateStylesheet, path).None? && MatchPattern(IndexTemplateStylesheet, path).None?
  {
  }

  lemma SitemapRulesSkip(f: string, path: string)
    requires MatchPattern(TemplateStylesheet, path).None? && MatchPattern(IndexTemplateStylesheet, path).None?
    requires MatchPattern(IndexFile(f), path).None? && MatchPattern(NumberedFile(f), path).None?
    ensures Route(StylesheetRules + SitemapRules(f), path).None?
  {
    var r := StylesheetRules + SitemapRules(f);
    assert r[1..][1..][1..][1..] == [];
    assert Route(r[1..][1..][1..], path).None?;
    assert Route(r[1..][1..], path).None?;
    assert Route(r[1..], path).None?;
  }

  /** A content type ID as WordPress names them: a non-empty key. */
  predicate IsKeyId(s: string) { s != [] && IsKey(s) }

  /**
   * The corrected numbered-file match: the file is read from its end,
   * ".xml", then the number, then "-{name}", and the ID is what is left, so
   * IDs may hold any key character.
   */
  function SuffixMatch(path: string, name: string): (c: Option<(string, string)>)
    ensures c.Some? ==> IsKeyId(c.value.0) && AllDigits(c.value.1)
  {
    if !EndsWith(path, ".xml") then None
    else
      var s := path[..|path| - 4];
      match NumberedStem(s, name)
      case Some(c) => Some(c)
      case None => PlainStem(s, name)
  }

  /** `{id}-{name}-{digits}`, split from the last dash. */
  function NumberedStem(s: string, name: string): (c: Option<(string, string)>)
    ensures c.Some? ==> IsKeyId(c.value.0) && c.value.1 != [] && AllDigits(c.value.1)
  {
    match LastIndexOf(s, '-')
    case None => None
    case Some(k) =>
      var digits := s[k + 1..];
      if digits != [] && AllDigits(digits) then
        match PlainStem(s[..k], name)
        case Some(c) => Some((c.0, digits))
        case None => None
      else None
  }

  /** `{id}-{name}`, without a number. */
  function PlainStem(s: string, name: string): (c: Option<(string, string)>)
    ensures c.Some? ==> IsKeyId(c.value.0) && c.value.1 == ""
  {
    var n := |name| + 1;
    if |s| >= n && s[|s| - n..] == "-" + name && IsKeyId(s[..|s| - n]) then Some((s[..|s| - n], ""))
    else None
  }

  function CorrectedMatchPattern(p: Pattern, path: string): Option<(string, string)>
  {
    match p
    case NumberedFile(name) => SuffixMatch(path, name)
    case _ => MatchPattern(p, path)
  }

  function CorrectedRoute(rules: Rules, path: string): Option<Query>
  {
    if rules == [] then None
    else match CorrectedMatchPattern(rules[0].0, path)
      case Some(c) => Some(QueryFor(rules[0].1, c))
      case None => CorrectedRoute(rules[1..], path)
  }

  lemma PlainStemOf(id: string, name: string)
    requires IsKeyId(id)
    ensures PlainStem(id + "-" + name, name) == Some((id, ""))
  {
    var s := id + "-" + name;
    assert s[|s| - |name| - 1..] == "-" + name && s[..|s| - |name| - 1] == id;
  }

  lemma NumberedStemOf(id: string, name: string, d: string)
    requires IsKeyId(id) && d != [] && AllDigits(d)
    ensures NumberedStem(id + "-" + name + "-" + d, name) == Some((id, d))
  {
    var stem := id + "-" + name;
    var s := stem + "-" + d;
    assert s == id + "-" + name + "-" + d;
    forall i | 0 <= i < |d| ensures d[i] != '-' { assert IsDigit(d[i]); }
    assert s[|stem| + 1..] == d && s[..|stem|] == stem;
    LastIndexOfAt(s, '-', |stem|);
    PlainStemOf(id, name);
  }

  lemma UnnumberedStemOf(id: string, name: string)
    requires IsKeyId(id) && name != [] && !IsDigit(name[|name| - 1])
    ensures NumberedStem(id + "-" + name, name).None?
  {
    var s := id + "-" + name;
    match LastIndexOf(s, '-')
    case None =>
    case Some(k) =>
      if k + 1 < |s| {
        assert s[k + 1..][|s| - k - 2] == name[|name| - 1];
      }
  }

  lemma SuffixMatchOfStem(s: string, name: string)
    ensures SuffixMatch(s + ".xml", name) == match NumberedStem(s, name) case Some(c) => Some(c) case None => PlainStem(s, name)
  {
    var path := s + ".xml";
    assert path[..|path| - 4] == s && path[|path| - 4..] == ".xml";
  }

  /** The corrected match gives back every key ID and number, for a file name that does not end in a digit. */
  lemma SuffixMatchRoundTrip(id: string, name: string, number: int)
    requires IsKeyId(id) && name != [] && !IsDigit(name[|name| - 1])
    ensures SuffixMatch(id + "-" + name + NumberSuffix(number) + ".xml", name) == Some((id, PagedOf(number)))
  {
    var s := id + "-" + name + NumberSuffix(number);
    SuffixMatchOfStem(s, name);
    if number > 1 {
      var d := NatToString(number);
      assert NumberSuffix(number) == "-" + d && PagedOf(number) == d;
      assert s == id + "-" + name + "-" + d;
      NumberedStemOf(id, name, d);
    } else {
      assert s == id + "-" + name;
      UnnumberedStemOf(id, name);
      PlainStemOf(id, name);
    }
  }

  /** With only the sitemap active, the corrected rules route each file of each key ID back to it. */
  lemma CorrectedSitemapRulesRoute(f: string, id: string, number: int)
    requires IsKey(f) && f != [] && !IsDigit(f[|f| - 1]) && IsKeyId(id)
    ensures CorrectedRoute(RewriteRules(false, true, f), id + "-" + f + NumberSuffix(number) + ".xml")
         == Some(Query("sitemap", id, PagedOf(number)))
  {
    var path := id + "-" + f + NumberSuffix(number) + ".xml";
    RulesLayout(false, true, f);
    assert path[|path| - 2] == 'm';
    XmlSkipsStylesheets(path);
    assert path != f + ".xml" by {
      assert |path| > |f + ".xml"|;
    }
    SuffixMatchRoundTrip(id, f, number);
    CorrectedSitemapRulesMatch(f, path, (id, PagedOf(number)));
  }

  lemma CorrectedSitemapRulesMatch(f: string, path: string, c: (string, string))
    requires MatchPattern(TemplateStylesheet, path).None? && MatchPattern(IndexTemplateStylesheet, path).None?
    requires MatchPattern(IndexFile(f), path).None? && SuffixMatch(path, f) == Some(c)
    ensures CorrectedRoute(StylesheetRules + SitemapRules(f), path) == Some(Query("sitemap", c.0, c.1))
  {
    var q := Some(Query("sitemap", c.0, c.1));
    var r := StylesheetRules + SitemapRules(f);
    assert r[1..][1..][1..] == [(NumberedFile(f), ToFile("sitemap"))];
    assert CorrectedRoute(r[1..][1..][1..], path) == q;
    assert CorrectedRoute(r[1..][1..], path) == q;
    assert CorrectedRoute(r[1..], path) == q;
  }

  /** The corrected rules route every file of every key ID back to it. */
  lemma CorrectedSitemapFileRoundTrip(o: Options, id: string, number: int)
    requires IsKeyId(id) && PA.TruthyString(id) && IsSitemapActive(o, "sitemap") && !IsSitemapActive(o, "newsmap")
    requires !IsDigit(GetSitemapFilename(o)[|GetSitemapFilename(o)| - 1])
    ensures CorrectedRoute(RulesOf(o), SitemapPath("sitemap", id, number, GetSitemapFilename(o)))
         == Some(Query("sitemap", id, PagedOf(number)))
  {
    var f := GetSitemapFilename(o);
    assert SitemapPath("sitemap", id, number, f) == id + "-" + f + NumberSuffix(number) + ".xml";
    CorrectedSitemapRulesRoute(f, id, number);
  }

  // ----- local websites -----

  /** A host pattern, matched without regard to case. */
  datatype HostPattern = HostSuffix(suffix: string) | HostPrefix(prefix: string)

  /** The known local patterns, in the order they are tried. */
  const KnownLocalPatterns: seq<HostPattern> := [
    HostSuffix(".local"), HostSuffix(".localhost"), HostSuffix(".test"), HostSuffix(".staging"),
    HostSuffix(".stage"), HostPrefix("dev."), HostPrefix("stage."), HostPrefix("staging.")]

  /** `preg_match` of one pattern with the `i` flag. The patterns are lower case. */
  predicate HostMatches(p: HostPattern, host: string)
  {
    match p
    case HostSuffix(s) => EndsWith(ToLower(host), s)
    case HostPrefix(s) => StartsWith(ToLower(host), s)
  }

  /** The scan over the patterns, stopping at the first that matches. */
  function AnyHostMatch(patterns: seq<HostPattern>, host: string): (found: bool)
    ensures found <==> exists i :: 0 <= i < |patterns| && HostMatches(patterns[i], host)
  {
    if patterns == [] then false
    else if HostMatches(patterns[0], host) then true
    else
      var r := AnyHostMatch(patterns[1..], host);
      assert forall i :: 1 <= i < |patterns| ==> patterns[i] == patterns[1..][i - 1];
      r
  }

  /**
   * `isWebsiteLocal`: never under WP_DEBUG; always for a site URL without
   * a dot; otherwise when the host, as `parse_url` reads it, matches a
   * known local pattern.
   */
  function IsWebsiteLocal(wpDebug: bool, siteUrl: string, parseHost: string -> string): (local: bool)
    ensures wpDebug ==> !local
    ensures !wpDebug && '.' !in siteUrl ==> local
    ensures !wpDebug && '.' in siteUrl ==>
      (local <==> exists i :: 0 <= i < |KnownLocalPatterns| && HostMatches(KnownLocalPatterns[i], parseHost(siteUrl)))
  {
    if wpDebug then false
    else if '.' !in siteUrl then true
    else AnyHostMatch(KnownLocalPatterns, parseHost(siteUrl))
  }

  /** The scan over the known patterns is the disjunction of the eight tests. */
  lemma KnownScan(host: string)
    ensures AnyHostMatch(KnownLocalPatterns, host) <==>
      || HostMatches(KnownLocalPatterns[0], host) || HostMatches(KnownLocalPatterns[1], host)
      || HostMatches(KnownLocalPatterns[2], host) || HostMatches(KnownLocalPatterns[3], host)
      || HostMatches(KnownLocalPatterns[4], host) || HostMatches(KnownLocalPatterns[5], host)
      || HostMatches(KnownLocalPatterns[6], host) || HostMatches(KnownLocalPatterns[7], host)
  {
  }

  /** What the patterns accept, written out: the eight host ends, in any letter case, and nothing else. */
  lemma LocalHosts(wpDebug: bool, siteUrl: string, parseHost: string -> string)
    requires !wpDebug && '.' in siteUrl
    ensures var h := ToLower(parseHost(siteUrl));
      IsWebsiteLocal(wpDebug, siteUrl, parseHost) <==>
        || EndsWith(h, ".local") || EndsWith(h, ".localhost") || EndsWith(h, ".test") || EndsWith(h, ".staging")
        || EndsWith(h, ".stage") || StartsWith(h, "dev.") || StartsWith(h, "stage.") || StartsWith(h, "staging.")
  {
    var host := parseHost(siteUrl);
    KnownScan(host);
    assert KnownLocalPatterns[0] == HostSuffix(".local") && KnownLocalPatterns[1] == HostSuffix(".localhost");
    assert KnownLocalPatterns[2] == HostSuffix(".test") && KnownLocalPatterns[3] == HostSuffix(".staging");
    assert KnownLocalPatterns[4] == HostSuffix(".stage") && KnownLocalPatterns[5] == HostPrefix("dev.");
    assert KnownLocalPatterns[6] == HostPrefix("stage.") && KnownLocalPatterns[7] == HostPrefix("staging.");
  }

  // ----- cached data -----

  /**
   * `flushCachedData`: deletes the slug's index and marks its metrics
   * stale; the Advanced page's index is its own, but the metrics it marks
   * are the sitemap's.
   */
  method FlushCachedData(store: OptionStore.Store, slug: string)
    modifies store`indexes, store`metrics
    ensures store.indexes == old(store.indexes) - {slug + "_index"}
    ensures var target := if slug == "advanced" then "sitemap" else slug;
      store.metrics == old(store.metrics)[target := old(store.MetricsOf(target)).(areFresh := false)]
  {
    var indexKey := slug + "_index";
    var target := if slug == "advanced" then "sitemap" else slug;
    store.indexes := store.indexes - {indexKey};
    store.metrics := store.metrics[target := store.MetricsOf(target).(areFresh := false)];
  }
}
